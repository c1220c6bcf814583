/** Operands packed into a 64-bit word. */
module Operands {
  import opened Powers
  import opened BitField
  import opened BitSeq

  const KIND := Pt(0, 1)
  const TYPE := Pt(2, 3)
  const VIRT := Pt(4, 4)
  const REG := Pt(5, 20)
  const CONST := Pt(5, 36)
  const OFFS := Pt(5, 20)
  const GLOB := Pt(21, 21)

  const K_CONST: nat := 0
  const K_GPR: nat := 1
  const K_SLOT: nat := 2

  predicate FieldOk(f: Pt) {
    f.l <= f.h < 64
  }

  function Width(f: Pt): nat
    requires FieldOk(f)
  {
    Pow2(f.h - f.l + 1)
  }

  function Put(v: nat, f: Pt, x: nat): nat
    requires FieldOk(f)
  {
    Encode(v, 64, f.l, f.h, x)
  }

  function Get(v: nat, f: Pt): nat
    requires FieldOk(f)
  {
    Decode(v, 64, f.l, f.h)
  }

  function Header(kind: nat, ty: nat): nat {
    Put(Put(0, KIND, kind), TYPE, ty)
  }

  function MakeVGPR(ty: nat, reg: nat): nat {
    Put(Put(Header(K_GPR, ty), VIRT, 1), REG, reg)
  }

  function MakePGPR(ty: nat, reg: nat): nat {
    Put(Header(K_GPR, ty), REG, reg)
  }

  function MakeConst(ty: nat, val: nat): nat {
    Put(Header(K_CONST, ty), CONST, val)
  }

  function MakeSlot(glob: nat, ty: nat, offs: nat): nat {
    Put(Put(Header(K_SLOT, ty), OFFS, offs), GLOB, glob)
  }

  predicate Disjoint(f: Pt, g: Pt) {
    f.h < g.l || g.h < f.l
  }

  lemma PutGet(v: nat, f: Pt, x: nat)
    requires FieldOk(f) && x < Width(f)
    ensures Get(Put(v, f, x), f) == x
  {
    hide Pow2;
    EncodeDecode(v, 64, f.l, f.h, x);
    Divides(x, Width(f), 0, x);
  }

  lemma PutKeeps(v: nat, f: Pt, x: nat, g: Pt)
    requires FieldOk(f) && FieldOk(g) && Disjoint(f, g)
    ensures Get(Put(v, f, x), g) == Get(v, g)
  {
    hide Pow2;
    EncodeKeeps(v, 64, f.l, f.h, x, g.l, g.h);
  }

  lemma ZeroGet(f: Pt)
    requires FieldOk(f)
    ensures Get(0, f) == 0
  {
    hide Pow2;
    DecodeIsField(0, 64, f.l, f.h);
    Divides(0, Pow2(f.l), 0, 0);
    Divides(0, Pow2(f.h - f.l + 1), 0, 0);
  }

  /** Kind and type can be read back; everything above them is still clear. */
  lemma HeaderFields(kind: nat, ty: nat, g: Pt)
    requires kind < 4 && ty < 4 && FieldOk(g) && g.l >= 4
    ensures Get(Header(kind, ty), KIND) == kind && Get(Header(kind, ty), TYPE) == ty && Get(Header(kind, ty), g) == 0
  {
    hide Put, Get;
    var v := Put(0, KIND, kind);
    PutGet(0, KIND, kind);
    PutKeeps(v, TYPE, ty, KIND);
    PutGet(v, TYPE, ty);
    PutKeeps(v, TYPE, ty, g);
    PutKeeps(0, KIND, kind, g);
    ZeroGet(g);
  }

  lemma VGPRRoundTrip(ty: nat, reg: nat)
    requires ty < 4 && reg < 0x1_0000
    ensures var v := MakeVGPR(ty, reg);
      Get(v, KIND) == K_GPR && Get(v, TYPE) == ty && Get(v, VIRT) == 1 && Get(v, REG) == reg
  {
    hide Put, Get;
    var a := Header(K_GPR, ty);
    var b := Put(a, VIRT, 1);
    HeaderFields(K_GPR, ty, VIRT);
    PutGet(a, VIRT, 1);
    PutKeeps(a, VIRT, 1, KIND);
    PutKeeps(a, VIRT, 1, TYPE);
    RegWidth();
    PutGet(b, REG, reg);
    PutKeeps(b, REG, reg, KIND);
    PutKeeps(b, REG, reg, TYPE);
    PutKeeps(b, REG, reg, VIRT);
  }

  lemma PGPRRoundTrip(ty: nat, reg: nat)
    requires ty < 4 && reg < 0x1_0000
    ensures var v := MakePGPR(ty, reg);
      Get(v, KIND) == K_GPR && Get(v, TYPE) == ty && Get(v, VIRT) == 0 && Get(v, REG) == reg
  {
    hide Put, Get;
    var a := Header(K_GPR, ty);
    HeaderFields(K_GPR, ty, VIRT);
    RegWidth();
    PutGet(a, REG, reg);
    PutKeeps(a, REG, reg, KIND);
    PutKeeps(a, REG, reg, TYPE);
    PutKeeps(a, REG, reg, VIRT);
  }

  lemma ConstRoundTrip(ty: nat, val: nat)
    requires ty < 4 && val < 0x1_0000_0000
    ensures var v := MakeConst(ty, val);
      Get(v, KIND) == K_CONST && Get(v, TYPE) == ty && Get(v, CONST) == val
  {
    hide Put, Get;
    var a := Header(K_CONST, ty);
    HeaderFields(K_CONST, ty, CONST);
    RegWidth();
    PutGet(a, CONST, val);
    PutKeeps(a, CONST, val, KIND);
    PutKeeps(a, CONST, val, TYPE);
  }

  lemma SlotRoundTrip(glob: nat, ty: nat, offs: nat)
    requires glob < 2 && ty < 4 && offs < 0x1_0000
    ensures var v := MakeSlot(glob, ty, offs);
      Get(v, KIND) == K_SLOT && Get(v, TYPE) == ty && Get(v, OFFS) == offs && Get(v, GLOB) == glob
  {
    hide Put, Get;
    var a := Header(K_SLOT, ty);
    var b := Put(a, OFFS, offs);
    HeaderFields(K_SLOT, ty, OFFS);
    RegWidth();
    PutGet(a, OFFS, offs);
    PutKeeps(a, OFFS, offs, KIND);
    PutKeeps(a, OFFS, offs, TYPE);
    PutGet(b, GLOB, glob);
    PutKeeps(b, GLOB, glob, KIND);
    PutKeeps(b, GLOB, glob, TYPE);
    PutKeeps(b, GLOB, glob, OFFS);
  }

  lemma RegWidth()
    ensures Width(REG) == 0x1_0000 == Width(OFFS) && Width(CONST) == 0x1_0000_0000
  {
    assert Pow2(8) == 0x100;
    PowAdd(8, 8);
    PowAdd(16, 16);
    hide Pow2;
  }
}
