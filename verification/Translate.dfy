/** The translator from RV32I to QIR for one range of guest code. */
module Translate {
  import opened Words
  import opened Qir
  import opened Machine
  import opened SelForm
  import opened Guest
  import opened Relaxed
  import opened TransSteps
  import opened TransInsns
  import opened TransEnds

  const TB_MAX_INSNS: nat := 64

  datatype Control = NEXT | BRANCH | TB_OVF

  // ----- well-formed code under construction -----

  predicate StraightAt(code: seq<Inst>, j: nat, locals: seq<VType>) {
    WellFormedAt(code, j, locals) && !Terminator(code[j].op)
  }

  predicate Straight(code: seq<Inst>, locals: seq<VType>) {
    forall j :: 0 <= j < |code| ==> StraightAt(code, j, locals)
  }

  lemma {:induction false} TempsPrefix(code: seq<Inst>, more: seq<Inst>, n: nat)
    requires n <= |code|
    ensures TempsIn(code + more, n) == TempsIn(code, n)
  {
    if n > 0 {
      TempsPrefix(code, more, n - 1);
    }
  }

  lemma {:induction false} StraightAppend(code: seq<Inst>, locals: seq<VType>, ins: Inst)
    requires Straight(code, locals) && WellFormed(ins, locals, Defs(code, |code|))
    ensures if Terminator(ins.op) then CodeWellFormed(code + [ins], locals) else Straight(code + [ins], locals)
  {
    hide WellFormed;
    var code' := code + [ins];
    forall j | 0 <= j < |code'|
      ensures WellFormedAt(code', j, locals) && (Terminator(code'[j].op) <==> j == |code| && Terminator(ins.op))
    {
      DefsPrefix(code, [ins], j);
      if j < |code| {
        assert StraightAt(code, j, locals);
      }
    }
    if !Terminator(ins.op) {
      forall j | 0 <= j < |code'| ensures StraightAt(code', j, locals) {
        assert WellFormedAt(code', j, locals);
      }
    }
  }

  /** What one more instruction, folded, does to the invariants. */
  lemma {:induction false} Emitted(code: seq<Inst>, locals: seq<VType>, ins: Inst)
    requires ArityOk(ins)
    ensures var code' := code + [Fold(ins)];
      && Defs(code', |code'|) == DefsAfter(Defs(code, |code|), ins)
      && TempsIn(code', |code'|) <= TempsIn(code, |code|) + (if IsAdd(ins) then 1 else TempsFor(ins))
      && (Straight(code, locals) && WellFormed(ins, locals, Defs(code, |code|)) ==>
            if Terminator(ins.op) then CodeWellFormed(code', locals) else Straight(code', locals))
  {
    FoldShape(ins);
    hide Fold, TempsFor, Straight, CodeWellFormed, WellFormed;
    DefsPrefix(code, [Fold(ins)], |code|);
    TempsPrefix(code, [Fold(ins)], |code|);
    if Straight(code, locals) && WellFormed(ins, locals, Defs(code, |code|)) {
      FoldWellFormed(ins, locals, Defs(code, |code|));
      StraightAppend(code, locals, Fold(ins));
    }
  }

  lemma FoldShape(ins: Inst)
    requires ArityOk(ins)
    ensures Fold(ins).outs == ins.outs && TempsFor(Fold(ins)) <= if IsAdd(ins) then 1 else TempsFor(ins)
  {
  }

  lemma {:induction false} StraightLocals(code: seq<Inst>, locals: seq<VType>, ty: VType)
    ensures Straight(code, locals) ==> Straight(code, locals + [ty])
  {
    if Straight(code, locals) {
      StraightMoreLocals(code, locals, ty);
    }
  }

  lemma {:induction false} StraightMoreLocals(code: seq<Inst>, locals: seq<VType>, ty: VType)
    requires Straight(code, locals)
    ensures Straight(code, locals + [ty])
  {
    forall j | 0 <= j < |code| ensures StraightAt(code, j, locals + [ty]) {
      assert StraightAt(code, j, locals);
      WellFormedLocals(code[j], locals, locals + [ty], Defs(code, j));
    }
  }

  lemma WellFormedLocals(ins: Inst, locals: seq<VType>, locals': seq<VType>, defs: set<nat>)
    requires WellFormed(ins, locals, defs) && locals <= locals'
    ensures WellFormed(ins, locals', defs)
  {
    forall i | 0 <= i < |ins.ins| ensures InputOk(ins.ins[i], locals', defs) {
      InputOkMono(ins.ins[i], locals, locals', defs, defs);
    }
    forall i | 0 <= i < |ins.outs| ensures OutputOk(ins.op, ins.outs[i], locals') {
      assert OutputOk(ins.op, ins.outs[i], locals);
    }
  }

  // ----- side blocks -----

  /** Blocks made for branch targets outside the region: a single exit each. */
  predicate SideOk(side: seq<Block>) {
    forall b :: 0 <= b < |side| ==> IsExit(side[b])
  }

  predicate IsExit(b: Block) {
    |b.code| == 1 && b.code[0].op.GBr? && b.code[0].outs == [] && b.code[0].ins == [] && b.succs == []
  }

  /** The guest address a block stands for; block 0 is the entry. */
  function BlockIp(entry: W, side: seq<Block>, b: nat): W {
    if 0 < b <= |side| && |side[b - 1].code| == 1 && side[b - 1].code[0].op.GBr? then side[b - 1].code[0].op.tpc
      else entry
  }

  function SuccIps(entry: W, side: seq<Block>, succs: seq<nat>): seq<W> {
    seq(|succs|, k requires 0 <= k < |succs| => BlockIp(entry, side, succs[k]))
  }

  class RV32Translator {
    const cm: Code
    const entry: W
    var insnIp: W
    var control: Control
    var code: seq<Inst>
    var succs: seq<nat>
    var side: seq<Block>
    var locals: seq<VType>

    constructor (cm_: Code, entry_: W)
      ensures cm == cm_ && entry == entry_ && insnIp == entry_ && control == NEXT
      ensures code == [] && succs == [] && side == [] && locals == []
    {
      cm, entry, insnIp, control := cm_, entry_, entry_, NEXT;
      code, succs, side, locals := [], [], [], [];
    }

    /** `Builder::Create`: insert, then fold. */
    method Create(ins: Inst)
      modifies this`code
      ensures code == old(code) + [Fold(ins)]
    {
      code := code + [Fold(ins)];
    }

    method VTemp() returns (t: nat)
      modifies this`locals
      ensures t == N_GLOBALS + old(|locals|) && locals == old(locals) + [I32]
    {
      t := N_GLOBALS + |locals|;
      locals := locals + [I32];
    }

    ghost predicate Ready()
      reads this
    {
      succs == [] && side == []
    }

    ghost predicate Sound()
      reads this
    {
      Straight(code, locals)
    }

    /** Room taken by temporaries, declared or possibly needed by selection. */
    ghost function Cost(): nat
      reads this
    {
      |locals| + TempsIn(code, |code|)
    }

    method MakeGBr(ip: W)
      requires Ready()
      modifies this`code, this`succs
      ensures exists ins :: code == old(code) + [ins] && GoesTo(ins, ip, SuccIps(entry, side, succs))
      ensures old(Sound()) ==> CodeWellFormed(code, locals)
      ensures Cost() <= old(Cost())
      ensures |succs| <= 1 && forall k :: 0 <= k < |succs| ==> succs[k] == 0
      ensures SuccsFit(LastOp(code), succs)
      ensures code == old(code) + [if ip == entry then Inst(Br, [], []) else Inst(GBr(ip), [], [])]
      ensures succs == if ip == entry then [0] else []
    {
      hide Straight, CodeWellFormed;
      var ins;
      if ip == entry {
        ins := Inst(Br, [], []);
        Emitted(code, locals, ins);
        Create(ins);
        succs := [0];
        assert SuccIps(entry, side, succs) == [ip];
      } else {
        ins := Inst(GBr(ip), [], []);
        Emitted(code, locals, ins);
        Create(ins);
      }
      assert Fold(ins) == ins;
      assert code == old(code) + [ins];
      assert GoesTo(ins, ip, SuccIps(entry, side, succs));
    }

    /** A successor block for `ip`: the entry itself, or a fresh exit block. */
    method MakeTarget(ip: W) returns (b: nat)
      requires SideOk(side)
      modifies this`side
      ensures SideOk(side) && old(side) <= side && |side| <= old(|side|) + 1
      ensures b <= |side| && BlockIp(entry, side, b) == ip
      ensures if ip == entry then b == 0 && side == old(side)
        else b == |side| && side == old(side) + [Block([Inst(GBr(ip), [], [])], [])]
    {
      if ip == entry {
        return 0;
      }
      side := side + [Block([Inst(GBr(ip), [], [])], [])];
      b := |side|;
    }

    method TranslateBrcc(i: Insn)
      requires Ready() && i.op.Branch?
      modifies this`code, this`succs, this`side
      ensures code == old(code) + BranchCode(i) && SideOk(side)
      ensures old(Sound()) ==> CodeWellFormed(code, locals)
      ensures Cost() <= old(Cost()) + 2
      ensures SuccIps(entry, side, succs) == [Plus(insnIp, Wrap(i.imm)), Plus(insnIp, 4)]
      ensures |side| <= 2 && |succs| == 2 && forall k :: 0 <= k < 2 ==> succs[k] <= |side|
      ensures succs[0] == 0 <==> Plus(insnIp, Wrap(i.imm)) == entry
      ensures succs[1] == 0 <==> Plus(insnIp, 4) == entry
    {
      hide Plus, Wrap, Straight, CodeWellFormed, WellFormed, TempsFor, Fold;
      var bf := MakeTarget(Plus(insnIp, 4));
      var bt := MakeTarget(Plus(insnIp, Wrap(i.imm)));
      var ins := Inst(Brcc(i.op.cc), [], [GprOp(i.rs1, I32), GprOp(i.rs2, I32)]);
      BranchWellFormed(i, locals, Defs(code, |code|));
      Emitted(code, locals, ins);
      FoldOthers(ins);
      Create(ins);
      succs := [bt, bf];
      assert BranchCode(i) == [ins];
    }

    /** Save the address of the instruction, as before every access. */
    method PreSideeff()
      modifies this`code
      ensures code == old(code) + [IpMov(insnIp)] && Cost() <= old(Cost())
      ensures old(Sound()) ==> Sound()
    {
      hide Straight, WellFormed, TempsFor, Fold;
      IpMovWellFormed(insnIp, locals, Defs(code, |code|));
      Emitted(code, locals, IpMov(insnIp));
      FoldOthers(IpMov(insnIp));
      Create(IpMov(insnIp));
    }

    /** The sum of base and offset, in a fresh temporary. */
    method TranslateSum(i: Insn) returns (t: nat)
      modifies this`code, this`locals
      ensures t == N_GLOBALS + old(|locals|) && locals == old(locals) + [I32]
      ensures code == old(code) + [Fold(AddrAdd(i, t))] && Cost() <= old(Cost()) + 2
      ensures old(Sound()) ==> Sound()
      ensures t in Defs(code, |code|)
    {
      hide Wrap, Straight, WellFormed, TempsFor, Fold;
      StraightLocals(code, locals, I32);
      t := VTemp();
      var ins := AddrAdd(i, t);
      TempWellFormed(i, t, locals, Defs(code, |code|));
      Emitted(code, locals, ins);
      Create(ins);
    }

    /** The address of a load or store, after saving the ip. */
    method TranslateAddr(i: Insn) returns (addr: Operand, t: nat)
      modifies this`code, this`locals
      ensures t == N_GLOBALS + old(|locals|) && addr == AddrOp(i, t)
      ensures code == old(code) + AddrCode(i, insnIp, t)
      ensures old(Sound()) ==> Sound()
      ensures locals == old(locals) + if i.imm == 0 then [] else [I32]
      ensures Cost() <= old(Cost()) + (if i.imm == 0 then 0 else 2)
      ensures i.imm != 0 ==> t in Defs(code, |code|)
    {
      hide Straight, TempsIn, Fold, AddrAdd, Defs;
      t := N_GLOBALS + |locals|;
      PreSideeff();
      addr := GprOp(i.rs1, I32);
      if i.imm != 0 {
        t := TranslateSum(i);
        addr := VReg(I32, t);
      }
      assert code == old(code) + AddrCode(i, insnIp, t);
    }

    method TranslateLoad(i: Insn) returns (ghost t: nat)
      requires i.op.LoadI?
      modifies this`code, this`locals
      ensures t >= N_GLOBALS && code == old(code) + LoadCode(i, insnIp, t) && Cost() <= old(Cost()) + 2
      ensures locals == old(locals) + if i.imm == 0 then [] else [I32]
      ensures old(Sound()) && !Refused(i) ==> Sound()
    {
      hide Wrap, AddrCode, Straight, WellFormed, TempsFor, Fold;
      var addr, t' := TranslateAddr(i);
      t := t';
      var ins := Inst(VMLoad(i.op.sz, i.op.sgn), [if i.rd != 0 then VGpr(i.rd) else addr], [addr]);
      LoadWellFormed(i, t, locals, Defs(code, |code|));
      Emitted(code, locals, ins);
      FoldOthers(ins);
      Create(ins);
    }

    method TranslateStore(i: Insn) returns (ghost t: nat)
      requires i.op.StoreI?
      modifies this`code, this`locals
      ensures t >= N_GLOBALS && code == old(code) + StoreCode(i, insnIp, t) && Cost() <= old(Cost()) + 3
      ensures locals == old(locals) + if i.imm == 0 then [] else [I32]
      ensures old(Sound()) ==> Sound()
    {
      hide Wrap, AddrCode, Straight, WellFormed, TempsFor, Fold;
      var addr, t' := TranslateAddr(i);
      t := t';
      var ins := Inst(VMStore(i.op.sz), [], [addr, GprOp(i.rs2, i.op.sz)]);
      StoreWellFormed(i, t, locals, Defs(code, |code|));
      Emitted(code, locals, ins);
      FoldOthers(ins);
      Create(ins);
    }

    method TranslatePure(i: Insn) returns (ghost delta: seq<Inst>)
      requires IsPure(i.op)
      modifies this`code
      ensures code == old(code) + delta && Translated(i, insnIp, delta) && Cost() <= old(Cost()) + 2
      ensures old(Sound()) ==> Sound()
    {
      hide Translated, AlwaysMatches, WellFormed, Fold, Straight, Wrap, Plus, TempsFor;
      delta := [];
      if i.rd != 0 {
        var ins := Inst(PureOp(i), [VGpr(i.rd)], PureIns(i, insnIp));
        PureAlwaysMatches(i, insnIp, ins);
        MatchesTranslated(i, insnIp, [Fold(ins)]);
        PureWellFormed(i, insnIp, ins, locals, Defs(code, |code|));
        Emitted(code, locals, ins);
        Create(ins);
        delta := [Fold(ins)];
      } else {
        PureToX0(i, insnIp);
        MatchesTranslated(i, insnIp, []);
      }
    }

    method TranslateHelper(i: Insn)
      requires i.op.Helper?
      modifies this`code
      ensures code == old(code) + (if i.op.stub.Ecall? || i.op.stub.Ebreak? then TrapCode(i, insnIp)
        else [Inst(Hcall(i.op.stub), [], [VConst(i.raw)])])
      ensures Cost() <= old(Cost())
      ensures old(Sound()) ==> if i.op.stub.Ecall? || i.op.stub.Ebreak? then CodeWellFormed(code, locals) else Sound()
    {
      hide WellFormed, Fold, Straight, TempsFor, CodeWellFormed;
      ghost var code0 := code;
      if i.op.stub.Ecall? || i.op.stub.Ebreak? {
        PreSideeff();
      }
      var ins := Inst(Hcall(i.op.stub), [], [VConst(i.raw)]);
      HcallWellFormed(i, locals, Defs(code, |code|));
      Emitted(code, locals, ins);
      FoldOthers(ins);
      Create(ins);
    }

    method TranslateLink(i: Insn)
      modifies this`code
      ensures code == old(code) + LinkCode(i, insnIp) && Cost() <= old(Cost())
      ensures old(Sound()) ==> Sound()
      ensures Defs(code, |code|) == Defs(old(code), |old(code)|)
    {
      hide Plus, WellFormed, Fold, Straight, TempsFor;
      if i.rd != 0 {
        var ins := Inst(Mov, [VGpr(i.rd)], [VConst(Plus(insnIp, 4))]);
        LinkWellFormed(i, insnIp, locals, Defs(code, |code|));
        Emitted(code, locals, ins);
        FoldOthers(ins);
        Create(ins);
      }
    }

    /** The target of an indirect jump, in a fresh temporary. */
    method TranslateTarget(i: Insn) returns (tgt: nat)
      modifies this`code, this`locals
      ensures tgt == N_GLOBALS + old(|locals|) && locals == old(locals) + [I32]
      ensures code == old(code) + [Fold(AddrAdd(i, tgt))] + [MaskCode(tgt)] && Cost() <= old(Cost()) + 2
      ensures tgt in Defs(code, |code|)
      ensures old(Sound()) ==> Sound()
    {
      hide Wrap, Straight, WellFormed, TempsFor, Fold;
      tgt := TranslateSum(i);
      var mask := MaskCode(tgt);
      FoldOthers(mask);
      TargetWellFormed(tgt, locals, Defs(code, |code|));
      Emitted(code, locals, mask);
      Create(mask);
    }

    method TranslateJalr(i: Insn) returns (ghost t: nat)
      requires i.op.Jalr?
      modifies this`code, this`locals
      ensures t >= N_GLOBALS && code == old(code) + JalrCode(i, insnIp, t) && Cost() <= old(Cost()) + 2
      ensures code != [] && LastOp(code).GBrind?
      ensures old(Sound()) ==> CodeWellFormed(code, locals)
    {
      hide Wrap, LinkCode, Straight, CodeWellFormed, WellFormed, TempsFor, Fold;
      ghost var code0 := code;
      var tgt := TranslateTarget(i);
      t := tgt;
      TranslateLink(i);
      var last := Inst(GBrind, [], [VReg(I32, tgt)]);
      FoldOthers(last);
      TargetWellFormed(tgt, locals, Defs(code, |code|));
      Emitted(code, locals, last);
      Create(last);
      assert code == code0 + JalrCode(i, insnIp, tgt);
    }

    // ----- one instruction -----

    /** Instructions that fall through. */
    method TranslateBody(i: Insn) returns (ghost delta: seq<Inst>)
      requires Ready() && Falls(i.op)
      modifies this`code, this`locals
      ensures code == old(code) + delta && Cost() <= old(Cost()) + 3
      ensures Translated(i, insnIp, delta) && (old(Sound()) && !Refused(i) ==> Sound())
    {
      hide Plus, Wrap, Translated, AlwaysMatches, Straight, StoreCode, LoadCode, TempsFor;
      if i.op.LoadI? {
        ghost var t := TranslateLoad(i);
        delta := LoadCode(i, insnIp, t);
        LoadTranslated(i, insnIp, t);
      } else if i.op.StoreI? {
        ghost var t := TranslateStore(i);
        delta := StoreCode(i, insnIp, t);
        StoreAlwaysMatches(i, insnIp, t);
        MatchesTranslated(i, insnIp, delta);
      } else if i.op.Helper? {
        TranslateHelper(i);
        delta := [Inst(Hcall(i.op.stub), [], [VConst(i.raw)])];
        FenceAlwaysMatches(i, insnIp);
        MatchesTranslated(i, insnIp, delta);
      } else {
        delta := TranslatePure(i);
      }
    }

    /** Instructions that end the block. */
    method TranslateEnd(i: Insn) returns (ghost delta: seq<Inst>)
      requires Ready() && !Falls(i.op) && !i.op.Illegal?
      modifies this`code, this`locals, this`succs, this`side
      ensures code == old(code) + delta && Cost() <= old(Cost()) + 3
      ensures Ends(i, insnIp, delta, SuccIps(entry, side, succs))
      ensures SideOk(side) && |side| <= 2 && forall k :: 0 <= k < |succs| ==> succs[k] <= |side|
      ensures code != [] && SuccsFit(LastOp(code), succs)
      ensures old(Sound()) ==> CodeWellFormed(code, locals)
    {
      hide Plus, Wrap, Ends, Straight, CodeWellFormed, LinkCode, JalrCode, GoesTo, TempsFor;
      assert SuccIps(entry, side, []) == [];
      ghost var code0 := code;
      if i.op.Jal? {
        TranslateLink(i);
        ghost var code1 := code;
        MakeGBr(Plus(insnIp, Wrap(i.imm)));
        ghost var ins :| code == code1 + [ins] && GoesTo(ins, Plus(insnIp, Wrap(i.imm)), SuccIps(entry, side, succs));
        delta := LinkCode(i, insnIp) + [ins];
        assert code == code0 + delta;
        JalEnds(i, insnIp, ins, SuccIps(entry, side, succs));
      } else if i.op.Jalr? {
        ghost var t := TranslateJalr(i);
        delta := JalrCode(i, insnIp, t);
        JalrEnds(i, insnIp, t);
      } else if i.op.Branch? {
        TranslateBrcc(i);
        delta := BranchCode(i);
        BranchEnds(i, insnIp);
      } else {
        TranslateHelper(i);
        delta := TrapCode(i, insnIp);
        TrapEnds(i, insnIp);
      }
    }

    /** Translate the instruction at `insnIp`; fails exactly on an illegal word. */
    method TranslateInsn() returns (ok: bool, ghost delta: seq<Inst>)
      requires Ready() && control == NEXT
      modifies this
      ensures ok <==> !cm(old(insnIp)).op.Illegal?
      ensures ok ==> insnIp == Plus(old(insnIp), 4)
      ensures code == old(code) + delta && Cost() <= old(Cost()) + 3
      ensures control == if ok && !Falls(cm(old(insnIp)).op) then BRANCH else NEXT
      ensures ok && control == NEXT ==> Ready()
      ensures ok && control == NEXT ==>
        && Translated(cm(old(insnIp)), old(insnIp), delta)
        && (old(Sound()) && !Refused(cm(old(insnIp))) ==> Sound())
      ensures ok && control == BRANCH ==>
        && Ends(cm(old(insnIp)), old(insnIp), delta, SuccIps(entry, side, succs))
        && SideOk(side) && |side| <= 2 && (forall k :: 0 <= k < |succs| ==> succs[k] <= |side|)
        && code != [] && SuccsFit(LastOp(code), succs)
        && (old(Sound()) ==> CodeWellFormed(code, locals))
    {
      hide Plus, Ends, Translated, Straight, CodeWellFormed, TempsFor;
      var i := cm(insnIp);
      delta := [];
      ok := !i.op.Illegal?;
      if !ok {
        return;
      }
      if Falls(i.op) {
        delta := TranslateBody(i);
      } else {
        delta := TranslateEnd(i);
        control := BRANCH;
      }
      insnIp := Plus(insnIp, 4);
    }
  }

  lemma BranchWellFormed(i: Insn, locals: seq<VType>, defs: set<nat>)
    requires i.op.Branch?
    ensures WellFormed(BranchCode(i)[0], locals, defs) && TempsFor(BranchCode(i)[0]) <= 2
  {
  }

  lemma IpMovWellFormed(ip: W, locals: seq<VType>, defs: set<nat>)
    ensures WellFormed(IpMov(ip), locals, defs) && TempsFor(IpMov(ip)) == 0
  {
  }

  lemma LoadWellFormed(i: Insn, t: nat, locals: seq<VType>, defs: set<nat>)
    requires i.op.LoadI?
    requires i.imm != 0 ==>
      t in defs && t == N_GLOBALS + |locals| - 1 && |locals| > 0 && locals[|locals| - 1] == I32
    ensures var ins := Inst(VMLoad(i.op.sz, i.op.sgn), [LoadDst(i, t)], [AddrOp(i, t)]);
      TempsFor(ins) == 0 && (!Refused(i) ==> WellFormed(ins, locals, defs))
  {
  }

  lemma StoreWellFormed(i: Insn, t: nat, locals: seq<VType>, defs: set<nat>)
    requires i.op.StoreI?
    requires i.imm != 0 ==>
      t in defs && t == N_GLOBALS + |locals| - 1 && |locals| > 0 && locals[|locals| - 1] == I32
    ensures var ins := Inst(VMStore(i.op.sz), [], [AddrOp(i, t), GprOp(i.rs2, i.op.sz)]);
      TempsFor(ins) <= 1 && WellFormed(ins, locals, defs)
  {
  }

  lemma HcallWellFormed(i: Insn, locals: seq<VType>, defs: set<nat>)
    requires i.op.Helper?
    ensures var ins := Inst(Hcall(i.op.stub), [], [VConst(i.raw)]); TempsFor(ins) == 0 && WellFormed(ins, locals, defs)
  {
  }

  lemma LinkWellFormed(i: Insn, ip: W, locals: seq<VType>, defs: set<nat>)
    requires i.rd != 0
    ensures var ins := Inst(Mov, [VGpr(i.rd)], [VConst(Plus(ip, 4))]);
      TempsFor(ins) == 0 && WellFormed(ins, locals, defs)
  {
    hide Plus;
  }

  lemma FoldOthers(ins: Inst)
    requires !IsAdd(ins)
    ensures Fold(ins) == ins
  {
  }

  lemma TempWellFormed(i: Insn, t: nat, locals: seq<VType>, defs: set<nat>)
    requires t == N_GLOBALS + |locals| - 1 && |locals| > 0 && locals[|locals| - 1] == I32
    ensures WellFormed(AddrAdd(i, t), locals, defs)
  {
    hide Wrap;
  }

  lemma TargetWellFormed(t: nat, locals: seq<VType>, defs: set<nat>)
    requires t == N_GLOBALS + |locals| - 1 && |locals| > 0 && locals[|locals| - 1] == I32 && t in defs
    ensures WellFormed(MaskCode(t), locals, defs) && WellFormed(Inst(GBrind, [], [VReg(I32, t)]), locals, defs)
    ensures TempsFor(MaskCode(t)) == 0 && TempsFor(Inst(GBrind, [], [VReg(I32, t)])) == 0
  {
  }

  lemma PureWellFormed(i: Insn, ip: W, ins: Inst, locals: seq<VType>, defs: set<nat>)
    requires IsPure(i.op) && i.rd != 0 && ins == Inst(PureOp(i), [VGpr(i.rd)], PureIns(i, ip))
    ensures WellFormed(ins, locals, defs) && !Terminator(ins.op)
    ensures (if IsAdd(ins) then 1 else TempsFor(ins)) <= 2
  {
    hide Wrap, Plus;
  }
}
