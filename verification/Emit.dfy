/** Code emission: allocated QIR becomes a linear sequence of two-address x86 operations. */
module Emit {
  import opened Words
  import opened Qir
  import opened Machine
  import opened SelForm

  /** The operations the emitter asks the assembler for. Jump targets are labels, one per block. */
  datatype XInst =
    | XMov(dst: Operand, src: Operand)
    | XAlu(bin: BinOp, dst: Operand, src: Operand)
    | XCmp(a: Operand, b: Operand)
    | XSetcc(cc: CondCode, dst: Operand)
    | XMovzx8(dst: Operand)
    | XLoad(sz: VType, sgn: VSign, dst: Operand, addr: Operand)
    | XStore(sz: VType, addr: Operand, src: Operand)
    | XCall(stub: Stub, arg: Operand)
    | XJcc(cc: CondCode, l: nat)
    | XJmp(l: nat)
    | XSlot(gip: W)
    | XBrind

  /** Machine state with the operands of the last compare, if flags still come from one. */
  datatype XState = XState(p: PState, flags: Option<(W, W)>)

  /** `XStuck` is a conditional that would read flags no compare has set, an access whose displacement
      would be sign-extended out of guest memory, or an operation whose operands have no encoding: a
      shift count in a register other than CX, or a constant outside the immediate field. */
  datatype XNext = XFall | XGoto(l: nat) | XLeave(ip: W, indirect: bool) | XHalt | XStuck

  datatype XRun = XRun(s: XState, ev: seq<Event>, next: XNext)

  function RegValue(s: PState, o: Operand): W {
    if o.PReg? && o.p < GPR_NUM then s.regs[o.p] else 0
  }

  function SetReg(s: PState, o: Operand, w: W): PState {
    if o.PReg? && o.p < GPR_NUM then s.(regs := s.regs[o.p := w]) else s
  }

  function XStep(x: XInst, s: XState): XRun {
    var p := s.p;
    match x
    case XMov(dst, src) => XRun(XState(PWrite(p, dst, PRead(p, src)), s.flags), [], XFall)
    case XAlu(bin, dst, src) =>
      if !ShiftCountOk(bin, src) || !ImmediateOk(bin, src) then XRun(s, [], XStuck)
      else XRun(XState(SetReg(p, dst, Alu(bin, RegValue(p, dst), PRead(p, src))), None), [], XFall)
    case XCmp(a, b) => XRun(XState(p, Some((PRead(p, a), PRead(p, b)))), [], XFall)
    case XSetcc(cc, dst) =>
      if s.flags.None? then XRun(s, [], XStuck)
      else XRun(XState(SetReg(p, dst, Merge(I8, RegValue(p, dst), Bit(Holds(cc, s.flags.value.0, s.flags.value.1)))),
        s.flags), [], XFall)
    case XMovzx8(dst) => XRun(XState(SetReg(p, dst, Trunc(I8, RegValue(p, dst))), s.flags), [], XFall)
    case XLoad(sz, sgn, dst, addr) =>
      var a := PRead(p, addr);
      if !DisplacementOk(addr) then XRun(s, [], XStuck)
      else XRun(XState(SetReg(p, dst, Load(Reachable(p), sz, sgn, a)), s.flags), [Event(VMLoad(sz, sgn), [a], p.cpu)],
        XFall)
    case XStore(sz, addr, src) =>
      var a, w := PRead(p, addr), PRead(p, src);
      if !DisplacementOk(addr) then XRun(s, [], XStuck)
      else XRun(XState(p.(mem := StoredMem(VMStore(sz), [a, w], p)), s.flags),
        [Event(VMStore(sz), [a, w], p.cpu)], XFall)
    case XCall(stub, arg) =>
      var r := PStep(Inst(Hcall(stub), [], [arg]), p);
      XRun(XState(r.s, None), r.ev, if r.next.Halt? then XHalt else XFall)
    case XJcc(cc, l) =>
      if s.flags.None? then XRun(s, [], XStuck)
      else XRun(s, [], if Holds(cc, s.flags.value.0, s.flags.value.1) then XGoto(l) else XFall)
    case XJmp(l) => XRun(s, [], XGoto(l))
    case XSlot(gip) => XRun(s, [], XLeave(gip, false))
    case XBrind => XRun(s, [], XLeave(p.regs[6], true))
  }

  /** An operation that writes none of STATE, MEMBASE and SP. */
  predicate Spares(x: XInst) {
    match x
    case XMov(dst, _) => !IsBase(dst)
    case XAlu(_, dst, _) => !IsBase(dst)
    case XSetcc(_, dst) => !IsBase(dst)
    case XMovzx8(dst) => !IsBase(dst)
    case XLoad(_, _, dst, _) => !IsBase(dst)
    case _ => true
  }

  lemma XStepKeepsBases(x: XInst, s: XState)
    requires Spares(x)
    ensures SameBases(s.p, XStep(x, s).s.p)
  {
    hide Alu, Load, Holds, Merge, Trunc, Bit, PRead, PWrite, PStep, StoredMem, Reachable, RegValue, ShiftCountOk,
      ImmediateOk, DisplacementOk;
    match x {
      case XMov(dst, src) => WriteKeepsBases(s.p, dst, PRead(s.p, src));
      case XCall(stub, arg) => StepKeepsBases(Inst(Hcall(stub), [], [arg]), s.p);
      case _ =>
    }
  }

  /** Straight execution up to the first transfer. */
  function XSeq(xs: seq<XInst>, s: XState): XRun {
    if xs == [] then XRun(s, [], XFall)
    else
      var r := XStep(xs[0], s);
      if r.next.XFall? then
        var t := XSeq(xs[1..], r.s);
        XRun(t.s, r.ev + t.ev, t.next)
      else r
  }

  lemma {:induction false} XSeqAppend(a: seq<XInst>, b: seq<XInst>, s: XState)
    ensures var r := XSeq(a, s);
      XSeq(a + b, s) == if r.next.XFall? then var t := XSeq(b, r.s); XRun(t.s, r.ev + t.ev, t.next) else r
  {
    hide XStep;
    if a == [] {
      assert a + b == b;
      assert [] + XSeq(b, s).ev == XSeq(b, s).ev;
    } else {
      assert (a + b)[0] == a[0] && (a + b)[1..] == a[1..] + b;
      var r := XStep(a[0], s);
      if r.next.XFall? {
        XSeqAppend(a[1..], b, r.s);
        var t := XSeq(a[1..], r.s);
        var u := XSeq(b, t.s);
        assert r.ev + (t.ev + u.ev) == (r.ev + t.ev) + u.ev;
      }
    }
  }

  lemma {:induction false} XSeqOne(x: XInst, s: XState)
    ensures XSeq([x], s) == XStep(x, s)
  {
    hide XStep;
    var r := XStep(x, s);
    assert XSeq([x][1..], r.s) == XRun(r.s, [], XFall);
    assert r.ev + [] == r.ev;
  }

  lemma {:induction false} XSeqCons(x: XInst, rest: seq<XInst>, s: XState)
    requires XStep(x, s).next == XFall && XStep(x, s).ev == []
    ensures XSeq([x] + rest, s) == XSeq(rest, XStep(x, s).s)
  {
    hide XStep;
    assert ([x] + rest)[0] == x && ([x] + rest)[1..] == rest;
    var t := XSeq(rest, XStep(x, s).s);
    assert [] + t.ev == t.ev;
  }

  // ----- what emitted code owes -----

  /** `x` ends where `next` says, given that the code of block `b + 1` follows that of `b`. */
  predicate Lands(x: XNext, next: Next, b: nat, succs: seq<nat>) {
    match next
    case Fall => x == XFall
    case Jump(k) => k < |succs| && (x == XGoto(succs[k]) || (x == XFall && succs[k] == b + 1))
    case Leave(ip, indirect) => x == XLeave(ip, indirect)
    case Halt => x == XHalt
  }

  ghost predicate RunMatches(x: XRun, r: PRun, b: nat, succs: seq<nat>) {
    x.s.p == r.s && x.ev == r.ev && Lands(x.next, r.next, b, succs)
  }

  ghost predicate InstEmitted(ins: Inst, xs: seq<XInst>, b: nat, succs: seq<nat>) {
    forall s {:trigger XSeq(xs, s)} :: RunMatches(XSeq(xs, s), PStep(ins, s.p), b, succs)
  }

  ghost predicate CodeEmitted(code: seq<Inst>, xs: seq<XInst>, b: nat, succs: seq<nat>) {
    forall s {:trigger XSeq(xs, s)} :: RunMatches(XSeq(xs, s), PExec(code, s.p), b, succs)
  }

  lemma {:induction false} CodeEmittedExtend(code: seq<Inst>, xs: seq<XInst>, ins: Inst, ys: seq<XInst>, b: nat,
      succs: seq<nat>)
    requires CodeEmitted(code, xs, b, succs) && InstEmitted(ins, ys, b, succs)
    requires forall i :: 0 <= i < |code| ==> !Terminator(code[i].op)
    ensures CodeEmitted(code + [ins], xs + ys, b, succs)
  {
    hide XStep, PStep, XSeq, PExec;
    forall s ensures RunMatches(XSeq(xs + ys, s), PExec(code + [ins], s.p), b, succs) {
      XSeqAppend(xs, ys, s);
      PExecAppend(code, [ins], s.p);
      var x, r := XSeq(xs, s), PExec(code, s.p);
      assert RunMatches(x, r, b, succs);
      PlainFalls(code, s.p);
      PExecOne(ins, r.s);
      assert RunMatches(XSeq(ys, x.s), PStep(ins, x.s.p), b, succs);
    }
  }

  lemma {:induction false} PlainFalls(code: seq<Inst>, s: PState)
    requires forall i :: 0 <= i < |code| ==> !Terminator(code[i].op)
    ensures PExec(code, s).next == Fall
  {
    if code != [] {
      PlainFalls(code[1..], PStep(code[0], s).s);
    }
  }

  // ----- the instructions -----

  lemma {:induction false} MovEmitted(ins: Inst, b: nat, succs: seq<nat>)
    requires ins.op == Mov && |ins.outs| == 1 && |ins.ins| == 1
    ensures InstEmitted(ins, [XMov(ins.outs[0], ins.ins[0])], b, succs)
  {
    hide Alu, Plus, Load, Store, Holds, XSeq, PRead, PWrite;
    forall s ensures RunMatches(XSeq([XMov(ins.outs[0], ins.ins[0])], s), PStep(ins, s.p), b, succs) {
      XSeqOne(XMov(ins.outs[0], ins.ins[0]), s);
      assert PReads(s.p, ins.ins) == [PRead(s.p, ins.ins[0])];
    }
  }

  lemma {:induction false} BinEmitted(ins: Inst, b: nat, succs: seq<nat>)
    requires ins.op.Bin? && Emittable(ins)
    ensures InstEmitted(ins, [XAlu(ins.op.bin, ins.outs[0], ins.ins[1])], b, succs)
  {
    hide Alu, Plus, Load, Store, Holds, XSeq;
    var x := XAlu(ins.op.bin, ins.outs[0], ins.ins[1]);
    forall s ensures RunMatches(XSeq([x], s), PStep(ins, s.p), b, succs) {
      XSeqOne(x, s);
      assert PReads(s.p, ins.ins) == [PRead(s.p, ins.ins[0]), PRead(s.p, ins.ins[1])];
    }
  }

  lemma {:induction false} LoadEmitted(ins: Inst, b: nat, succs: seq<nat>)
    requires ins.op.VMLoad? && Emittable(ins)
    ensures InstEmitted(ins, [XLoad(ins.op.sz, ins.op.sgn, ins.outs[0], ins.ins[0])], b, succs)
  {
    hide Alu, Plus, Load, Store, Holds, XSeq;
    var x := XLoad(ins.op.sz, ins.op.sgn, ins.outs[0], ins.ins[0]);
    forall s ensures RunMatches(XSeq([x], s), PStep(ins, s.p), b, succs) {
      XSeqOne(x, s);
      assert PReads(s.p, ins.ins) == [PRead(s.p, ins.ins[0])];
    }
  }

  lemma {:induction false} StoreEmitted(ins: Inst, b: nat, succs: seq<nat>)
    requires ins.op.VMStore? && Emittable(ins)
    ensures InstEmitted(ins, [XStore(ins.op.sz, ins.ins[0], ins.ins[1])], b, succs)
  {
    hide Alu, Plus, Load, Store, Holds, XSeq, PRead;
    var x := XStore(ins.op.sz, ins.ins[0], ins.ins[1]);
    forall s ensures RunMatches(XSeq([x], s), PStep(ins, s.p), b, succs) {
      XSeqOne(x, s);
      assert PReads(s.p, ins.ins) == [PRead(s.p, ins.ins[0]), PRead(s.p, ins.ins[1])];
    }
  }

  lemma {:induction false} CallEmitted(ins: Inst, b: nat, succs: seq<nat>)
    requires ins.op.Hcall? && Emittable(ins)
    ensures InstEmitted(ins, [XCall(ins.op.stub, ins.ins[0])], b, succs)
  {
    hide XSeq;
    var x := XCall(ins.op.stub, ins.ins[0]);
    assert ins == Inst(Hcall(ins.op.stub), [], [ins.ins[0]]);
    forall s ensures RunMatches(XSeq([x], s), PStep(ins, s.p), b, succs) {
      hide PReads, CpuAfter, Clobbered;
      XSeqOne(x, s);
    }
  }

  // ----- setcc -----

  lemma XorSelf(w: W)
    ensures Alu(Xor, w, w) == 0
  {
  }

  lemma BitBytes(old_: W, c: bool)
    ensures Merge(I8, 0, Bit(c)) == Bit(c) && Trunc(I8, Merge(I8, old_, Bit(c))) == Bit(c)
  {
  }

  predicate SetccAliased(ins: Inst)
    requires ins.op.Setcc? && Emittable(ins)
  {
    ins.ins[0].p == ins.outs[0].p || (ins.ins[1].PReg? && ins.ins[1].p == ins.outs[0].p)
  }

  lemma SetccStep(ins: Inst, s: PState)
    requires ins.op.Setcc? && Emittable(ins)
    ensures PStep(ins, s) ==
      PRun(s.(regs := s.regs[ins.outs[0].p := Bit(Holds(ins.op.cc, PRead(s, ins.ins[0]), PRead(s, ins.ins[1])))]), [],
        Fall)
  {
    hide Alu, Plus, Load, Store, Holds, PRead, Bit;
    assert PReads(s, ins.ins) == [PRead(s, ins.ins[0]), PRead(s, ins.ins[1])];
  }

  lemma ReadOther(s: PState, d: nat, w: W, o: Operand)
    requires d < GPR_NUM && ((PhysReg(o) && o.p != d) || o.Const?)
    ensures PRead(s.(regs := s.regs[d := w]), o) == PRead(s, o)
  {
    hide Trunc;
  }

  lemma ReadSelf(s: PState, o: Operand)
    requires PhysReg(o) && o.ty == I32
    ensures PRead(s, o) == s.regs[o.p]
  {
  }

  lemma SetTwice(s: PState, d: nat, v: W, w: W)
    requires d < GPR_NUM
    ensures s.regs[d := v][d := w] == s.regs[d := w]
  {
  }

  /** Destination distinct from both inputs: clear it, compare, set the low byte. */
  lemma {:induction false} SetccClear(ins: Inst, s: XState)
    requires ins.op.Setcc? && Emittable(ins) && !SetccAliased(ins)
    ensures var d := ins.outs[0];
      var x := XSeq([XAlu(Xor, d, d)] + ([XCmp(ins.ins[0], ins.ins[1])] + [XSetcc(ins.op.cc, d)]), s);
      x.s.p == PStep(ins, s.p).s && x.ev == [] && x.next == XFall
  {
    hide Alu, Plus, Load, Store, Holds, XSeq, Merge, Bit, PStep, PRead;
    SetccStep(ins, s.p);
    var d, a, c := ins.outs[0], ins.ins[0], ins.ins[1];
    var zero, cmp, set_ := XAlu(Xor, d, d), XCmp(a, c), XSetcc(ins.op.cc, d);
    XorSelf(s.p.regs[d.p]);
    ReadSelf(s.p, d);
    XSeqCons(zero, [cmp] + [set_], s);
    var s1 := XStep(zero, s).s;
    assert s1.p.regs == s.p.regs[d.p := 0];
    assert s1.p == s.p.(regs := s.p.regs[d.p := 0]);
    ReadOther(s.p, d.p, 0, a);
    ReadOther(s.p, d.p, 0, c);
    XSeqCons(cmp, [set_], s1);
    XSeqOne(set_, XStep(cmp, s1).s);
    BitBytes(0, Holds(ins.op.cc, PRead(s.p, a), PRead(s.p, c)));
    SetTwice(s.p, d.p, 0, Bit(Holds(ins.op.cc, PRead(s.p, a), PRead(s.p, c))));
  }

  /** Destination overlaps an input: compare first, set the low byte, then zero-extend it. */
  lemma {:induction false} SetccExtend(ins: Inst, s: XState)
    requires ins.op.Setcc? && Emittable(ins)
    ensures var d := ins.outs[0];
      var x := XSeq([XCmp(ins.ins[0], ins.ins[1])] + ([XSetcc(ins.op.cc, d)] + [XMovzx8(d)]), s);
      x.s.p == PStep(ins, s.p).s && x.ev == [] && x.next == XFall
  {
    hide Alu, Plus, Load, Store, Holds, XSeq, Merge, Bit, PStep;
    SetccStep(ins, s.p);
    var d, a, c := ins.outs[0], ins.ins[0], ins.ins[1];
    var cmp, set_, ext := XCmp(a, c), XSetcc(ins.op.cc, d), XMovzx8(d);
    var hold := Holds(ins.op.cc, PRead(s.p, a), PRead(s.p, c));
    XSeqCons(cmp, [set_] + [ext], s);
    var s1 := XStep(cmp, s).s;
    XSeqCons(set_, [ext], s1);
    XSeqOne(ext, XStep(set_, s1).s);
    BitBytes(s.p.regs[d.p], hold);
  }

  // ----- branches -----

  /** Swapping the operands of a comparison together with its condition keeps the truth value. */
  lemma SwapKeeps(cc: CondCode, a: W, b: W)
    ensures Holds(SwapCC(cc), b, a) <==> Holds(cc, a, b)
  {
    hide SignedLess;
    match cc
    case EQ =>
    case NE =>
    case LE =>
    case LT =>
    case GE =>
    case GT =>
    case LEU => assert Holds(GEU, b, a) <==> Holds(LEU, a, b);
    case LTU => assert Holds(GTU, b, a) <==> Holds(LTU, a, b);
    case GEU => assert Holds(LEU, b, a) <==> Holds(GEU, a, b);
    case GTU => assert Holds(LTU, b, a) <==> Holds(GTU, a, b);
  }

  /** The compare, with a constant moved to the right. */
  function CmpOf(ins: Inst): (CondCode, Operand, Operand)
    requires ins.op.Brcc? && ArityOk(ins)
  {
    if ins.ins[0].Const? then (SwapCC(ins.op.cc), ins.ins[1], ins.ins[0]) else (ins.op.cc, ins.ins[0], ins.ins[1])
  }

  lemma {:induction false} BrccEmitted(ins: Inst, b: nat, succs: seq<nat>, xs: seq<XInst>)
    requires ins.op.Brcc? && ArityOk(ins) && |succs| == 2
    requires var (cc, x, y) := CmpOf(ins);
      xs == [XCmp(x, y)] + ([XJcc(cc, succs[0])] + if succs[1] != b + 1 then [XJmp(succs[1])] else [])
    ensures InstEmitted(ins, xs, b, succs)
  {
    hide XSeq, PStep, XStep, Holds, PRead;
    forall s ensures RunMatches(XSeq(xs, s), PStep(ins, s.p), b, succs) {
      BrccRuns(ins, b, succs, xs, s);
    }
  }

  lemma {:induction false} BrccRuns(ins: Inst, b: nat, succs: seq<nat>, xs: seq<XInst>, s: XState)
    requires ins.op.Brcc? && ArityOk(ins) && |succs| == 2
    requires var (cc, x, y) := CmpOf(ins);
      xs == [XCmp(x, y)] + ([XJcc(cc, succs[0])] + if succs[1] != b + 1 then [XJmp(succs[1])] else [])
    ensures RunMatches(XSeq(xs, s), PStep(ins, s.p), b, succs)
  {
    hide Alu, Plus, Load, Store, Holds, XSeq, PRead, SwapCC;
    var (cc, x, y) := CmpOf(ins);
    var jcc := XJcc(cc, succs[0]);
    var tail := if succs[1] != b + 1 then [XJmp(succs[1])] else [];
    XSeqCons(XCmp(x, y), [jcc] + tail, s);
    var s1 := XStep(XCmp(x, y), s).s;
    SwapKeeps(ins.op.cc, PRead(s.p, ins.ins[0]), PRead(s.p, ins.ins[1]));
    assert PReads(s.p, ins.ins) == [PRead(s.p, ins.ins[0]), PRead(s.p, ins.ins[1])];
    XSeqAppend([jcc], tail, s1);
    XSeqOne(jcc, s1);
    XSeqTail(succs[1], b, s1);
    var r := PStep(ins, s.p);
    assert r.s == s.p && r.ev == [];
  }

  lemma {:induction false} XSeqTail(l: nat, b: nat, s: XState)
    ensures XSeq(if l != b + 1 then [XJmp(l)] else [], s) == XRun(s, [], if l != b + 1 then XGoto(l) else XFall)
  {
    if l != b + 1 {
      XSeqOne(XJmp(l), s);
    }
  }

  lemma {:induction false} BrEmitted(ins: Inst, b: nat, succs: seq<nat>)
    requires ins == Inst(Br, [], []) && |succs| >= 1
    ensures InstEmitted(ins, if succs[0] != b + 1 then [XJmp(succs[0])] else [], b, succs)
  {
    hide XSeq;
    forall s ensures RunMatches(XSeq(if succs[0] != b + 1 then [XJmp(succs[0])] else [], s), PStep(ins, s.p), b,
      succs) {
      hide CpuAfter, ResultOf;
      XSeqTail(succs[0], b, s);
      BrRuns(ins, s.p);
    }
  }

  lemma BrRuns(ins: Inst, s: PState)
    requires ins == Inst(Br, [], [])
    ensures PStep(ins, s) == PRun(s, [], Jump(0))
  {
    hide Alu, Plus, Load, Store, Holds;
  }

  lemma {:induction false} ExitEmitted(ins: Inst, b: nat, succs: seq<nat>)
    requires Emittable(ins) && (ins.op.GBr? || ins.op.GBrind?)
    ensures InstEmitted(ins, [if ins.op.GBr? then XSlot(ins.op.tpc) else XBrind], b, succs)
  {
    hide XSeq;
    var x := if ins.op.GBr? then XSlot(ins.op.tpc) else XBrind;
    forall s ensures RunMatches(XSeq([x], s), PStep(ins, s.p), b, succs) {
      XSeqOne(x, s);
      ExitRuns(ins, s.p);
    }
  }

  lemma ExitRuns(ins: Inst, s: PState)
    requires Emittable(ins) && (ins.op.GBr? || ins.op.GBrind?)
    ensures PStep(ins, s) == PRun(s, [], if ins.op.GBr? then Leave(ins.op.tpc, false) else Leave(s.regs[RSI], true))
  {
    hide Alu, Plus, Load, Store, Holds;
    if ins.op.GBrind? {
      assert PReads(s, ins.ins) == [PRead(s, ins.ins[0])];
    }
  }
}
