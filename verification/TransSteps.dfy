/** Guest instructions and the QIR they become: building blocks of the translator's proof. */
module TransSteps {
  import opened Words
  import opened Qir
  import opened Machine
  import opened SelForm
  import opened Guest
  import opened Relaxed

  // ----- operands -----

  function VGpr(id: Reg): Operand
    requires id != 0
  {
    VReg(I32, id - 1)
  }

  function VConst(w: W): Operand {
    Const(I32, w)
  }

  /** x0 reads as the constant zero. */
  function GprOp(id: Reg, ty: VType): Operand {
    if id == 0 then Const(ty, 0) else VReg(ty, id - 1)
  }

  lemma ReadGpr(vs: VState, id: Reg, ty: VType)
    requires vs.cpu[0] == 0
    ensures VRead(vs, GprOp(id, ty)) == Trunc(ty, vs.cpu[id])
  {
  }

  // ----- folding -----

  predicate IsAdd(ins: Inst) {
    ins.op == Bin(Add) && |ins.outs| == 1 && |ins.ins| == 2
  }

  /** The folder: two constants are added, a constant moves to the right, adding zero is a move. */
  function Fold(ins: Inst): Inst {
    if !IsAdd(ins) then ins
    else
      var a, b := ins.ins[0], ins.ins[1];
      if a.Const? && b.Const? then Inst(Mov, ins.outs, [Const(I32, Plus(a.val, b.val))])
      else
        var (x, y) := if a.Const? then (b, a) else (a, b);
        if y.Const? && y.val == 0 then Inst(Mov, ins.outs, [x]) else Inst(Bin(Add), ins.outs, [x, y])
  }

  /** Nothing is left to fold: an addition that remains has a register first and no zero last. */
  lemma FoldDone(ins: Inst)
    requires ArityOk(ins)
    ensures Fold(Fold(ins)) == Fold(ins) && Fold(ins).outs == ins.outs
    ensures IsAdd(Fold(ins)) ==> !Fold(ins).ins[0].Const? && !(Fold(ins).ins[1].Const? && Fold(ins).ins[1].val == 0)
  {
    hide Plus;
  }

  /** Operations that only compute: the result is written and control falls through. */
  lemma ComputeStep(ins: Inst, vs: VState)
    requires ins.op.Mov? || ins.op.Bin? || ins.op.Setcc?
    ensures VStep(ins, vs) ==
      VRun(if |ins.outs| > 0 then VWrite(vs, ins.outs[0], ResultOf(ins.op, VReads(vs, ins.ins), vs.mem))
        else vs, [], Fall)
  {
  }

  lemma AluAdd(a: W, b: W)
    ensures Alu(Add, a, b) == Plus(a, b)
  {
  }

  lemma AddOf(a: W, b: W, mem: Mem)
    ensures ResultOf(Bin(Add), [a, b], mem) == Plus(a, b)
  {
    hide Alu, Plus, Load, Holds;
    AluAdd(a, b);
  }

  lemma Reads2(vs: VState, a: Operand, b: Operand)
    ensures VReads(vs, [a, b]) == [VRead(vs, a), VRead(vs, b)]
  {
  }

  lemma Reads1(vs: VState, a: Operand)
    ensures VReads(vs, [a]) == [VRead(vs, a)]
  {
  }

  lemma AddResult(vs: VState, a: Operand, b: Operand)
    ensures ResultOf(Bin(Add), VReads(vs, [a, b]), vs.mem) == Plus(VRead(vs, a), VRead(vs, b))
  {
    hide Alu, Plus, Load, Holds, VRead, ResultOf;
    Reads2(vs, a, b);
    AddOf(VRead(vs, a), VRead(vs, b), vs.mem);
  }

  lemma MovResult(vs: VState, a: Operand)
    ensures ResultOf(Mov, VReads(vs, [a]), vs.mem) == VRead(vs, a)
  {
    hide Alu, Plus, Load, Holds, VRead;
    Reads1(vs, a);
  }

  lemma FoldResult(ins: Inst, vs: VState)
    requires IsAdd(ins) && ins.ins[0].ty == I32 && ins.ins[1].ty == I32
    ensures ResultOf(Fold(ins).op, VReads(vs, Fold(ins).ins), vs.mem) ==
      Plus(VRead(vs, ins.ins[0]), VRead(vs, ins.ins[1]))
  {
    hide Alu, Plus, Load, Holds, ResultOf;
    var a, b := ins.ins[0], ins.ins[1];
    PlusFacts(VRead(vs, a), VRead(vs, b));
    PlusFacts(VRead(vs, b), VRead(vs, a));
    if a.Const? && b.Const? {
      MovResult(vs, Const(I32, Plus(a.val, b.val)));
    } else if a.Const? {
      AddResult(vs, b, a);
      MovResult(vs, b);
    } else {
      AddResult(vs, a, b);
      MovResult(vs, a);
    }
  }

  /** Folding an instruction never changes what it does. */
  lemma FoldPreserves(ins: Inst, vs: VState)
    requires ArityOk(ins) && TypesOk(ins)
    ensures VStep(Fold(ins), vs) == VStep(ins, vs)
  {
    hide Alu, Plus, Load, Holds, ResultOf, VStep, VRead, VWrite;
    if IsAdd(ins) {
      var a, b := ins.ins[0], ins.ins[1];
      assert ins.ins == [a, b] && a.ty == I32 && b.ty == I32;
      FoldResult(ins, vs);
      AddResult(vs, a, b);
      ComputeStep(ins, vs);
      ComputeStep(Fold(ins), vs);
    }
  }

  lemma FoldWellFormed(ins: Inst, locals: seq<VType>, defs: set<nat>)
    requires WellFormed(ins, locals, defs)
    ensures WellFormed(Fold(ins), locals, defs)
    ensures Fold(ins).outs == ins.outs && (Terminator(Fold(ins).op) <==> Terminator(ins.op))
    ensures Fold(ins) != ins ==> TempsFor(Fold(ins)) <= 1 && IsAdd(ins)
  {
    if IsAdd(ins) {
      assert InputOk(ins.ins[0], locals, defs) && InputOk(ins.ins[1], locals, defs);
      assert OutputOk(ins.op, ins.outs[0], locals);
      assert ins.ins[0].ty == I32 && ins.ins[1].ty == I32 && ins.outs[0].ty == I32;
    }
  }

  // ----- running short sequences -----

  predicate Silent(ins: Inst, vs: VState) {
    VStep(ins, vs).next == Fall && VStep(ins, vs).ev == []
  }

  lemma {:induction false} SilentThen(ins: Inst, rest: seq<Inst>, vs: VState)
    requires Silent(ins, vs)
    ensures VExec([ins] + rest, vs) == VExec(rest, VStep(ins, vs).s)
  {
    assert ([ins] + rest)[0] == ins && ([ins] + rest)[1..] == rest;
    var t := VExec(rest, VStep(ins, vs).s);
    assert [] + t.ev == t.ev;
  }

  function IpMov(ip: W): Inst {
    Inst(Mov, [Slot(true, I32, IP_OFFS)], [VConst(ip)])
  }

  lemma IpMovStep(ip: W, vs: VState)
    ensures VStep(IpMov(ip), vs) == VRun(vs.(cpu := AtIp(vs.cpu, ip)), [], Fall)
  {
    assert VReads(vs, IpMov(ip).ins) == [ip];
  }

  // ----- what one translated instruction owes -----

  predicate Falls(op: GuestOp) {
    !(op.Illegal? || op.Jal? || op.Jalr? || op.Branch? || op == Helper(Ecall) || op == Helper(Ebreak))
  }

  /** The QIR run `r` falls through to where the guest run `t` of the instruction at `ip` ends. */
  ghost predicate FallsTo(t: IRun, ip: W, r: VRun) {
    && r.next == Fall && !t.trapped && r.ev == t.ev
    && t.s == IState(AtIp(r.s.cpu, Plus(ip, 4)), r.s.mem) && r.s.cpu[0] == 0
  }

  /** The QIR run `r` from `vs` does what the handler does at address `ip`, and falls through. */
  ghost predicate InsnMatches(i: Insn, ip: W, vs: VState, r: VRun) {
    FallsTo(IExec(i, IState(AtIp(vs.cpu, ip), vs.mem)), ip, r)
  }

  /** From every state the code does what the handler does. */
  ghost predicate AlwaysMatches(i: Insn, ip: W, delta: seq<Inst>) {
    forall vs: VState :: vs.cpu[0] == 0 ==> InsnMatches(i, ip, vs, VExec(delta, vs))
  }

  /** From every state the code takes the step that translated code is to take. */
  ghost predicate Translated(i: Insn, ip: W, delta: seq<Inst>) {
    forall vs: VState :: vs.cpu[0] == 0 ==> FallsTo(RExec(i, IState(AtIp(vs.cpu, ip), vs.mem)), ip, VExec(delta, vs))
  }

  lemma MatchesTranslated(i: Insn, ip: W, delta: seq<Inst>)
    requires AlwaysMatches(i, ip, delta) && Falls(i.op) && !BadLoad(i)
    ensures Translated(i, ip, delta)
  {
    hide FallsTo, IExec, RExec, VExec;
    forall vs: VState | vs.cpu[0] == 0 ensures FallsTo(RExec(i, IState(AtIp(vs.cpu, ip), vs.mem)), ip,
      VExec(delta, vs)) {
      SameStepIff(i, IState(AtIp(vs.cpu, ip), vs.mem));
      assert InsnMatches(i, ip, vs, VExec(delta, vs));
    }
  }

  lemma SetRd(cpu: Cpu, ip: W, rd: Reg, w: W, ip': W)
    requires cpu[0] == 0
    ensures AtIp(AtIp(cpu, ip)[rd := w][0 := 0], ip') == AtIp(if rd == 0 then cpu else cpu[rd := w], ip')
    ensures AtIp(AtIp(cpu, ip), ip') == AtIp(cpu, ip')
  {
  }

  /** Register-to-register instructions: the QIR computes the handler's value, or nothing for x0. */
  lemma PureMatches(i: Insn, ip: W, vs: VState, w: W)
    requires vs.cpu[0] == 0 && Falls(i.op) && HasRd(i.op) && !i.op.LoadI?
    requires RdValue(i, AtIp(vs.cpu, ip), vs.mem) == w
    ensures InsnMatches(i, ip, vs, VRun(vs.(cpu := if i.rd == 0 then vs.cpu else vs.cpu[i.rd := w]), [], Fall))
  {
    SetRd(vs.cpu, ip, i.rd, w, Plus(ip, 4));
  }

  lemma PureToX0(i: Insn, ip: W)
    requires Falls(i.op) && HasRd(i.op) && !i.op.LoadI? && i.rd == 0
    ensures AlwaysMatches(i, ip, [])
  {
    forall vs: VState | vs.cpu[0] == 0 ensures InsnMatches(i, ip, vs, VExec([], vs)) {
      PureMatches(i, ip, vs, RdValue(i, AtIp(vs.cpu, ip), vs.mem));
    }
  }

  /** The operation and inputs that compute `gpr[rd]` of a register instruction. */
  function PureOp(i: Insn): Op {
    match i.op
    case ArithI(bin) => Bin(bin)
    case ShiftI(bin) => Bin(bin)
    case ArithR(bin) => Bin(bin)
    case SetI(cc) => Setcc(cc)
    case SetR(cc) => Setcc(cc)
    case _ => Mov
  }

  function PureIns(i: Insn, ip: W): seq<Operand> {
    match i.op
    case Auipc => [VConst(Plus(Wrap(i.imm), ip))]
    case ArithI(_) => [GprOp(i.rs1, I32), VConst(Wrap(i.imm))]
    case ShiftI(_) => [GprOp(i.rs1, I32), VConst(Wrap(i.imm))]
    case SetI(_) => [GprOp(i.rs1, I32), VConst(Wrap(i.imm))]
    case ArithR(_) => [GprOp(i.rs1, I32), GprOp(i.rs2, I32)]
    case SetR(_) => [GprOp(i.rs1, I32), GprOp(i.rs2, I32)]
    case _ => [VConst(Wrap(i.imm))]
  }

  predicate IsPure(op: GuestOp) {
    op.Lui? || op.Auipc? || op.ArithI? || op.ShiftI? || op.SetI? || op.ArithR? || op.SetR?
  }

  lemma TwoArgs(op: Op, vs: VState, x: Operand, y: Operand, a: W, b: W)
    requires VRead(vs, x) == a && VRead(vs, y) == b
    ensures ResultOf(op, VReads(vs, [x, y]), vs.mem) == ResultOf(op, [a, b], vs.mem)
  {
    hide ResultOf, VRead;
    Reads2(vs, x, y);
  }

  /** The handler's value, from the argument values. */
  lemma PureArgs(i: Insn, cpu: Cpu, mem: Mem)
    requires IsPure(i.op)
    ensures RdValue(i, cpu, mem) ==
      if i.op.Lui? then Wrap(i.imm)
      else if i.op.Auipc? then Plus(Wrap(i.imm), cpu[IP_WORD])
      else if i.op.ArithR? || i.op.SetR? then ResultOf(PureOp(i), [cpu[i.rs1], cpu[i.rs2]], mem)
      else ResultOf(PureOp(i), [cpu[i.rs1], Wrap(i.imm)], mem)
  {
    hide Alu, Plus, Load, Holds, Wrap, Bit;
  }

  lemma PureValue(i: Insn, ip: W, vs: VState)
    requires vs.cpu[0] == 0 && IsPure(i.op)
    ensures ResultOf(PureOp(i), VReads(vs, PureIns(i, ip)), vs.mem) == RdValue(i, AtIp(vs.cpu, ip), vs.mem)
  {
    hide Alu, Plus, Load, Holds, Wrap, Bit, RdValue, ResultOf, VReads;
    var a, b, c := vs.cpu[i.rs1], vs.cpu[i.rs2], Wrap(i.imm);
    ReadGpr(vs, i.rs1, I32);
    ReadGpr(vs, i.rs2, I32);
    PureArgs(i, AtIp(vs.cpu, ip), vs.mem);
    assert AtIp(vs.cpu, ip)[i.rs1] == a && AtIp(vs.cpu, ip)[i.rs2] == b;
    if i.op.ArithR? || i.op.SetR? {
      TwoArgs(PureOp(i), vs, GprOp(i.rs1, I32), GprOp(i.rs2, I32), a, b);
    } else if i.op.Lui? || i.op.Auipc? {
      MovResult(vs, PureIns(i, ip)[0]);
    } else {
      TwoArgs(PureOp(i), vs, GprOp(i.rs1, I32), VConst(c), a, c);
    }
  }

  lemma {:induction false} PureMatchesAt(i: Insn, ip: W, ins: Inst, vs: VState)
    requires IsPure(i.op) && i.rd != 0 && ins == Inst(PureOp(i), [VGpr(i.rd)], PureIns(i, ip)) && vs.cpu[0] == 0
    ensures InsnMatches(i, ip, vs, VExec([Fold(ins)], vs))
  {
    hide Alu, Plus, Load, Holds, ResultOf, RdValue, VStep, InsnMatches, Fold, Wrap;
    VExecOne(Fold(ins), vs);
    FoldPreserves(ins, vs);
    PureValue(i, ip, vs);
    PureMatches(i, ip, vs, RdValue(i, AtIp(vs.cpu, ip), vs.mem));
    ComputeStep(ins, vs);
  }

  lemma {:induction false} PureAlwaysMatches(i: Insn, ip: W, ins: Inst)
    requires IsPure(i.op) && i.rd != 0 && ins == Inst(PureOp(i), [VGpr(i.rd)], PureIns(i, ip))
    ensures AlwaysMatches(i, ip, [Fold(ins)])
  {
    hide InsnMatches;
    forall vs: VState | vs.cpu[0] == 0 ensures InsnMatches(i, ip, vs, VExec([Fold(ins)], vs)) {
      PureMatchesAt(i, ip, ins, vs);
    }
  }
}
