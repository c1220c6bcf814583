/** Memory, control and helper instructions: the QIR sequences the translator emits and why each
    does what the interpreter handler does. */
module TransInsns {
  import opened Words
  import opened Qir
  import opened Machine
  import opened SelForm
  import opened Guest
  import opened Relaxed
  import opened TransSteps

  // ----- addresses -----

  function AddrAdd(i: Insn, t: nat): Inst {
    Inst(Bin(Add), [VReg(I32, t)], [GprOp(i.rs1, I32), VConst(Wrap(i.imm))])
  }

  /** Save the ip, then compute the address unless the offset is zero. */
  function AddrCode(i: Insn, ip: W, t: nat): seq<Inst> {
    [IpMov(ip)] + if i.imm == 0 then [] else [Fold(AddrAdd(i, t))]
  }

  function AddrOp(i: Insn, t: nat): Operand {
    if i.imm == 0 then GprOp(i.rs1, I32) else VReg(I32, t)
  }

  function AddrState(i: Insn, ip: W, t: nat, vs: VState): VState {
    var s := vs.(cpu := AtIp(vs.cpu, ip));
    if i.imm == 0 then s else s.(locals := s.locals[t := Plus(vs.cpu[i.rs1], Wrap(i.imm))])
  }

  lemma AddStep(i: Insn, t: nat, s: VState)
    requires s.cpu[0] == 0 && t >= N_GLOBALS
    ensures VStep(Fold(AddrAdd(i, t)), s) == VRun(s.(locals := s.locals[t := Plus(s.cpu[i.rs1], Wrap(i.imm))]), [],
      Fall)
  {
    hide Alu, Plus, Load, Holds, ResultOf, VStep, Wrap, Fold;
    var ins := AddrAdd(i, t);
    FoldPreserves(ins, s);
    ComputeStep(ins, s);
    AddResult(s, GprOp(i.rs1, I32), VConst(Wrap(i.imm)));
    ReadGpr(s, i.rs1, I32);
  }

  lemma {:induction false} AddrRuns(i: Insn, ip: W, t: nat, rest: seq<Inst>, vs: VState)
    requires vs.cpu[0] == 0 && t >= N_GLOBALS
    ensures VExec(AddrCode(i, ip, t) + rest, vs) == VExec(rest, AddrState(i, ip, t, vs))
  {
    hide Alu, Plus, Load, Holds, ResultOf, VStep, Wrap, Fold, VExec;
    var s := vs.(cpu := AtIp(vs.cpu, ip));
    IpMovStep(ip, vs);
    if i.imm == 0 {
      assert AddrCode(i, ip, t) + rest == [IpMov(ip)] + rest;
      SilentThen(IpMov(ip), rest, vs);
    } else {
      var add := Fold(AddrAdd(i, t));
      assert AddrCode(i, ip, t) + rest == [IpMov(ip)] + ([add] + rest);
      SilentThen(IpMov(ip), [add] + rest, vs);
      AddStep(i, t, s);
      SilentThen(add, rest, s);
    }
  }

  lemma AddrValue(i: Insn, ip: W, t: nat, vs: VState)
    requires vs.cpu[0] == 0 && t >= N_GLOBALS
    ensures VRead(AddrState(i, ip, t, vs), AddrOp(i, t)) == Plus(vs.cpu[i.rs1], Wrap(i.imm))
  {
    hide Plus;
    var s := AddrState(i, ip, t, vs);
    ReadGpr(s, i.rs1, I32);
    if i.imm == 0 {
      assert Wrap(0) == 0;
      PlusFacts(vs.cpu[i.rs1], 0);
    }
  }

  // ----- loads -----

  /** The destination of a load: `rd`, or for x0 whatever operand held the address. */
  function LoadDst(i: Insn, t: nat): Operand {
    if i.rd != 0 then VGpr(i.rd) else AddrOp(i, t)
  }

  function LoadCode(i: Insn, ip: W, t: nat): seq<Inst>
    requires i.op.LoadI?
  {
    AddrCode(i, ip, t) + [Inst(VMLoad(i.op.sz, i.op.sgn), [LoadDst(i, t)], [AddrOp(i, t)])]
  }

  lemma {:induction false} LoadRuns(i: Insn, ip: W, t: nat, vs: VState)
    requires vs.cpu[0] == 0 && t >= N_GLOBALS && i.op.LoadI?
    ensures var s := AddrState(i, ip, t, vs);
      var a := Plus(vs.cpu[i.rs1], Wrap(i.imm));
      VExec(LoadCode(i, ip, t), vs) ==
      VRun(VWrite(s, LoadDst(i, t), Load(vs.mem, i.op.sz, i.op.sgn, a)),
        [Event(VMLoad(i.op.sz, i.op.sgn), [a], s.cpu)], Fall)
  {
    hide Alu, Plus, Load, Holds, Wrap, Fold, VExec, VRead, VWrite, AddrCode;
    var s := AddrState(i, ip, t, vs);
    var ins := Inst(VMLoad(i.op.sz, i.op.sgn), [LoadDst(i, t)], [AddrOp(i, t)]);
    AddrRuns(i, ip, t, [ins], vs);
    AddrValue(i, ip, t, vs);
    VExecOne(ins, s);
    Reads1(s, AddrOp(i, t));
  }

  lemma LoadGuest(i: Insn, ip: W, vs: VState)
    requires vs.cpu[0] == 0 && i.op.LoadI?
    ensures var a := Plus(vs.cpu[i.rs1], Wrap(i.imm));
      var w := Load(vs.mem, i.op.sz, i.op.sgn, a);
      var cpu := AtIp(vs.cpu, ip);
      IExec(i, IState(cpu, vs.mem)) ==
      IRun(IState(AtIp(if i.rd == 0 then vs.cpu else vs.cpu[i.rd := w], Plus(ip, 4)), vs.mem),
        [Event(VMLoad(i.op.sz, i.op.sgn), [a], cpu)], false)
  {
    hide Alu, Plus, Load, Holds, Wrap;
    var a := Plus(vs.cpu[i.rs1], Wrap(i.imm));
    SetRd(vs.cpu, ip, i.rd, Load(vs.mem, i.op.sz, i.op.sgn, a), Plus(ip, 4));
  }

  /** A load behaves as the handler exactly when the destination write leaves the base alone. */
  lemma {:induction false} LoadMatchesIff(i: Insn, ip: W, t: nat, vs: VState)
    requires vs.cpu[0] == 0 && t >= N_GLOBALS && i.op.LoadI?
    ensures InsnMatches(i, ip, vs, VExec(LoadCode(i, ip, t), vs)) <==>
      BadLoad(i) && i.rs1 != 0 ==> Load(vs.mem, i.op.sz, i.op.sgn, Plus(vs.cpu[i.rs1], Wrap(i.imm))) == vs.cpu[i.rs1]
  {
    hide Alu, Plus, Load, Holds, Wrap, VExec, LoadCode, IExec;
    LoadRuns(i, ip, t, vs);
    LoadGuest(i, ip, vs);
    var w := Load(vs.mem, i.op.sz, i.op.sgn, Plus(vs.cpu[i.rs1], Wrap(i.imm)));
    var r := VExec(LoadCode(i, ip, t), vs);
    var c := if i.rd == 0 then vs.cpu else vs.cpu[i.rd := w];
    if i.rd != 0 {
      assert r.s.cpu == AtIp(vs.cpu, ip)[i.rd := w];
      assert AtIp(r.s.cpu, Plus(ip, 4)) == AtIp(c, Plus(ip, 4));
    } else if i.imm != 0 || i.rs1 == 0 {
      assert r.s.cpu == AtIp(vs.cpu, ip);
      assert AtIp(r.s.cpu, Plus(ip, 4)) == AtIp(c, Plus(ip, 4));
    } else {
      assert r.s.cpu == AtIp(vs.cpu, ip)[i.rs1 := w];
      assert AtIp(r.s.cpu, Plus(ip, 4))[i.rs1] == w && AtIp(vs.cpu, Plus(ip, 4))[i.rs1] == vs.cpu[i.rs1];
      if w == vs.cpu[i.rs1] {
        assert AtIp(r.s.cpu, Plus(ip, 4)) == AtIp(vs.cpu, Plus(ip, 4));
      }
    }
  }

  lemma LoadRelaxed(i: Insn, ip: W, vs: VState)
    requires vs.cpu[0] == 0 && i.op.LoadI?
    ensures var a := Plus(vs.cpu[i.rs1], Wrap(i.imm));
      var w := Load(vs.mem, i.op.sz, i.op.sgn, a);
      var cpu := AtIp(vs.cpu, ip);
      var c := if i.rd != 0 then vs.cpu[i.rd := w] else if i.imm == 0 && i.rs1 != 0 then vs.cpu[i.rs1 := w] else vs.cpu;
      RExec(i, IState(cpu, vs.mem)) == IRun(IState(AtIp(c, Plus(ip, 4)), vs.mem),
        [Event(VMLoad(i.op.sz, i.op.sgn), [a], cpu)], false)
  {
    hide Alu, Plus, Load, Holds, Wrap;
    var a := Plus(vs.cpu[i.rs1], Wrap(i.imm));
    var w := Load(vs.mem, i.op.sz, i.op.sgn, a);
    SetRd(vs.cpu, ip, i.rd, w, Plus(ip, 4));
    if BadLoad(i) && i.rs1 != 0 {
      SetRd(vs.cpu, ip, i.rs1, w, Plus(ip, 4));
      assert AtIp(vs.cpu, ip)[i.rs1 := w][0 := 0] == AtIp(vs.cpu, ip)[i.rs1 := w];
    }
  }

  lemma {:induction false} LoadTranslatedAt(i: Insn, ip: W, t: nat, vs: VState)
    requires i.op.LoadI? && t >= N_GLOBALS && vs.cpu[0] == 0
    ensures FallsTo(RExec(i, IState(AtIp(vs.cpu, ip), vs.mem)), ip, VExec(LoadCode(i, ip, t), vs))
  {
    hide Alu, Plus, Load, Holds, Wrap, VExec, LoadCode, RExec;
    LoadRuns(i, ip, t, vs);
    LoadRelaxed(i, ip, vs);
    var w := Load(vs.mem, i.op.sz, i.op.sgn, Plus(vs.cpu[i.rs1], Wrap(i.imm)));
    var c := if i.rd != 0 then vs.cpu[i.rd := w] else if i.imm == 0 && i.rs1 != 0 then vs.cpu[i.rs1 := w] else vs.cpu;
    var r := VExec(LoadCode(i, ip, t), vs);
    assert r.s.cpu == AtIp(c, ip);
    assert AtIp(r.s.cpu, Plus(ip, 4)) == AtIp(c, Plus(ip, 4));
  }

  /** Every load takes the step that translated code is to take. */
  lemma {:induction false} LoadTranslated(i: Insn, ip: W, t: nat)
    requires i.op.LoadI? && t >= N_GLOBALS
    ensures Translated(i, ip, LoadCode(i, ip, t))
  {
    hide FallsTo, LoadCode, RExec, VExec;
    forall vs: VState | vs.cpu[0] == 0
      ensures FallsTo(RExec(i, IState(AtIp(vs.cpu, ip), vs.mem)), ip, VExec(LoadCode(i, ip, t), vs))
    {
      LoadTranslatedAt(i, ip, t, vs);
    }
  }

  lemma EmptyLoads(sz: VType, sgn: VSign, a: W)
    ensures Load(map[], sz, sgn, a) == 0
  {
    assert forall b: W :: LoadByte(map[], b) == 0;
  }

  /** A state in which the translated load goes wrong: the base register holds 1, memory zeros. */
  function OneIn(r: Reg): VState {
    VState(seq(CPU_WORDS, _ => 0)[r := 1], map[], map[])
  }

  lemma {:induction false} BadLoadFails(i: Insn, ip: W, t: nat)
    requires BadLoad(i) && i.rs1 != 0 && t >= N_GLOBALS
    ensures !InsnMatches(i, ip, OneIn(i.rs1), VExec(LoadCode(i, ip, t), OneIn(i.rs1)))
  {
    hide InsnMatches, LoadCode, VExec, Load, Plus, Wrap;
    LoadMatchesIff(i, ip, t, OneIn(i.rs1));
    EmptyLoads(i.op.sz, i.op.sgn, Plus(OneIn(i.rs1).cpu[i.rs1], Wrap(i.imm)));
  }

  /** A load is translated correctly, into an instruction with a register as destination, if and
      only if it is not a load to x0 with zero offset. */
  lemma {:induction false} LoadMatchesAlwaysIff(i: Insn, ip: W, t: nat)
    requires i.op.LoadI? && t >= N_GLOBALS
    ensures AlwaysMatches(i, ip, LoadCode(i, ip, t)) && LoadDst(i, t).VReg? <==> !BadLoad(i)
  {
    hide InsnMatches, LoadCode;
    if !BadLoad(i) {
      forall vs: VState | vs.cpu[0] == 0 ensures InsnMatches(i, ip, vs, VExec(LoadCode(i, ip, t), vs)) {
        LoadMatchesIff(i, ip, t, vs);
      }
    } else if i.rs1 != 0 {
      BadLoadFails(i, ip, t);
      assert OneIn(i.rs1).cpu[0] == 0;
    }
  }

  // ----- stores -----

  function StoreCode(i: Insn, ip: W, t: nat): seq<Inst>
    requires i.op.StoreI?
  {
    AddrCode(i, ip, t) + [Inst(VMStore(i.op.sz), [], [AddrOp(i, t), GprOp(i.rs2, i.op.sz)])]
  }

  lemma {:induction false} StoreMatches(i: Insn, ip: W, t: nat, vs: VState)
    requires vs.cpu[0] == 0 && t >= N_GLOBALS && i.op.StoreI?
    ensures InsnMatches(i, ip, vs, VExec(StoreCode(i, ip, t), vs))
  {
    hide Alu, Plus, Load, Store, Holds, Wrap, Fold, VExec, VRead, AddrCode, Trunc;
    var s := AddrState(i, ip, t, vs);
    var ins := Inst(VMStore(i.op.sz), [], [AddrOp(i, t), GprOp(i.rs2, i.op.sz)]);
    AddrRuns(i, ip, t, [ins], vs);
    AddrValue(i, ip, t, vs);
    ReadGpr(s, i.rs2, i.op.sz);
    VExecOne(ins, s);
    Reads2(s, AddrOp(i, t), GprOp(i.rs2, i.op.sz));
    SetRd(vs.cpu, ip, 0, 0, Plus(ip, 4));
  }

  lemma {:induction false} StoreAlwaysMatches(i: Insn, ip: W, t: nat)
    requires i.op.StoreI? && t >= N_GLOBALS
    ensures AlwaysMatches(i, ip, StoreCode(i, ip, t))
  {
    hide InsnMatches, StoreCode;
    forall vs: VState | vs.cpu[0] == 0 ensures InsnMatches(i, ip, vs, VExec(StoreCode(i, ip, t), vs)) {
      StoreMatches(i, ip, t, vs);
    }
  }

  // ----- fences -----

  lemma {:induction false} FenceMatches(i: Insn, ip: W, vs: VState)
    requires vs.cpu[0] == 0 && i.op.Helper? && (i.op.stub.Fence? || i.op.stub.Fencei?)
    ensures InsnMatches(i, ip, vs, VExec([Inst(Hcall(i.op.stub), [], [VConst(i.raw)])], vs))
  {
    hide Alu, Plus, Load, Store, Holds, Wrap, VExec, VRead;
    var ins := Inst(Hcall(i.op.stub), [], [VConst(i.raw)]);
    VExecOne(ins, vs);
    SetRd(vs.cpu, ip, 0, 0, Plus(ip, 4));
    SetRd(vs.cpu, Plus(vs.cpu[IP_WORD], 4), 0, 0, Plus(ip, 4));
  }

  lemma {:induction false} FenceAlwaysMatches(i: Insn, ip: W)
    requires i.op.Helper? && (i.op.stub.Fence? || i.op.stub.Fencei?)
    ensures AlwaysMatches(i, ip, [Inst(Hcall(i.op.stub), [], [VConst(i.raw)])])
  {
    hide InsnMatches;
    forall vs: VState | vs.cpu[0] == 0 ensures InsnMatches(i, ip, vs,
      VExec([Inst(Hcall(i.op.stub), [], [VConst(i.raw)])], vs)) {
      FenceMatches(i, ip, vs);
    }
  }
}
