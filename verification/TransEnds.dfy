/** Instructions that end a translated block. */
module TransEnds {
  import opened Words
  import opened Qir
  import opened Machine
  import opened SelForm
  import opened Guest
  import opened Relaxed
  import opened TransSteps
  import opened TransInsns

  /** The run `r` leaves the block where the handler sends the guest, exactly when the handler does
      not trap on a misaligned target, which translated code never checks. `succIp[k]` is the guest
      address that successor `k` stands for. */
  ghost predicate EndMatches(i: Insn, ip: W, vs: VState, r: VRun, succIp: seq<W>) {
    Agrees(i, ip, vs, r, succIp) <==> !Unaligned(i, AtIp(vs.cpu, ip))
  }

  /** The run `r` from `vs` ends where the handler does at address `ip`. */
  ghost predicate Agrees(i: Insn, ip: W, vs: VState, r: VRun, succIp: seq<W>) {
    Arrives(IExec(i, IState(AtIp(vs.cpu, ip), vs.mem)), r, succIp)
  }

  ghost predicate Arrives(t: IRun, r: VRun, succIp: seq<W>) {
    && r.ev == t.ev
    && match r.next
       case Fall => false
       case Jump(k) => k < |succIp| && !t.trapped && t.s == IState(AtIp(r.s.cpu, succIp[k]), r.s.mem) && r.s.cpu[0] == 0
       case Leave(a, _) => !t.trapped && t.s == IState(AtIp(r.s.cpu, a), r.s.mem) && r.s.cpu[0] == 0
       case Halt => t.trapped && t.s == IState(r.s.cpu, r.s.mem)
  }

  /** From every state the code ends where translated code is to end. */
  ghost predicate Ends(i: Insn, ip: W, delta: seq<Inst>, succIp: seq<W>) {
    forall vs: VState :: vs.cpu[0] == 0 ==> EndsAt(i, ip, vs, VExec(delta, vs), succIp)
  }

  ghost predicate EndsAt(i: Insn, ip: W, vs: VState, r: VRun, succIp: seq<W>) {
    Arrives(RExec(i, IState(AtIp(vs.cpu, ip), vs.mem)), r, succIp)
  }

  /** Where translated code ends decides whether it ends where the handler does. */
  lemma EndDecides(i: Insn, ip: W, vs: VState, r: VRun, succIp: seq<W>)
    requires EndsAt(i, ip, vs, r, succIp) && vs.cpu[0] == 0 && !i.op.LoadI?
    requires Unaligned(i, AtIp(vs.cpu, ip)) ==> r.next.Jump? || r.next.Leave?
    ensures EndMatches(i, ip, vs, r, succIp)
  {
    hide RExec, Arrives, Unaligned;
    var s := IState(AtIp(vs.cpu, ip), vs.mem);
    SameStepIff(i, s);
    if Unaligned(i, s.cpu) {
      UnalignedOps(i, s.cpu);
      UnalignedTraps(i, s);
      TrapDiffers(IExec(i, s), r, succIp);
    }
  }

  lemma UnalignedTraps(i: Insn, s: IState)
    requires Unaligned(i, s.cpu) && !i.op.Illegal?
    ensures IExec(i, s).trapped
  {
    hide Unaligned, GuestEvents, GuestCpuAfter, GuestMemAfter;
  }

  /** From every state the code does what the handler does. */
  ghost predicate AlwaysAgrees(i: Insn, ip: W, code: seq<Inst>, succIp: seq<W>) {
    forall vs: VState :: vs.cpu[0] == 0 ==> Agrees(i, ip, vs, VExec(code, vs), succIp)
  }

  /** Code that leaves to an address or a block does not agree with a handler that traps. */
  lemma TrapDiffers(t: IRun, r: VRun, succIp: seq<W>)
    requires t.trapped && (r.next.Jump? || r.next.Leave?)
    ensures !Arrives(t, r, succIp)
  {
  }

  /** A direct transfer to `target`: a branch to the entry block, or out of the region. */
  ghost predicate GoesTo(ins: Inst, target: W, succIp: seq<W>) {
    || ins == Inst(GBr(target), [], [])
    || (ins == Inst(Br, [], []) && succIp == [target])
  }

  lemma GoesToArrives(ins: Inst, target: W, succIp: seq<W>, vs: VState, t: IRun)
    requires GoesTo(ins, target, succIp) && vs.cpu[0] == 0
    requires t == IRun(IState(AtIp(vs.cpu, target), vs.mem), [], false)
    ensures Arrives(t, VStep(ins, vs), succIp)
  {
    hide Alu, Plus, Load, Store, Holds;
  }

  lemma GoesToLeaves(ins: Inst, target: W, succIp: seq<W>, vs: VState)
    requires GoesTo(ins, target, succIp)
    ensures VStep(ins, vs).next.Jump? || VStep(ins, vs).next.Leave?
  {
    hide Alu, Plus, Load, Store, Holds;
  }

  // ----- jal -----

  function LinkCode(i: Insn, ip: W): seq<Inst> {
    if i.rd == 0 then [] else [Inst(Mov, [VGpr(i.rd)], [VConst(Plus(ip, 4))])]
  }

  function LinkState(i: Insn, ip: W, vs: VState): VState {
    if i.rd == 0 then vs else vs.(cpu := vs.cpu[i.rd := Plus(ip, 4)])
  }

  lemma {:induction false} LinkRuns(i: Insn, ip: W, rest: seq<Inst>, vs: VState)
    ensures VExec(LinkCode(i, ip) + rest, vs) == VExec(rest, LinkState(i, ip, vs))
  {
    hide Alu, Plus, Load, Holds, ResultOf, VStep, VExec;
    if i.rd == 0 {
      assert LinkCode(i, ip) + rest == rest;
    } else {
      var ins := Inst(Mov, [VGpr(i.rd)], [VConst(Plus(ip, 4))]);
      ComputeStep(ins, vs);
      MovResult(vs, VConst(Plus(ip, 4)));
      SilentThen(ins, rest, vs);
    }
  }

  lemma {:induction false} JalEnds(i: Insn, ip: W, ins: Inst, succIp: seq<W>)
    requires i.op.Jal? && GoesTo(ins, Plus(ip, Wrap(i.imm)), succIp)
    ensures Ends(i, ip, LinkCode(i, ip) + [ins], succIp)
  {
    hide EndMatches, EndsAt, GoesTo, LinkCode;
    forall vs: VState | vs.cpu[0] == 0 ensures EndsAt(i, ip, vs, VExec(LinkCode(i, ip) + [ins], vs), succIp) {
      JalMatches(i, ip, ins, succIp, vs);
    }
  }

  lemma {:induction false} JalMatches(i: Insn, ip: W, ins: Inst, succIp: seq<W>, vs: VState)
    requires i.op.Jal? && GoesTo(ins, Plus(ip, Wrap(i.imm)), succIp) && vs.cpu[0] == 0
    ensures EndsAt(i, ip, vs, VExec(LinkCode(i, ip) + [ins], vs), succIp)
    ensures EndMatches(i, ip, vs, VExec(LinkCode(i, ip) + [ins], vs), succIp)
  {
    hide Alu, Plus, Load, Store, Holds, Wrap, VExec, LinkCode, VStep, GoesTo, Arrives, EndMatches;
    LinkRuns(i, ip, [ins], vs);
    var s := LinkState(i, ip, vs);
    VExecOne(ins, s);
    var target := Plus(ip, Wrap(i.imm));
    SetRd(vs.cpu, ip, i.rd, Plus(ip, 4), target);
    GoesToArrives(ins, target, succIp, s, RExec(i, IState(AtIp(vs.cpu, ip), vs.mem)));
    GoesToLeaves(ins, target, succIp, s);
    EndDecides(i, ip, vs, VStep(ins, s), succIp);
  }

  /** All registers zero. */
  function ZeroState(): VState {
    VState(seq(CPU_WORDS, _ => 0), map[], map[])
  }

  /** Translated jal agrees with the handler from every state if and only if its offset is a
      multiple of four; otherwise it differs from every state, such as the one with zero registers. */
  lemma {:induction false} JalAgreesIff(i: Insn, ip: W, ins: Inst, succIp: seq<W>)
    requires i.op.Jal? && GoesTo(ins, Plus(ip, Wrap(i.imm)), succIp)
    ensures AlwaysAgrees(i, ip, LinkCode(i, ip) + [ins], succIp) <==> i.imm % 4 == 0
    ensures i.imm % 4 != 0 ==> !Agrees(i, ip, ZeroState(), VExec(LinkCode(i, ip) + [ins], ZeroState()), succIp)
  {
    hide Agrees, EndsAt, GoesTo, LinkCode, VExec, Plus, Wrap;
    var code := LinkCode(i, ip) + [ins];
    forall vs: VState | vs.cpu[0] == 0 ensures Agrees(i, ip, vs, VExec(code, vs), succIp) <==> i.imm % 4 == 0 {
      JalMatches(i, ip, ins, succIp, vs);
    }
    assert ZeroState().cpu[0] == 0;
  }

  /** The jump by two that the handler refuses and translated code makes. */
  lemma JalByTwo(ip: W)
    ensures var i := Insn(Jal, 0, 0, 0, 2, 0x0020_006f);
      var code := [Inst(GBr(Plus(ip, Wrap(2))), [], [])];
      && VExec(code, ZeroState()).next == Leave(Plus(ip, Wrap(2)), false)
      && !Agrees(i, ip, ZeroState(), VExec(code, ZeroState()), [])
  {
    hide Agrees, Plus, Wrap, VExec;
    var i := Insn(Jal, 0, 0, 0, 2, 0x0020_006f);
    var ins := Inst(GBr(Plus(ip, Wrap(2))), [], []);
    JalAgreesIff(i, ip, ins, []);
    assert LinkCode(i, ip) + [ins] == [ins];
    VExecOne(ins, ZeroState());
  }

  // ----- jalr -----

  function MaskCode(t: nat): Inst {
    Inst(Bin(And), [VReg(I32, t)], [VReg(I32, t), VConst(0xffff_fffe)])
  }

  function JalrCode(i: Insn, ip: W, t: nat): seq<Inst> {
    [Fold(AddrAdd(i, t))] + ([MaskCode(t)] + (LinkCode(i, ip) + [Inst(GBrind, [], [VReg(I32, t)])]))
  }

  lemma MaskStep(t: nat, s: VState)
    requires t >= N_GLOBALS && t in s.locals
    ensures VStep(MaskCode(t), s) == VRun(s.(locals := s.locals[t := Alu(And, s.locals[t], 0xffff_fffe)]), [], Fall)
  {
    hide Alu, Plus, Load, Holds, VStep;
    ComputeStep(MaskCode(t), s);
    Reads2(s, VReg(I32, t), VConst(0xffff_fffe));
  }

  lemma {:induction false} JalrRuns(i: Insn, ip: W, t: nat, vs: VState)
    requires t >= N_GLOBALS && vs.cpu[0] == 0
    ensures var target := Alu(And, Plus(vs.cpu[i.rs1], Wrap(i.imm)), 0xffff_fffe);
      var r := VExec(JalrCode(i, ip, t), vs);
      r.next == Leave(target, true) && r.ev == [] && r.s.mem == vs.mem && r.s.cpu == LinkState(i, ip, vs).cpu
  {
    hide Alu, Plus, Load, Store, Holds, Wrap, VExec, LinkCode, Fold, VStep;
    var add := Fold(AddrAdd(i, t));
    var target := Alu(And, Plus(vs.cpu[i.rs1], Wrap(i.imm)), 0xffff_fffe);
    var last := Inst(GBrind, [], [VReg(I32, t)]);
    AddStep(i, t, vs);
    var s1 := VStep(add, vs).s;
    SilentThen(add, [MaskCode(t)] + (LinkCode(i, ip) + [last]), vs);
    MaskStep(t, s1);
    var s2 := VStep(MaskCode(t), s1).s;
    SilentThen(MaskCode(t), LinkCode(i, ip) + [last], s1);
    LinkRuns(i, ip, [last], s2);
    var s3 := LinkState(i, ip, s2);
    VExecOne(last, s3);
    assert VGet(s3, t) == target;
    BrindStep(t, s3);
  }

  lemma BrindStep(t: nat, s: VState)
    ensures VStep(Inst(GBrind, [], [VReg(I32, t)]), s) == VRun(s, [], Leave(VGet(s, t), true))
  {
    hide Alu, Plus, Load, Store, Holds;
    Reads1(s, VReg(I32, t));
  }

  lemma {:induction false} JalrMatches(i: Insn, ip: W, t: nat, vs: VState)
    requires i.op.Jalr? && t >= N_GLOBALS && vs.cpu[0] == 0
    ensures EndsAt(i, ip, vs, VExec(JalrCode(i, ip, t), vs), [])
    ensures EndMatches(i, ip, vs, VExec(JalrCode(i, ip, t), vs), [])
  {
    hide Alu, Plus, Load, Store, Holds, Wrap, VExec, JalrCode, Unaligned, EndMatches;
    JalrRuns(i, ip, t, vs);
    SetRd(vs.cpu, ip, i.rd, Plus(ip, 4), NextIp(i, AtIp(vs.cpu, ip)));
    EndDecides(i, ip, vs, VExec(JalrCode(i, ip, t), vs), []);
  }

  lemma {:induction false} JalrEnds(i: Insn, ip: W, t: nat)
    requires i.op.Jalr? && t >= N_GLOBALS
    ensures Ends(i, ip, JalrCode(i, ip, t), [])
  {
    hide EndMatches, EndsAt, JalrCode;
    forall vs: VState | vs.cpu[0] == 0 ensures EndsAt(i, ip, vs, VExec(JalrCode(i, ip, t), vs), []) {
      JalrMatches(i, ip, t, vs);
    }
  }

  /** The register that makes the target of a jalr two, for any offset. */
  function JalrState(i: Insn): VState {
    ZeroState().(cpu := ZeroState().cpu[i.rs1 := 2 - Wrap(i.imm)])
  }

  lemma TwoIsMisaligned(w: W)
    ensures !Aligned4(Alu(And, Plus(2 - w, w), 0xffff_fffe))
  {
  }

  lemma ZeroBaseAligned(w: W)
    ensures Aligned4(Alu(And, Plus(0, w), 0xffff_fffe)) <==> w & 2 == 0
  {
  }

  lemma {:induction false} JalrStateFails(i: Insn, ip: W, t: nat)
    requires i.op.Jalr? && t >= N_GLOBALS && i.rs1 != 0
    ensures !Agrees(i, ip, JalrState(i), VExec(JalrCode(i, ip, t), JalrState(i)), [])
  {
    hide Agrees, EndsAt, VExec, JalrCode, Plus, Alu, Wrap, Aligned4;
    JalrMatches(i, ip, t, JalrState(i));
    TwoIsMisaligned(Wrap(i.imm));
  }

  /** Translated jalr agrees with the handler from every state if and only if its base is x0 and its
      offset, whose lowest bit is dropped, is a multiple of four. */
  lemma {:induction false} JalrAgreesIff(i: Insn, ip: W, t: nat)
    requires i.op.Jalr? && t >= N_GLOBALS
    ensures AlwaysAgrees(i, ip, JalrCode(i, ip, t), []) <==> i.rs1 == 0 && Wrap(i.imm) & 2 == 0
  {
    hide Agrees, EndsAt, VExec, JalrCode, Plus, Alu, Wrap, Aligned4;
    if i.rs1 != 0 {
      JalrStateFails(i, ip, t);
      assert JalrState(i).cpu[0] == 0;
    } else {
      ZeroBaseAligned(Wrap(i.imm));
      forall vs: VState | vs.cpu[0] == 0
        ensures Agrees(i, ip, vs, VExec(JalrCode(i, ip, t), vs), []) <==> Wrap(i.imm) & 2 == 0
      {
        JalrMatches(i, ip, t, vs);
      }
      assert ZeroState().cpu[0] == 0;
    }
  }

  // ----- conditional branches -----

  function BranchCode(i: Insn): seq<Inst>
    requires i.op.Branch?
  {
    [Inst(Brcc(i.op.cc), [], [GprOp(i.rs1, I32), GprOp(i.rs2, I32)])]
  }

  lemma {:induction false} BranchMatches(i: Insn, ip: W, vs: VState)
    requires i.op.Branch? && vs.cpu[0] == 0
    ensures EndsAt(i, ip, vs, VExec(BranchCode(i), vs), [Plus(ip, Wrap(i.imm)), Plus(ip, 4)])
    ensures EndMatches(i, ip, vs, VExec(BranchCode(i), vs), [Plus(ip, Wrap(i.imm)), Plus(ip, 4)])
  {
    hide Alu, Plus, Load, Store, Holds, Wrap, VExec, VRead, Unaligned, EndMatches;
    var ins := BranchCode(i)[0];
    VExecOne(ins, vs);
    ReadGpr(vs, i.rs1, I32);
    ReadGpr(vs, i.rs2, I32);
    Reads2(vs, GprOp(i.rs1, I32), GprOp(i.rs2, I32));
    SetRd(vs.cpu, ip, 0, 0, Plus(ip, Wrap(i.imm)));
    SetRd(vs.cpu, ip, 0, 0, Plus(ip, 4));
    EndDecides(i, ip, vs, VExec(BranchCode(i), vs), [Plus(ip, Wrap(i.imm)), Plus(ip, 4)]);
  }

  lemma {:induction false} BranchEnds(i: Insn, ip: W)
    requires i.op.Branch?
    ensures Ends(i, ip, BranchCode(i), [Plus(ip, Wrap(i.imm)), Plus(ip, 4)])
  {
    hide EndMatches, EndsAt;
    forall vs: VState | vs.cpu[0] == 0
      ensures EndsAt(i, ip, vs, VExec(BranchCode(i), vs), [Plus(ip, Wrap(i.imm)), Plus(ip, 4)])
    {
      BranchMatches(i, ip, vs);
    }
  }

  /** Some state takes the branch. */
  predicate CanTake(i: Insn)
    requires i.op.Branch?
  {
    match i.op.cc
    case NE => i.rs1 != i.rs2
    case LT => i.rs1 != i.rs2
    case GT => i.rs1 != i.rs2
    case LTU => i.rs1 != i.rs2 && i.rs2 != 0
    case GTU => i.rs1 != i.rs2 && i.rs1 != 0
    case _ => true
  }

  /** A state that takes the branch if any does: equal operands, or one of them 1 or -1. */
  function TakingState(i: Insn): VState
    requires i.op.Branch?
  {
    var z := ZeroState().cpu;
    var c := match i.op.cc
      case NE => if i.rs1 != 0 then z[i.rs1 := 1] else z[i.rs2 := 1]
      case LT => if i.rs2 != 0 then z[i.rs2 := 1] else z[i.rs1 := 0xffff_ffff]
      case GT => if i.rs1 != 0 then z[i.rs1 := 1] else z[i.rs2 := 0xffff_ffff]
      case LTU => z[i.rs2 := 1]
      case GTU => z[i.rs1 := 1]
      case _ => z;
    ZeroState().(cpu := c[0 := 0])
  }

  lemma TakesBranch(i: Insn)
    requires i.op.Branch? && CanTake(i)
    ensures var vs := TakingState(i); vs.cpu[0] == 0 && Holds(i.op.cc, vs.cpu[i.rs1], vs.cpu[i.rs2])
  {
  }

  lemma NeverTakes(i: Insn, cpu: Cpu)
    requires i.op.Branch? && !CanTake(i) && cpu[0] == 0
    ensures !Holds(i.op.cc, cpu[i.rs1], cpu[i.rs2])
  {
    hide Holds;
    StrictNever(i.op.cc, cpu[i.rs1]);
    BelowZeroNever(cpu[i.rs1]);
    BelowZeroNever(cpu[i.rs2]);
  }

  lemma StrictNever(cc: CondCode, a: W)
    ensures cc.NE? || cc.LT? || cc.GT? || cc.LTU? || cc.GTU? ==> !Holds(cc, a, a)
  {
  }

  lemma BelowZeroNever(a: W)
    ensures !Holds(LTU, a, 0) && !Holds(GTU, 0, a)
  {
  }

  /** Translated branches agree with the handler from every state if and only if the offset is a
      multiple of four or no state takes the branch; otherwise `TakingState` is a state in which
      they differ. */
  lemma {:induction false} BranchAgreesIff(i: Insn, ip: W)
    requires i.op.Branch?
    ensures var succIp := [Plus(ip, Wrap(i.imm)), Plus(ip, 4)];
      && (AlwaysAgrees(i, ip, BranchCode(i), succIp) <==> i.imm % 4 == 0 || !CanTake(i))
      && (i.imm % 4 != 0 && CanTake(i) ==> !Agrees(i, ip, TakingState(i), VExec(BranchCode(i), TakingState(i)), succIp))
  {
    hide Agrees, EndsAt, VExec, BranchCode, Plus, Wrap, Holds, CanTake, TakingState;
    var succIp := [Plus(ip, Wrap(i.imm)), Plus(ip, 4)];
    if i.imm % 4 != 0 && CanTake(i) {
      TakesBranch(i);
      BranchMatches(i, ip, TakingState(i));
    } else {
      forall vs: VState | vs.cpu[0] == 0 ensures Agrees(i, ip, vs, VExec(BranchCode(i), vs), succIp) {
        if !CanTake(i) {
          NeverTakes(i, AtIp(vs.cpu, ip));
        }
        BranchMatches(i, ip, vs);
      }
    }
  }

  // ----- ecall and ebreak -----

  function TrapCode(i: Insn, ip: W): seq<Inst>
    requires i.op.Helper?
  {
    [IpMov(ip)] + [Inst(Hcall(i.op.stub), [], [VConst(i.raw)])]
  }

  lemma {:induction false} TrapMatches(i: Insn, ip: W, vs: VState)
    requires i.op == Helper(Ecall) || i.op == Helper(Ebreak)
    requires vs.cpu[0] == 0
    ensures EndsAt(i, ip, vs, VExec(TrapCode(i, ip), vs), [])
    ensures EndMatches(i, ip, vs, VExec(TrapCode(i, ip), vs), [])
  {
    hide Alu, Plus, Load, Store, Holds, Wrap, VExec, EndMatches;
    var ins := Inst(Hcall(i.op.stub), [], [VConst(i.raw)]);
    IpMovStep(ip, vs);
    SilentThen(IpMov(ip), [ins], vs);
    var s := vs.(cpu := AtIp(vs.cpu, ip));
    VExecOne(ins, s);
    Reads1(s, VConst(i.raw));
    EndDecides(i, ip, vs, VExec(TrapCode(i, ip), vs), []);
  }

  lemma {:induction false} TrapEnds(i: Insn, ip: W)
    requires i.op == Helper(Ecall) || i.op == Helper(Ebreak)
    ensures Ends(i, ip, TrapCode(i, ip), [])
  {
    hide EndMatches, EndsAt;
    forall vs: VState | vs.cpu[0] == 0 ensures EndsAt(i, ip, vs, VExec(TrapCode(i, ip), vs), []) {
      TrapMatches(i, ip, vs);
    }
  }
}
