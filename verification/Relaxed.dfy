/** What translated code does in place of the handlers, and exactly when the two differ.

    Translated jumps do not check the alignment of their target. A translated load to x0 with zero
    offset writes the base register. Everything else is as the handlers have it. */
module Relaxed {
  import opened Words
  import opened Qir
  import opened Machine
  import opened Guest

  /** A load to x0 with zero offset: the translator then names the address operand as destination. */
  predicate BadLoad(i: Insn) {
    i.op.LoadI? && i.rd == 0 && i.imm == 0
  }

  /** Such a load with base x0 has a constant as destination, which cannot be emitted. */
  predicate Refused(i: Insn) {
    BadLoad(i) && i.rs1 == 0
  }

  /** The handlers' traps without the alignment check. */
  function RTrapOf(i: Insn): W {
    if i.op.Illegal? then TRAP_ILLEGAL
    else if i.op == Helper(Ecall) then TRAP_ECALL
    else if i.op == Helper(Ebreak) then TRAP_EBREAK
    else 0
  }

  function RCpuAfter(i: Insn, cpu: Cpu, mem: Mem): Cpu {
    if BadLoad(i) && i.rs1 != 0 then AtIp(cpu[i.rs1 := RdValue(i, cpu, mem)], NextIp(i, cpu))
    else GuestCpuAfter(i, cpu, mem)
  }

  function RExec(i: Insn, s: IState): IRun {
    var trap := RTrapOf(i);
    if trap != 0 then IRun(IState(s.cpu[TRAP_WORD := trap], s.mem), GuestEvents(i, s.cpu), true)
    else IRun(IState(RCpuAfter(i, s.cpu, s.mem), GuestMemAfter(i, s.cpu, s.mem)), GuestEvents(i, s.cpu), false)
  }

  /** One step of translated code. */
  function Relaxing(code: Code): IState -> IRun {
    (s: IState) => RExec(code(s.cpu[IP_WORD]), s)
  }

  function RSteps(code: Code, s: IState, k: nat): IRun {
    Iterate(Relaxing(code), s, k)
  }

  // ----- where the two differ -----

  /** The handler traps on alignment, or the base register is overwritten with another value. */
  predicate Departs(i: Insn, s: IState) {
    || Unaligned(i, s.cpu)
    || (BadLoad(i) && i.rs1 != 0 && RdValue(i, s.cpu, s.mem) != s.cpu[i.rs1])
  }

  /** A translated instruction does what the handler does if and only if it does not depart. */
  lemma SameStepIff(i: Insn, s: IState)
    requires s.cpu[0] == 0
    ensures RExec(i, s) == IExec(i, s) <==> !Departs(i, s)
  {
    hide Plus, Alu, Holds, Load, Store, Wrap, GuestEvents, RdValue, NextIp, Unaligned;
    if Unaligned(i, s.cpu) {
      UnalignedOps(i, s.cpu);
    } else if BadLoad(i) && i.rs1 != 0 {
      var w, ip := RdValue(i, s.cpu, s.mem), NextIp(i, s.cpu);
      assert GuestCpuAfter(i, s.cpu, s.mem)[i.rs1] == s.cpu[i.rs1] && RCpuAfter(i, s.cpu, s.mem)[i.rs1] == w;
      if w == s.cpu[i.rs1] {
        assert AtIp(s.cpu[i.rs1 := w], ip) == GuestCpuAfter(i, s.cpu, s.mem);
      }
    }
  }

  lemma UnalignedOps(i: Insn, cpu: Cpu)
    requires Unaligned(i, cpu)
    ensures i.op.Jal? || i.op.Jalr? || i.op.Branch?
  {
  }

  /** x0 stays zero in translated code too. */
  lemma RelaxedX0(i: Insn, s: IState)
    requires s.cpu[0] == 0
    ensures RExec(i, s).s.cpu[0] == 0
  {
    hide Plus, Alu, Holds, Load, Store, Wrap, GuestEvents, RdValue, NextIp, GuestMemAfter;
  }

  // ----- steps of either -----

  lemma {:induction false} NoSteps(f: IState -> IRun, s: IState)
    ensures Iterate(f, s, 0) == IRun(s, [], false)
  {
  }

  lemma {:induction false} OneStep(f: IState -> IRun, s: IState)
    ensures Iterate(f, s, 1) == f(s)
  {
    var r := f(s);
    assert Iterate(f, r.s, 0) == IRun(r.s, [], false);
    assert r.ev + [] == r.ev;
  }

  /** One more step after `k` of them. */
  lemma {:induction false} StepAfter(f: IState -> IRun, s: IState, k: nat)
    requires !Iterate(f, s, k).trapped
    ensures var t := Iterate(f, s, k); Iterate(f, s, k + 1) == Then(t, f(t.s))
  {
    IterateAppend(f, s, k, 1);
    OneStep(f, Iterate(f, s, k).s);
  }

  lemma {:induction false} MoreSteps(f: IState -> IRun, s: IState, j: nat, k: nat)
    requires !Iterate(f, s, j).trapped
    ensures Iterate(f, s, j + k) == Then(Iterate(f, s, j), Iterate(f, Iterate(f, s, j).s, k))
  {
    IterateAppend(f, s, j, k);
  }

  lemma {:induction false} TrappedStays(f: IState -> IRun, s: IState, j: nat, k: nat)
    requires Iterate(f, s, j).trapped && j <= k
    ensures Iterate(f, s, k) == Iterate(f, s, j)
  {
    IterateAppend(f, s, j, k - j);
  }

  lemma {:induction false} Untrapped(f: IState -> IRun, s: IState, j: nat)
    requires !Iterate(f, s, j + 1).trapped
    ensures !Iterate(f, s, j).trapped
  {
    IterateAppend(f, s, j, 1);
  }

  // ----- runs of either -----

  /** After `j` steps the interpreter is about to execute an instruction that departs. */
  ghost predicate DepartsAt(cm: Code, s: IState, j: nat) {
    var t := ISteps(cm, s, j);
    !t.trapped && Departs(cm(t.s.cpu[IP_WORD]), t.s)
  }

  ghost predicate DepartsBefore(cm: Code, s: IState, k: nat) {
    exists j: nat :: j < k && DepartsAt(cm, s, j) && RSteps(cm, s, j) == ISteps(cm, s, j)
  }

  lemma {:induction false} RunX0(cm: Code, s: IState, k: nat)
    requires s.cpu[0] == 0
    ensures RSteps(cm, s, k).s.cpu[0] == 0
    decreases k
  {
    hide RExec;
    if k > 0 {
      var f := Relaxing(cm);
      RunX0(cm, s, k - 1);
      if Iterate(f, s, k - 1).trapped {
        TrappedStays(f, s, k - 1, k);
      } else {
        StepAfter(f, s, k - 1);
        var t := Iterate(f, s, k - 1);
        RelaxedX0(cm(t.s.cpu[IP_WORD]), t.s);
      }
    }
  }

  /** `k` steps of translated code are `k` steps of the interpreter, unless one of those very steps
      departs; and the first that does is reached by both. */
  lemma {:induction false} SameOrDeparted(cm: Code, s: IState, k: nat)
    requires s.cpu[0] == 0
    ensures RSteps(cm, s, k) == ISteps(cm, s, k) || DepartsBefore(cm, s, k)
    decreases k
  {
    hide RExec, IExec, Departs;
    var f, g := Relaxing(cm), Interpreter(cm);
    if k == 0 {
      NoSteps(f, s);
      NoSteps(g, s);
    } else {
      SameOrDeparted(cm, s, k - 1);
      if RSteps(cm, s, k - 1) == ISteps(cm, s, k - 1) {
        var t := ISteps(cm, s, k - 1);
        if t.trapped {
          TrappedStays(f, s, k - 1, k);
          TrappedStays(g, s, k - 1, k);
        } else {
          RunX0(cm, s, k - 1);
          StepAfter(f, s, k - 1);
          StepAfter(g, s, k - 1);
          SameStepIff(cm(t.s.cpu[IP_WORD]), t.s);
          if Departs(cm(t.s.cpu[IP_WORD]), t.s) {
            assert DepartsAt(cm, s, k - 1);
          }
        }
      }
    }
  }

  /** A departure shows: after it, translated code and interpreter are in different states. */
  lemma {:induction false} DepartureShows(cm: Code, s: IState, j: nat)
    requires s.cpu[0] == 0 && DepartsAt(cm, s, j) && RSteps(cm, s, j) == ISteps(cm, s, j)
    ensures RSteps(cm, s, j + 1) != ISteps(cm, s, j + 1)
  {
    hide RExec, IExec, Departs;
    var t := ISteps(cm, s, j);
    RunX0(cm, s, j);
    StepAfter(Relaxing(cm), s, j);
    StepAfter(Interpreter(cm), s, j);
    var i := cm(t.s.cpu[IP_WORD]);
    SameStepIff(i, t.s);
    SameEvents(i, t.s);
  }

  lemma SameEvents(i: Insn, s: IState)
    ensures RExec(i, s).ev == IExec(i, s).ev
  {
    hide GuestEvents, TrapOf, RCpuAfter, GuestCpuAfter, GuestMemAfter;
  }
}
