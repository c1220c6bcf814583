/** A run that ends in a jump through null: an indirect branch to address zero while the entry of its
    hash is empty. */
module NullRun {
  import opened Words
  import opened Qir
  import opened Machine
  import opened Guest
  import opened Relaxed
  import opened TransRuns
  import opened Emit
  import opened EmitRuns
  import opened Pipeline
  import opened TCache
  import opened Chain

  /** Every word is `jalr x0, 0(x0)`. */
  const JUMP := Insn(Jalr, 0, 0, 0, 0, 0x67)

  function AllJumps(): Code {
    (_: W) => JUMP
  }

  const ENTRY: W := 4

  /** Code for it: the target goes to RSI, then the indirect branch. */
  const PROG := XProg([XMov(PReg(I32, RSI), Const(I32, 0)), XBrind], [0])

  lemma ZeroTarget(cpu: Cpu)
    requires cpu[0] == 0
    ensures NextIp(JUMP, cpu) == 0
  {
    assert Wrap(0) == 0;
  }

  /** The guest jumps to zero and changes nothing else. */
  lemma GuestJumps(s: IState)
    requires s.cpu[0] == 0
    ensures RSteps(AllJumps(), s, 1) == IRun(IState(AtIp(s.cpu, 0), s.mem), [], false)
  {
    ZeroTarget(s.cpu);
    OneStep(Relaxing(AllJumps()), s);
    hide Plus, Alu, Wrap, NextIp;
    assert s.cpu[0 := RdValue(JUMP, s.cpu, s.mem)][0 := 0] == s.cpu;
  }

  /** The state in which the code leaves. */
  function Loaded(s: XState): XState {
    s.(p := s.p.(regs := s.p.regs[RSI := 0]))
  }

  lemma MovesZero(s: XState)
    ensures XStep(PROG.buf[0], s) == XRun(Loaded(s), [], XFall)
    ensures XStep(PROG.buf[1], Loaded(s)) == XRun(Loaded(s), [], XLeave(0, true))
  {
  }

  lemma {:induction false} CodeLeaves(s: XState, m: nat)
    requires m >= 2
    ensures Linear(PROG, 0, s, m) == XTrace(Loaded(s), [], Left(1, 0, true))
  {
    MovesZero(s);
    hide XStep;
    var t := Linear(PROG, 1, Loaded(s), m - 1);
    assert t == XTrace(Loaded(s), [], Left(1, 0, true));
  }

  lemma {:induction false} CodeRuns(s: XState, m: nat)
    requires m < 2
    ensures Linear(PROG, 0, s, m).pos.At?
  {
    MovesZero(s);
    hide XStep;
    if m == 1 {
      assert Linear(PROG, 1, Loaded(s), 0).pos == At(1);
    }
  }

  lemma {:induction false} CodeOk(s: XState, m: nat)
    requires s.p.cpu[0] == 0
    ensures RunOk(AllJumps(), ENTRY, s, Linear(PROG, 0, s, m)) && Live(AllJumps(), ENTRY, PROG, s, m)
  {
    hide Linear, RSteps;
    var g := GuestStart(s, ENTRY);
    GuestJumps(g);
    if m < 2 {
      CodeRuns(s, m);
    } else {
      CodeLeaves(s, m);
      assert AtIp(g.cpu, 0) == AtIp(s.p.cpu, 0);
      assert ReachedBy(AllJumps(), g, Linear(PROG, 0, s, m), 1);
    }
    CodeLeaves(s, 2);
    assert Advances(AllJumps(), ENTRY, PROG, s, m, 2, 0);
  }

  lemma {:induction false} CodeGood()
    ensures UnitGood(AllJumps(), ENTRY, PROG)
  {
    hide Linear, RunOk, Live;
    forall s: XState, m: nat | s.p.cpu[0] == 0
      ensures RunOk(AllJumps(), ENTRY, s, Linear(PROG, PROG.labels[0], s, m)) && Live(AllJumps(), ENTRY, PROG, s, m)
    {
      CodeOk(s, m);
    }
    forall s: XState, m: nat ensures SameBases(s.p, Linear(PROG, PROG.labels[0], s, m).s.p) {
      LinearKeepsBases(PROG, 0, s, m);
    }
  }

  /** All zero but the ip. */
  function StartState(): XState {
    var cpu := seq(CPU_WORDS, _ => 0)[IP_WORD := ENTRY];
    var frame: Frame := seq(FRAME_SIZE, _ => 0);
    XState(PState(seq(GPR_NUM, _ => 0), frame, cpu, map[], (_: nat, _: nat) => 0, 0, Host(0, 0, 0, 0, map[])), None)
  }

  const NOTHING := Tables(EMPTY, [], map[])

  /** Entry 4 compiled and remembered as an indirect target, under hash 1. */
  function OneBlock(): Tables {
    CachedBrind(Compiled(NOTHING, ENTRY, PROG), TBlock(ENTRY, 0))
  }

  lemma ZeroEntryEmpty()
    ensures BrindAt(OneBlock().cache, 0) == BrindEntry(0, None)
  {
    assert L1Hash(4) == 1 && L1Hash(0) == 0;
    assert L1Key(4) != L1Key(0);
  }

  /** Dispatch, run the block, jump through null: the failing input of the inlined probe. */
  lemma {:induction false} RunsIntoNull() returns (run: seq<Sys>)
    ensures Run(AllJumps(), run) && run[|run| - 1].mode.NullJump?
  {
    var s := StartState();
    var a := Sys(NOTHING, s, Dispatch(None), IState(s.p.cpu, s.p.mem), [], []);
    var b := a.(tables := OneBlock(), mode := Inside(0), visited := [ENTRY]);
    var c := b.(s := Loaded(s), mode := NullJump);
    run := [a, b, c];
    assert Step(AllJumps(), a, b) by {
      CodeGood();
      hide UnitGood, L1Key;
      assert Compilable(ENTRY) && !Has(EMPTY, ENTRY);
    }
    assert Step(AllJumps(), b, c) by {
      CodeLeaves(s, 2);
      ZeroEntryEmpty();
      hide Linear, OneBlock, BrindAt;
      assert UnitRun(b, 2) == XTrace(Loaded(s), [], Left(1, 0, true));
      assert ExitTo(Ran(b, UnitRun(b, 2)), c, 0, UnitRun(b, 2).pos);
    }
  }
}
