/** End to end: every run of the dispatcher, linker and compiled code is a run of relaxed guest steps,
    and of the interpreter up to the first step that departs from it. */
module ChainRuns {
  import opened Words
  import opened Machine
  import opened Guest
  import opened Relaxed
  import opened TransRuns
  import opened Emit
  import opened EmitRuns
  import opened Pipeline
  import opened TCache
  import opened Chain

  // ----- relaxed steps -----

  lemma StepTrapWord(i: Insn, s: IState)
    requires !RExec(i, s).trapped
    ensures RExec(i, s).s.cpu[TRAP_WORD] == s.cpu[TRAP_WORD]
  {
    hide Plus, GuestEvents, GuestMemAfter, RdValue, Holds, Alu, NextIp, RTrapOf;
  }

  /** Only a trap writes the trap number. */
  lemma {:induction false} StepsTrapWord(cm: Code, s: IState, k: nat)
    requires !RSteps(cm, s, k).trapped
    ensures RSteps(cm, s, k).s.cpu[TRAP_WORD] == s.cpu[TRAP_WORD]
    decreases k
  {
    hide RExec, RSteps;
    if k == 0 {
      StartOf(cm, s);
    } else {
      UntrappedOf(cm, s, k - 1);
      StepsTrapWord(cm, s, k - 1);
      StepOf(cm, s, k - 1);
      var t := RSteps(cm, s, k - 1);
      StepTrapWord(cm(t.s.cpu[IP_WORD]), t.s);
    }
  }

  lemma UntrappedOf(cm: Code, s: IState, j: nat)
    requires !RSteps(cm, s, j + 1).trapped
    ensures !RSteps(cm, s, j).trapped
  {
    Untrapped(Relaxing(cm), s, j);
  }

  // ----- following the guest -----

  /** `k` relaxed steps from the origin lead to the guest state of `a`, about to execute `ip`. */
  ghost predicate GuestAt(cm: Code, a: Sys, ip: W, k: nat) {
    && RSteps(cm, a.origin, k) == IRun(GuestStart(a.s, ip), a.ev, false)
    && a.origin.cpu[0] == 0 && a.s.p.cpu[0] == 0 && a.s.p.cpu[TRAP_WORD] == 0
  }

  ghost predicate GuestStands(cm: Code, a: Sys, ip: W) {
    exists k :: GuestAt(cm, a, ip, k)
  }

  ghost predicate TrappedAt(cm: Code, a: Sys, k: nat) {
    a.origin.cpu[0] == 0 && RSteps(cm, a.origin, k) == IRun(IState(a.s.p.cpu, a.s.p.mem), a.ev, true)
  }

  ghost predicate GuestTrapped(cm: Code, a: Sys) {
    exists k :: TrappedAt(cm, a, k)
  }

  /** The address the guest is at: the block's entry, zero after a null jump, else the saved ip. */
  function NextAddr(a: Sys): W {
    match a.mode
    case Inside(code) => if code < |a.tables.store| then a.tables.store[code].entry else 0
    case NullJump => 0
    case _ => IpOf(a.s)
  }

  /** The system is where relaxed steps are, with the same registers, memory and events. */
  ghost predicate Follows(cm: Code, a: Sys) {
    if a.mode.Trapped? then GuestTrapped(cm, a) else GuestStands(cm, a, NextAddr(a))
  }

  /** It gives up only within 64 steps of an illegal word or a load with a constant destination, and
      outside the compilable addresses. */
  ghost predicate EndsRightly(cm: Code, a: Sys) {
    && (a.mode.Panicked? ==> EntryIllegal(cm, IpOf(a.s)))
    && (a.mode.Rejected? ==> EntryRefused(cm, IpOf(a.s)))
    && (a.mode.Asserted? ==> !Compilable(IpOf(a.s)))
  }

  lemma FreshFollows(cm: Code, a: Sys)
    requires Fresh(a)
    ensures Follows(cm, a)
  {
    hide RSteps;
    StartOf(cm, a.origin);
    assert AtIp(a.s.p.cpu, IpOf(a.s)) == a.s.p.cpu;
    assert GuestAt(cm, a, IpOf(a.s), 0);
  }

  /** What `GuestStands` depends on. */
  lemma StandsSame(cm: Code, a: Sys, b: Sys, ip: W)
    requires GuestStands(cm, a, ip) && b.origin == a.origin && b.ev == a.ev && b.s.p.mem == a.s.p.mem
    requires b.s.p.cpu == a.s.p.cpu || b.s.p.cpu == AtIp(a.s.p.cpu, ip)
    ensures GuestStands(cm, b, ip)
  {
    hide RSteps;
    var k: nat :| GuestAt(cm, a, ip, k);
    assert AtIp(AtIp(a.s.p.cpu, ip), ip) == AtIp(a.s.p.cpu, ip);
    assert GuestAt(cm, b, ip, k);
  }

  lemma EntersFollows(cm: Code, a: Sys, b: Sys, t: Tables, code: nat)
    requires Enters(a, b, t, code) && GuestStands(cm, a, t.store[code].entry)
    ensures Follows(cm, b)
  {
    hide GuestStands;
    StandsSame(cm, a, b, t.store[code].entry);
  }

  lemma BlockEntry(cm: Code, t: Tables, ip: W)
    requires TablesOk(cm, t) && Has(t.cache, ip)
    ensures t.cache.blocks[Key(ip)].code < |t.store| && t.store[t.cache.blocks[Key(ip)].code].entry == ip
  {
    hide UnitGood, Coherent, PatchOk, LinkOk;
    assert BlockOk(t, Key(ip));
  }

  lemma PatchEntry(cm: Code, t: Tables, slot: SlotId)
    requires TablesOk(cm, t) && slot in t.patched && IsSlot(t.store, slot)
    ensures t.patched[slot] < |t.store| && t.store[t.patched[slot]].entry == Gip(t.store, slot)
  {
    hide UnitGood, Coherent, LinkOk, IsSlot, Gip, BlockOk;
    assert PatchOk(t, slot);
    BlockEntry(cm, t, Gip(t.store, slot));
  }

  lemma ProbeEntry(cm: Code, t: Tables, ip: W)
    requires TablesOk(cm, t) && BrindAt(t.cache, ip).gip == ip
    ensures var code := BrindAt(t.cache, ip).code;
      if code.None? then ip == 0 else code.value < |t.store| && t.store[code.value].entry == ip
  {
    hide TablesOk, L1Key, Coherent;
    CacheOf(cm, t);
    ProbeZero(t.cache, ip);
    if BrindAt(t.cache, ip).code.Some? {
      ProbeHit(t.cache, ip);
      BlockEntry(cm, t, ip);
    }
  }

  lemma DispatchFollows(cm: Code, a: Sys, b: Sys)
    requires Safe(cm, a) && Follows(cm, a) && DispatchStep(cm, a, b)
    ensures Follows(cm, b) && EndsRightly(cm, b)
  {
    hide UnitGood, TablesOk, Compilable, L1Key, RSteps, EntryIllegal, EntryRefused;
    var t, ip := a.tables, IpOf(a.s);
    assert a.s.p.cpu[TRAP_WORD] == 0;
    hide GuestStands;
    if Has(t.cache, ip) {
      BlockEntry(cm, t, ip);
      EntersFollows(cm, a, b, b.tables, t.cache.blocks[Key(ip)].code);
    } else if !Compilable(ip) || b.mode.Panicked? || b.mode.Rejected? {
      StandsSame(cm, a, b, ip);
    } else {
      EntersFollows(cm, a, b, b.tables, |t.store|);
    }
  }

  lemma SlotFollows(cm: Code, a: Sys, b: Sys, slot: SlotId, gip: W)
    requires TablesOk(cm, a.tables) && IsSlot(a.tables.store, slot) && Gip(a.tables.store, slot) == gip
    requires SlotStep(a, b, slot, gip) && GuestStands(cm, a, gip)
    ensures Follows(cm, b) && EndsRightly(cm, b)
  {
    hide TablesOk, L1Key, GuestStands, IsSlot, Gip;
    var t := a.tables;
    if slot in t.patched {
      PatchEntry(cm, t, slot);
      EntersFollows(cm, a, b, t, t.patched[slot]);
    } else if Has(t.cache, gip) {
      BlockEntry(cm, t, gip);
      EntersFollows(cm, a, b, b.tables, t.cache.blocks[Key(gip)].code);
    } else {
      StandsSame(cm, a, b, gip);
    }
  }

  lemma BrindFollows(cm: Code, a: Sys, b: Sys, ip: W)
    requires TablesOk(cm, a.tables) && BrindStep(a, b, ip) && GuestStands(cm, a, ip)
    ensures Follows(cm, b) && EndsRightly(cm, b)
  {
    hide TablesOk, L1Key, GuestStands, BrindAt;
    var t := a.tables;
    if BrindAt(t.cache, ip).gip == ip {
      ProbeEntry(cm, t, ip);
      if BrindAt(t.cache, ip).code.Some? {
        EntersFollows(cm, a, b, t, BrindAt(t.cache, ip).code.value);
      } else {
        StandsSame(cm, a, b, ip);
      }
    } else {
      var a1 := a.(s := WithIp(a.s, ip));
      StandsSame(cm, a, a1, ip);
      if Has(t.cache, ip) {
        BlockEntry(cm, t, ip);
        EntersFollows(cm, a1, b, b.tables, t.cache.blocks[Key(ip)].code);
      } else {
        StandsSame(cm, a1, b, ip);
      }
    }
  }

  /** Where the guest is when the code of a block has come to an end. */
  lemma UnitFollows(cm: Code, a: Sys, t: XTrace, entry: W)
    requires GuestStands(cm, a, entry) && RunOk(cm, entry, a.s, t) && !t.pos.At?
    ensures match t.pos
      case Left(_, ip, _) => GuestStands(cm, Ran(a, t), ip)
      case Stopped => GuestTrapped(cm, Ran(a, t))
      case _ => false
  {
    hide RSteps;
    var k: nat :| GuestAt(cm, a, entry, k);
    var s := GuestStart(a.s, entry);
    var j: nat :| ReachedBy(cm, s, t, j);
    MoreOf(cm, a.origin, k, j);
    if t.pos.Left? {
      StepsTrapWord(cm, s, j);
      assert GuestAt(cm, Ran(a, t), t.pos.ip, k + j);
    } else {
      assert TrappedAt(cm, Ran(a, t), k + j);
    }
  }

  lemma UnitOf(cm: Code, a: Sys, m: nat)
    requires TablesOk(cm, a.tables) && Running(a) && Startable(a.s)
    ensures RunOk(cm, a.tables.store[a.mode.code].entry, a.s, UnitRun(a, m))
  {
    hide Coherent, BlockOk, PatchOk, LinkOk, RunOk, Linear;
    var u := a.tables.store[a.mode.code];
    assert UnitGood(cm, u.entry, u.prog);
  }

  lemma RunFollows(cm: Code, a: Sys, b: Sys)
    requires Safe(cm, a) && Follows(cm, a) && RunStep(a, b)
    ensures Follows(cm, b) && EndsRightly(cm, b)
  {
    hide TablesOk, Linear, SlotStep, BrindStep, RunOk, IsSlot, Gip;
    var m :| ExitTo(Ran(a, UnitRun(a, m)), b, a.mode.code, UnitRun(a, m).pos);
    var u, t := a.tables.store[a.mode.code], UnitRun(a, m);
    assert a.s.p.cpu[0] == 0;
    UnitOf(cm, a, m);
    hide GuestStands, GuestTrapped;
    UnitFollows(cm, a, t, u.entry);
    var a1 := Ran(a, t);
    if t.pos.Left? {
      if t.pos.indirect {
        BrindFollows(cm, a1, b, t.pos.ip);
      } else {
        LeftSlot(a, m);
        SlotFollows(cm, a1, b, SlotId(a.mode.code, t.pos.pc), t.pos.ip);
      }
    } else {
      TrappedSame(cm, a1, b);
    }
  }

  lemma TrappedSame(cm: Code, a: Sys, b: Sys)
    requires GuestTrapped(cm, a) && b.origin == a.origin && b.ev == a.ev && b.s == a.s
    ensures GuestTrapped(cm, b)
  {
    hide RSteps;
    var k: nat :| TrappedAt(cm, a, k);
    assert TrappedAt(cm, b, k);
  }

  lemma LeftSlot(a: Sys, m: nat)
    requires Running(a) && UnitRun(a, m).pos.Left? && !UnitRun(a, m).pos.indirect
    ensures var slot := SlotId(a.mode.code, UnitRun(a, m).pos.pc);
      IsSlot(a.tables.store, slot) && Gip(a.tables.store, slot) == UnitRun(a, m).pos.ip
  {
    hide Linear;
    var prog := a.tables.store[a.mode.code].prog;
    LeftAt(prog, prog.labels[0], a.s, m);
  }

  lemma StepFollows(cm: Code, a: Sys, b: Sys)
    requires Safe(cm, a) && Step(cm, a, b) && Follows(cm, a)
    ensures Follows(cm, b) && EndsRightly(cm, b)
  {
    hide Safe, DispatchStep, RunStep, Follows;
    if DispatchStep(cm, a, b) {
      DispatchFollows(cm, a, b);
    } else if RunStep(a, b) {
      RunFollows(cm, a, b);
    } else {
      FreshFollows(cm, b);
    }
  }

  /** In every reachable state, however blocks were compiled, linked, cached and chained, the guest
      is where some number of relaxed steps since the environment last let it run have brought it,
      with the same registers, memory and events. */
  lemma {:induction false} RunFollowsRelaxed(cm: Code, run: seq<Sys>, i: nat)
    requires Run(cm, run) && i < |run|
    ensures Follows(cm, run[i]) && EndsRightly(cm, run[i])
  {
    hide Safe, Step, Follows, EndsRightly;
    if i == 0 {
      StartFollows(cm, run[0]);
    } else {
      RunFollowsRelaxed(cm, run, i - 1);
      RunSafe(cm, run, i - 1);
      StepFollows(cm, run[i - 1], run[i]);
    }
  }

  lemma StartFollows(cm: Code, a: Sys)
    requires Init(a)
    ensures Follows(cm, a) && EndsRightly(cm, a)
  {
    hide Follows;
    FreshFollows(cm, a);
  }

  // ----- following the interpreter -----

  /** `k` steps of `f` since the origin lead exactly to the registers, memory and events of `a`, in a
      trap or about to execute `NextAddr(a)`. */
  ghost predicate Reaches(f: IState -> IRun, a: Sys, k: nat) {
    Iterate(f, a.origin, k) ==
    if a.mode.Trapped? then IRun(IState(a.s.p.cpu, a.s.p.mem), a.ev, true)
      else IRun(GuestStart(a.s, NextAddr(a)), a.ev, false)
  }

  /** The guest has taken `k` steps, and they are the interpreter's unless one of them departed. */
  ghost predicate InStep(cm: Code, a: Sys, k: nat) {
    && Reaches(Relaxing(cm), a, k)
    && (Reaches(Interpreter(cm), a, k) || DepartsBefore(cm, a.origin, k))
  }

  lemma FollowsInStep(cm: Code, a: Sys)
    requires Follows(cm, a)
    ensures exists k :: InStep(cm, a, k)
  {
    hide ISteps, Departs, Iterate, DepartsBefore;
    var k: nat :| if a.mode.Trapped? then TrappedAt(cm, a, k) else GuestAt(cm, a, NextAddr(a), k);
    SameOrDeparted(cm, a.origin, k);
    InterpreterSteps(cm, a.origin, k);
    assert InStep(cm, a, k);
  }

  lemma {:induction false} InterpreterSteps(cm: Code, s: IState, k: nat)
    ensures ISteps(cm, s, k) == Iterate(Interpreter(cm), s, k)
  {
  }

  /** End-to-end correctness: every reachable state is an interpreter state, reached by as many steps
      as the guest has taken, unless one of the steps already taken departed from the interpreter:
      a jump to a misaligned target, or a load to x0 with zero offset that changed its base. */
  lemma {:induction false} RunFollowsInterpreter(cm: Code, run: seq<Sys>, i: nat)
    requires Run(cm, run) && i < |run|
    ensures exists k :: InStep(cm, run[i], k)
  {
    hide Run, Follows, InStep;
    RunFollowsRelaxed(cm, run, i);
    FollowsInStep(cm, run[i]);
  }

  // ----- precise state -----

  /** Event `e` is what guest step `j + 1` does, its snapshot is the guest state just before it, and
      that is the interpreter's state too unless an earlier step departed. */
  ghost predicate PreciseAt(cm: Code, s: IState, j: nat, e: Event) {
    var t := RSteps(cm, s, j);
    && !t.trapped && e.cpu == t.s.cpu && GuestEvents(cm(t.s.cpu[IP_WORD]), t.s.cpu) == [e]
    && (t == ISteps(cm, s, j) || DepartsBefore(cm, s, j))
  }

  lemma StepEvents(i: Insn, s: IState)
    ensures RExec(i, s).ev == GuestEvents(i, s.cpu) && |GuestEvents(i, s.cpu)| <= 1
    ensures forall e :: e in GuestEvents(i, s.cpu) ==> e.cpu == s.cpu
  {
    hide Plus, GuestMemAfter, RCpuAfter, RdValue, Holds, Alu, RTrapOf, Wrap, Trunc;
  }

  lemma {:induction false} EventsPrecise(cm: Code, s: IState, k: nat, n: nat)
    requires s.cpu[0] == 0 && n < |RSteps(cm, s, k).ev|
    ensures exists j: nat :: j < k && PreciseAt(cm, s, j, RSteps(cm, s, k).ev[n])
    decreases k
  {
    hide ISteps, RSteps, RExec, GuestEvents, DepartsBefore;
    if k == 0 {
      StartOf(cm, s);
    } else {
      var t := RSteps(cm, s, k - 1);
      if n < |t.ev| {
        EventsPrecise(cm, s, k - 1, n);
      }
      if t.trapped {
        TrappedOf(cm, s, k - 1);
      } else {
        StepOf(cm, s, k - 1);
        var i := cm(t.s.cpu[IP_WORD]);
        StepEvents(i, t.s);
        if n < |t.ev| {
          assert RSteps(cm, s, k).ev[n] == t.ev[n];
        } else {
          assert RSteps(cm, s, k).ev[n] == GuestEvents(i, t.s.cpu)[0];
          SameOrDeparted(cm, s, k - 1);
          assert PreciseAt(cm, s, k - 1, RSteps(cm, s, k).ev[n]);
        }
      }
    }
  }

  lemma TrappedOf(cm: Code, s: IState, j: nat)
    requires RSteps(cm, s, j).trapped
    ensures RSteps(cm, s, j + 1) == RSteps(cm, s, j)
  {
    TrappedStays(Relaxing(cm), s, j, j + 1);
  }

  // ----- progress -----

  /** `m` machine steps into the block, the code has come to an end, or `m >= n` and `k >= n` guest steps
      from the origin reach the same registers, memory and events. */
  ghost predicate BlockAdvances(cm: Code, a: Sys, n: nat, m: nat, k: nat)
    requires Running(a)
  {
    var t, it := UnitRun(a, m), RSteps(cm, a.origin, k);
    t.pos.At? ==>
      && m >= n && k >= n && !it.trapped && it.ev == a.ev + t.ev && it.s.mem == t.s.p.mem
      && exists ip :: it.s.cpu == AtIp(t.s.p.cpu, ip)
  }

  /** No reachable block falls silent: it ends, or the guest advances without bound. */
  lemma {:induction false} RunAdvances(cm: Code, run: seq<Sys>, i: nat, n: nat)
    requires Run(cm, run) && i < |run| && Running(run[i])
    ensures exists m, k :: BlockAdvances(cm, run[i], n, m, k)
  {
    RunSafe(cm, run, i);
    RunFollowsRelaxed(cm, run, i);
    hide Run;
    FollowingAdvances(cm, run[i], n);
  }

  lemma FollowingAdvances(cm: Code, a: Sys, n: nat)
    requires Safe(cm, a) && Follows(cm, a) && Running(a)
    ensures exists m, k :: BlockAdvances(cm, a, n, m, k)
  {
    hide TablesOk, RSteps, Linear;
    var u := a.tables.store[a.mode.code];
    var k: nat :| GuestAt(cm, a, u.entry, k);
    LiveOf(cm, a, n);
    var s := GuestStart(a.s, u.entry);
    var m: nat, j: nat :| Advances(cm, u.entry, u.prog, a.s, n, m, j);
    MoreOf(cm, a.origin, k, j);
    assert BlockAdvances(cm, a, n, m, k + j);
  }

  lemma LiveOf(cm: Code, a: Sys, n: nat)
    requires TablesOk(cm, a.tables) && Running(a) && Startable(a.s)
    ensures Live(cm, a.tables.store[a.mode.code].entry, a.tables.store[a.mode.code].prog, a.s, n)
  {
    hide Coherent, BlockOk, PatchOk, LinkOk, UnitOk, Live;
    var u := a.tables.store[a.mode.code];
    assert UnitGood(cm, u.entry, u.prog);
  }

  // ----- precise state of runs -----

  /** The accesses of a block that is still running are accesses of guest steps too. */
  lemma BlockEvents(cm: Code, a: Sys, m: nat) returns (k: nat)
    requires Safe(cm, a) && Follows(cm, a) && Running(a)
    ensures a.origin.cpu[0] == 0 && a.ev + UnitRun(a, m).ev <= RSteps(cm, a.origin, k).ev
  {
    hide TablesOk, RSteps, Linear;
    var u := a.tables.store[a.mode.code];
    var j: nat :| GuestAt(cm, a, u.entry, j);
    LiveOf(cm, a, m);
    var m': nat, i: nat :| Advances(cm, u.entry, u.prog, a.s, m, m', i);
    var pc := u.prog.labels[0];
    if !UnitRun(a, m').pos.At? {
      UnitOf(cm, a, m');
      i :| ReachedBy(cm, GuestStart(a.s, u.entry), UnitRun(a, m'), i);
    }
    if m <= m' {
      LinearEvents(u.prog, pc, a.s, m, m');
    } else {
      LinearStable(u.prog, pc, a.s, m', m);
    }
    MoreOf(cm, a.origin, j, i);
    k := j + i;
  }

  /** All accesses since the origin, those of the running block `m` machine steps into it included. */
  ghost function History(a: Sys, m: nat): seq<Event> {
    if Running(a) then a.ev + UnitRun(a, m).ev else a.ev
  }

  lemma FollowingEvents(cm: Code, a: Sys, m: nat) returns (k: nat)
    requires Safe(cm, a) && Follows(cm, a)
    ensures a.origin.cpu[0] == 0 && History(a, m) <= RSteps(cm, a.origin, k).ev
  {
    hide Safe, RSteps, UnitRun;
    if Running(a) {
      k := BlockEvents(cm, a, m);
    } else {
      k :| a.origin.cpu[0] == 0 && RSteps(cm, a.origin, k).ev == a.ev;
    }
  }

  /** Precise state: at every load, store and trap of a run, in blocks that have been left and `m`
      machine steps into the one that is running, whether or not it is ever left, the CPU state in
      memory holds all guest registers as they were just before the guest instruction, and that
      instruction's address. */
  lemma {:induction false} RunPrecise(cm: Code, run: seq<Sys>, i: nat, m: nat, n: nat)
    requires Run(cm, run) && i < |run| && n < |History(run[i], m)|
    ensures exists j :: PreciseAt(cm, run[i].origin, j, History(run[i], m)[n])
  {
    hide RSteps, Run, PreciseAt, Safe, Follows, History;
    RunSafe(cm, run, i);
    RunFollowsRelaxed(cm, run, i);
    var k := FollowingEvents(cm, run[i], m);
    EventsPrecise(cm, run[i].origin, k, n);
  }

  // ----- exits -----

  function Entered(a: Sys, t: Tables, code: nat): Sys
    requires code < |t.store|
  {
    a.(tables := t, mode := Inside(code), visited := a.visited + [t.store[code].entry])
  }

  lemma SlotExits(cm: Code, a: Sys, slot: SlotId, gip: W) returns (b: Sys)
    requires TablesOk(cm, a.tables) && IsSlot(a.tables.store, slot) && Gip(a.tables.store, slot) == gip
      && a.mode.Inside?
    ensures SlotStep(a, b, slot, gip)
  {
    hide TablesOk, IsSlot, Gip, L1Key;
    var t := a.tables;
    if slot in t.patched {
      PatchEntry(cm, t, slot);
      b := Entered(a, t, t.patched[slot]);
    } else if Has(t.cache, gip) {
      BlockEntry(cm, t, gip);
      var tb := t.cache.blocks[Key(gip)];
      b := Entered(a, Link(Looked(t, gip), slot, tb), tb.code);
    } else {
      b := a.(s := WithIp(a.s, gip), mode := Dispatch(Some(slot)));
    }
  }

  lemma BrindExits(cm: Code, a: Sys, ip: W) returns (b: Sys)
    requires TablesOk(cm, a.tables) && a.mode.Inside?
    ensures BrindStep(a, b, ip)
  {
    hide TablesOk, L1Key, BrindAt;
    var t, e := a.tables, BrindAt(a.tables.cache, ip);
    if e.gip == ip {
      ProbeEntry(cm, t, ip);
      b := if e.code.None? then a.(mode := NullJump) else Entered(a, t, e.code.value);
    } else if Has(t.cache, ip) {
      BlockEntry(cm, t, ip);
      var tb := t.cache.blocks[Key(ip)];
      b := Entered(a.(s := WithIp(a.s, ip)), CachedBrind(Looked(t, ip), tb), tb.code);
    } else {
      b := a.(s := WithIp(a.s, ip), mode := Dispatch(None));
    }
  }

  /** Code that has come to an end in a reachable state always has somewhere to go: it never reads
      unset flags, runs off its end, or jumps through a dangling pointer. */
  lemma {:induction false} RunNeverWedges(cm: Code, run: seq<Sys>, i: nat, m: nat) returns (b: Sys)
    requires Run(cm, run) && i < |run| && Running(run[i]) && !UnitRun(run[i], m).pos.At?
    ensures RunStep(run[i], b)
  {
    RunSafe(cm, run, i);
    RunFollowsRelaxed(cm, run, i);
    hide Run;
    b := NeverWedges(cm, run[i], m);
  }

  lemma NeverWedges(cm: Code, a: Sys, m: nat) returns (b: Sys)
    requires Safe(cm, a) && Follows(cm, a) && Running(a) && !UnitRun(a, m).pos.At?
    ensures RunStep(a, b)
  {
    hide TablesOk, UnitRun, SlotStep, BrindStep, RunOk, IsSlot, Gip;
    var u, t := a.tables.store[a.mode.code], UnitRun(a, m);
    assert a.s.p.cpu[0] == 0;
    UnitOf(cm, a, m);
    hide GuestStands, GuestTrapped;
    UnitFollows(cm, a, t, u.entry);
    var a1 := Ran(a, t);
    if t.pos.Stopped? {
      b := a1.(mode := Trapped);
    } else if t.pos.indirect {
      b := BrindExits(cm, a1, t.pos.ip);
    } else {
      LeftSlot(a, m);
      b := SlotExits(cm, a1, SlotId(a.mode.code, t.pos.pc), t.pos.ip);
    }
    assert ExitTo(Ran(a, UnitRun(a, m)), b, a.mode.code, UnitRun(a, m).pos);
  }
}
