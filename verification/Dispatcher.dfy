/** The simple dispatcher that chaining refines: it has no first level, no indirect-branch cache
    and no links, and searches the block map at every branch. */
module Dispatcher {
  import opened Words
  import opened Machine
  import opened Guest
  import opened Relaxed
  import opened Emit
  import opened EmitRuns
  import opened Pipeline
  import opened TCache
  import opened Chain
  import opened ChainRuns

  /** At a branch to `ip`, inside a block, or at an end. */
  datatype At = Toward(ip: W) | Block(code: nat) | Ended(mode: Mode)

  datatype Plain = Plain(blocks: map<Key, TBlock>, store: seq<Unit>, s: XState, at: At, origin: IState,
    ev: seq<Event>, visited: seq<W>)

  /** The saved ip is dead at the entry of a block, as are flags, spill frame and the registers that do not
      hold base addresses. */
  predicate Same(s: XState, s': XState) {
    && s'.p.mem == s.p.mem && s'.p.host == s.p.host && Based(s'.p)
    && forall i :: 0 <= i < CPU_WORDS && i != IP_WORD ==> s'.p.cpu[i] == s.p.cpu[i]
  }

  ghost predicate PlainEnters(p: Plain, q: Plain, code: nat) {
    && code < |q.store| && Same(p.s, q.s)
    && q.at == Block(code) && q.visited == p.visited + [q.store[code].entry] && q.origin == p.origin && q.ev == p.ev
  }

  /** Search the map; compile what is missing. */
  ghost predicate BranchStep(cm: Code, p: Plain, q: Plain) {
    && p.at.Toward?
    && var ip := p.at.ip;
       if p.s.p.cpu[TRAP_WORD] != 0 then q == p.(at := Ended(Trapped))
       else if Key(ip) in p.blocks then q.blocks == p.blocks && q.store == p.store
         && PlainEnters(p, q, p.blocks[Key(ip)].code)
       else if !Compilable(ip) then q == p.(at := Ended(Asserted))
       else if q.at == Ended(Panicked) then EntryIllegal(cm, ip) && q == p.(at := Ended(Panicked))
       else if q.at == Ended(Rejected) then EntryRefused(cm, ip) && q == p.(at := Ended(Rejected))
       else
         && q.blocks == p.blocks[Key(ip) := TBlock(ip, |p.store|)] && PlainEnters(p, q, |p.store|)
         && exists prog :: UnitGood(cm, ip, prog) && q.store == p.store + [Unit(ip, prog)]
  }

  ghost predicate BlockRuns(p: Plain, q: Plain, m: nat)
    requires p.at.Block? && p.at.code < |p.store| && |p.store[p.at.code].prog.labels| > 0
  {
    var prog := p.store[p.at.code].prog;
    var t := Linear(prog, prog.labels[0], p.s, m);
    var p1 := p.(s := t.s, ev := p.ev + t.ev);
    match t.pos
    case Left(_, ip, _) => q == p1.(s := WithIp(t.s, ip), at := Toward(ip))
    case Stopped => q == p1.(at := Ended(Trapped))
    case _ => false
  }

  ghost predicate BlockStep(p: Plain, q: Plain) {
    p.at.Block? && p.at.code < |p.store| && |p.store[p.at.code].prog.labels| > 0 && exists m :: BlockRuns(p, q, m)
  }

  ghost predicate PlainResume(p: Plain, q: Plain) {
    && p.at == Ended(Trapped) && q.blocks == p.blocks && q.store == p.store && q.s.p.cpu[0] == 0
      && q.s.p.cpu[TRAP_WORD] == 0
    && q.at == Toward(IpOf(q.s)) && q.origin == IState(q.s.p.cpu, q.s.p.mem) && q.ev == [] && q.visited == []
  }

  ghost predicate PlainStep(cm: Code, p: Plain, q: Plain) {
    BranchStep(cm, p, q) || BlockStep(p, q) || PlainResume(p, q)
  }

  /** Forget the caches, the links and the slot of the last escape. After a jump through an empty
      entry of the indirect-branch cache the simple dispatcher is at a branch to address zero. */
  function Abs(a: Sys): Plain {
    var at := match a.mode
      case Dispatch(_) => Toward(IpOf(a.s))
      case Inside(code) => Block(code)
      case NullJump => Toward(0)
      case _ => Ended(a.mode);
    var s := if a.mode.NullJump? then WithIp(a.s, 0) else a.s;
    Plain(a.tables.cache.blocks, a.tables.store, s, at, a.origin, a.ev, a.visited)
  }

  /** At most two steps: leave the block, then find the next one. */
  ghost predicate Simulated(cm: Code, p: Plain, q: Plain) {
    PlainStep(cm, p, q) || exists mid :: Between(cm, p, mid, q)
  }

  ghost predicate Between(cm: Code, p: Plain, mid: Plain, q: Plain) {
    PlainStep(cm, p, mid) && PlainStep(cm, mid, q)
  }

  lemma HookBlocks(t: Tables, slot: Option<SlotId>, tb: TBlock)
    ensures Hook(t, slot, tb).cache.blocks == t.cache.blocks && Hook(t, slot, tb).store == t.store
  {
    hide L1Key;
  }

  lemma EntersSimulated(a: Sys, b: Sys, t: Tables, code: nat)
    requires Enters(a, b, t, code) && ModeOk(b)
    ensures PlainEnters(Abs(a), Abs(b), code) && Abs(b).blocks == t.cache.blocks && Abs(b).store == t.store
    ensures Abs(b).at == Block(code)
  {
  }

  lemma CompiledBlocks(t: Tables, ip: W, prog: XProg)
    requires !Has(t.cache, ip)
    ensures Compiled(t, ip, prog).cache.blocks == t.cache.blocks[Key(ip) := TBlock(ip, |t.store|)]
  {
    hide L1Key;
  }

  lemma DispatchSimulated(cm: Code, a: Sys, b: Sys)
    requires DispatchStep(cm, a, b) && Safe(cm, b)
    ensures BranchStep(cm, Abs(a), Abs(b))
  {
    hide UnitGood, Compilable, EntryIllegal, EntryRefused, AfterInsert, AfterLookup, Hook, Enters, PlainEnters;
    var t, ip := a.tables, IpOf(a.s);
    if a.s.p.cpu[TRAP_WORD] == 0 {
      if Has(t.cache, ip) {
        hide Abs;
        AbsDispatch(a);
        var tb := t.cache.blocks[Key(ip)];
        HookBlocks(Looked(t, ip), a.mode.slot, tb);
        LookedBlocks(t, ip);
        EntersSimulated(a, b, Hook(Looked(t, ip), a.mode.slot, tb), tb.code);
      } else if Compilable(ip) && !b.mode.Panicked? && !b.mode.Rejected? {
        hide Abs;
        AbsDispatch(a);
        var prog :| UnitGood(cm, ip, prog)
          && Enters(a, b, Hook(Compiled(t, ip, prog), a.mode.slot, TBlock(ip, |t.store|)), |t.store|);
        CompiledBlocks(t, ip, prog);
        HookBlocks(Compiled(t, ip, prog), a.mode.slot, TBlock(ip, |t.store|));
        EntersSimulated(a, b, Hook(Compiled(t, ip, prog), a.mode.slot, TBlock(ip, |t.store|)), |t.store|);
      }
    }
  }

  lemma LookedBlocks(t: Tables, ip: W)
    ensures Looked(t, ip).cache.blocks == t.cache.blocks
  {
  }

  lemma AbsDispatch(a: Sys)
    requires a.mode.Dispatch?
    ensures Abs(a) == Plain(a.tables.cache.blocks, a.tables.store, a.s, Toward(IpOf(a.s)), a.origin, a.ev, a.visited)
  {
  }

  /** Entering the map's block for `ip` is what the dispatcher does at a branch to `ip`. */
  lemma EntrySimulated(cm: Code, a: Sys, b: Sys, t: Tables, code: nat, ip: W)
    requires Has(a.tables.cache, ip) && code == a.tables.cache.blocks[Key(ip)].code && a.s.p.cpu[TRAP_WORD] == 0
    requires t.store == a.tables.store && t.cache.blocks == a.tables.cache.blocks
    requires (Enters(a, b, t, code) || Enters(a.(s := WithIp(a.s, ip)), b, t, code)) && Based(b.s.p)
    ensures BranchStep(cm, Abs(a).(s := WithIp(a.s, ip), at := Toward(ip)), Abs(b))
  {
    hide Compilable, EntryIllegal, EntryRefused, UnitGood;
  }

  lemma SlotSimulated(cm: Code, a: Sys, b: Sys, slot: SlotId, gip: W)
    requires TablesOk(cm, a.tables) && IsSlot(a.tables.store, slot) && Gip(a.tables.store, slot) == gip
    requires SlotStep(a, b, slot, gip) && a.s.p.cpu[TRAP_WORD] == 0 && ModeOk(b)
    ensures var mid := Abs(a).(s := WithIp(a.s, gip), at := Toward(gip));
      Abs(b) == mid || BranchStep(cm, mid, Abs(b))
  {
    hide L1Key, BranchStep;
    var t := a.tables;
    if slot in t.patched {
      assert PatchOk(t, slot);
      EntrySimulated(cm, a, b, t, t.patched[slot], gip);
    } else if Has(t.cache, gip) {
      EntrySimulated(cm, a, b, b.tables, t.cache.blocks[Key(gip)].code, gip);
    }
  }

  lemma BrindSimulated(cm: Code, a: Sys, b: Sys, ip: W)
    requires TablesOk(cm, a.tables) && BrindStep(a, b, ip) && a.s.p.cpu[TRAP_WORD] == 0 && a.mode.Inside?
      && ModeOk(b)
    ensures var mid := Abs(a).(s := WithIp(a.s, ip), at := Toward(ip));
      Abs(b) == mid || BranchStep(cm, mid, Abs(b))
  {
    hide L1Key, BranchStep, TablesOk, Coherent;
    CacheOf(cm, a.tables);
    var t := a.tables;
    var c := t.cache;
    if BrindAt(c, ip).gip == ip && BrindAt(c, ip).code.None? {
      ProbeZero(c, ip);
    } else if BrindAt(c, ip).gip == ip {
      ProbeHit(c, ip);
      EntrySimulated(cm, a, b, t, BrindAt(c, ip).code.value, ip);
    } else if Has(c, ip) {
      EntrySimulated(cm, a, b, b.tables, c.blocks[Key(ip)].code, ip);
    }
  }

  /** No trap is pending while the guest runs. */
  predicate Quiet(a: Sys) {
    a.mode.Dispatch? || a.mode.Inside? || a.mode.NullJump? ==> a.s.p.cpu[TRAP_WORD] == 0
  }

  lemma RunSimulated(cm: Code, a: Sys, b: Sys)
    requires Safe(cm, a) && RunStep(a, b) && Quiet(b) && Safe(cm, b)
    ensures Simulated(cm, Abs(a), Abs(b))
  {
    hide TablesOk, Linear, SlotStep, BrindStep, BranchStep, IsSlot, Gip, Abs;
    var m: nat :| ExitTo(Ran(a, UnitRun(a, m)), b, a.mode.code, UnitRun(a, m).pos);
    var t := UnitRun(a, m);
    var a1 := Ran(a, t);
    if t.pos.Stopped? {
      assert BlockRuns(Abs(a), Abs(b), m) by {
        AbsInside(a);
        AbsRan(a, t);
        AbsEnded(a1, b);
      }
    } else {
      var ip := t.pos.ip;
      var mid := Abs(a1).(s := WithIp(a1.s, ip), at := Toward(ip));
      AbsInside(a);
      AbsRan(a, t);
      assert BlockRuns(Abs(a), mid, m);
      ExitKeepsTrap(a1, b, a.mode.code, t.pos);
      if t.pos.indirect {
        BrindSimulated(cm, a1, b, ip);
      } else {
        LeftSlot(a, m);
        SlotSimulated(cm, a1, b, SlotId(a.mode.code, t.pos.pc), ip);
      }
      if Abs(b) != mid {
        assert Between(cm, Abs(a), mid, Abs(b));
      }
    }
  }

  lemma AbsInside(a: Sys)
    requires Running(a)
    ensures Abs(a) == Plain(a.tables.cache.blocks, a.tables.store, a.s, Block(a.mode.code), a.origin, a.ev, a.visited)
  {
  }

  lemma AbsRan(a: Sys, t: XTrace)
    requires a.mode.Inside?
    ensures Abs(Ran(a, t)) == Abs(a).(s := t.s, ev := a.ev + t.ev, at := Abs(Ran(a, t)).at)
  {
  }

  lemma AbsEnded(a: Sys, b: Sys)
    requires a.mode.Inside? && b == a.(mode := Trapped)
    ensures Abs(b) == Abs(a).(at := Ended(Trapped))
  {
  }

  lemma ExitKeepsTrap(a: Sys, b: Sys, code: nat, pos: XPos)
    requires ExitTo(a, b, code, pos) && pos.Left? && Quiet(b)
    ensures a.s.p.cpu[TRAP_WORD] == 0
  {
    hide L1Key;
  }

  lemma StepSimulated(cm: Code, a: Sys, b: Sys)
    requires Safe(cm, a) && Step(cm, a, b) && Quiet(b)
    ensures Simulated(cm, Abs(a), Abs(b))
  {
    StepSafe(cm, a, b);
    hide Safe, DispatchStep, RunStep, BranchStep;
    if DispatchStep(cm, a, b) {
      DispatchSimulated(cm, a, b);
    } else if RunStep(a, b) {
      RunSimulated(cm, a, b);
    }
  }

  ghost predicate PlainRun(cm: Code, ps: seq<Plain>) {
    |ps| > 0 && forall i :: 0 < i < |ps| ==> PlainStep(cm, ps[i - 1], ps[i])
  }

  lemma PlainExtend(cm: Code, ps: seq<Plain>, q: Plain) returns (qs: seq<Plain>)
    requires PlainRun(cm, ps) && Simulated(cm, ps[|ps| - 1], q)
    ensures PlainRun(cm, qs) && qs[0] == ps[0] && qs[|qs| - 1] == q
  {
    hide PlainStep;
    var p := ps[|ps| - 1];
    if PlainStep(cm, p, q) {
      qs := ps + [q];
    } else {
      var mid :| Between(cm, p, mid, q);
      qs := ps + [mid, q];
    }
  }

  /** No trap is ever pending while the guest runs, and only a branch to zero jumps through null. */
  lemma {:induction false} RunQuiet(cm: Code, run: seq<Sys>, i: nat)
    requires Run(cm, run) && i < |run|
    ensures Quiet(run[i]) && (run[i].mode.NullJump? ==> GuestStands(cm, run[i], 0))
  {
    RunFollowsRelaxed(cm, run, i);
    hide RSteps, Run;
  }

  /** Chaining refines dispatch: for every run through links, probes and first-level hits there is
      a run of the simple dispatcher that executes the same blocks in the same order and ends in
      the same state. */
  lemma {:induction false} ChainingRefinesDispatch(cm: Code, run: seq<Sys>, n: nat) returns (ps: seq<Plain>)
    requires Run(cm, run) && n < |run|
    ensures PlainRun(cm, ps) && ps[0] == Abs(run[0]) && ps[|ps| - 1] == Abs(run[n])
  {
    hide Step, PlainStep, Abs, Simulated, Quiet, Init;
    if n == 0 {
      ps := [Abs(run[0])];
    } else {
      ps := ChainingRefinesDispatch(cm, run, n - 1);
      RunSafe(cm, run, n - 1);
      RunQuiet(cm, run, n);
      StepSimulated(cm, run[n - 1], run[n]);
      ps := PlainExtend(cm, ps, Abs(run[n]));
    }
  }
}
