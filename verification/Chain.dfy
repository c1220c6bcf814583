/** Dispatch, lazy linking and indirect branches as a transition system over compiled blocks.

    A code pointer is an index into the store of compiled blocks; blocks are never freed. Each
    branch slot starts as a call of the linker and may be patched, once, into a jump. */
module Chain {
  import opened Words
  import opened Qir
  import opened Machine
  import opened Guest
  import Relaxed
  import opened TransRuns
  import opened Emit
  import opened EmitRuns
  import opened Pipeline
  import opened TCache

  datatype Unit = Unit(entry: W, prog: XProg)

  /** The cache, the code it points into, and where patched slots jump. */
  datatype Tables = Tables(cache: Cache, store: seq<Unit>, patched: map<SlotId, nat>)

  /** `Dispatch` is the loop of Execute, holding the slot the escaped branch came from. `Inside` is
      the first instruction of a block. The others are ends: a trap that the environment handles,
      the panic on an illegal word, the failed assertion on an empty range or on an operand that
      cannot be emitted, and the jump through an empty entry of the indirect-branch cache. */
  datatype Mode =
    | Dispatch(slot: Option<SlotId>)
    | Inside(code: nat)
    | Trapped | Panicked | Asserted | Rejected | NullJump

  /** `origin`, `ev` and `visited` are history: the guest state when the environment last let the
      guest run, and since then the events and the entries of the blocks executed. */
  datatype Sys = Sys(tables: Tables, s: XState, mode: Mode, origin: IState, ev: seq<Event>, visited: seq<W>)

  predicate IsSlot(store: seq<Unit>, slot: SlotId) {
    slot.code < |store| && slot.pc < |store[slot.code].prog.buf| && store[slot.code].prog.buf[slot.pc].XSlot?
  }

  function Gip(store: seq<Unit>, slot: SlotId): W
    requires IsSlot(store, slot)
  {
    store[slot.code].prog.buf[slot.pc].gip
  }

  function IpOf(s: XState): W {
    s.p.cpu[IP_WORD]
  }

  function WithIp(s: XState, ip: W): XState {
    s.(p := s.p.(cpu := AtIp(s.p.cpu, ip)))
  }

  /** Registers, flags and the spill frame are not carried from block to block, except that the base
      registers are: the entry trampoline loads them, and jumps between blocks leave them. */
  predicate Handed(s: XState, s': XState, trampoline: bool) {
    && s'.p.cpu == s.p.cpu && s'.p.mem == s.p.mem && s'.p.host == s.p.host
    && if trampoline then Based(s'.p) else SameBases(s.p, s'.p)
  }

  /** Addresses with a nonempty range to compile. */
  predicate Compilable(ip: W) {
    0 < ip <= 0xffff_f000
  }

  // ----- steps -----

  /** The entry trampoline puts the addresses into R13, RBP and RSP. */
  function Trampolined(s: XState): XState {
    var h := s.p.host;
    s.(p := s.p.(regs := s.p.regs[13 := h.state][5 := h.mem][4 := h.frame]))
  }

  /** Control enters the code at `code`, from the dispatch loop or from another block. */
  ghost predicate Enters(a: Sys, b: Sys, t: Tables, code: nat) {
    && code < |t.store| && Handed(a.s, b.s, a.mode.Dispatch?)
    && b == a.(tables := t, s := b.s, mode := Inside(code), visited := a.visited + [t.store[code].entry])
  }

  /** Patch `slot` to jump to `tb` and record it. */
  function Link(t: Tables, slot: SlotId, tb: TBlock): Tables {
    t.(patched := t.patched[slot := tb.code], cache := AfterRecordLink(t.cache, slot, tb))
  }

  function Looked(t: Tables, ip: W): Tables {
    t.(cache := AfterLookup(t.cache, ip))
  }

  function CachedBrind(t: Tables, tb: TBlock): Tables {
    t.(cache := AfterCacheBrind(t.cache, tb))
  }

  function Compiled(t: Tables, ip: W, prog: XProg): Tables {
    t.(cache := AfterInsert(t.cache, TBlock(ip, |t.store|)), store := t.store + [Unit(ip, prog)])
  }

  /** Link the escaping slot, or remember the target of the indirect branch. */
  function Hook(t: Tables, slot: Option<SlotId>, tb: TBlock): Tables {
    match slot
    case Some(sl) => Link(t, sl, tb)
    case None => CachedBrind(t, tb)
  }

  /** One turn of the dispatch loop: find the block or compile it, hook it up, enter it. */
  ghost predicate DispatchStep(cm: Code, a: Sys, b: Sys) {
    && a.mode.Dispatch?
    && var t, ip := a.tables, IpOf(a.s);
       if a.s.p.cpu[TRAP_WORD] != 0 then b == a.(mode := Trapped)
       else if Has(t.cache, ip) then
         var tb := t.cache.blocks[Key(ip)];
         Enters(a, b, Hook(Looked(t, ip), a.mode.slot, tb), tb.code)
       else if !Compilable(ip) then b == a.(mode := Asserted)
       else if b.mode.Panicked? then EntryIllegal(cm, ip) && b == a.(mode := Panicked)
       else if b.mode.Rejected? then EntryRefused(cm, ip) && b == a.(mode := Rejected)
       else exists prog ::
         && UnitGood(cm, ip, prog)
         && Enters(a, b, Hook(Compiled(t, ip, prog), a.mode.slot, TBlock(ip, |t.store|)), |t.store|)
  }

  /** A direct branch leaves the code through `slot`. */
  ghost predicate SlotStep(a: Sys, b: Sys, slot: SlotId, gip: W) {
    var t := a.tables;
    if slot in t.patched then Enters(a, b, t, t.patched[slot])
    else if Has(t.cache, gip) then
      var tb := t.cache.blocks[Key(gip)];
      Enters(a, b, Link(Looked(t, gip), slot, tb), tb.code)
    else b == a.(s := WithIp(a.s, gip), mode := Dispatch(Some(slot)))
  }

  /** An indirect branch: the inlined probe, then the slow path. */
  ghost predicate BrindStep(a: Sys, b: Sys, ip: W) {
    var t, e := a.tables, BrindAt(a.tables.cache, ip);
    if e.gip == ip then
      match e.code
      case None => b == a.(mode := NullJump)
      case Some(code) => Enters(a, b, t, code)
    else if Has(t.cache, ip) then
      var tb := t.cache.blocks[Key(ip)];
      Enters(a.(s := WithIp(a.s, ip)), b, CachedBrind(Looked(t, ip), tb), tb.code)
    else b == a.(s := WithIp(a.s, ip), mode := Dispatch(None))
  }

  ghost predicate ExitTo(a: Sys, b: Sys, code: nat, pos: XPos) {
    match pos
    case Left(pc, ip, indirect) => if indirect then BrindStep(a, b, ip) else SlotStep(a, b, SlotId(code, pc), ip)
    case Stopped => b == a.(mode := Trapped)
    case _ => false
  }

  ghost predicate Running(a: Sys) {
    a.mode.Inside? && a.mode.code < |a.tables.store| && |a.tables.store[a.mode.code].prog.labels| > 0
  }

  /** The run of the current block's code, `m` machine steps long. */
  ghost function UnitRun(a: Sys, m: nat): XTrace
    requires Running(a)
  {
    var prog := a.tables.store[a.mode.code].prog;
    Linear(prog, prog.labels[0], a.s, m)
  }

  function Ran(a: Sys, t: XTrace): Sys {
    a.(s := t.s, ev := a.ev + t.ev)
  }

  /** A block runs from its entry to an exit. */
  ghost predicate RunStep(a: Sys, b: Sys) {
    Running(a) && exists m :: ExitTo(Ran(a, UnitRun(a, m)), b, a.mode.code, UnitRun(a, m).pos)
  }

  ghost predicate Fresh(a: Sys) {
    && a.mode == Dispatch(None) && a.s.p.cpu[0] == 0 && a.s.p.cpu[TRAP_WORD] == 0
    && a.origin == IState(a.s.p.cpu, a.s.p.mem) && a.ev == [] && a.visited == []
  }

  /** The environment has dealt with a trap and lets the guest run on. */
  ghost predicate ResumeStep(a: Sys, b: Sys) {
    a.mode.Trapped? && b.tables == a.tables && Fresh(b)
  }

  ghost predicate Step(cm: Code, a: Sys, b: Sys) {
    DispatchStep(cm, a, b) || RunStep(a, b) || ResumeStep(a, b)
  }

  ghost predicate Init(a: Sys) {
    a.tables == Tables(EMPTY, [], map[]) && Fresh(a)
  }

  ghost predicate Run(cm: Code, run: seq<Sys>) {
    && |run| > 0 && Init(run[0])
    && forall i :: 0 < i < |run| ==> Step(cm, run[i - 1], run[i])
  }

  // ----- safety of the protocol -----

  ghost predicate BlockOk(t: Tables, k: Key) {
    k in t.cache.blocks && t.cache.blocks[k].code < |t.store| && t.store[t.cache.blocks[k].code].entry == k.w
      && Compilable(k.w)
  }

  /** A patched slot jumps to the code the map holds for its address and is recorded once. */
  ghost predicate PatchOk(t: Tables, slot: SlotId) {
    && slot in t.patched && IsSlot(t.store, slot)
    && var gip := Gip(t.store, slot);
       Has(t.cache, gip) && t.patched[slot] == t.cache.blocks[Key(gip)].code && t.cache.links[(Key(gip), slot)] == 1
  }

  ghost predicate LinkOk(t: Tables, e: (Key, SlotId)) {
    e.1 in t.patched && IsSlot(t.store, e.1) && e.0 == Key(Gip(t.store, e.1))
  }

  ghost predicate TablesOk(cm: Code, t: Tables) {
    && Coherent(t.cache)
    && (forall k :: k in t.cache.blocks ==> BlockOk(t, k))
    && (forall c :: 0 <= c < |t.store| ==> UnitGood(cm, t.store[c].entry, t.store[c].prog))
    && (forall slot :: slot in t.patched ==> PatchOk(t, slot))
    && (forall e :: e in t.cache.links ==> LinkOk(t, e))
  }

  /** An escape with a slot has the slot's address as the guest's, and the slot is still lazy. The base
      registers are loaded inside blocks, and x0 is zero there and in the loop. */
  ghost predicate ModeOk(a: Sys) {
    && (a.mode.Dispatch? || a.mode.Inside? ==> a.s.p.cpu[0] == 0)
    && match a.mode
    case Dispatch(Some(slot)) =>
      IsSlot(a.tables.store, slot) && Gip(a.tables.store, slot) == IpOf(a.s) && slot !in a.tables.patched
    case Inside(code) => code < |a.tables.store| && Based(a.s.p)
    case _ => true
  }

  ghost predicate Safe(cm: Code, a: Sys) {
    TablesOk(cm, a.tables) && ModeOk(a)
  }

  lemma InitSafe(cm: Code, a: Sys)
    requires Init(a)
    ensures Safe(cm, a)
  {
  }

  /** Changes of the first level or of the indirect cache leave the tables in order. */
  lemma CacheKept(cm: Code, t: Tables, cache: Cache)
    requires TablesOk(cm, t) && Coherent(cache) && cache.blocks == t.cache.blocks && cache.links == t.cache.links
    ensures TablesOk(cm, t.(cache := cache))
  {
    hide UnitGood, Coherent, Compilable;
    var u := t.(cache := cache);
    forall k | k in u.cache.blocks ensures BlockOk(u, k) {
      assert BlockOk(t, k);
    }
    forall slot | slot in u.patched ensures PatchOk(u, slot) {
      assert PatchOk(t, slot);
    }
    forall e | e in u.cache.links ensures LinkOk(u, e) {
      assert LinkOk(t, e);
    }
  }

  lemma StoreGrows(store: seq<Unit>, u: Unit, slot: SlotId)
    requires IsSlot(store, slot)
    ensures IsSlot(store + [u], slot) && Gip(store + [u], slot) == Gip(store, slot)
  {
  }

  lemma BlockCompiled(t: Tables, ip: W, prog: XProg, k: Key)
    requires !Has(t.cache, ip) && Compilable(ip) && k in Compiled(t, ip, prog).cache.blocks
      && (k in t.cache.blocks ==> BlockOk(t, k))
    ensures BlockOk(Compiled(t, ip, prog), k)
  {
    hide Compilable, L1Key;
  }

  lemma PatchCompiled(t: Tables, ip: W, prog: XProg, slot: SlotId)
    requires !Has(t.cache, ip) && PatchOk(t, slot)
    ensures PatchOk(Compiled(t, ip, prog), slot)
  {
    StoreGrows(t.store, Unit(ip, prog), slot);
    hide IsSlot, Gip, L1Key;
  }

  lemma LinkCompiled(t: Tables, ip: W, prog: XProg, e: (Key, SlotId))
    requires LinkOk(t, e)
    ensures LinkOk(Compiled(t, ip, prog), e)
  {
    StoreGrows(t.store, Unit(ip, prog), e.1);
    hide IsSlot, Gip, L1Key;
  }

  /** A new block: old pointers, slots and links stay good. */
  lemma CompileKept(cm: Code, t: Tables, ip: W, prog: XProg)
    requires TablesOk(cm, t) && UnitGood(cm, ip, prog) && !Has(t.cache, ip) && Compilable(ip)
    ensures TablesOk(cm, Compiled(t, ip, prog))
  {
    hide UnitGood, Coherent, Compilable, L1Key, BlockOk, PatchOk, LinkOk;
    InsertCoherent(t.cache, TBlock(ip, |t.store|));
    var u := Compiled(t, ip, prog);
    forall k | k in u.cache.blocks ensures BlockOk(u, k) {
      BlockCompiled(t, ip, prog, k);
    }
    forall slot | slot in u.patched ensures PatchOk(u, slot) {
      PatchCompiled(t, ip, prog, slot);
    }
    forall e | e in u.cache.links ensures LinkOk(u, e) {
      LinkCompiled(t, ip, prog, e);
    }
  }

  lemma Unrecorded(t: Tables, k: Key, slot: SlotId)
    requires (forall e :: e in t.cache.links ==> LinkOk(t, e)) && slot !in t.patched
    ensures t.cache.links[(k, slot)] == 0
  {
    var e := (k, slot);
    assert e in t.cache.links ==> LinkOk(t, e);
  }

  lemma PatchLinked(t: Tables, slot: SlotId, tb: TBlock, sl: SlotId)
    requires IsSlot(t.store, slot) && Find(t.cache, Gip(t.store, slot)) == Some(tb) && tb.ip == Gip(t.store, slot)
    requires t.cache.links[(Key(tb.ip), slot)] == 0 && (sl == slot || PatchOk(t, sl))
    ensures PatchOk(Link(t, slot, tb), sl)
  {
    hide IsSlot, Gip;
  }

  lemma FoundIp(c: Cache, ip: W)
    requires Coherent(c)
    ensures Find(c, ip).Some? ==> Find(c, ip).value.ip == ip
  {
  }

  /** Linking a lazy slot to the map's block for its address. */
  lemma LinkKept(cm: Code, t: Tables, slot: SlotId, tb: TBlock)
    requires TablesOk(cm, t) && IsSlot(t.store, slot) && slot !in t.patched
      && Find(t.cache, Gip(t.store, slot)) == Some(tb)
    ensures TablesOk(cm, Link(t, slot, tb))
  {
    hide UnitGood, Coherent, Compilable, L1Key, IsSlot, Gip, PatchOk;
    LinkCoherent(t.cache, slot, tb);
    FoundIp(t.cache, Gip(t.store, slot));
    Unrecorded(t, Key(tb.ip), slot);
    var u := Link(t, slot, tb);
    forall k | k in u.cache.blocks ensures BlockOk(u, k) {
      assert BlockOk(t, k);
    }
    forall sl | sl in u.patched ensures PatchOk(u, sl) {
      PatchLinked(t, slot, tb, sl);
    }
    forall e | e in u.cache.links ensures LinkOk(u, e) {
      if e != (Key(tb.ip), slot) {
        assert LinkOk(t, e);
      }
    }
  }

  lemma LookKept(cm: Code, t: Tables, ip: W)
    requires TablesOk(cm, t)
    ensures TablesOk(cm, Looked(t, ip)) && Find(Looked(t, ip).cache, ip) == Find(t.cache, ip)
  {
    LookupCoherent(t.cache, ip);
    hide UnitGood, Coherent, L1Key, BlockOk, PatchOk, LinkOk, TablesOk;
    CacheOf(cm, t);
    CacheKept(cm, t, AfterLookup(t.cache, ip));
  }

  lemma CacheOf(cm: Code, t: Tables)
    requires TablesOk(cm, t)
    ensures Coherent(t.cache)
  {
  }

  lemma BrindKept(cm: Code, t: Tables, tb: TBlock)
    requires TablesOk(cm, t) && Find(t.cache, tb.ip) == Some(tb)
    ensures TablesOk(cm, CachedBrind(t, tb))
  {
    BrindCoherent(t.cache, tb);
    hide UnitGood, Coherent, L1Key, BlockOk, PatchOk, LinkOk, TablesOk;
    CacheKept(cm, t, AfterCacheBrind(t.cache, tb));
  }

  /** Hooking up the block that the dispatcher found or compiled. */
  lemma HookKept(cm: Code, t: Tables, slot: Option<SlotId>, ip: W, tb: TBlock)
    requires TablesOk(cm, t) && Find(t.cache, ip) == Some(tb)
    requires slot.Some? ==> IsSlot(t.store, slot.value) && Gip(t.store, slot.value) == ip && slot.value !in t.patched
    ensures TablesOk(cm, Hook(t, slot, tb)) && Hook(t, slot, tb).store == t.store
  {
    CacheOf(cm, t);
    FoundIp(t.cache, ip);
    hide TablesOk, IsSlot, Gip, Find;
    if slot.Some? {
      LinkKept(cm, t, slot.value, tb);
    } else {
      BrindKept(cm, t, tb);
    }
  }

  lemma DispatchSafe(cm: Code, a: Sys, b: Sys)
    requires Safe(cm, a) && DispatchStep(cm, a, b)
    ensures Safe(cm, b)
  {
    hide UnitGood, TablesOk, Compilable, EntryIllegal, EntryRefused, L1Key;
    var t, ip := a.tables, IpOf(a.s);
    if a.s.p.cpu[TRAP_WORD] == 0 {
      if Has(t.cache, ip) {
        LookKept(cm, t, ip);
        HookKept(cm, Looked(t, ip), a.mode.slot, ip, t.cache.blocks[Key(ip)]);
      } else if Compilable(ip) && !b.mode.Panicked? && !b.mode.Rejected? {
        var prog :| UnitGood(cm, ip, prog)
          && Enters(a, b, Hook(Compiled(t, ip, prog), a.mode.slot, TBlock(ip, |t.store|)), |t.store|);
        CompileKept(cm, t, ip, prog);
        if a.mode.slot.Some? {
          StoreGrows(t.store, Unit(ip, prog), a.mode.slot.value);
        }
        HookKept(cm, Compiled(t, ip, prog), a.mode.slot, ip, TBlock(ip, |t.store|));
      }
    }
  }

  lemma SlotSafe(cm: Code, a: Sys, b: Sys, slot: SlotId, gip: W)
    requires TablesOk(cm, a.tables) && IsSlot(a.tables.store, slot) && Gip(a.tables.store, slot) == gip
      && SlotStep(a, b, slot, gip) && Startable(a.s)
    ensures Safe(cm, b)
  {
    hide UnitGood, TablesOk, L1Key;
    var t := a.tables;
    if slot !in t.patched && Has(t.cache, gip) {
      LookKept(cm, t, gip);
      LinkKept(cm, Looked(t, gip), slot, t.cache.blocks[Key(gip)]);
    }
  }

  lemma WithIpStartable(s: XState, ip: W)
    requires Startable(s)
    ensures Startable(WithIp(s, ip))
  {
  }

  lemma ProbeSafe(cm: Code, a: Sys, b: Sys, ip: W)
    requires TablesOk(cm, a.tables) && BrindStep(a, b, ip) && Startable(a.s) && BrindAt(a.tables.cache, ip).gip == ip
    ensures Safe(cm, b)
  {
    hide TablesOk, BrindAt;
  }

  lemma SlowSafe(cm: Code, a: Sys, b: Sys, ip: W)
    requires TablesOk(cm, a.tables) && BrindStep(a, b, ip) && Startable(a.s) && BrindAt(a.tables.cache, ip).gip != ip
    ensures Safe(cm, b)
  {
    CacheOf(cm, a.tables);
    FoundIp(a.tables.cache, ip);
    hide UnitGood, TablesOk, L1Key, Coherent, BrindAt, AfterLookup, AfterCacheBrind, WithIp;
    var t := a.tables;
    WithIpStartable(a.s, ip);
    if Has(t.cache, ip) {
      LookKept(cm, t, ip);
      BrindKept(cm, Looked(t, ip), t.cache.blocks[Key(ip)]);
    }
  }

  lemma BrindSafe(cm: Code, a: Sys, b: Sys, ip: W)
    requires TablesOk(cm, a.tables) && BrindStep(a, b, ip) && Startable(a.s)
    ensures Safe(cm, b)
  {
    hide TablesOk, BrindStep, BrindAt, Safe, Startable;
    if BrindAt(a.tables.cache, ip).gip == ip {
      ProbeSafe(cm, a, b, ip);
    } else {
      SlowSafe(cm, a, b, ip);
    }
  }

  /** STATE, MEMBASE and SP hold their addresses wherever the code of a block has got to. */
  lemma UnitBases(cm: Code, a: Sys, m: nat)
    requires Safe(cm, a) && Running(a)
    ensures Based(UnitRun(a, m).s.p)
  {
    hide Coherent, BlockOk, PatchOk, LinkOk, UnitOk, UnitLive, Linear;
    var u := a.tables.store[a.mode.code];
    assert UnitGood(cm, u.entry, u.prog);
  }

  /** Code never wedges, and leaves with x0 zero. */
  lemma UnitEnds(cm: Code, a: Sys, m: nat)
    requires Safe(cm, a) && Running(a)
    ensures var t := UnitRun(a, m);
      !t.pos.Wedged? && (t.pos.Left? ==> t.s.p.cpu[0] == 0)
  {
    hide Coherent, BlockOk, PatchOk, LinkOk, UnitLive, UnitBased, Linear, Relaxed.RSteps;
    var u := a.tables.store[a.mode.code];
    assert UnitGood(cm, u.entry, u.prog);
    assert RunOk(cm, u.entry, a.s, UnitRun(a, m));
  }

  /** Linking protocol safety: every step keeps it. */
  lemma StepSafe(cm: Code, a: Sys, b: Sys)
    requires Safe(cm, a) && Step(cm, a, b)
    ensures Safe(cm, b)
  {
    hide DispatchStep, TablesOk, SlotStep, BrindStep, Linear;
    if DispatchStep(cm, a, b) {
      DispatchSafe(cm, a, b);
    } else if RunStep(a, b) {
      var m :| ExitTo(Ran(a, UnitRun(a, m)), b, a.mode.code, UnitRun(a, m).pos);
      var t, prog := UnitRun(a, m), a.tables.store[a.mode.code].prog;
      var a1 := Ran(a, t);
      if t.pos.Left? {
        UnitBases(cm, a, m);
        UnitEnds(cm, a, m);
        LeftAt(prog, prog.labels[0], a.s, m);
        if t.pos.indirect {
          BrindSafe(cm, a1, b, t.pos.ip);
        } else {
          SlotSafe(cm, a1, b, SlotId(a.mode.code, t.pos.pc), t.pos.ip);
        }
      }
    }
  }

  /** In every reachable state each patched slot jumps to the code the map holds for its address
      and is recorded under that address, and an escape with a slot is at the slot's address. */
  lemma {:induction false} RunSafe(cm: Code, run: seq<Sys>, i: nat)
    requires Run(cm, run) && i < |run|
    ensures Safe(cm, run[i])
  {
    hide Safe, Step;
    if i == 0 {
      InitSafe(cm, run[0]);
    } else {
      RunSafe(cm, run, i - 1);
      StepSafe(cm, run[i - 1], run[i]);
    }
  }
}
