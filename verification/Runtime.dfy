/** The run-time machinery as code: the dispatch loop, the linker and the indirect-branch slow path,
    each shown to take the steps of the transition system. */
module Runtime {
  import opened Words
  import opened Machine
  import opened Guest
  import opened Emit
  import opened EmitRuns
  import opened Translate
  import opened TransRuns
  import opened Ranges
  import opened Pipeline
  import opened TCache
  import opened Chain
  import opened ChainRuns

  /** The block for an address, or why there is none. */
  datatype Obtained = Got(tb: TBlock) | EmptyRange | IllegalWord | RefusedOperand

  ghost predicate Obtains(cm: Code, t: Tables, t': Tables, ip: W, r: Obtained) {
    match r
    case Got(tb) =>
      if Has(t.cache, ip) then tb == t.cache.blocks[Key(ip)] && t' == Looked(t, ip)
      else
        && Compilable(ip) && tb == TBlock(ip, |t.store|)
        && exists prog :: UnitGood(cm, ip, prog) && t' == Compiled(t, ip, prog)
    case EmptyRange => !Has(t.cache, ip) && !Compilable(ip) && t' == t
    case IllegalWord => !Has(t.cache, ip) && Compilable(ip) && EntryIllegal(cm, ip) && t' == t
    case RefusedOperand => !Has(t.cache, ip) && Compilable(ip) && EntryRefused(cm, ip) && t' == t
  }

  /** `ips` are the words of the block at `ip`: up to a branch, 64 words, the end of the page or the next
      block of `c`, unless one of them is illegal. */
  ghost predicate Translates(cm: Code, c: Cache, ip: W, ips: seq<W>, illegal: bool) {
    exists upper :: TranslatesTo(cm, c, ip, ips, illegal, upper)
  }

  ghost predicate TranslatesTo(cm: Code, c: Cache, ip: W, ips: seq<W>, illegal: bool, upper: W) {
    && RangeEnd(c, ip, upper) && (upper == PageEnd(ip) || (Has(c, upper) && Above(Key(upper), ip)))
    && |ips| > 0 && Fetched(ip, upper, ips)
    && if illegal then cm(ips[|ips| - 1]).op.Illegal? else Full(cm, upper, ips)
  }

  lemma RangeTranslates(cm: Code, c: Cache, ip: W, ips: seq<W>, illegal: bool, upper: W)
    requires RangeEnd(c, ip, upper) && (upper == PageEnd(ip) || (Has(c, upper) && Above(Key(upper), ip)))
    requires |ips| > 0 && Fetched(ip, upper, ips)
    requires if illegal then cm(ips[|ips| - 1]).op.Illegal? else Full(cm, upper, ips)
    ensures Translates(cm, c, ip, ips, illegal)
  {
    hide RangeEnd, PageEnd, Above, Fetched, Full;
    assert TranslatesTo(cm, c, ip, ips, illegal, upper);
  }

  lemma UpperCompilable(ip: W)
    ensures Compilable(ip) <==> 0 < ip <= 0xffff_f000
  {
  }

  class Jit {
    const cm: Code
    const cache: TranslationCache
    var store: seq<Unit>
    var patched: map<SlotId, nat>
    var s: XState
    var mode: Mode
    ghost var origin: IState
    ghost var ev: seq<Event>
    ghost var visited: seq<W>

    ghost function Tabs(): Tables
      reads this, cache
    {
      Tables(cache.Contents(), store, patched)
    }

    ghost function Value(): Sys
      reads this, cache
    {
      Sys(Tabs(), s, mode, origin, ev, visited)
    }

    ghost predicate Valid()
      reads this, cache
    {
      Safe(cm, Value())
    }

    /** Start with empty tables. */
    constructor (cm: Code, s: XState)
      requires s.p.cpu[0] == 0 && s.p.cpu[TRAP_WORD] == 0
      ensures this.cm == cm && this.s == s && Init(Value()) && Valid() && fresh(cache)
    {
      this.cm, this.s := cm, s;
      cache := new TranslationCache.Init();
      store, patched, mode := [], map[], Dispatch(None);
      origin, ev, visited := IState(s.p.cpu, s.p.mem), [], [];
      new;
      InitSafe(cm, Value());
    }

    /** Call the code at `code` from the loop, through the trampoline. */
    method Call(code: nat)
      requires code < |store| && mode.Dispatch?
      modifies this`s, this`mode, this`visited
      ensures Enters(old(Value()), Value(), Tabs(), code) && Tabs() == old(Tabs()) && s == Trampolined(old(s))
    {
      s := Trampolined(s);
      mode := Inside(code);
      visited := visited + [store[code].entry];
    }

    /** Jump into the code at `code` from another block. */
    method Enter(code: nat)
      requires code < |store| && mode.Inside?
      modifies this`mode, this`visited
      ensures Enters(old(Value()), Value(), Tabs(), code) && Tabs() == old(Tabs())
    {
      mode := Inside(code);
      visited := visited + [store[code].entry];
    }

    /** Called by a lazy slot: patch it if the target is known, otherwise save the address. */
    method TryLinkBranch(slot: SlotId, gip: W) returns (target: Option<nat>)
      requires TablesOk(cm, Tabs()) && IsSlot(store, slot) && Gip(store, slot) == gip && slot !in patched
      modifies this`patched, this`s, cache
      ensures target == if Has(old(Tabs()).cache, gip) then Some(old(Tabs()).cache.blocks[Key(gip)].code) else None
      ensures target.Some? ==>
        target.value < |store| && s == old(s)
          && Tabs() == Link(Looked(old(Tabs()), gip), slot, old(Tabs()).cache.blocks[Key(gip)])
      ensures target.None? ==> s == WithIp(old(s), gip) && Tabs() == old(Tabs())
    {
      CacheOf(cm, Tabs());
      hide Coherent, TablesOk, L1Key, IsSlot, Gip;
      if Has(cache.Contents(), gip) {
        BlockEntry(cm, Tabs(), gip);
      }
      var found := cache.Lookup(gip);
      if found.Some? {
        patched := patched[slot := found.value.code];
        cache.RecordLink(slot, found.value);
        return Some(found.value.code);
      }
      s := WithIp(s, gip);
      return None;
    }

    /** Slow path of an indirect branch. */
    method Brind(gip: W) returns (target: Option<nat>)
      requires TablesOk(cm, Tabs())
      modifies this`s, cache
      ensures s == WithIp(old(s), gip)
      ensures target == if Has(old(Tabs()).cache, gip) then Some(old(Tabs()).cache.blocks[Key(gip)].code) else None
      ensures target.Some? ==>
        target.value < |store| && Tabs() == CachedBrind(Looked(old(Tabs()), gip), old(Tabs()).cache.blocks[Key(gip)])
      ensures target.None? ==> Tabs() == old(Tabs())
    {
      CacheOf(cm, Tabs());
      FoundIp(cache.Contents(), gip);
      hide Coherent, TablesOk, L1Key;
      if Has(cache.Contents(), gip) {
        BlockEntry(cm, Tabs(), gip);
      }
      s := WithIp(s, gip);
      var found := cache.Lookup(gip);
      if found.Some? {
        cache.CacheBrind(found.value);
        return Some(found.value.code);
      }
      return None;
    }

    /** Compile the block at `ip` and insert it. From an aligned address only words of its page are
        fetched, and none after the first is the entry of a block known before. */
    method CompileBlock(ip: W, upper: W) returns (r: Obtained, ghost ips: seq<W>)
      requires Coherent(cache.Contents()) && !Has(cache.Contents(), ip) && upper != 0 && Compilable(ip)
      requires RangeEnd(cache.Contents(), ip, upper)
      modifies this`store, cache
      ensures Obtains(cm, old(Tabs()), Tabs(), ip, r) && r != EmptyRange
      ensures r.Got? ==>
        && r.tb == TBlock(ip, |old(store)|) && Coherent(cache.Contents())
        && Find(cache.Contents(), ip) == Some(r.tb) && r.tb.code < |store|
      ensures 0 < |ips| <= TB_MAX_INSNS && (Aligned(ip) ==> Contained(old(cache.Contents()), ip, ips))
      ensures Fetched(ip, upper, ips)
      ensures if r == IllegalWord then cm(ips[|ips| - 1]).op.Illegal? else Full(cm, upper, ips)
    {
      hide UnitGood, EntryIllegal, EntryRefused, L1Key, Coherent, Compilable, Fetched, RangeEnd, Contained, Aligned,
        Full;
      var res: Outcome;
      res, ips := Compile(cm, ip, upper);
      if Aligned(ip) {
        RangeContained(cache.Contents(), ip, upper, ips);
      }
      match res {
        case Good(prog) =>
          var tb := TBlock(ip, |store|);
          store := store + [Unit(ip, prog)];
          cache.Insert(tb);
          r := Got(tb);
        case BadWord =>
          r := IllegalWord;
        case BadOperand =>
          r := RefusedOperand;
      }
    }

    /** Link the slot that control came from, or cache the target of an indirect branch. */
    method HookUp(slot: Option<SlotId>, tb: TBlock)
      requires Coherent(cache.Contents()) && Find(cache.Contents(), tb.ip) == Some(tb)
      modifies this`patched, cache
      ensures Tabs() == Hook(old(Tabs()), slot, tb)
    {
      hide Coherent, L1Key;
      if slot.Some? {
        patched := patched[slot.value := tb.code];
        cache.RecordLink(slot.value, tb);
      } else {
        cache.CacheBrind(tb);
      }
    }

    /** Look the block up, or compile the range that starts there. */
    method GetBlock(ip: W) returns (r: Obtained, ghost ips: seq<W>)
      requires TablesOk(cm, Tabs())
      modifies this`store, cache
      ensures Obtains(cm, old(Tabs()), Tabs(), ip, r)
      ensures r.Got? ==>
        Coherent(cache.Contents()) && Find(cache.Contents(), r.tb.ip) == Some(r.tb) && r.tb.code < |store|
      ensures |ips| <= TB_MAX_INSNS && (Aligned(ip) ==> Contained(old(cache.Contents()), ip, ips))
      ensures Has(old(cache.Contents()), ip) || !Compilable(ip) ==> ips == []
      ensures !Has(old(cache.Contents()), ip) && Compilable(ip) ==>
        Translates(cm, old(cache.Contents()), ip, ips, r == IllegalWord)
    {
      CacheOf(cm, Tabs());
      FoundIp(cache.Contents(), ip);
      hide UnitGood, EntryIllegal, EntryRefused, L1Key, Coherent, TablesOk, RangeEnd, PageEnd, AfterInsert, Above,
        Contained, Aligned, Full, Fetched, Translates, Compilable;
      ips := [];
      NothingFetched(cache.Contents(), ip);
      if Has(cache.Contents(), ip) {
        BlockEntry(cm, Tabs(), ip);
      }
      var found := cache.Lookup(ip);
      if found.Some? {
        r := Got(found.value);
        return;
      }
      var upper := cache.GetCompilationIPRange(ip);
      UpperCompilable(ip);
      if upper == 0 {
        r := EmptyRange;
        return;
      }
      r, ips := CompileBlock(ip, upper);
      RangeTranslates(cm, old(cache.Contents()), ip, ips, r == IllegalWord, upper);
    }

    /** One turn of the loop of Execute. */
    method DispatchOnce()
      requires Valid() && mode.Dispatch?
      modifies this, cache
      ensures DispatchStep(cm, old(Value()), Value())
    {
      hide UnitGood, EntryIllegal, EntryRefused, L1Key, Coherent, TablesOk, Compilable, Compiled, Looked, Hook;
      if s.p.cpu[TRAP_WORD] != 0 {
        mode := Trapped;
        return;
      }
      var ip, slot := IpOf(s), mode.slot;
      ghost var ips;
      var r;
      r, ips := GetBlock(ip);
      match r {
        case Got(tb) =>
          HookUp(slot, tb);
          Call(tb.code);
        case EmptyRange =>
          mode := Asserted;
        case IllegalWord =>
          mode := Panicked;
        case RefusedOperand =>
          mode := Rejected;
      }
    }

    /** Leave a block through a direct branch: a patched slot jumps, a lazy one calls the linker. */
    method TakeSlot(slot: SlotId, gip: W)
      requires TablesOk(cm, Tabs()) && IsSlot(store, slot) && Gip(store, slot) == gip && mode.Inside?
      modifies this, cache
      ensures SlotStep(old(Value()), Value(), slot, gip)
    {
      hide TablesOk, IsSlot, Gip, AfterLookup, L1Key;
      if slot in patched {
        PatchEntry(cm, Tabs(), slot);
        Enter(patched[slot]);
      } else {
        var target := TryLinkBranch(slot, gip);
        if target.Some? {
          Enter(target.value);
        } else {
          mode := Dispatch(Some(slot));
        }
      }
    }

    /** Leave a block through an indirect branch: probe the cache inline, else call the slow path. */
    method TakeBrind(ip: W)
      requires TablesOk(cm, Tabs()) && mode.Inside?
      modifies this, cache
      ensures BrindStep(old(Value()), Value(), ip)
    {
      hide TablesOk, AfterLookup, AfterCacheBrind, Coherent;
      var k := Key(((ip << 2) & (0xfff << 4)) >> 4);
      ProbeIndex(ip);
      hide L1Key;
      var e := if k in cache.brind then cache.brind[k] else BrindEntry(0, None);
      if e.gip == ip {
        ProbeEntry(cm, Tabs(), ip);
        if e.code.None? {
          mode := NullJump;
        } else {
          Enter(e.code.value);
        }
      } else {
        var target := Brind(ip);
        if target.Some? {
          Enter(target.value);
        } else {
          mode := Dispatch(None);
        }
      }
    }

    /** Run the current block for at most `m` machine steps, and take its exit if it reaches one. */
    method RunBlock(m: nat) returns (done: bool)
      requires Valid() && Running(Value())
      modifies this, cache
      ensures done ==> RunStep(old(Value()), Value())
      ensures !done ==> Value() == old(Value()) && UnitRun(Value(), m).pos.At?
    {
      UnitEnds(cm, Value(), m);
      hide TablesOk, Linear, SlotStep, BrindStep, IsSlot, Gip;
      ghost var a := Value();
      var code, prog := mode.code, store[mode.code].prog;
      var t := Linear(prog, prog.labels[0], s, m);
      assert t == UnitRun(a, m);
      done := t.pos.Left? || t.pos.Stopped?;
      if done {
        s := t.s;
        ev := ev + t.ev;
        assert Value() == Ran(a, t);
        match t.pos {
          case Left(pc, ip, indirect) =>
            if indirect {
              TakeBrind(ip);
            } else {
              LeftSlot(a, m);
              TakeSlot(SlotId(code, pc), ip);
            }
          case Stopped =>
            mode := Trapped;
        }
        assert ExitTo(Ran(a, UnitRun(a, m)), Value(), a.mode.code, UnitRun(a, m).pos);
      }
    }

    /** The loop of Execute, cut off after `turns` turns or in a block that takes more than
        `budget` machine steps. */
    method Execute(turns: nat, budget: nat) returns (ghost run: seq<Sys>)
      requires Valid()
      modifies this, cache
      ensures Valid() && Steps(cm, old(Value()), run) && run[|run| - 1] == Value()
      ensures |run| == turns + 1 || Rests(Value(), budget)
    {
      hide Safe, DispatchStep, RunStep;
      run := [Value()];
      var i := 0;
      while i < turns
        invariant Valid() && Steps(cm, old(Value()), run) && run[|run| - 1] == Value() && i == |run| - 1 <= turns
      {
        ghost var a := Value();
        if mode.Dispatch? {
          DispatchOnce();
        } else if mode.Inside? {
          InsideRuns(cm, a);
          var done := RunBlock(budget);
          if !done {
            return;
          }
        } else {
          return;
        }
        StepSafe(cm, a, Value());
        run := run + [Value()];
        i := i + 1;
      }
    }
  }

  /** At an end, or in a block that `budget` machine steps do not finish. */
  ghost predicate Rests(a: Sys, budget: nat) {
    match a.mode
    case Dispatch(_) => false
    case Inside(_) => Running(a) && UnitRun(a, budget).pos.At?
    case _ => true
  }

  /** Consecutive steps from `a`. */
  ghost predicate Steps(cm: Code, a: Sys, run: seq<Sys>) {
    |run| > 0 && run[0] == a && forall i :: 0 < i < |run| ==> Step(cm, run[i - 1], run[i])
  }

  lemma InsideRuns(cm: Code, a: Sys)
    requires Safe(cm, a) && a.mode.Inside?
    ensures Running(a)
  {
    hide Coherent, BlockOk, PatchOk, LinkOk;
    var u := a.tables.store[a.mode.code];
    assert UnitGood(cm, u.entry, u.prog);
  }

  /** The byte offset that the inlined probe computes selects the entry of the target's hash. */
  lemma ProbeIndex(ip: W)
    ensures ((ip << 2) & (0xfff << 4)) >> 4 == L1Hash(ip)
  {
    InlinedOffset(ip);
    EntryNumber(ip);
    hide L1Hash;
  }

  lemma EntryNumber(ip: W)
    ensures (L1Hash(ip) << 4) >> 4 == L1Hash(ip)
  {
  }
}
