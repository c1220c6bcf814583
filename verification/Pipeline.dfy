/** The whole compiler: translate, select, allocate, emit. The code it returns refines relaxed guest
    steps. */
module Pipeline {
  import opened Words
  import opened Qir
  import opened Machine
  import opened SelForm
  import SelSteps
  import Select
  import AllocSteps
  import RegAlloc
  import opened Guest
  import opened Relaxed
  import TransSteps
  import TransEnds
  import Translate
  import opened TransRuns
  import opened Emit
  import opened EmitRuns

  // ----- what compiled code owes -----

  function GuestStart(s: XState, entry: W): IState {
    IState(AtIp(s.p.cpu, entry), s.p.mem)
  }

  /** The code has come to an end where the guest run `it` has. */
  ghost predicate Reached(it: IRun, t: XTrace) {
    && it.ev == t.ev
    && match t.pos
       case Left(_, ip, _) => !it.trapped && it.s == GuestStart(t.s, ip) && t.s.p.cpu[0] == 0
       case Stopped => it.trapped && it.s == IState(t.s.p.cpu, t.s.p.mem)
       case _ => false
  }

  ghost predicate ReachedBy(cm: Code, s: IState, t: XTrace, k: nat) {
    k > 0 && Reached(RSteps(cm, s, k), t)
  }

  ghost predicate RunOk(cm: Code, entry: W, s: XState, t: XTrace) {
    t.pos.At? || exists k :: ReachedBy(cm, GuestStart(s, entry), t, k)
  }

  /** x0 is zero and the base registers are loaded; nothing else is asked on entry to a block. */
  predicate Startable(s: XState) {
    s.p.cpu[0] == 0 && Based(s.p)
  }

  /** Every finished run of the code of a block is a run of relaxed guest steps. */
  ghost predicate UnitOk(cm: Code, entry: W, prog: XProg) {
    && |prog.labels| > 0
    && forall s: XState, m: nat {:trigger Linear(prog, prog.labels[0], s, m)} ::
         Startable(s) ==> RunOk(cm, entry, s, Linear(prog, prog.labels[0], s, m))
  }

  /** The results of the passes over one range. */
  ghost predicate Passes(cm: Code, entry: W, num: nat, rg: Region, sel: Region, ra: Region, prog: XProg,
      segs: seq<seq<XInst>>) {
    && RegionOk(cm, entry, rg, num) && SelSteps.RegionMatches(rg, sel) && RegAlloc.RegionRefines(sel, ra)
    && RegionLaidOut(ra) && Laid(ra, prog, segs) && Spared(prog.buf)
  }

  /** However many blocks of the region run, translated, selected, allocated and emitted code agree
      with relaxed guest steps. */
  lemma {:induction false} RegionRuns(cm: Code, entry: W, num: nat, rg: Region, sel: Region, ra: Region, prog: XProg,
      segs: seq<seq<XInst>>, s: PState, n: nat) returns (k: nat, r: VRun)
    requires Passes(cm, entry, num, rg, sel, ra, prog, segs) && s.cpu[0] == 0 && Based(s)
    ensures r.ev == PRegion(ra, 0, s, n).ev && r.next == PRegion(ra, 0, s, n).next
      && AllocSteps.Agree(r.s, PRegion(ra, 0, s, n).s)
    ensures |rg.blocks| > 0
      && TransEnds.Arrives(RSteps(cm, IState(AtIp(s.cpu, entry), s.mem), k), r, BlockIps(entry, rg))
    ensures (r.next.Jump? ==> k >= n) && (n > 0 ==> k > 0)
  {
    hide RSteps, VRegion, PRegion, RegionOk, SelSteps.RegionMatches, RegAlloc.RegionRefines, RegionLaidOut, Laid,
      BlockIps;
    RegionNonempty(cm, entry, rg, num);
    var vs := VState(s.cpu, map[], s.mem);
    SelSteps.SelectionPreservesRuns(rg, sel, 0, vs, vs, n);
    RegAlloc.AllocationPreservesRuns(sel, ra, 0, vs, s, n);
    r := VRegion(sel, 0, vs, n);
    k := TranslationRefines(cm, entry, rg, num, 0, vs, n);
  }

  lemma RegionNonempty(cm: Code, entry: W, rg: Region, num: nat)
    requires RegionOk(cm, entry, rg, num)
    ensures |rg.blocks| > 0
  {
    hide BlockEnds;
  }

  lemma {:induction false} CompiledRun(cm: Code, entry: W, num: nat, rg: Region, sel: Region, ra: Region, prog: XProg,
      segs: seq<seq<XInst>>, s: XState, m: nat)
    requires Passes(cm, entry, num, rg, sel, ra, prog, segs) && Startable(s) && |ra.blocks| == |prog.labels| > 0
    ensures RunOk(cm, entry, s, Linear(prog, prog.labels[0], s, m))
  {
    hide RSteps, PRegion, Linear, RegionOk, SelSteps.RegionMatches, RegAlloc.RegionRefines, RegionLaidOut, Laid,
      BlockIps;
    var t := Linear(prog, prog.labels[0], s, m);
    if !t.pos.At? {
      var n := LayoutReflectsRuns(ra, prog, segs, 0, s, m);
      var k, r := RegionRuns(cm, entry, num, rg, sel, ra, prog, segs, s.p, n);
      assert ReachedBy(cm, GuestStart(s, entry), t, k);
    }
  }

  /** The code never falls silent: for every `n` it reaches, in some number of machine steps, its end,
      or, in at least `n`, a point that at least `n` relaxed guest steps also reach. */
  ghost predicate Advances(cm: Code, entry: W, prog: XProg, s: XState, n: nat, m: nat, k: nat)
    requires |prog.labels| > 0
  {
    var it, t := RSteps(cm, GuestStart(s, entry), k), Linear(prog, prog.labels[0], s, m);
    t.pos.At? ==>
      && m >= n && k >= n && !it.trapped && it.ev == t.ev && it.s.mem == t.s.p.mem
      && exists ip :: it.s.cpu == AtIp(t.s.p.cpu, ip)
  }

  ghost predicate Live(cm: Code, entry: W, prog: XProg, s: XState, n: nat)
    requires |prog.labels| > 0
  {
    exists m, k :: Advances(cm, entry, prog, s, n, m, k)
  }

  ghost predicate UnitLive(cm: Code, entry: W, prog: XProg) {
    |prog.labels| > 0 && forall s: XState, n: nat :: Startable(s) ==> Live(cm, entry, prog, s, n)
  }

  /** Wherever a run of the code has got to, STATE, MEMBASE and SP are what they were on entry. */
  ghost predicate UnitBased(prog: XProg) {
    && |prog.labels| > 0
    && forall s: XState, m: nat {:trigger Linear(prog, prog.labels[0], s, m)} ::
         SameBases(s.p, Linear(prog, prog.labels[0], s, m).s.p)
  }

  /** What holds of all code the compiler produces. */
  ghost predicate UnitGood(cm: Code, entry: W, prog: XProg) {
    UnitOk(cm, entry, prog) && UnitLive(cm, entry, prog) && UnitBased(prog)
  }

  lemma {:induction false} CompiledProgress(cm: Code, entry: W, num: nat, rg: Region, sel: Region, ra: Region,
      prog: XProg, segs: seq<seq<XInst>>, s: XState, n: nat)
    requires Passes(cm, entry, num, rg, sel, ra, prog, segs) && Startable(s) && |ra.blocks| == |prog.labels| > 0
    ensures Live(cm, entry, prog, s, n)
  {
    hide RSteps, PRegion, Linear, RegionOk, SelSteps.RegionMatches, RegAlloc.RegionRefines, RegionLaidOut, Laid,
      BlockIps, Blocks;
    var blocks := Blocks(n + 1, |ra.blocks|);
    var m := LayoutPreservesRuns(ra, prog, segs, 0, s, blocks);
    var k, r := RegionRuns(cm, entry, num, rg, sel, ra, prog, segs, s.p, blocks);
    var it := RSteps(cm, GuestStart(s, entry), k);
    if r.next.Jump? {
      BlocksEnough(n, m, |ra.blocks|, r.next.i);
      assert it.s.cpu == AtIp(Linear(prog, prog.labels[0], s, m).s.p.cpu, BlockIps(entry, rg)[r.next.i]);
    }
    assert Advances(cm, entry, prog, s, n, m, k);
  }

  // ----- ranges that hold an illegal word or an operand that cannot be emitted -----

  /** Steps of `f` run straight through instructions that fall through and trap on illegal words. */
  ghost predicate Plain(f: IState -> IRun, cm: Code) {
    forall s: IState :: PlainAt(f(s), cm(s.cpu[IP_WORD]), s)
  }

  predicate PlainAt(t: IRun, i: Insn, s: IState) {
    && (TransSteps.Falls(i.op) ==> !t.trapped && t.s.cpu[IP_WORD] == Plus(s.cpu[IP_WORD], 4))
    && (i.op.Illegal? ==> IllegalAt(t))
  }

  predicate IllegalAt(t: IRun) {
    t.trapped && t.s.cpu[TRAP_WORD] == TRAP_ILLEGAL
  }

  lemma HandlersPlain(cm: Code)
    ensures Plain(Interpreter(cm), cm) && Plain(Relaxing(cm), cm)
  {
    hide Plus, GuestEvents, GuestMemAfter, RdValue, Holds, Alu;
    forall s: IState ensures PlainAt(IExec(cm(s.cpu[IP_WORD]), s), cm(s.cpu[IP_WORD]), s) {
    }
    forall s: IState ensures PlainAt(RExec(cm(s.cpu[IP_WORD]), s), cm(s.cpu[IP_WORD]), s) {
    }
  }

  lemma PlainFalls(f: IState -> IRun, cm: Code, s: IState)
    requires Plain(f, cm) && TransSteps.Falls(cm(s.cpu[IP_WORD]).op)
    ensures !f(s).trapped && f(s).s.cpu[IP_WORD] == Plus(s.cpu[IP_WORD], 4)
  {
    hide Plus, TransSteps.Falls, IllegalAt;
    assert PlainAt(f(s), cm(s.cpu[IP_WORD]), s);
  }

  /** The guest runs straight through a fetched range. */
  lemma {:induction false} RunsThrough(f: IState -> IRun, cm: Code, ips: seq<W>, boundary: W, s: IState, j: nat)
    requires Plain(f, cm) && j < |ips| && Fetched(s.cpu[IP_WORD], boundary, ips)
    requires forall i :: 0 <= i < j ==> TransSteps.Falls(cm(ips[i]).op)
    ensures var t := Iterate(f, s, j); !t.trapped && t.s.cpu[IP_WORD] == ips[j]
  {
    hide TransSteps.Falls, Plus, FetchedNext, Iterate, Plain;
    if j == 0 {
      NoSteps(f, s);
    } else {
      RunsThrough(f, cm, ips, boundary, s, j - 1);
      StepAfter(f, s, j - 1);
      PlainFalls(f, cm, Iterate(f, s, j - 1).s);
      assert FetchedNext(ips, j, boundary);
      NextFetched(ips, j, boundary);
    }
  }

  lemma NextFetched(ips: seq<W>, j: nat, boundary: W)
    requires 0 < j < |ips| && FetchedNext(ips, j, boundary)
    ensures ips[j] == Plus(ips[j - 1], 4)
  {
    hide Plus;
  }

  /** Within 64 steps the guest traps on an illegal word. */
  ghost predicate TrapsIllegal(f: IState -> IRun, s: IState) {
    exists k: nat :: k <= Translate.TB_MAX_INSNS && IllegalAt(Iterate(f, s, k))
  }

  /** Within 64 steps the guest is about to execute a load with a constant as destination. */
  ghost predicate MeetsRefused(f: IState -> IRun, cm: Code, s: IState) {
    exists k: nat :: k < Translate.TB_MAX_INSNS && RefusedNext(cm, Iterate(f, s, k))
  }

  predicate RefusedNext(cm: Code, t: IRun) {
    !t.trapped && Refused(cm(t.s.cpu[IP_WORD]))
  }

  /** Entering a range with a refused load means executing it. */
  lemma {:induction false} RefusedReached(f: IState -> IRun, cm: Code, ips: seq<W>, boundary: W, s: IState)
    requires Plain(f, cm) && Fetched(s.cpu[IP_WORD], boundary, ips) && Legal(cm, ips) && !Clean(cm, ips)
    requires |ips| <= Translate.TB_MAX_INSNS
    ensures MeetsRefused(f, cm, s)
  {
    hide Fetched, Plain, Iterate;
    var j: nat :| j < |ips| && Refused(cm(ips[j]));
    RunsThrough(f, cm, ips, boundary, s, j);
    assert RefusedNext(cm, Iterate(f, s, j));
  }

  /** The translator gives up only where the guest traps on an illegal word. */
  lemma {:induction false} IllegalReached(f: IState -> IRun, cm: Code, ips: seq<W>, boundary: W, s: IState)
    requires Plain(f, cm) && 0 < |ips| <= Translate.TB_MAX_INSNS && Fetched(s.cpu[IP_WORD], boundary, ips)
    requires OpenLegal(cm, ips[..|ips| - 1]) && cm(ips[|ips| - 1]).op.Illegal?
    ensures TrapsIllegal(f, s)
  {
    hide Fetched, Iterate;
    var j := |ips| - 1;
    forall i | 0 <= i < j ensures TransSteps.Falls(cm(ips[i]).op) {
      assert ips[..j][i] == ips[i];
    }
    RunsThrough(f, cm, ips, boundary, s, j);
    StepAfter(f, s, j);
    var t := Iterate(f, s, j);
    assert PlainAt(f(t.s), cm(t.s.cpu[IP_WORD]), t.s);
    assert IllegalAt(Iterate(f, s, j + 1));
  }

  /** Interpreted or translated, the guest traps on an illegal word within 64 steps from `entry`. */
  ghost predicate EntryIllegal(cm: Code, entry: W) {
    forall s: IState :: s.cpu[IP_WORD] == entry ==> TrapsIllegal(Interpreter(cm), s) && TrapsIllegal(Relaxing(cm), s)
  }

  ghost predicate EntryRefused(cm: Code, entry: W) {
    forall s: IState :: s.cpu[IP_WORD] == entry ==>
      MeetsRefused(Interpreter(cm), cm, s) && MeetsRefused(Relaxing(cm), cm, s)
  }

  // ----- the compiler -----

  lemma {:induction false} CompiledBases(cm: Code, entry: W, num: nat, rg: Region, sel: Region, ra: Region,
      prog: XProg, segs: seq<seq<XInst>>, s: XState, m: nat)
    requires Passes(cm, entry, num, rg, sel, ra, prog, segs) && |prog.labels| > 0
    ensures SameBases(s.p, Linear(prog, prog.labels[0], s, m).s.p)
  {
    LinearKeepsBases(prog, prog.labels[0], s, m);
  }

  lemma {:induction false} CompiledGood(cm: Code, entry: W, num: nat, rg: Region, sel: Region, ra: Region,
      prog: XProg, segs: seq<seq<XInst>>)
    requires Passes(cm, entry, num, rg, sel, ra, prog, segs) && |ra.blocks| == |prog.labels| > 0
    ensures UnitGood(cm, entry, prog)
  {
    hide Passes, RunOk, Linear, Live;
    forall s: XState, n: nat | Startable(s) ensures Live(cm, entry, prog, s, n) {
      CompiledProgress(cm, entry, num, rg, sel, ra, prog, segs, s, n);
    }
    forall s: XState, m: nat | Startable(s) ensures RunOk(cm, entry, s, Linear(prog, prog.labels[0], s, m)) {
      CompiledRun(cm, entry, num, rg, sel, ra, prog, segs, s, m);
    }
    forall s: XState, m: nat ensures SameBases(s.p, Linear(prog, prog.labels[0], s, m).s.p) {
      CompiledBases(cm, entry, num, rg, sel, ra, prog, segs, s, m);
    }
  }

  lemma EmittableRegion(rg: Region)
    requires Shaped(rg) && RegAlloc.RegionEmittable(rg)
    ensures RegionLaidOut(rg)
  {
    hide Emittable;
    forall b | 0 <= b < |rg.blocks| ensures BlockEmittable(rg.blocks[b]) {
      assert BlockShaped(rg.blocks[b], |rg.blocks|);
      forall i | 0 <= i < |rg.blocks[b].code| ensures SuccsFit(rg.blocks[b].code[i].op, rg.blocks[b].succs) {
        assert Terminator(rg.blocks[b].code[i].op) <==> i == |rg.blocks[b].code| - 1;
      }
    }
    forall b, k | 0 <= b < |rg.blocks| && 0 <= k < |rg.blocks[b].succs| ensures rg.blocks[b].succs[k] < |rg.blocks| {
      assert BlockShaped(rg.blocks[b], |rg.blocks|);
    }
  }

  /** Select, allocate and emit a well-formed region of at most 192 locals, temporaries included. */
  method GenerateCode(rg: Region) returns (prog: XProg, ghost sel: Region, ghost ra: Region,
      ghost segs: seq<seq<XInst>>)
    requires RegionWellFormed(rg) && Shaped(rg)
      && |rg.locals| + TempsOf(rg.blocks, |rg.blocks|) <= 3 * Translate.TB_MAX_INSNS
    ensures SelSteps.RegionMatches(rg, sel) && RegAlloc.RegionRefines(sel, ra) && RegionLaidOut(ra)
      && Laid(ra, prog, segs) && Spared(prog.buf)
    ensures |ra.blocks| == |rg.blocks|
    ensures |prog.labels| == |rg.blocks|
  {
    hide SelSteps.RegionMatches, RegAlloc.RegionRefines, RegionLaidOut, Shaped, RegionWellFormed, TempsOf,
      RegionSelected, LaidAt, RegAlloc.RegionEmittable, SameBlockShape, HasCalls;
    var selected, hasCalls := Select.Run(rg);
    ShapeKept(rg, selected);
    var phys := RegAlloc.Run(selected);
    ShapeKept(selected, phys);
    EmittableRegion(phys);
    sel, ra := selected, phys;
    prog, segs := EmitRegion(phys, !hasCalls);
  }

  /** The code of a range, or why there is none: an illegal word, or an instruction whose operands
      the emitter refuses. */
  datatype Outcome = Good(prog: XProg) | BadWord | BadOperand

  ghost predicate OutcomeOk(cm: Code, entry: W, r: Outcome) {
    match r
    case Good(prog) => UnitGood(cm, entry, prog)
    case BadWord => EntryIllegal(cm, entry)
    case BadOperand => EntryRefused(cm, entry)
  }

  lemma RefusedEntry(cm: Code, entry: W, boundary: W, ips: seq<W>)
    requires Fetched(entry, boundary, ips) && Legal(cm, ips) && !Clean(cm, ips) && |ips| <= Translate.TB_MAX_INSNS
    ensures EntryRefused(cm, entry)
  {
    HandlersPlain(cm);
    hide Fetched, Legal, Clean, MeetsRefused, Plain, Relaxing, Interpreter;
    forall s: IState | s.cpu[IP_WORD] == entry ensures MeetsRefused(Interpreter(cm), cm, s)
      && MeetsRefused(Relaxing(cm), cm, s) {
      RefusedReached(Interpreter(cm), cm, ips, boundary, s);
      RefusedReached(Relaxing(cm), cm, ips, boundary, s);
    }
  }

  lemma IllegalEntry(cm: Code, entry: W, boundary: W, ips: seq<W>)
    requires 0 < |ips| <= Translate.TB_MAX_INSNS && Fetched(entry, boundary, ips)
    requires OpenLegal(cm, ips[..|ips| - 1]) && cm(ips[|ips| - 1]).op.Illegal?
    ensures EntryIllegal(cm, entry)
  {
    HandlersPlain(cm);
    hide Fetched, OpenLegal, TrapsIllegal, Plain, Relaxing, Interpreter;
    forall s: IState | s.cpu[IP_WORD] == entry ensures TrapsIllegal(Interpreter(cm), s)
      && TrapsIllegal(Relaxing(cm), s) {
      IllegalReached(Interpreter(cm), cm, ips, boundary, s);
      IllegalReached(Relaxing(cm), cm, ips, boundary, s);
    }
  }

  /** Compile the range from `entry` to `boundary`. Every run of the code it yields is a run of
      relaxed guest steps. It fails only where the guest traps on an illegal word or executes a load
      with a constant as destination, within 64 steps. */
  method Compile(cm: Code, entry: W, boundary: W) returns (r: Outcome, ghost ips: seq<W>)
    requires boundary != 0
    ensures 0 < |ips| <= Translate.TB_MAX_INSNS && Fetched(entry, boundary, ips)
    ensures OutcomeOk(cm, entry, r)
    ensures if r.BadWord? then cm(ips[|ips| - 1]).op.Illegal? else Full(cm, boundary, ips)
  {
    hide RegionWellFormed, Shaped, RegionOk, SelSteps.RegionMatches, RegAlloc.RegionRefines, RegionLaidOut, LaidAt,
      TempsOf, UnitGood, EntryIllegal, EntryRefused, Fetched, Legal, OpenLegal, Clean;
    var ok, rg;
    ok, rg, ips := TranslateIPRange(cm, entry, boundary);
    if !ok {
      IllegalEntry(cm, entry, boundary, ips);
      return BadWord, ips;
    }
    if !RegionWellFormed(rg) || !Shaped(rg) {
      RefusedEntry(cm, entry, boundary, ips);
      return BadOperand, ips;
    }
    var prog;
    ghost var sel, ra, segs;
    prog, sel, ra, segs := GenerateCode(rg);
    CompiledGood(cm, entry, |ips|, rg, sel, ra, prog, segs);
    return Good(prog), ips;
  }
}
