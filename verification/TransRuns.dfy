/** Translation of a range, and the theorem that the region it yields refines the interpreter. */
module TransRuns {
  import opened Words
  import opened Qir
  import opened Machine
  import opened SelForm
  import opened Guest
  import opened Relaxed
  import opened TransSteps
  import opened TransInsns
  import opened TransEnds
  import opened Translate

  function Start(vs: VState, ip: W): IState {
    IState(AtIp(vs.cpu, ip), vs.mem)
  }

  // ----- the part translated so far -----

  /** After the code built so far the guest has taken `num` steps and stands at `ip`. */
  ghost predicate PrefixAt(t: IRun, r: VRun, ip: W) {
    r.next == Fall && !t.trapped && r.ev == t.ev && t.s == Start(r.s, ip) && r.s.cpu[0] == 0
  }

  ghost predicate PrefixOk(cm: Code, entry: W, code: seq<Inst>, num: nat, ip: W) {
    forall vs: VState :: vs.cpu[0] == 0 ==> PrefixAt(RSteps(cm, Start(vs, entry), num), VExec(code, vs), ip)
  }

  lemma PrefixStart(cm: Code, entry: W)
    ensures PrefixOk(cm, entry, [], 0, entry)
  {
  }

  lemma StepOf(cm: Code, s: IState, num: nat)
    requires !RSteps(cm, s, num).trapped
    ensures var t := RSteps(cm, s, num); RSteps(cm, s, num + 1) == Then(t, RExec(cm(t.s.cpu[IP_WORD]), t.s))
  {
    hide RExec;
    StepAfter(Relaxing(cm), s, num);
  }

  lemma {:induction false} PrefixExtendAt(cm: Code, entry: W, code: seq<Inst>, num: nat, ip: W, delta: seq<Inst>,
      vs: VState)
    requires PrefixOk(cm, entry, code, num, ip) && Translated(cm(ip), ip, delta) && vs.cpu[0] == 0
    ensures PrefixAt(RSteps(cm, Start(vs, entry), num + 1), VExec(code + delta, vs), Plus(ip, 4))
  {
    hide VExec, RExec, RSteps, Plus;
    var t, r := RSteps(cm, Start(vs, entry), num), VExec(code, vs);
    assert PrefixAt(t, r, ip);
    VExecAppend(code, delta, vs);
    StepOf(cm, Start(vs, entry), num);
    assert FallsTo(RExec(cm(ip), IState(AtIp(r.s.cpu, ip), r.s.mem)), ip, VExec(delta, r.s));
  }

  lemma {:induction false} PrefixExtend(cm: Code, entry: W, code: seq<Inst>, num: nat, ip: W, delta: seq<Inst>)
    requires PrefixOk(cm, entry, code, num, ip) && Translated(cm(ip), ip, delta)
    ensures PrefixOk(cm, entry, code + delta, num + 1, Plus(ip, 4))
  {
    hide VExec, RExec, RSteps, PrefixAt, Translated, Plus;
    forall vs: VState | vs.cpu[0] == 0
      ensures PrefixAt(RSteps(cm, Start(vs, entry), num + 1), VExec(code + delta, vs), Plus(ip, 4))
    {
      PrefixExtendAt(cm, entry, code, num, ip, delta, vs);
    }
  }

  // ----- the finished block -----

  ghost predicate BlockEnds(cm: Code, entry: W, code: seq<Inst>, num: nat, succIp: seq<W>) {
    forall vs: VState :: vs.cpu[0] == 0 ==>
      Arrives(RSteps(cm, Start(vs, entry), num), VExec(code, vs), succIp)
  }

  lemma {:induction false} BlockEndsAt(cm: Code, entry: W, code: seq<Inst>, num: nat, ip: W, delta: seq<Inst>,
      succIp: seq<W>, vs: VState)
    requires PrefixOk(cm, entry, code, num, ip) && Ends(cm(ip), ip, delta, succIp) && vs.cpu[0] == 0
      && !cm(ip).op.Illegal?
    ensures Arrives(RSteps(cm, Start(vs, entry), num + 1), VExec(code + delta, vs), succIp)
  {
    hide VExec, RSteps, Plus, RExec;
    var t, r := RSteps(cm, Start(vs, entry), num), VExec(code, vs);
    assert PrefixAt(t, r, ip);
    VExecAppend(code, delta, vs);
    StepOf(cm, Start(vs, entry), num);
    assert EndsAt(cm(ip), ip, r.s, VExec(delta, r.s), succIp);
  }

  lemma {:induction false} BlockEndsExtend(cm: Code, entry: W, code: seq<Inst>, num: nat, ip: W, delta: seq<Inst>,
      succIp: seq<W>)
    requires PrefixOk(cm, entry, code, num, ip) && Ends(cm(ip), ip, delta, succIp) && !cm(ip).op.Illegal?
    ensures BlockEnds(cm, entry, code + delta, num + 1, succIp)
  {
    hide VExec, RSteps, PrefixOk, Ends, Arrives;
    forall vs: VState | vs.cpu[0] == 0
      ensures Arrives(RSteps(cm, Start(vs, entry), num + 1), VExec(code + delta, vs), succIp)
    {
      BlockEndsAt(cm, entry, code, num, ip, delta, succIp, vs);
    }
  }

  lemma {:induction false} BlockOverflowAt(cm: Code, entry: W, code: seq<Inst>, num: nat, ip: W, ins: Inst,
      succIp: seq<W>, vs: VState)
    requires PrefixOk(cm, entry, code, num, ip) && GoesTo(ins, ip, succIp) && vs.cpu[0] == 0
    ensures Arrives(RSteps(cm, Start(vs, entry), num), VExec(code + [ins], vs), succIp)
  {
    hide VExec, RSteps, VStep;
    var t, r := RSteps(cm, Start(vs, entry), num), VExec(code, vs);
    assert PrefixAt(t, r, ip);
    VExecAppend(code, [ins], vs);
    VExecOne(ins, r.s);
    GoesToArrives(ins, ip, succIp, r.s, IRun(Start(r.s, ip), [], false));
    assert r.ev + [] == r.ev;
  }

  lemma {:induction false} BlockOverflow(cm: Code, entry: W, code: seq<Inst>, num: nat, ip: W, ins: Inst,
      succIp: seq<W>)
    requires PrefixOk(cm, entry, code, num, ip) && GoesTo(ins, ip, succIp)
    ensures BlockEnds(cm, entry, code + [ins], num, succIp)
  {
    hide VExec, RSteps, PrefixOk, Arrives, GoesTo;
    forall vs: VState | vs.cpu[0] == 0
      ensures Arrives(RSteps(cm, Start(vs, entry), num), VExec(code + [ins], vs), succIp)
    {
      BlockOverflowAt(cm, entry, code, num, ip, ins, succIp, vs);
    }
  }

  // ----- the region -----

  /** Block 0 holds the translated range; every other block is an exit. */
  ghost predicate RegionOk(cm: Code, entry: W, rg: Region, num: nat) {
    && |rg.blocks| > 0 && num > 0
    && SideOk(rg.blocks[1..])
    && (forall k :: 0 <= k < |rg.blocks[0].succs| ==> rg.blocks[0].succs[k] < |rg.blocks|)
    && BlockEnds(cm, entry, rg.blocks[0].code, num, SuccIps(entry, rg.blocks[1..], rg.blocks[0].succs))
  }

  /** The guest address each block stands for. */
  function BlockIps(entry: W, rg: Region): seq<W>
    requires |rg.blocks| > 0
  {
    seq(|rg.blocks|, b requires 0 <= b < |rg.blocks| => BlockIp(entry, rg.blocks[1..], b))
  }

  lemma {:induction false} ExitRuns(rg: Region, b: nat, vs: VState, n: nat)
    requires 0 < b < |rg.blocks| && IsExit(rg.blocks[b]) && n > 0
    ensures VRegion(rg, b, vs, n) == VRun(vs, [], Leave(rg.blocks[b].code[0].op.tpc, false))
  {
    var ins := rg.blocks[b].code[0];
    assert rg.blocks[b].code == [ins];
    VExecOne(ins, vs);
  }

  /** Translation refines interpretation: however many blocks the region runs, with back edges to
      its entry included, the guest reaches the same registers, memory, next address and events in
      some number of relaxed steps, at least one for each block run. */
  lemma {:induction false} TranslationRefines(cm: Code, entry: W, rg: Region, num: nat, b: nat, vs: VState,
      n: nat) returns (k: nat)
    requires RegionOk(cm, entry, rg, num) && vs.cpu[0] == 0 && b < |rg.blocks|
    ensures Arrives(RSteps(cm, Start(vs, BlockIp(entry, rg.blocks[1..], b)), k), VRegion(rg, b, vs, n),
      BlockIps(entry, rg))
    ensures n > 0 && b == 0 ==> k > 0
    ensures VRegion(rg, b, vs, n).next.Jump? ==> k >= n
    decreases n
  {
    hide RSteps, VExec;
    var side := rg.blocks[1..];
    var s := Start(vs, BlockIp(entry, side, b));
    if n == 0 {
      k := 0;
      StartOf(cm, s);
    } else if b > 0 {
      k := 0;
      assert IsExit(side[b - 1]) && side[b - 1] == rg.blocks[b];
      ExitRuns(rg, b, vs, n);
      StartOf(cm, s);
    } else {
      k := EntryRefines(cm, entry, rg, num, vs, n);
    }
  }

  lemma StartOf(cm: Code, s: IState)
    ensures RSteps(cm, s, 0) == IRun(s, [], false)
  {
  }

  lemma {:induction false} EntryRefines(cm: Code, entry: W, rg: Region, num: nat, vs: VState, n: nat) returns (k: nat)
    requires RegionOk(cm, entry, rg, num) && vs.cpu[0] == 0 && n > 0
    ensures Arrives(RSteps(cm, Start(vs, entry), k), VRegion(rg, 0, vs, n), BlockIps(entry, rg))
    ensures k > 0
    ensures VRegion(rg, 0, vs, n).next.Jump? ==> k >= n
    decreases n, 0
  {
    hide RSteps, VExec;
    var side, succs := rg.blocks[1..], rg.blocks[0].succs;
    var t, r := RSteps(cm, Start(vs, entry), num), VExec(rg.blocks[0].code, vs);
    k := num;
    assert Arrives(t, r, SuccIps(entry, side, succs));
    if r.next.Jump? {
      var b := succs[r.next.i];
      var j := TranslationRefines(cm, entry, rg, num, b, r.s, n - 1);
      k := num + j;
      var u := RSteps(cm, Start(r.s, BlockIp(entry, side, b)), j);
      assert SuccIps(entry, side, succs)[r.next.i] == BlockIp(entry, side, b);
      assert t.s == Start(r.s, BlockIp(entry, side, b));
      MoreOf(cm, Start(vs, entry), num, j);
      assert RSteps(cm, Start(vs, entry), k) == Then(t, u);
    }
  }

  lemma MoreOf(cm: Code, s: IState, j: nat, k: nat)
    requires !RSteps(cm, s, j).trapped
    ensures RSteps(cm, s, j + k) == Then(RSteps(cm, s, j), RSteps(cm, RSteps(cm, s, j).s, k))
  {
    MoreSteps(Relaxing(cm), s, j, k);
  }

  // ----- the loop -----

  /** No fetched instruction is a load with a constant as destination. */
  ghost predicate Clean(cm: Code, ips: seq<W>) {
    forall j :: 0 <= j < |ips| ==> !Refused(cm(ips[j]))
  }

  predicate Below(ip: W, boundary: W) {
    ip < boundary
  }

  /** The fetched addresses: consecutive from the entry, and all but the first below `boundary`. */
  ghost predicate Fetched(entry: W, boundary: W, ips: seq<W>) {
    && (|ips| > 0 ==> ips[0] == entry)
    && (forall j :: 0 < j < |ips| ==> FetchedNext(ips, j, boundary))
  }

  predicate FetchedNext(ips: seq<W>, j: nat, boundary: W) {
    0 < j < |ips| && ips[j] == Plus(ips[j - 1], 4) && Below(ips[j], boundary)
  }

  lemma {:induction false} ExitTemps(blocks: seq<Block>, n: nat)
    requires 0 < n <= |blocks| && SideOk(blocks[1..])
    ensures TempsOf(blocks, n) == TempsIn(blocks[0].code, |blocks[0].code|)
  {
    if n == 1 {
      assert TempsOf(blocks, 0) == 0;
    } else {
      ExitTemps(blocks, n - 1);
      assert blocks[1..][n - 2] == blocks[n - 1] && IsExit(blocks[n - 1]);
      var code := blocks[n - 1].code;
      assert TempsIn(code, 0) == 0 && TempsIn(code, 1) == TempsFor(code[0]);
    }
  }

  lemma {:induction false} ExitsWellFormed(blocks: seq<Block>, locals: seq<VType>)
    requires |blocks| > 0 && SideOk(blocks[1..]) && CodeWellFormed(blocks[0].code, locals)
    requires SuccsFit(LastOp(blocks[0].code), blocks[0].succs)
      && forall k :: 0 <= k < |blocks[0].succs| ==> blocks[0].succs[k] < |blocks|
    ensures RegionWellFormed(Region(blocks, locals)) && Shaped(Region(blocks, locals))
  {
    forall b | 0 <= b < |blocks| ensures CodeWellFormed(blocks[b].code, locals) && BlockShaped(blocks[b], |blocks|) {
      if b > 0 {
        assert blocks[1..][b - 1] == blocks[b] && IsExit(blocks[b]);
      }
    }
  }

  /** All fetched words are legal, and all but possibly the last fall through. */
  ghost predicate Legal(cm: Code, ips: seq<W>) {
    && (forall j :: 0 <= j < |ips| ==> !cm(ips[j]).op.Illegal?)
    && (forall j :: 0 <= j < |ips| - 1 ==> Falls(cm(ips[j]).op))
  }

  /** Still translating: the next instruction to fetch is at `ip`. */
  ghost predicate Open(cm: Code, entry: W, boundary: W, ips: seq<W>, ip: W, code: seq<Inst>, locals: seq<VType>) {
    && |ips| < TB_MAX_INSNS && Fetched(entry, boundary, ips + [ip]) && OpenLegal(cm, ips)
    && PrefixOk(cm, entry, code, |ips|, ip) && (Clean(cm, ips) ==> Straight(code, locals))
  }

  ghost predicate OpenLegal(cm: Code, ips: seq<W>) {
    Legal(cm, ips) && (|ips| > 0 ==> Falls(cm(ips[|ips| - 1]).op))
  }

  /** Why a block ends with these words: a branch, 64 words, or the next address is at or past `boundary`. */
  predicate Full(cm: Code, boundary: W, ips: seq<W>) {
    |ips| > 0 && (!Falls(cm(ips[|ips| - 1]).op) || |ips| == 64 || !Below(Plus(ips[|ips| - 1], 4), boundary))
  }

  lemma OpenNext(cm: Code, entry: W, boundary: W, ips: seq<W>, ip: W, code: seq<Inst>, locals: seq<VType>)
    requires |ips| < TB_MAX_INSNS && Fetched(entry, boundary, ips + [ip]) && OpenLegal(cm, ips)
    requires PrefixOk(cm, entry, code, |ips|, ip) && (Clean(cm, ips) ==> Straight(code, locals))
    ensures Open(cm, entry, boundary, ips, ip, code, locals)
  {
    hide Fetched, OpenLegal, PrefixOk, Clean, Straight;
  }

  lemma FullAt(cm: Code, boundary: W, ips: seq<W>, ip: W)
    requires |ips| + 1 == 64 || !Below(Plus(ip, 4), boundary)
    ensures Full(cm, boundary, ips + [ip])
  {
    hide Plus, Falls;
  }

  ghost predicate Closed(cm: Code, entry: W, boundary: W, ips: seq<W>, code: seq<Inst>, locals: seq<VType>,
      succs: seq<nat>, side: seq<Block>) {
    && 0 < |ips| <= TB_MAX_INSNS && Fetched(entry, boundary, ips) && Legal(cm, ips)
    && SideOk(side) && |side| <= 2 && (forall k :: 0 <= k < |succs| ==> succs[k] <= |side|)
    && code != [] && SuccsFit(LastOp(code), succs)
    && BlockEnds(cm, entry, code, |ips|, SuccIps(entry, side, succs))
      && (Clean(cm, ips) ==> CodeWellFormed(code, locals))
  }

  /** The block is full: leave it with a branch to the next address. */
  method Overflow(tr: RV32Translator, boundary: W, ghost ips: seq<W>)
    requires tr.Ready() && 0 < |ips| <= TB_MAX_INSNS && Fetched(tr.entry, boundary, ips) && Legal(tr.cm, ips)
    requires PrefixOk(tr.cm, tr.entry, tr.code, |ips|, tr.insnIp) && (Clean(tr.cm, ips) ==> tr.Sound())
    modifies tr
    ensures tr.control == TB_OVF && tr.Cost() <= old(tr.Cost())
    ensures Closed(tr.cm, tr.entry, boundary, ips, tr.code, tr.locals, tr.succs, tr.side)
  {
    hide PrefixOk, BlockEnds, CodeWellFormed, Straight, GoesTo, SuccIps, TempsFor, Clean, Fetched, Legal;
    ghost var code1 := tr.code;
    tr.MakeGBr(tr.insnIp);
    tr.control := TB_OVF;
    ghost var ins :| tr.code == code1 + [ins] && GoesTo(ins, tr.insnIp, SuccIps(tr.entry, tr.side, tr.succs));
    BlockOverflow(tr.cm, tr.entry, code1, |ips|, tr.insnIp, ins, SuccIps(tr.entry, tr.side, tr.succs));
  }

  /** After an instruction that falls through: go on, or close a block that is full or has reached
      the boundary. */
  method FallOn(tr: RV32Translator, boundary: W, numInsns: nat, ghost ips: seq<W>, ghost ip: W)
    requires tr.Ready() && tr.control == NEXT && tr.insnIp == Plus(ip, 4) && numInsns == |ips| + 1 <= TB_MAX_INSNS
    requires Fetched(tr.entry, boundary, ips + [ip]) && OpenLegal(tr.cm, ips + [ip])
    requires PrefixOk(tr.cm, tr.entry, tr.code, |ips| + 1, tr.insnIp) && (Clean(tr.cm, ips + [ip]) ==> tr.Sound())
    modifies tr
    ensures tr.Cost() <= old(tr.Cost())
    ensures tr.control == NEXT <==> numInsns < 64 && Below(old(tr.insnIp), boundary)
    ensures tr.control != NEXT ==> Full(tr.cm, boundary, ips + [ip])
    ensures tr.control == NEXT ==>
      tr.Ready() && Open(tr.cm, tr.entry, boundary, ips + [ip], tr.insnIp, tr.code, tr.locals)
    ensures tr.control != NEXT ==> Closed(tr.cm, tr.entry, boundary, ips + [ip], tr.code, tr.locals, tr.succs, tr.side)
  {
    hide PrefixOk, CodeWellFormed, Straight, Plus, Clean, Fetched, Legal, SideOk, TempsIn, Full, Falls, BlockEnds,
      SuccIps, TempsFor, Open, Closed, Below;
    if numInsns == TB_MAX_INSNS || !Below(tr.insnIp, boundary) {
      FullAt(tr.cm, boundary, ips, ip);
      Overflow(tr, boundary, ips + [ip]);
    } else {
      FetchedExtend(tr.entry, boundary, ips, ip, tr.insnIp);
      OpenNext(tr.cm, tr.entry, boundary, ips + [ip], tr.insnIp, tr.code, tr.locals);
    }
  }

  /** Translate the instruction at `tr.insnIp` and decide whether to go on. */
  method TranslateNext(tr: RV32Translator, boundary: W, numInsns: nat, ghost ips: seq<W>) returns (ok: bool)
    requires tr.control == NEXT && tr.Ready() && tr.Cost() <= 3 * |ips| && numInsns == |ips| + 1
    requires Open(tr.cm, tr.entry, boundary, ips, tr.insnIp, tr.code, tr.locals)
    modifies tr
    ensures ok <==> !tr.cm(old(tr.insnIp)).op.Illegal?
    ensures tr.Cost() <= 3 * (|ips| + 1)
    ensures ok && tr.control == NEXT ==>
      tr.Ready() && Open(tr.cm, tr.entry, boundary, ips + [old(tr.insnIp)], tr.insnIp, tr.code, tr.locals)
    ensures ok && tr.control != NEXT ==> Full(tr.cm, boundary, ips + [old(tr.insnIp)])
    ensures ok && tr.control != NEXT ==>
      Closed(tr.cm, tr.entry, boundary, ips + [old(tr.insnIp)], tr.code, tr.locals, tr.succs, tr.side)
  {
    hide PrefixOk, BlockEnds, CodeWellFormed, Straight, Translated, Ends, GoesTo, Plus, SuccIps, TempsFor, TempsIn,
      Clean, Fetched, Legal, OpenLegal, SideOk, Falls, Refused, LastOp, SuccsFit;
    ghost var cm, entry, code0, ip := tr.cm, tr.entry, tr.code, tr.insnIp;
    ghost var all := ips + [ip];
    ghost var delta;
    ok, delta := tr.TranslateInsn();
    if !ok {
      return;
    }
    LegalExtend(cm, ips, ip);
    if Clean(cm, all) {
      CleanPrefix(cm, ips, ip);
    }
    if tr.control == NEXT {
      PrefixExtend(cm, entry, code0, |ips|, ip, delta);
      FallOn(tr, boundary, numInsns, ips, ip);
    } else {
      BlockEndsExtend(cm, entry, code0, |ips|, ip, delta, SuccIps(entry, tr.side, tr.succs));
    }
  }

  /** Translate from `entry` until a branch, 64 instructions, or the first address at or past
      `boundary`. Fails only on an illegal word. */
  method TranslateIPRange(cm: Code, entry: W, boundary: W) returns (ok: bool, rg: Region, ghost ips: seq<W>)
    requires boundary != 0
    ensures 0 < |ips| <= TB_MAX_INSNS && Fetched(entry, boundary, ips)
    ensures ok <==> !cm(ips[|ips| - 1]).op.Illegal?
    ensures if ok then Legal(cm, ips) && Full(cm, boundary, ips) else OpenLegal(cm, ips[..|ips| - 1])
    ensures ok ==> |rg.locals| + TempsOf(rg.blocks, |rg.blocks|) <= 3 * |ips|
    ensures ok ==> 0 < |rg.blocks| <= 3 && |rg.locals| + TempsOf(rg.blocks, |rg.blocks|) <= 3 * TB_MAX_INSNS
    ensures ok ==> RegionOk(cm, entry, rg, |ips|) && (Clean(cm, ips) ==> RegionWellFormed(rg) && Shaped(rg))
  {
    hide PrefixOk, BlockEnds, CodeWellFormed, Straight, Plus, RegionWellFormed, Shaped, SuccIps, Clean, Fetched, Legal;
    var tr := new RV32Translator(cm, entry);
    rg, ips, ok := Region([], []), [], true;
    OpenStart(cm, entry, boundary);
    var numInsns := 0;
    while tr.control == NEXT
      invariant fresh(tr) && tr.cm == cm && tr.entry == entry && ok && tr.Cost() <= 3 * |ips| && numInsns == |ips|
      invariant tr.control == NEXT ==> tr.Ready() && Open(cm, entry, boundary, ips, tr.insnIp, tr.code, tr.locals)
      invariant tr.control != NEXT ==> Full(cm, boundary, ips)
      invariant tr.control != NEXT ==> Closed(cm, entry, boundary, ips, tr.code, tr.locals, tr.succs, tr.side)
      decreases TB_MAX_INSNS - numInsns
    {
      ghost var ip := tr.insnIp;
      numInsns := numInsns + 1;
      ok := TranslateNext(tr, boundary, numInsns, ips);
      ips := ips + [ip];
      if !ok {
        assert ips[..|ips| - 1] + [ip] == ips;
        return;
      }
    }
    ClosedLegal(cm, ips);
    var blocks := [Block(tr.code, tr.succs)] + tr.side;
    assert blocks[1..] == tr.side;
    rg := Region(blocks, tr.locals);
    ExitTemps(blocks, |blocks|);
    if Clean(cm, ips) {
      ExitsWellFormed(blocks, tr.locals);
    }
  }

  lemma ClosedLegal(cm: Code, ips: seq<W>)
    requires Legal(cm, ips) && |ips| > 0
    ensures !cm(ips[|ips| - 1]).op.Illegal?
  {
  }

  lemma OpenStart(cm: Code, entry: W, boundary: W)
    ensures Open(cm, entry, boundary, [], entry, [], [])
  {
    PrefixStart(cm, entry);
  }

  lemma LegalExtend(cm: Code, ips: seq<W>, ip: W)
    requires OpenLegal(cm, ips) && !cm(ip).op.Illegal?
    ensures Legal(cm, ips + [ip]) && (Falls(cm(ip).op) ==> OpenLegal(cm, ips + [ip]))
  {
  }

  lemma FetchedExtend(entry: W, boundary: W, ips: seq<W>, ip: W, ip': W)
    requires Fetched(entry, boundary, ips + [ip]) && ip' == Plus(ip, 4) && Below(ip', boundary)
    ensures Fetched(entry, boundary, ips + [ip] + [ip'])
  {
    hide Plus, FetchedNext;
    var a, b := ips + [ip], ips + [ip] + [ip'];
    FetchedLast(ips, ip, ip', boundary);
    forall j | 0 < j < |b| ensures FetchedNext(b, j, boundary) {
      if j < |a| {
        FetchedPrefix(a, ip', j, boundary);
      }
    }
  }

  lemma FetchedLast(ips: seq<W>, ip: W, ip': W, boundary: W)
    requires ip' == Plus(ip, 4) && Below(ip', boundary)
    ensures FetchedNext(ips + [ip] + [ip'], |ips| + 1, boundary)
  {
    hide Plus;
  }

  lemma FetchedPrefix(a: seq<W>, x: W, j: nat, boundary: W)
    requires FetchedNext(a, j, boundary)
    ensures FetchedNext(a + [x], j, boundary)
  {
    hide Plus;
    assert (a + [x])[j] == a[j] && (a + [x])[j - 1] == a[j - 1];
  }

  lemma CleanPrefix(cm: Code, ips: seq<W>, ip: W)
    requires Clean(cm, ips + [ip])
    ensures Clean(cm, ips) && !Refused(cm(ip))
  {
    var all := ips + [ip];
    assert all[|ips|] == ip;
    forall j | 0 <= j < |ips| ensures !Refused(cm(ips[j])) {
      assert all[j] == ips[j];
    }
  }
}
