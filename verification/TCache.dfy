/** The translation cache: an ordered map behind a direct-mapped first level, the indirect-branch
    cache that generated code probes, and the record of linked branch slots. */
module TCache {
  import opened Words
  import opened WordOrder

  /** A word used as a map key: a guest address or a first-level index. */
  datatype Key = Key(w: W)

  /** A translated block: guest entry address and a pointer to its code. */
  datatype TBlock = TBlock(ip: W, code: nat)

  datatype BrindEntry = BrindEntry(gip: W, code: Option<nat>)

  /** A branch slot is identified by the code that contains it and its position there. */
  datatype SlotId = SlotId(code: nat, pc: nat)

  /** Contents of the cache. Absent keys of `l1` are null, absent keys of `brind` are {0, null}. */
  datatype Cache = Cache(blocks: map<Key, TBlock>, l1: map<Key, TBlock>, brind: map<Key, BrindEntry>,
    links: multiset<(Key, SlotId)>)

  const EMPTY: Cache := Cache(map[], map[], map[], multiset{})

  function L1Hash(ip: W): W {
    (ip >> 2) & 0xfff
  }

  function L1Key(ip: W): Key {
    Key(L1Hash(ip))
  }

  predicate Has(c: Cache, ip: W) {
    Key(ip) in c.blocks
  }

  function Find(c: Cache, ip: W): Option<TBlock> {
    if Key(ip) in c.blocks then Some(c.blocks[Key(ip)]) else None
  }

  function BrindAt(c: Cache, ip: W): BrindEntry {
    if L1Key(ip) in c.brind then c.brind[L1Key(ip)] else BrindEntry(0, None)
  }

  // ----- what the operations do -----

  /** Lookup refills the first level. */
  function AfterLookup(c: Cache, ip: W): Cache {
    if Has(c, ip) then c.(l1 := c.l1[L1Key(ip) := c.blocks[Key(ip)]]) else c
  }

  /** `std::map::insert` does nothing if the key exists; the first level is written regardless. */
  function AfterInsert(c: Cache, tb: TBlock): Cache {
    c.(blocks := if Has(c, tb.ip) then c.blocks else c.blocks[Key(tb.ip) := tb],
       l1 := c.l1[L1Key(tb.ip) := tb])
  }

  function AfterCacheBrind(c: Cache, tb: TBlock): Cache {
    c.(brind := c.brind[L1Key(tb.ip) := BrindEntry(tb.ip, Some(tb.code))])
  }

  function AfterRecordLink(c: Cache, slot: SlotId, tgt: TBlock): Cache {
    c.(links := c.links + multiset{(Key(tgt.ip), slot)})
  }

  // ----- coherence -----

  /** First level and indirect cache hold only blocks of the map, under their own hash. */
  ghost predicate Coherent(c: Cache) {
    && (forall k :: k in c.blocks ==> c.blocks[k].ip == k.w)
    && (forall h :: h in c.l1 ==> Find(c, c.l1[h].ip) == Some(c.l1[h]))
    && (forall h :: h in c.brind ==> BrindOk(c, h, c.brind[h]))
  }

  ghost predicate BrindOk(c: Cache, h: Key, e: BrindEntry) {
    Has(c, e.gip) && L1Key(e.gip) == h && e.code == Some(c.blocks[Key(e.gip)].code)
  }

  lemma LookupCoherent(c: Cache, ip: W)
    requires Coherent(c)
    ensures Coherent(AfterLookup(c, ip))
  {
    hide L1Key;
    var a := AfterLookup(c, ip);
    forall h | h in a.brind ensures BrindOk(a, h, a.brind[h]) {
      assert BrindOk(c, h, c.brind[h]);
    }
  }

  /** Inserting keeps the cache coherent because the key is absent. */
  lemma InsertCoherent(c: Cache, tb: TBlock)
    requires Coherent(c) && !Has(c, tb.ip)
    ensures Coherent(AfterInsert(c, tb))
  {
    hide L1Key;
    var d := AfterInsert(c, tb);
    forall h | h in d.brind ensures BrindOk(d, h, d.brind[h]) {
      assert BrindOk(c, h, c.brind[h]);
    }
  }

  lemma BrindCoherent(c: Cache, tb: TBlock)
    requires Coherent(c) && Find(c, tb.ip) == Some(tb)
    ensures Coherent(AfterCacheBrind(c, tb))
  {
    hide L1Key;
    var b := AfterCacheBrind(c, tb);
    forall h | h in b.brind ensures BrindOk(b, h, b.brind[h]) {
      if h != L1Key(tb.ip) {
        assert BrindOk(c, h, c.brind[h]);
      }
    }
  }

  lemma LinkCoherent(c: Cache, slot: SlotId, tb: TBlock)
    requires Coherent(c)
    ensures Coherent(AfterRecordLink(c, slot, tb))
  {
    hide L1Key;
    var l := AfterRecordLink(c, slot, tb);
    forall h | h in l.brind ensures BrindOk(l, h, l.brind[h]) {
      assert BrindOk(c, h, c.brind[h]);
    }
  }

  /** The address the generated code computes, target * 4 masked, is the byte offset of the
      16-byte entry number `L1Hash(target)`. */
  lemma InlinedOffset(target: W)
    ensures (target << 2) & (0xfff << 4) == L1Hash(target) << 4
  {
  }

  /** A probe that matches a nonzero target, or any target in an occupied entry, finds the code of the
      map's block. */
  lemma ProbeHit(c: Cache, target: W)
    requires Coherent(c) && BrindAt(c, target).gip == target && (target != 0 || L1Key(target) in c.brind)
    ensures Has(c, target) && BrindAt(c, target).code == Some(c.blocks[Key(target)].code)
  {
    hide L1Key;
    assert L1Key(target) in c.brind;
    assert BrindOk(c, L1Key(target), c.brind[L1Key(target)]);
  }

  /** For target zero an empty entry matches too and the jump goes to null: the nonzero
      assumption is exact. */
  lemma ProbeZero(c: Cache, target: W)
    requires Coherent(c) && BrindAt(c, target).gip == target
    ensures BrindAt(c, target).code.None? <==> target == 0 && L1Key(target) !in c.brind
  {
    hide L1Key;
    if L1Key(target) in c.brind {
      assert BrindOk(c, L1Key(target), c.brind[L1Key(target)]);
    }
  }

  class TranslationCache {
    var blocks: map<Key, TBlock>
    var l1: map<Key, TBlock>
    var brind: map<Key, BrindEntry>
    var links: multiset<(Key, SlotId)>

    ghost function Contents(): Cache
      reads this
    {
      Cache(blocks, l1, brind, links)
    }

    constructor Init()
      ensures Contents() == EMPTY && Coherent(Contents())
    {
      blocks, l1, brind, links := map[], map[], map[], multiset{};
    }

    method LookupFull(gip: W) returns (tb: Option<TBlock>)
      ensures tb == Find(Contents(), gip)
    {
      if Key(gip) in blocks {
        return Some(blocks[Key(gip)]);
      }
      return None;
    }

    /** Whatever collisions and refills occurred, the answer is the map's entry. */
    method Lookup(ip: W) returns (tb: Option<TBlock>)
      requires Coherent(Contents())
      modifies this`l1
      ensures tb == Find(Contents(), ip) && Contents() == AfterLookup(old(Contents()), ip) && Coherent(Contents())
    {
      hide L1Key;
      LookupCoherent(Contents(), ip);
      var hash := L1Key(ip);
      if hash in l1 && l1[hash].ip == ip {
        assert l1[hash := l1[hash]] == l1;
        return Some(l1[hash]);
      }
      tb := LookupFull(ip);
      if tb.Some? {
        l1 := l1[hash := tb.value];
      }
    }

    method Insert(tb: TBlock)
      requires Coherent(Contents()) && !Has(Contents(), tb.ip)
      modifies this`blocks, this`l1
      ensures Contents() == AfterInsert(old(Contents()), tb) && Coherent(Contents())
    {
      hide L1Key;
      InsertCoherent(Contents(), tb);
      blocks := blocks[Key(tb.ip) := tb];
      l1 := l1[L1Key(tb.ip) := tb];
    }

    method CacheBrind(tb: TBlock)
      requires Coherent(Contents()) && Find(Contents(), tb.ip) == Some(tb)
      modifies this`brind
      ensures Contents() == AfterCacheBrind(old(Contents()), tb) && Coherent(Contents())
    {
      hide L1Key;
      BrindCoherent(Contents(), tb);
      brind := brind[L1Key(tb.ip) := BrindEntry(tb.ip, Some(tb.code))];
    }

    method RecordLink(slot: SlotId, tgt: TBlock)
      requires Coherent(Contents())
      modifies this`links
      ensures Contents() == AfterRecordLink(old(Contents()), slot, tgt) && Coherent(Contents())
    {
      LinkCoherent(Contents(), slot, tgt);
      links := links + multiset{(Key(tgt.ip), slot)};
    }

    /** The block with the least entry address above `gip`. */
    method LookupUpperBound(gip: W) returns (tb: Option<TBlock>)
      requires Coherent(Contents())
      ensures tb.None? ==> forall k :: k in blocks ==> !Above(k, gip)
      ensures tb.Some? ==> Find(Contents(), tb.value.ip) == tb && Above(Key(tb.value.ip), gip)
      ensures tb.Some? ==> forall k :: k in blocks && Above(k, gip) ==> !Above(Key(tb.value.ip), k.w)
    {
      hide Le, Above;
      tb := None;
      var rest := blocks.Keys;
      while rest != {}
        invariant rest <= blocks.Keys
        invariant tb.None? ==> forall k :: k in blocks && k !in rest ==> !Above(k, gip)
        invariant tb.Some? ==> Find(Contents(), tb.value.ip) == tb && Above(Key(tb.value.ip), gip)
        invariant tb.Some? ==> forall k :: k in blocks && k !in rest && Above(k, gip) ==> !Above(Key(tb.value.ip), k.w)
        decreases rest
      {
        var k :| k in rest;
        assert blocks[k].ip == k.w && Key(k.w) == k;
        if Above(k, gip) && (tb.None? || Above(Key(tb.value.ip), k.w)) {
          if tb.Some? {
            LeastAbove(blocks.Keys - rest, gip, tb.value.ip, k.w);
          }
          NotAboveSelf(k);
          tb := Some(blocks[k]);
        }
        rest := rest - {k};
      }
    }

    /** The range to compile from `ip`: to the end of its page or the next known block. The upper
        end is nonzero, as the translator asserts, exactly for nonzero addresses up to the start
        of the last page. */
    method GetCompilationIPRange(ip: W) returns (upper: W)
      requires Coherent(Contents())
      ensures RangeEnd(Contents(), ip, upper)
      ensures upper == PageEnd(ip) || (Has(Contents(), upper) && Above(Key(upper), ip))
      ensures upper != 0 <==> 0 < ip <= 0xffff_f000
    {
      hide Above, PageEnd, Le;
      upper := PageEnd(ip);
      LeTotal(upper, upper);
      var tbUpper := LookupUpperBound(ip);
      if tbUpper.Some? {
        PageEndMin(ip, tbUpper.value.ip);
        LeTotal(upper, tbUpper.value.ip);
        if !Le(upper, tbUpper.value.ip) {
          upper := tbUpper.value.ip;
        } else {
          forall k | k in blocks && Above(k, ip) ensures !Above(Key(upper), k.w) {
            AboveMin(upper, tbUpper.value.ip, k.w);
          }
        }
      }
      PageEndZero(ip);
    }
  }

  /** `upper` is past neither the page of `ip` nor any block above `ip`. */
  ghost predicate RangeEnd(c: Cache, ip: W, upper: W) {
    Le(upper, PageEnd(ip)) && forall k :: k in c.blocks && Above(k, ip) ==> !Above(Key(upper), k.w)
  }

  /** Key `k` lies strictly above `ip`. */
  predicate Above(k: Key, ip: W) {
    !Le(k.w, ip)
  }

  lemma NotAboveSelf(k: Key)
    ensures !Above(k, k.w)
  {
  }

  lemma LeTotal(a: W, b: W)
    ensures Le(a, b) || Le(b, a)
  {
  }

  lemma LeastAbove(seen: set<Key>, gip: W, old_: W, new_: W)
    requires forall k :: k in seen && Above(k, gip) ==> !Above(Key(old_), k.w)
    requires Above(Key(old_), new_)
    ensures forall k :: k in seen && Above(k, gip) ==> !Above(Key(new_), k.w)
  {
    hide Le;
    LeTotal(old_, new_);
    forall k | k in seen && Above(k, gip) ensures !Above(Key(new_), k.w) {
      LeTrans(new_, old_, k.w);
    }
  }

  lemma AboveMin(upper: W, other: W, k: W)
    requires Le(upper, other) && !Above(Key(other), k)
    ensures !Above(Key(upper), k)
  {
    hide Le;
    LeTrans(upper, other, k);
  }

  // ----- compilation ranges -----

  /** The address rounded up to a page boundary, in 32 bits. */
  function PageEnd(ip: W): W {
    (ip + 0xfff) & 0xffff_f000
  }

  function PageOf(ip: W): W {
    ip & 0xffff_f000
  }

  lemma PageEndZero(ip: W)
    ensures PageEnd(ip) != 0 <==> 0 < ip <= 0xffff_f000
  {
  }

  /** A block above `ip` is not at address zero. */
  lemma PageEndMin(ip: W, other: W)
    requires Above(Key(other), ip)
    ensures other != 0 && (!Le(PageEnd(ip), other) ==> 0 < ip <= 0xffff_f000)
  {
  }
}
