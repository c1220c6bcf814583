/** What one call of the translator may fetch: at most 64 words, all in the page of the entry, none
    of them the entry of a block that is already cached. */
module Ranges {
  import opened Words
  import opened WordOrder
  import opened WordValues
  import opened Powers
  import opened TCache
  import opened TransRuns

  predicate Aligned(x: W) {
    x & 3 == 0
  }

  /** `x` is the last word of its page. */
  predicate LastWord(x: W) {
    x & 0xffc == 0xffc
  }

  function After(x: W): W {
    x + 4
  }

  function NextPage(page: W): W {
    page + 0x1000
  }

  /** `x` is an aligned address in the page of `entry`, at or above it. From the start of a page,
      whose rounded-up end is itself, one word only is fetched. */
  predicate InPage(entry: W, x: W) {
    Aligned(x) && PageOf(x) == PageOf(entry) && Le(entry, x) && (PageOf(entry) == entry ==> x == entry)
  }

  lemma Grows(x: W)
    requires Aligned(x) && !LastWord(x)
    ensures Le(x, x + 4) && !Le(x + 4, x)
  {
  }

  lemma AfterGrows(x: W)
    requires Aligned(x) && !LastWord(x)
    ensures Le(x, After(x)) && !Le(After(x), x)
  {
    Grows(x);
    hide Le;
  }

  lemma AfterAligned(x: W)
    requires Aligned(x)
    ensures Aligned(After(x)) && (!LastWord(x) ==> PageOf(After(x)) == PageOf(x))
  {
  }

  lemma AfterLast(x: W)
    requires Aligned(x) && LastWord(x)
    ensures After(x) == NextPage(PageOf(x))
  {
    assert x + 4 == (x & 0xffff_f000) + 0x1000;
  }

  lemma PageEndOf(entry: W)
    ensures PageEnd(entry) == if PageOf(entry) == entry then entry else NextPage(PageOf(entry))
  {
    if entry & 0xffff_f000 == entry {
      assert (entry + 0xfff) & 0xffff_f000 == entry;
    } else {
      assert (entry + 0xfff) & 0xffff_f000 == (entry & 0xffff_f000) + 0x1000;
    }
  }

  lemma LeReflexive(x: W)
    ensures Le(x, x)
  {
  }

  lemma PageStart(entry: W)
    requires PageOf(entry) == entry
    ensures !LastWord(entry)
  {
  }

  /** The next word is in the page too unless it is the first of the next page. */
  lemma NextInPage(entry: W, x: W)
    requires InPage(entry, x) && !Le(PageEnd(entry), After(x))
    ensures InPage(entry, After(x)) && Above(Key(After(x)), entry)
  {
    hide Aligned, LastWord, After, NextPage, PageOf, PageEnd, Le;
    PageEndOf(entry);
    LeReflexive(After(x));
    if PageOf(entry) == entry {
      PageStart(entry);
    }
    if LastWord(x) {
      AfterLast(x);
    } else {
      AfterGrows(x);
      LeTrans(entry, x, After(x));
      AfterAligned(x);
      if Le(After(x), entry) {
        LeTrans(After(x), entry, x);
      }
    }
  }

  lemma {:induction false} FetchedAt(c: Cache, entry: W, upper: W, ips: seq<W>, j: nat)
    requires Aligned(entry) && RangeEnd(c, entry, upper) && Fetched(entry, upper, ips) && j < |ips|
    ensures InPage(entry, ips[j]) && (j > 0 ==> !Has(c, ips[j]))
  {
    if j == 0 {
      FirstInPage(entry);
    } else {
      FetchedAt(c, entry, upper, ips, j - 1);
      hide InPage, Le, PageEnd, After, Aligned;
      assert FetchedNext(ips, j, upper);
      NotPast(entry, upper, ips, j);
      NextInPage(entry, ips[j - 1]);
    }
  }

  lemma FirstInPage(entry: W)
    requires Aligned(entry)
    ensures InPage(entry, entry)
  {
  }

  lemma Fresh(ips: seq<W>, j: nat, upper: W)
    requires FetchedNext(ips, j, upper)
    ensures ips[j] == After(ips[j - 1]) && !Le(upper, ips[j])
  {
  }

  lemma NotPast(entry: W, upper: W, ips: seq<W>, j: nat)
    requires 0 < j < |ips| && FetchedNext(ips, j, upper) && Le(upper, PageEnd(entry))
    ensures ips[j] == After(ips[j - 1]) && !Le(PageEnd(entry), ips[j]) && Above(Key(upper), ips[j])
  {
    hide Le, PageEnd, FetchedNext, After;
    Fresh(ips, j, upper);
    if Le(PageEnd(entry), ips[j]) {
      LeTrans(upper, PageEnd(entry), ips[j]);
    }
  }

  /** All fetched words lie in the page of the entry, and none but the first is the entry of a block of
      the cache. */
  ghost predicate Contained(c: Cache, entry: W, ips: seq<W>) {
    && (forall j :: 0 <= j < |ips| ==> InPage(entry, ips[j]))
    && (forall j :: 0 < j < |ips| ==> !Has(c, ips[j]))
  }

  lemma NothingFetched(c: Cache, entry: W)
    ensures Contained(c, entry, [])
  {
  }

  /** Translated range containment. */
  lemma {:induction false} RangeContained(c: Cache, entry: W, upper: W, ips: seq<W>)
    requires Aligned(entry) && RangeEnd(c, entry, upper) && Fetched(entry, upper, ips)
    ensures Contained(c, entry, ips)
  {
    hide RangeEnd, Fetched, InPage, Has;
    forall j | 0 <= j < |ips| ensures InPage(entry, ips[j]) && (j > 0 ==> !Has(c, ips[j])) {
      FetchedAt(c, entry, upper, ips, j);
    }
  }

  // ----- pages as numbers -----

  lemma PageHalves(w: W)
    ensures Low8(PageOf(w)) == 0 && Halves(Drop8(PageOf(w)), 4) == Halves(Drop8(w), 4)
    ensures forall k: nat :: k < 4 ==> !Odd(Halves(Drop8(PageOf(w)), k))
  {
    HalvesAre(Drop8(PageOf(w)));
    HalvesAre(Drop8(w));
  }

  lemma {:induction false} PageNum(w: W)
    ensures Num(PageOf(w)) == Num(w) / 0x1000 * 0x1000
  {
    assert Pow2(4) == 16;
    hide Num, Half, Odd, Halves, Low8, Drop8, PageOf, Pow2;
    PageHalves(w);
    NumLowByte(w);
    NumLowByte(PageOf(w));
    NumZero();
    NumHalves(Drop8(w), 4);
    NumHalvesExact(Drop8(PageOf(w)), 4);
  }

  lemma PageEndIs(ip: W)
    ensures PageEnd(ip) == PageOf(ip + 0xfff)
  {
  }

  lemma PageEndPlus(ip: W)
    ensures PageEnd(ip) == PageOf(Plus(ip, 0xfff))
  {
    PageEndIs(ip);
    hide PageEnd, PageOf;
  }

  lemma TwelveBytes()
    ensures ByteAt(0xfff, 0) == 0xff && ByteAt(0xfff, 1) == 15 && ByteAt(0xfff, 2) == 0 && ByteAt(0xfff, 3) == 0
  {
  }

  lemma {:induction false} TwelveOnes()
    ensures Num(0xfff) == 0xfff
  {
    assert Num(15) == 15;
    SmallNums();
    NumZero();
    hide Num, ByteAt;
    TwelveBytes();
    NumBytes(0xfff);
  }

  /** The end of the range is the address rounded up to a multiple of 4096, in 32 bits. */
  lemma {:induction false} PageEndNum(ip: W)
    ensures Num(PageEnd(ip)) == (Num(ip) + 0xfff) / 0x1000 * 0x1000 % P32
  {
    hide Num, Plus, PageEnd, PageOf;
    PageEndPlus(ip);
    PageNum(Plus(ip, 0xfff));
    TwelveOnes();
    NumPlus(ip, 0xfff);
    NumBytes(ip);
    RoundedSum(Num(ip) + 0xfff);
  }

  lemma RoundedSum(x: nat)
    ensures x % P32 / 0x1000 * 0x1000 == x / 0x1000 * 0x1000 % P32
  {
    var q, r := x / P32, x % P32;
    assert x / 0x1000 == q * 0x10_0000 + r / 0x1000;
    assert x / 0x1000 * 0x1000 == q * P32 + r / 0x1000 * 0x1000;
    Divides(x / 0x1000 * 0x1000, P32, q, r / 0x1000 * 0x1000);
  }
}
