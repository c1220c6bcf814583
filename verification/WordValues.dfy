/** What words mean as integers. Bit patterns stay behind names, so that proofs about values use their
    laws and not their bits. */
module WordValues {
  import opened Words
  import opened WordOrder
  import opened Powers

  const P31: int := 0x8000_0000
  const P32: int := 0x1_0000_0000

  function Half(w: W): W {
    w >> 1
  }

  predicate Odd(w: W) {
    w & 1 != 0
  }

  lemma HalfLess(w: W)
    ensures w != 0 ==> Half(w) < w
  {
  }

  /** The unsigned value: its lowest bit and twice the value of the rest. */
  function Num(w: W): nat
    decreases w
  {
    HalfLess(w);
    if w == 0 then 0 else 2 * Num(Half(w)) + if Odd(w) then 1 else 0
  }

  predicate Negative(w: W) {
    w & 0x8000_0000 != 0
  }

  /** The signed value. */
  function SNum(w: W): int {
    if Negative(w) then Num(w) - P32 else Num(w)
  }

  lemma ZeroHalf()
    ensures Half(0) == 0 && !Odd(0)
  {
  }

  lemma {:induction false} NumHalf(w: W)
    ensures Num(w) == 2 * Num(Half(w)) + if Odd(w) then 1 else 0
  {
    hide Half, Odd;
    ZeroHalf();
  }

  lemma {:induction false} NumZero()
    ensures Num(0) == 0
  {
  }

  // ----- words that share no bit -----

  function Join2(x: W, y: W): W {
    x | y
  }

  predicate Disjoint(x: W, y: W) {
    x & y == 0
  }

  lemma JoinHalf(x: W, y: W)
    requires Disjoint(x, y)
    ensures Disjoint(Half(x), Half(y)) && Half(Join2(x, y)) == Join2(Half(x), Half(y))
    ensures (Odd(Join2(x, y)) <==> Odd(x) || Odd(y)) && !(Odd(x) && Odd(y))
  {
  }

  lemma JoinZero(y: W)
    ensures Join2(0, y) == y
  {
  }

  /** Words that share no bit are joined by adding their values. */
  lemma {:induction false} JoinNum(x: W, y: W)
    requires Disjoint(x, y)
    ensures Num(Join2(x, y)) == Num(x) + Num(y)
    decreases x
  {
    hide Num, Half, Odd, Join2, Disjoint;
    if x == 0 {
      JoinZero(y);
      NumZero();
    } else {
      JoinHalf(x, y);
      HalfLess(x);
      JoinNum(Half(x), Half(y));
      NumHalf(x);
      NumHalf(y);
      NumHalf(Join2(x, y));
    }
  }

  // ----- bytes -----

  function Low8(w: W): W {
    w & 0xff
  }

  function High24(w: W): W {
    w & 0xffff_ff00
  }

  function Drop8(w: W): W {
    w >> 8
  }

  /** `n` halvings. */
  function Halves(w: W, n: nat): W {
    if n == 0 then w else Half(Halves(w, n - 1))
  }

  lemma {:induction false} EightHalves(w: W)
    ensures Halves(w, 8) == Drop8(w) && Halves(Low8(w), 8) == 0
    ensures forall k: nat :: k < 8 ==> !Odd(Halves(High24(w), k))
    ensures Drop8(High24(w)) == Drop8(w)
  {
    HalvesAre(w);
    HalvesAre(Low8(w));
    HalvesAre(High24(w));
  }

  lemma {:induction false} HalvesAre(w: W)
    ensures Halves(w, 0) == w && Halves(w, 1) == w >> 1 && Halves(w, 2) == w >> 2 && Halves(w, 3) == w >> 3
    ensures Halves(w, 4) == w >> 4 && Halves(w, 5) == w >> 5 && Halves(w, 6) == w >> 6 && Halves(w, 7) == w >> 7
    ensures Halves(w, 8) == w >> 8
  {
    assert Halves(w, 0) == w;
    assert Halves(w, 1) == w >> 1;
    assert Halves(w, 2) == w >> 2;
    assert Halves(w, 3) == w >> 3;
    assert Halves(w, 4) == w >> 4;
    assert Halves(w, 5) == w >> 5;
    assert Halves(w, 6) == w >> 6;
    assert Halves(w, 7) == w >> 7;
  }

  /** Halving `n` times divides by two to the `n`. */
  lemma {:induction false} NumHalves(w: W, n: nat)
    ensures Num(Halves(w, n)) == Num(w) / Pow2(n)
    decreases n
  {
    hide Num, Half, Odd;
    if n > 0 {
      NumHalves(w, n - 1);
      var x := Halves(w, n - 1);
      NumHalf(x);
      Nested(Num(w), Pow2(n - 1), 2);
      Divides(Num(x), 2, Num(Half(x)), if Odd(x) then 1 else 0);
      assert Pow2(n) == 2 * Pow2(n - 1);
      hide Pow2, Halves;
    } else {
      assert Pow2(0) == 1;
    }
  }

  /** And it multiplies back if no bit is lost. */
  lemma {:induction false} NumHalvesExact(w: W, n: nat)
    requires forall k: nat :: k < n ==> !Odd(Halves(w, k))
    ensures Num(w) == Num(Halves(w, n)) * Pow2(n)
    decreases n
  {
    hide Num, Half, Odd;
    if n > 0 {
      NumHalvesExact(w, n - 1);
      var x := Halves(w, n - 1);
      NumHalf(x);
      Associates(Num(Half(x)), 2, Pow2(n - 1));
    }
  }

  lemma LowHigh(w: W)
    ensures Disjoint(Low8(w), High24(w)) && Join2(Low8(w), High24(w)) == w
  {
  }

  lemma Pow8()
    ensures Pow2(8) == 256
  {
  }

  lemma {:induction false} NumLowByte(w: W)
    ensures Num(w) == Num(Low8(w)) + 256 * Num(Drop8(w)) && Num(Low8(w)) < 256
  {
    hide Num, Half, Odd, Halves, Low8, High24, Drop8, Join2, Disjoint, Pow2;
    Pow8();
    LowHigh(w);
    JoinNum(Low8(w), High24(w));
    EightHalves(w);
    EightHalves(High24(w));
    NumHalvesExact(High24(w), 8);
    NumHalves(Low8(w), 8);
    NumZero();
  }

  /** Byte `k` of a word, lowest first. */
  function ByteAt(w: W, k: nat): W
    requires k < 4
  {
    match k
    case 0 => Low8(w)
    case 1 => Low8(Drop8(w))
    case 2 => Low8(Drop8(Drop8(w)))
    case _ => Drop8(Drop8(Drop8(w)))
  }

  lemma TopByte(w: W)
    ensures Low8(Drop8(Drop8(Drop8(w)))) == Drop8(Drop8(Drop8(w)))
  {
  }

  /** The value of a word from its bytes. */
  lemma {:induction false} NumBytes(w: W)
    ensures Num(w) ==
      Num(ByteAt(w, 0)) + 0x100 * Num(ByteAt(w, 1)) + 0x1_0000 * Num(ByteAt(w, 2)) + 0x100_0000 * Num(ByteAt(w, 3))
    ensures forall k :: 0 <= k < 4 ==> Num(ByteAt(w, k)) < 256
    ensures Num(w) < P32
  {
    hide Num, Low8, Drop8;
    NumLowByte(w);
    NumLowByte(Drop8(w));
    NumLowByte(Drop8(Drop8(w)));
    NumLowByte(Drop8(Drop8(Drop8(w))));
    TopByte(w);
  }

  // ----- particular words -----

  lemma {:induction false} SmallNums()
    ensures Num(1) == 1 && Num(0x80) == 0x80 && Num(0xff) == 0xff
  {
    assert Num(1) == 1;
    assert Num(3) == 3;
    assert Num(7) == 7;
    assert Num(15) == 15;
    assert Num(31) == 31;
    assert Num(63) == 63;
    assert Num(127) == 127;
    assert Num(2) == 2;
    assert Num(4) == 4;
    assert Num(8) == 8;
    assert Num(16) == 16;
    assert Num(32) == 32;
    assert Num(64) == 64;
  }

  lemma MaxBytes()
    ensures forall k :: 0 <= k < 4 ==> ByteAt(0xffff_ffff, k) == 0xff
    ensures ByteAt(0x8000_0000, 0) == 0 && ByteAt(0x8000_0000, 1) == 0 && ByteAt(0x8000_0000, 2) == 0
    ensures ByteAt(0x8000_0000, 3) == 0x80
  {
  }

  lemma {:induction false} LargeNums()
    ensures Num(0xffff_ffff) == P32 - 1 && Num(0x8000_0000) == P31
  {
    hide Num, ByteAt;
    MaxBytes();
    SmallNums();
    NumZero();
    NumBytes(0xffff_ffff);
    NumBytes(0x8000_0000);
    assert Num(ByteAt(0xffff_ffff, 0)) == 0xff && Num(ByteAt(0xffff_ffff, 1)) == 0xff;
    assert Num(ByteAt(0xffff_ffff, 2)) == 0xff && Num(ByteAt(0xffff_ffff, 3)) == 0xff;
  }

  // ----- addition and subtraction -----

  function Succ(w: W): W {
    w + 1
  }

  lemma SuccHalf(a: W)
    ensures !Odd(a) ==> Half(Succ(a)) == Half(a) && Odd(Succ(a))
    ensures Odd(a) && a != 0xffff_ffff ==> Half(Succ(a)) == Succ(Half(a)) && !Odd(Succ(a))
    ensures Odd(a) ==> Half(a) != 0xffff_ffff && a != 0
  {
  }

  lemma {:induction false} NumSucc(a: W)
    requires a != 0xffff_ffff
    ensures Num(Succ(a)) == Num(a) + 1
    decreases a
  {
    hide Num, Half, Odd, Succ;
    NumHalf(a);
    NumHalf(Succ(a));
    SuccHalf(a);
    if Odd(a) {
      HalfLess(a);
      NumSucc(Half(a));
    }
  }

  function Pred(w: W): W {
    w - 1
  }

  lemma PredSucc(b: W)
    requires b != 0
    ensures Pred(b) < b && Succ(Pred(b)) == b && Pred(b) != 0xffff_ffff
  {
  }

  lemma PlusPred(a: W, b: W)
    ensures Plus(a, b) == Plus(Succ(a), Pred(b)) && Plus(a, 0) == a && Succ(0xffff_ffff) == 0
  {
  }

  lemma ModLaws(x: int, y: int)
    ensures 0 <= x < P32 ==> x % P32 == x
    ensures (x + P32) % P32 == x % P32
  {
  }

  /** The sum, modulo two to the 32. */
  lemma {:induction false} NumPlus(a: W, b: W)
    ensures Num(Plus(a, b)) == (Num(a) + Num(b)) % P32
    decreases b
  {
    hide Num, Plus, Succ, Pred;
    NumBytes(a);
    PlusPred(a, b);
    if b == 0 {
      NumZero();
    } else {
      PredSucc(b);
      NumPlus(Succ(a), Pred(b));
      NumSucc(Pred(b));
      if a == 0xffff_ffff {
        LargeNums();
        NumZero();
        ModLaws(Num(Pred(b)), 0);
      } else {
        NumSucc(a);
      }
    }
  }
}
