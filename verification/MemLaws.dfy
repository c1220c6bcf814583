/** What guest loads and stores do to bytes, and what loaded words mean as integers. */
module MemLaws {
  import opened Words
  import opened Powers
  import opened WordValues
  import opened WordLaws

  lemma PutLoad(m: Mem, a: W, b: bv8, x: W)
    ensures LoadByte(PutByte(m, a, b), x) == if x == a then b else LoadByte(m, x)
  {
  }

  /** The address `k` bytes further on. */
  function At(a: W, k: nat): W
    requires k < 4
  {
    match k
    case 0 => a
    case 1 => a + 1
    case 2 => a + 2
    case _ => a + 3
  }

  lemma AtDistinct(a: W, j: nat, k: nat)
    requires j < 4 && k < 4 && j != k
    ensures At(a, j) != At(a, k)
  {
  }

  /** A store puts byte `k` of the word `k` bytes on. */
  lemma StoreByteAt(m: Mem, t: VType, a: W, w: W, k: nat)
    requires k < Size(t)
    ensures LoadByte(Store(m, t, a, w), At(a, k)) == ByteOf(w, k)
  {
    hide LoadByte, PutByte, ByteOf, At, Store;
    StorePuts(m, t, a, w);
    PutsKeep(m, a, w, At(a, k));
    if k < 1 {
      AtDistinct(a, k, 1);
    }
    if k < 2 {
      AtDistinct(a, k, 2);
    }
    if k < 3 {
      AtDistinct(a, k, 3);
    }
  }

  /** A store changes no other address. */
  lemma StoreElsewhere(m: Mem, t: VType, a: W, w: W, x: W)
    requires forall k :: 0 <= k < Size(t) ==> x != At(a, k)
    ensures LoadByte(Store(m, t, a, w), x) == LoadByte(m, x)
  {
    hide LoadByte, PutByte, ByteOf, At, Store;
    StorePuts(m, t, a, w);
    PutsKeep(m, a, w, x);
    assert x != At(a, 0) && (Size(t) > 1 ==> x != At(a, 1)) && (Size(t) > 2 ==> x != At(a, 2) && x != At(a, 3));
  }

  lemma StorePuts(m: Mem, t: VType, a: W, w: W)
    ensures var m1 := PutByte(m, At(a, 0), ByteOf(w, 0));
      var m2 := PutByte(m1, At(a, 1), ByteOf(w, 1));
      var m3 := PutByte(m2, At(a, 2), ByteOf(w, 2));
      Store(m, t, a, w) == match t case I8 => m1 case I16 => m2 case I32 => PutByte(m3, At(a, 3), ByteOf(w, 3))
  {
    hide PutByte, ByteOf;
  }

  lemma PutsKeep(m: Mem, a: W, w: W, x: W)
    ensures var m1 := PutByte(m, At(a, 0), ByteOf(w, 0));
      var m2 := PutByte(m1, At(a, 1), ByteOf(w, 1));
      var m3 := PutByte(m2, At(a, 2), ByteOf(w, 2));
      var m4 := PutByte(m3, At(a, 3), ByteOf(w, 3));
      && LoadByte(m1, x) == (if x == At(a, 0) then ByteOf(w, 0) else LoadByte(m, x))
      && LoadByte(m2, x) == (if x == At(a, 1) then ByteOf(w, 1) else LoadByte(m1, x))
      && LoadByte(m3, x) == (if x == At(a, 2) then ByteOf(w, 2) else LoadByte(m2, x))
      && LoadByte(m4, x) == (if x == At(a, 3) then ByteOf(w, 3) else LoadByte(m3, x))
  {
    hide LoadByte, PutByte, ByteOf, At;
    var m1 := PutByte(m, At(a, 0), ByteOf(w, 0));
    var m2 := PutByte(m1, At(a, 1), ByteOf(w, 1));
    var m3 := PutByte(m2, At(a, 2), ByteOf(w, 2));
    PutLoad(m, At(a, 0), ByteOf(w, 0), x);
    PutLoad(m1, At(a, 1), ByteOf(w, 1), x);
    PutLoad(m2, At(a, 2), ByteOf(w, 2), x);
    PutLoad(m3, At(a, 3), ByteOf(w, 3), x);
  }

  /** The value of a byte. */
  function ByteNum(b: bv8): nat {
    Num(b as bv32)
  }

  lemma JoinedBytes(b0: bv8, b1: bv8, b2: bv8, b3: bv8)
    ensures var w := Join(b0, b1, b2, b3);
      && ByteAt(w, 0) == b0 as bv32 && ByteAt(w, 1) == b1 as bv32
      && ByteAt(w, 2) == b2 as bv32 && ByteAt(w, 3) == b3 as bv32
  {
  }

  lemma ZeroByte()
    ensures ByteNum(0) == 0
  {
  }

  /** Little-endian. */
  lemma {:induction false} JoinNumber(b0: bv8, b1: bv8, b2: bv8, b3: bv8)
    ensures Num(Join(b0, b1, b2, b3)) ==
      ByteNum(b0) + 0x100 * ByteNum(b1) + 0x1_0000 * ByteNum(b2) + 0x100_0000 * ByteNum(b3)
    ensures ByteNum(b0) < 256 && ByteNum(b1) < 256 && ByteNum(b2) < 256 && ByteNum(b3) < 256
  {
    hide Num, Join, ByteAt;
    JoinedBytes(b0, b1, b2, b3);
    NumBytes(Join(b0, b1, b2, b3));
    assert Num(ByteAt(Join(b0, b1, b2, b3), 0)) < 256 && Num(ByteAt(Join(b0, b1, b2, b3), 1)) < 256;
    assert Num(ByteAt(Join(b0, b1, b2, b3), 2)) < 256 && Num(ByteAt(Join(b0, b1, b2, b3), 3)) < 256;
  }

  // ----- loads -----

  lemma LoadIs(m: Mem, t: VType, sgn: VSign, a: W)
    ensures Load(m, t, sgn, a) == Extend(t, sgn, match t
      case I8 => Join(LoadByte(m, At(a, 0)), 0, 0, 0)
      case I16 => Join(LoadByte(m, At(a, 0)), LoadByte(m, At(a, 1)), 0, 0)
      case I32 => Join(LoadByte(m, At(a, 0)), LoadByte(m, At(a, 1)), LoadByte(m, At(a, 2)), LoadByte(m, At(a, 3))))
  {
    hide LoadByte, Join, Extend;
  }

  /** The number that `n` bytes from `a` spell, least significant first. */
  function Spelled(m: Mem, a: W, n: nat): nat
    requires n <= 4
  {
    if n == 0 then 0 else Spelled(m, a, n - 1) + Pow2(8 * (n - 1)) * ByteNum(LoadByte(m, At(a, n - 1)))
  }

  lemma BytePowers()
    ensures Pow2(0) == 1 && Pow2(8) == 0x100 && Pow2(16) == 0x1_0000 && Pow2(24) == 0x100_0000 && Pow2(32) == P32
    ensures Pow2(7) == 0x80 && Pow2(15) == 0x8000 && Pow2(31) == P31
  {
    PowAdd(8, 8);
    PowAdd(16, 8);
    PowAdd(16, 16);
    assert Pow2(8) == 0x100 && Pow2(7) == 0x80;
    assert Pow2(16) == 2 * Pow2(15);
    assert Pow2(32) == 2 * Pow2(31);
  }

  lemma {:induction false} SpelledIs(m: Mem, a: W)
    ensures Spelled(m, a, 1) == ByteNum(LoadByte(m, At(a, 0)))
    ensures Spelled(m, a, 2) == Spelled(m, a, 1) + 0x100 * ByteNum(LoadByte(m, At(a, 1)))
    ensures Spelled(m, a, 3) == Spelled(m, a, 2) + 0x1_0000 * ByteNum(LoadByte(m, At(a, 2)))
    ensures Spelled(m, a, 4) == Spelled(m, a, 3) + 0x100_0000 * ByteNum(LoadByte(m, At(a, 3)))
  {
    BytePowers();
    hide Pow2, LoadByte, At, ByteNum;
    assert Spelled(m, a, 0) == 0;
  }

  /** The bytes before extension. */
  function Raw(m: Mem, t: VType, a: W): W {
    match t
    case I8 => Join(LoadByte(m, At(a, 0)), 0, 0, 0)
    case I16 => Join(LoadByte(m, At(a, 0)), LoadByte(m, At(a, 1)), 0, 0)
    case I32 => Join(LoadByte(m, At(a, 0)), LoadByte(m, At(a, 1)), LoadByte(m, At(a, 2)), LoadByte(m, At(a, 3)))
  }

  lemma {:induction false} RawNum(m: Mem, t: VType, a: W)
    ensures Num(Raw(m, t, a)) == Spelled(m, a, Size(t)) < Pow2(8 * Size(t))
  {
    BytePowers();
    hide Num, Join, LoadByte, At, ByteNum, Spelled, Pow2;
    SpelledIs(m, a);
    ZeroByte();
    match t {
      case I8 => JoinNumber(LoadByte(m, At(a, 0)), 0, 0, 0);
      case I16 => JoinNumber(LoadByte(m, At(a, 0)), LoadByte(m, At(a, 1)), 0, 0);
      case I32 =>
        JoinNumber(LoadByte(m, At(a, 0)), LoadByte(m, At(a, 1)), LoadByte(m, At(a, 2)), LoadByte(m, At(a, 3)));
    }
  }

  lemma {:induction false} ByteSign(b: bv8)
    ensures ByteNum(b) >= 0x80 <==> b & 0x80 != 0
  {
    BytePowers();
    var x := b as bv32;
    hide Num, Half, Odd, Pow2;
    NumHalves(x, 7);
    BitIsDigit(x, 7);
    ByteSignBit(b);
    JoinNumber(b, 0, 0, 0);
    ByteOfDigit(ByteNum(b));
  }

  lemma ByteOfDigit(n: nat)
    requires n < 256
    ensures n >= 0x80 <==> n / 0x80 % 2 == 1
  {
  }

  lemma {:induction false} ByteSignBit(b: bv8)
    ensures BitSet(b as bv32, 7) <==> b & 0x80 != 0
  {
    HalvesAre(b as bv32);
  }

  /** The byte that holds the sign. */
  function TopByteOf(m: Mem, t: VType, a: W): bv8 {
    LoadByte(m, At(a, Size(t) - 1))
  }

  /** Ones above the loaded bytes. */
  function Filler(t: VType): W {
    match t
    case I8 => 0xffff_ff00
    case I16 => 0xffff_0000
    case I32 => 0
  }

  lemma FillerBytes()
    ensures forall k :: 0 <= k < 4 ==> ByteAt(0xffff_ff00, k) == if k < 1 then 0 else 0xff
    ensures forall k :: 0 <= k < 4 ==> ByteAt(0xffff_0000, k) == if k < 2 then 0 else 0xff
  {
  }

  lemma {:induction false} FillerNum(t: VType)
    ensures !t.I32? ==> Num(Filler(t)) == P32 - Pow2(8 * Size(t))
  {
    BytePowers();
    FillerBytes();
    SmallNums();
    NumZero();
    hide Num, ByteAt, Pow2;
    NumBytes(0xffff_ff00);
    NumBytes(0xffff_0000);
    assert Num(ByteAt(0xffff_ff00, 0)) == 0 && Num(ByteAt(0xffff_ff00, 1)) == 0xff;
    assert Num(ByteAt(0xffff_ff00, 2)) == 0xff && Num(ByteAt(0xffff_ff00, 3)) == 0xff;
    assert Num(ByteAt(0xffff_0000, 0)) == 0 && Num(ByteAt(0xffff_0000, 1)) == 0;
    assert Num(ByteAt(0xffff_0000, 2)) == 0xff && Num(ByteAt(0xffff_0000, 3)) == 0xff;
  }

  lemma Extend8(b: bv8)
    ensures var w := Join(b, 0, 0, 0);
      && !Negative(w) && Disjoint(w, 0xffff_ff00) && Negative(Join2(w, 0xffff_ff00)) && Extend(I8, U, w) == w
      && Extend(I8, S, w) == if b & 0x80 != 0 then Join2(w, 0xffff_ff00) else w
  {
  }

  lemma Extend16(b0: bv8, b1: bv8)
    ensures var w := Join(b0, b1, 0, 0);
      && !Negative(w) && Disjoint(w, 0xffff_0000) && Negative(Join2(w, 0xffff_0000)) && Extend(I16, U, w) == w
      && Extend(I16, S, w) == if b1 & 0x80 != 0 then Join2(w, 0xffff_0000) else w
  {
  }

  lemma ExtendRaw(m: Mem, t: VType, a: W)
    requires !t.I32?
    ensures var w := Raw(m, t, a);
      && !Negative(w) && Disjoint(w, Filler(t)) && Negative(Join2(w, Filler(t))) && Extend(t, U, w) == w
      && Extend(t, S, w) == if TopByteOf(m, t, a) & 0x80 != 0 then Join2(w, Filler(t)) else w
  {
    hide Join, Extend, Negative, Disjoint, Join2, LoadByte, At;
    if t.I8? {
      Extend8(LoadByte(m, At(a, 0)));
    } else {
      Extend16(LoadByte(m, At(a, 0)), LoadByte(m, At(a, 1)));
    }
  }

  /** The number in two's complement of `n` bytes. */
  function TwosComplement(x: nat, n: nat): int
    requires n > 0
  {
    if x < Pow2(8 * n - 1) then x else x - Pow2(8 * n)
  }

  lemma {:induction false} TopByteDecides(m: Mem, t: VType, a: W)
    ensures TopByteOf(m, t, a) & 0x80 != 0 <==> Spelled(m, a, Size(t)) >= Pow2(8 * Size(t) - 1)
  {
    BytePowers();
    hide Num, Join, LoadByte, At, ByteNum, Spelled, Pow2;
    ByteSign(TopByteOf(m, t, a));
    SpelledIs(m, a);
    JoinNumber(LoadByte(m, At(a, 0)), LoadByte(m, At(a, 1)), LoadByte(m, At(a, 2)), LoadByte(m, At(a, 3)));
  }

  /** What a load yields: the number its bytes spell, least significant first, unsigned or in two's
      complement. */
  lemma {:induction false} LoadNum(m: Mem, t: VType, a: W)
    ensures Num(Load(m, t, U, a)) == Spelled(m, a, Size(t))
    ensures SNum(Load(m, t, S, a)) == TwosComplement(Spelled(m, a, Size(t)), Size(t))
  {
    BytePowers();
    hide Num, Raw, Load, Extend, Negative, Disjoint, Join2, Filler, Pow2, Spelled, LoadByte, At, TopByteOf;
    LoadIsRaw(m, t, U, a);
    LoadIsRaw(m, t, S, a);
    RawNum(m, t, a);
    TopByteDecides(m, t, a);
    var w := Raw(m, t, a);
    if t.I32? {
      WordExtend(w);
      NegativeNum(w);
    } else {
      ExtendRaw(m, t, a);
      FillerNum(t);
      JoinNum(w, Filler(t));
    }
  }

  lemma WordExtend(w: W)
    ensures Extend(I32, U, w) == w && Extend(I32, S, w) == w
  {
  }

  lemma LoadIsRaw(m: Mem, t: VType, sgn: VSign, a: W)
    ensures Load(m, t, sgn, a) == Extend(t, sgn, Raw(m, t, a))
  {
    hide Join, Extend, LoadByte;
  }

  /** A load after a store of the same width gives the stored value, cut to the width and extended. */
  lemma {:induction false} LoadStore(m: Mem, t: VType, sgn: VSign, a: W, w: W)
    ensures Load(Store(m, t, a, w), t, sgn, a) == Extend(t, sgn, Trunc(t, w))
  {
    hide Join, Extend, LoadByte, At, Store, ByteOf, Load, Trunc;
    var m' := Store(m, t, a, w);
    LoadIsRaw(m', t, sgn, a);
    JoinTrunc(t, w);
    StoreByteAt(m, t, a, w, 0);
    if !t.I8? {
      StoreByteAt(m, t, a, w, 1);
    }
    if t.I32? {
      StoreByteAt(m, t, a, w, 2);
      StoreByteAt(m, t, a, w, 3);
    }
  }

  lemma JoinTrunc(t: VType, w: W)
    ensures Trunc(t, w) == match t
      case I8 => Join(ByteOf(w, 0), 0, 0, 0)
      case I16 => Join(ByteOf(w, 0), ByteOf(w, 1), 0, 0)
      case I32 => Join(ByteOf(w, 0), ByteOf(w, 1), ByteOf(w, 2), ByteOf(w, 3))
  {
    JoinBytes(w);
    hide Join, ByteOf;
  }

  /** Byte `k` that a store writes is digit `k` of the value to base 256. */
  lemma {:induction false} ByteOfNum(w: W, k: nat)
    requires k < 4
    ensures ByteNum(ByteOf(w, k)) == Num(w) / Pow2(8 * k) % 256
  {
    BytePowers();
    hide Num, ByteAt, ByteOf, Pow2, ByteNum;
    ByteOfAt(w, k);
    WordDigits(w);
    match k {
      case 0 =>
      case 1 =>
      case 2 =>
      case _ =>
    }
  }

  lemma ByteOfAt(w: W, k: nat)
    requires k < 4
    ensures ByteNum(ByteOf(w, k)) == Num(ByteAt(w, k))
  {
    hide Num, ByteAt, ByteOf;
    ByteOfIs(w, k);
  }

  lemma {:induction false} WordDigits(w: W)
    ensures Num(w) / 1 % 256 == Num(ByteAt(w, 0)) && Num(w) / 0x100 % 256 == Num(ByteAt(w, 1))
    ensures Num(w) / 0x1_0000 % 256 == Num(ByteAt(w, 2)) && Num(w) / 0x100_0000 % 256 == Num(ByteAt(w, 3))
  {
    hide Num, ByteAt;
    NumBytes(w);
    var b0, b1, b2, b3 := Num(ByteAt(w, 0)), Num(ByteAt(w, 1)), Num(ByteAt(w, 2)), Num(ByteAt(w, 3));
    assert b0 < 256 && b1 < 256 && b2 < 256 && b3 < 256;
    Digits(b0, b1, b2, b3);
  }

  lemma ByteOfIs(w: W, k: nat)
    requires k < 4
    ensures ByteOf(w, k) as bv32 == ByteAt(w, k)
  {
  }

  lemma Digits(b0: nat, b1: nat, b2: nat, b3: nat)
    requires b0 < 256 && b1 < 256 && b2 < 256 && b3 < 256
    ensures var n := b0 + 0x100 * b1 + 0x1_0000 * b2 + 0x100_0000 * b3;
      && n % 256 == b0 && n / 0x100 % 256 == b1 && n / 0x1_0000 % 256 == b2 && n / 0x100_0000 % 256 == b3
  {
    var n := b0 + 0x100 * b1 + 0x1_0000 * b2 + 0x100_0000 * b3;
    assert n / 0x100 == b1 + 0x100 * b2 + 0x1_0000 * b3;
    assert n / 0x1_0000 == b2 + 0x100 * b3;
    assert n / 0x100_0000 == b3;
  }

  // ----- operand widths -----

  /** Truncation keeps the value modulo the width. */
  lemma {:induction false} TruncNum(t: VType, w: W)
    ensures Num(Trunc(t, w)) == Num(w) % Pow2(8 * Size(t))
  {
    BytePowers();
    JoinTrunc(t, w);
    hide Num, Trunc, Join, ByteOf, Pow2, ByteNum;
    WordOfBytes(w);
    ZeroByte();
    var b0, b1, b2, b3 := ByteOf(w, 0), ByteOf(w, 1), ByteOf(w, 2), ByteOf(w, 3);
    LowDigits(ByteNum(b0), ByteNum(b1), ByteNum(b2), ByteNum(b3));
    match t {
      case I8 => JoinNumber(b0, 0, 0, 0);
      case I16 => JoinNumber(b0, b1, 0, 0);
      case I32 => TruncWord(w);
    }
  }

  lemma {:induction false} WordOfBytes(w: W)
    ensures var b0, b1 := ByteNum(ByteOf(w, 0)), ByteNum(ByteOf(w, 1));
      var b2, b3 := ByteNum(ByteOf(w, 2)), ByteNum(ByteOf(w, 3));
      Num(w) == b0 + 0x100 * b1 + 0x1_0000 * b2 + 0x100_0000 * b3 && b0 < 256 && b1 < 256 && b2 < 256 && b3 < 256
  {
    JoinTrunc(I32, w);
    hide Num, Trunc, Join, ByteOf, ByteNum;
    TruncWord(w);
    JoinNumber(ByteOf(w, 0), ByteOf(w, 1), ByteOf(w, 2), ByteOf(w, 3));
  }

  lemma TruncWord(w: W)
    ensures Trunc(I32, w) == w
  {
  }

  lemma LowDigits(b0: nat, b1: nat, b2: nat, b3: nat)
    requires b0 < 256 && b1 < 256 && b2 < 256 && b3 < 256
    ensures var n := b0 + 0x100 * b1 + 0x1_0000 * b2 + 0x100_0000 * b3;
      n % 0x100 == b0 && n % 0x1_0000 == b0 + 0x100 * b1 && n % 0x1_0000_0000 == n
  {
  }

  lemma {:induction false} HalvesSplit(w: W, i: nat, j: nat)
    ensures Halves(w, i + j) == Halves(Halves(w, i), j)
    decreases j
  {
    hide Half;
    if j > 0 {
      HalvesSplit(w, i, j - 1);
    }
  }

  lemma MergeDrops(old_: W, w: W)
    ensures Drop8(Merge(I8, old_, w)) == Drop8(old_) && Drop8(Drop8(Merge(I16, old_, w))) == Drop8(Drop8(old_))
  {
    assert ((old_ & 0xffff_ff00) | (w & 0xff)) >> 8 == old_ >> 8;
    MergeDrops16(old_, w);
    hide Merge;
  }

  lemma MergeIs16(old_: W, w: W)
    ensures Merge(I16, old_, w) == (old_ & 0xffff_0000) | (w & 0xffff)
  {
  }

  lemma DropTwice(x: W)
    ensures Drop8(Drop8(x)) == x >> 16
  {
  }

  lemma HighKept(old_: W, w: W)
    ensures ((old_ & 0xffff_0000) | (w & 0xffff)) >> 16 == old_ >> 16
  {
  }

  lemma DropsJoined(old_: W, w: W)
    ensures Drop8(Drop8((old_ & 0xffff_0000) | (w & 0xffff))) == Drop8(Drop8(old_))
  {
    hide Drop8;
    DropTwice((old_ & 0xffff_0000) | (w & 0xffff));
    DropTwice(old_);
    HighKept(old_, w);
  }

  lemma MergeDrops16(old_: W, w: W)
    ensures Drop8(Drop8(Merge(I16, old_, w))) == Drop8(Drop8(old_))
  {
    MergeIs16(old_, w);
    DropsJoined(old_, w);
    hide Merge, Drop8;
  }

  lemma {:induction false} MergeHigh(t: VType, old_: W, w: W)
    requires !t.I32?
    ensures Halves(Merge(t, old_, w), 8 * Size(t)) == Halves(old_, 8 * Size(t))
  {
    hide Merge, Half, Drop8, Halves;
    MergeDrops(old_, w);
    var m := Merge(t, old_, w);
    EightHalves(m);
    EightHalves(old_);
    if t.I16? {
      HalvesSplit(m, 8, 8);
      HalvesSplit(old_, 8, 8);
      EightHalves(Drop8(m));
      EightHalves(Drop8(old_));
    }
  }

  /** A register write of a narrow type changes the low part only; a full write changes it all. */
  lemma {:induction false} MergeNum(t: VType, old_: W, w: W)
    ensures Num(Merge(t, old_, w)) % Pow2(8 * Size(t)) == Num(w) % Pow2(8 * Size(t))
    ensures !t.I32? ==> Num(Merge(t, old_, w)) / Pow2(8 * Size(t)) == Num(old_) / Pow2(8 * Size(t))
  {
    hide Num, Trunc, Merge, Pow2, Halves;
    TruncMerge(t, old_, w);
    TruncNum(t, Merge(t, old_, w));
    TruncNum(t, w);
    if !t.I32? {
      MergeHigh(t, old_, w);
      NumHalves(Merge(t, old_, w), 8 * Size(t));
      NumHalves(old_, 8 * Size(t));
    }
  }
}
