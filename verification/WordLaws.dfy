/** What the word operations compute, on integers: a reference for the arithmetic, the conditions and
    the memory accesses that the interpreter, the intermediate code and the emitted code share. */
module WordLaws {
  import opened Words
  import opened WordOrder
  import opened Powers
  import opened WordValues

  // ----- order -----

  lemma HalvesDecide(a: W, b: W)
    requires Half(a) == Half(b) && (Odd(a) <==> Odd(b))
    ensures a == b
  {
  }

  lemma {:induction false} NumInjective(a: W, b: W)
    requires Num(a) == Num(b)
    ensures a == b
    decreases a
  {
    hide Num, Half, Odd;
    NumHalf(a);
    NumHalf(b);
    if a == 0 {
      NumZeroOnly(b);
    } else {
      HalfLess(a);
      NumInjective(Half(a), Half(b));
      HalvesDecide(a, b);
    }
  }

  lemma {:induction false} NumZeroOnly(b: W)
    ensures Num(0) == 0 && (Num(b) == 0 ==> b == 0)
    decreases b
  {
    hide Num, Half, Odd;
    NumZero();
    NumHalf(b);
    if b != 0 && Num(b) == 0 {
      HalfLess(b);
      NumZeroOnly(Half(b));
      ZeroHalf();
      HalvesDecide(b, 0);
    }
  }

  lemma LeSucc(a: W)
    ensures Le(a, a) && (a != 0xffff_ffff ==> Le(a, Succ(a)))
  {
    assert a <= a;
    if a != 0xffff_ffff {
      assert a <= a + 1;
    }
  }

  lemma ByteAntisymmetric(a: W, b: W)
    requires IsByte(a) && IsByte(b) && Le(a, b) && Le(b, a)
    ensures a == b
  {
  }

  function ByteOfOrder(w: W, k: nat): W {
    match k
    case 0 => w & 0xff
    case 1 => (w >> 8) & 0xff
    case 2 => (w >> 16) & 0xff
    case _ => w >> 24
  }

  /** The order on the low `k + 1` bytes. */
  predicate LeLow(a: W, b: W, k: nat) {
    match k
    case 0 => Le(a & 0xff, b & 0xff)
    case 1 => Le(a & 0xffff, b & 0xffff)
    case 2 => Le(a & 0xff_ffff, b & 0xff_ffff)
    case _ => Le(a, b)
  }

  lemma SplitLow(a: W, b: W, k: nat)
    requires 0 < k < 4
    ensures LeLow(a, b, k) <==> Lex(ByteOfOrder(a, k), ByteOfOrder(b, k), LeLow(a, b, k - 1))
  {
    hide Le, Lex;
    Split3(a, b);
    Split2(a, b);
    Split1(a, b);
  }

  lemma SameBytes(a: W, b: W)
    requires forall k :: 0 <= k < 4 ==> ByteOfOrder(a, k) == ByteOfOrder(b, k)
    ensures a == b
  {
    assert ByteOfOrder(a, 0) == ByteOfOrder(b, 0) && ByteOfOrder(a, 1) == ByteOfOrder(b, 1);
    assert ByteOfOrder(a, 2) == ByteOfOrder(b, 2) && ByteOfOrder(a, 3) == ByteOfOrder(b, 3);
  }

  lemma OrderBytes(w: W, k: nat)
    ensures IsByte(ByteOfOrder(w, k))
  {
    Bytes(w);
  }

  lemma LowestLe(a: W, b: W)
    ensures LeLow(a, b, 0) <==> Le(ByteOfOrder(a, 0), ByteOfOrder(b, 0))
    ensures LeLow(a, b, 3) <==> Le(a, b)
  {
    hide Le;
  }

  lemma {:induction false} LowAntisymmetric(a: W, b: W, k: nat)
    requires k < 4 && LeLow(a, b, k) && LeLow(b, a, k)
    ensures forall j: nat :: j <= k ==> ByteOfOrder(a, j) == ByteOfOrder(b, j)
  {
    hide LeLow, ByteOfOrder, Lex, Le, IsByte;
    OrderBytes(a, k);
    OrderBytes(b, k);
    if k == 0 {
      LowestLe(a, b);
      LowestLe(b, a);
      ByteAntisymmetric(ByteOfOrder(a, 0), ByteOfOrder(b, 0));
    } else {
      SplitLow(a, b, k);
      SplitLow(b, a, k);
      LexAntisymmetric(ByteOfOrder(a, k), ByteOfOrder(b, k), LeLow(a, b, k - 1), LeLow(b, a, k - 1));
      LowAntisymmetric(a, b, k - 1);
    }
  }

  lemma LeAntisymmetric(a: W, b: W)
    requires Le(a, b) && Le(b, a)
    ensures a == b
  {
    hide LeLow, ByteOfOrder, Le;
    LowestLe(a, b);
    LowestLe(b, a);
    LowAntisymmetric(a, b, 3);
    SameBytes(a, b);
  }

  lemma LexAntisymmetric(x: W, y: W, xy: bool, yx: bool)
    requires IsByte(x) && IsByte(y) && Lex(x, y, xy) && Lex(y, x, yx)
    ensures x == y && xy && yx
  {
    hide Le, IsByte;
    if x != y {
      ByteAntisymmetric(x, y);
    }
  }

  lemma {:induction false} NumLe(a: W, b: W)
    requires Num(a) <= Num(b)
    ensures Le(a, b)
    decreases Num(b) - Num(a)
  {
    hide Num, Le, Succ;
    LeSucc(a);
    if Num(a) == Num(b) {
      NumInjective(a, b);
    } else {
      LargeNums();
      NumBytes(b);
      NumSucc(a);
      NumLe(Succ(a), b);
      LeTrans(a, Succ(a), b);
    }
  }

  lemma {:induction false} LeNum(a: W, b: W)
    ensures Le(a, b) <==> Num(a) <= Num(b)
  {
    hide Num, Le;
    if Num(a) <= Num(b) {
      NumLe(a, b);
    } else {
      NumLe(b, a);
      if Le(a, b) {
        LeAntisymmetric(a, b);
      }
    }
  }

  /** The sign bit says whether the value is in the upper half. */
  lemma {:induction false} NegativeNum(w: W)
    ensures Negative(w) <==> Num(w) >= P31
    ensures -P31 <= SNum(w) < P31
  {
    hide Num, Le;
    LargeNums();
    LeNum(0x8000_0000, w);
    NumBytes(w);
    NegativeLe(w);
  }

  lemma NegativeLe(w: W)
    ensures Negative(w) <==> Le(0x8000_0000, w)
  {
  }

  lemma SignedLe(a: W, b: W)
    ensures SignedLess(a, b) <==> if Negative(a) == Negative(b) then !Le(b, a) else Negative(a)
  {
  }

  lemma {:induction false} SignedLessNum(a: W, b: W)
    ensures SignedLess(a, b) <==> SNum(a) < SNum(b)
  {
    hide Num, Le, Negative, SignedLess;
    SignedLe(a, b);
    NegativeNum(a);
    NegativeNum(b);
    LeNum(b, a);
    NumBytes(a);
    NumBytes(b);
  }

  /** The ten conditions on unsigned and signed values. */
  predicate Compares(cc: CondCode, a: W, b: W) {
    match cc
    case EQ => Num(a) == Num(b)
    case NE => Num(a) != Num(b)
    case LE => SNum(a) <= SNum(b)
    case LT => SNum(a) < SNum(b)
    case GE => SNum(a) >= SNum(b)
    case GT => SNum(a) > SNum(b)
    case LEU => Num(a) <= Num(b)
    case LTU => Num(a) < Num(b)
    case GEU => Num(a) >= Num(b)
    case GTU => Num(a) > Num(b)
  }

  lemma LtIsNotLe(a: W, b: W)
    ensures a < b <==> !Le(b, a)
  {
  }

  lemma GeIsLe(a: W, b: W)
    ensures a >= b <==> Le(b, a)
  {
  }

  lemma HoldsNamed(cc: CondCode, a: W, b: W)
    ensures Holds(cc, a, b) <==>
      match cc
      case EQ => a == b
      case NE => a != b
      case LE => !SignedLess(b, a)
      case LT => SignedLess(a, b)
      case GE => !SignedLess(a, b)
      case GT => SignedLess(b, a)
      case LEU => Le(a, b)
      case LTU => !Le(b, a)
      case GEU => Le(b, a)
      case GTU => !Le(a, b)
  {
    match cc {
      case LEU => assert a <= b <==> Le(a, b);
      case LTU => LtIsNotLe(a, b);
      case GEU => GeIsLe(a, b);
      case GTU => LtIsNotLe(b, a);
      case _ =>
    }
  }

  lemma {:induction false} HoldsCompares(cc: CondCode, a: W, b: W)
    ensures Holds(cc, a, b) <==> Compares(cc, a, b)
  {
    hide Num, Le, SNum, SignedLess;
    SignedLessNum(a, b);
    SignedLessNum(b, a);
    LeNum(a, b);
    LeNum(b, a);
    if cc.EQ? || cc.NE? {
      if Num(a) == Num(b) {
        NumInjective(a, b);
      }
    }
    HoldsNamed(cc, a, b);
    hide Holds;
  }

  // ----- addition, subtraction and booleans -----

  lemma {:induction false} AddNum(a: W, b: W)
    ensures Num(Alu(Add, a, b)) == (Num(a) + Num(b)) % P32
  {
    hide Num, Plus;
    NumPlus(a, b);
  }

  lemma AluSub(a: W, b: W)
    ensures Alu(Sub, a, b) == a - b
  {
    hide Plus, ArithShiftRight;
  }

  lemma PlusDifference(a: W, b: W)
    ensures Plus(a - b, b) == a
  {
  }

  /** A difference, added to what was taken away, gives back the first word. */
  lemma SubPlus(a: W, b: W)
    ensures Plus(Alu(Sub, a, b), b) == a
  {
    hide Plus, Alu;
    AluSub(a, b);
    PlusDifference(a, b);
  }

  lemma ModDifference(d: int, x: int, y: int)
    requires 0 <= d < P32 && 0 <= y < P32 && x == (d + y) % P32
    ensures d == (x - y) % P32
  {
  }

  lemma {:induction false} SubNum(a: W, b: W)
    ensures Num(Alu(Sub, a, b)) == (Num(a) - Num(b)) % P32
  {
    hide Num, Plus, Alu;
    SubPlus(a, b);
    NumPlus(Alu(Sub, a, b), b);
    NumBytes(Alu(Sub, a, b));
    NumBytes(b);
    ModDifference(Num(Alu(Sub, a, b)), Num(a), Num(b));
  }

  lemma {:induction false} BitNum(c: bool)
    ensures Num(Bit(c)) == if c then 1 else 0
  {
    SmallNums();
    NumZero();
    hide Num;
  }

  // ----- bit by bit -----

  /** Bit `k` of a word: the digit of its value at that place. */
  predicate BitSet(w: W, k: nat) {
    Odd(Halves(w, k))
  }

  lemma {:induction false} BitIsDigit(w: W, k: nat)
    ensures BitSet(w, k) <==> Num(w) / Pow2(k) % 2 == 1
  {
    hide Num, Half, Odd, Halves;
    NumHalves(w, k);
    var x := Halves(w, k);
    NumHalf(x);
    Divides(Num(x), 2, Num(Half(x)), if Odd(x) then 1 else 0);
  }

  predicate Bitwise(op: BinOp) {
    op.And? || op.Or? || op.Xor?
  }

  predicate Combines(op: BinOp, x: bool, y: bool) {
    match op
    case And => x && y
    case Or => x || y
    case _ => x != y
  }

  lemma BitwiseHalf(op: BinOp, a: W, b: W)
    requires Bitwise(op)
    ensures Half(Alu(op, a, b)) == Alu(op, Half(a), Half(b))
    ensures Odd(Alu(op, a, b)) <==> Combines(op, Odd(a), Odd(b))
  {
    hide Half, Odd, Alu;
    match op {
      case And =>
        AndAlu(a, b);
      case Or =>
        OrAlu(a, b);
      case Xor =>
        XorAlu(a, b);
    }
  }

  lemma AndAlu(a: W, b: W)
    ensures Half(Alu(And, a, b)) == Alu(And, Half(a), Half(b)) && (Odd(Alu(And, a, b)) <==> Odd(a) && Odd(b))
  {
    hide Half, Odd, Alu;
    AluAnd(a, b);
    AluAnd(Half(a), Half(b));
    AndHalf(a, b);
  }

  lemma OrAlu(a: W, b: W)
    ensures Half(Alu(Or, a, b)) == Alu(Or, Half(a), Half(b)) && (Odd(Alu(Or, a, b)) <==> Odd(a) || Odd(b))
  {
    hide Half, Odd, Alu;
    AluOr(a, b);
    AluOr(Half(a), Half(b));
    OrHalf(a, b);
  }

  lemma XorAlu(a: W, b: W)
    ensures Half(Alu(Xor, a, b)) == Alu(Xor, Half(a), Half(b)) && (Odd(Alu(Xor, a, b)) <==> Odd(a) != Odd(b))
  {
    hide Half, Odd, Alu;
    AluXor(a, b);
    AluXor(Half(a), Half(b));
    XorHalf(a, b);
  }

  lemma AluAnd(a: W, b: W)
    ensures Alu(And, a, b) == a & b
  {
    hide Plus, ArithShiftRight;
  }

  lemma AluOr(a: W, b: W)
    ensures Alu(Or, a, b) == a | b
  {
    hide Plus, ArithShiftRight;
  }

  lemma AluXor(a: W, b: W)
    ensures Alu(Xor, a, b) == a ^ b
  {
    hide Plus, ArithShiftRight;
  }

  lemma AndHalf(a: W, b: W)
    ensures Half(a & b) == Half(a) & Half(b) && (Odd(a & b) <==> Odd(a) && Odd(b))
  {
  }

  lemma OrHalf(a: W, b: W)
    ensures Half(a | b) == Half(a) | Half(b) && (Odd(a | b) <==> Odd(a) || Odd(b))
  {
  }

  lemma XorHalf(a: W, b: W)
    ensures Half(a ^ b) == Half(a) ^ Half(b) && (Odd(a ^ b) <==> Odd(a) != Odd(b))
  {
  }

  /** And, or and exclusive or act on each bit. */
  lemma {:induction false} BitwiseBits(op: BinOp, a: W, b: W, k: nat)
    requires Bitwise(op)
    ensures BitSet(Alu(op, a, b), k) <==> Combines(op, BitSet(a, k), BitSet(b, k))
  {
    hide Alu, Half, Odd;
    BitwiseHalves(op, a, b, k);
    BitwiseHalf(op, Halves(a, k), Halves(b, k));
  }

  lemma {:induction false} BitwiseHalves(op: BinOp, a: W, b: W, k: nat)
    requires Bitwise(op)
    ensures Halves(Alu(op, a, b), k) == Alu(op, Halves(a, k), Halves(b, k))
    decreases k
  {
    hide Alu, Half, Odd;
    if k > 0 {
      BitwiseHalves(op, a, b, k - 1);
      BitwiseHalf(op, Halves(a, k - 1), Halves(b, k - 1));
    }
  }

  // ----- shifts -----

  /** A shift counts with the low five bits. */
  predicate IsCount(c: W) {
    c & 31 == c
  }

  lemma CountPred(c: W)
    requires IsCount(c) && c != 0
    ensures IsCount(Pred(c)) && Pred(c) < c && Succ(Pred(c)) == c && Pred(c) != 0xffff_ffff
  {
  }

  lemma CountIs(b: W)
    ensures IsCount(b & 31)
  {
  }

  function Twice(x: W): W {
    x << 1
  }

  /** Half of a signed word, rounded down. */
  function SignedHalf(x: W): W {
    if Negative(x) then Half(x) | 0x8000_0000 else Half(x)
  }

  function ShiftRight(a: W, c: W): W
    requires IsCount(c)
  {
    assert c <= 31;
    a >> c
  }

  function ShiftLeft(a: W, c: W): W
    requires IsCount(c)
  {
    assert c <= 31;
    a << c
  }

  function ShiftSigned(a: W, c: W): W
    requires IsCount(c)
  {
    assert c <= 31;
    ArithShiftRight(a, c)
  }

  lemma ShiftsAre(a: W, b: W)
    ensures IsCount(b & 31)
    ensures Alu(Srl, a, b) == ShiftRight(a, b & 31) && Alu(Sll, a, b) == ShiftLeft(a, b & 31)
    ensures Alu(Sra, a, b) == ShiftSigned(a, b & 31)
  {
    hide Alu, IsCount, ShiftRight, ShiftLeft, ShiftSigned;
    CountIs(b);
    AluSrl(a, b);
    AluSll(a, b);
    AluSra(a, b);
  }

  lemma AluSrl(a: W, b: W)
    requires IsCount(b & 31)
    ensures Alu(Srl, a, b) == ShiftRight(a, b & 31)
  {
    RawSrl(a, b);
    hide Alu, IsCount;
  }

  lemma RawSrl(a: W, b: W)
    ensures Alu(Srl, a, b) == a >> (b & 31)
  {
    hide Plus, ArithShiftRight;
  }

  lemma AluSll(a: W, b: W)
    requires IsCount(b & 31)
    ensures Alu(Sll, a, b) == ShiftLeft(a, b & 31)
  {
    RawSll(a, b);
    hide Alu, IsCount;
  }

  lemma RawSll(a: W, b: W)
    ensures Alu(Sll, a, b) == a << (b & 31)
  {
    hide Plus, ArithShiftRight;
  }

  lemma AluSra(a: W, b: W)
    requires IsCount(b & 31)
    ensures Alu(Sra, a, b) == ShiftSigned(a, b & 31)
  {
    hide Plus, ArithShiftRight, IsCount;
  }

  lemma RightStep(a: W, c: W)
    requires IsCount(c) && c != 0 && IsCount(Pred(c))
    ensures ShiftRight(a, c) == Half(ShiftRight(a, Pred(c)))
  {
  }

  lemma LeftStep(a: W, c: W)
    requires IsCount(c) && c != 0 && IsCount(Pred(c))
    ensures ShiftLeft(a, c) == Twice(ShiftLeft(a, Pred(c)))
  {
  }

  lemma NoShift(a: W)
    ensures IsCount(0) && ShiftRight(a, 0) == a && ShiftLeft(a, 0) == a && ShiftSigned(a, 0) == a
  {
  }

  lemma ArithNegative(a: W, c: W)
    requires c <= 31 && a & 0x8000_0000 != 0
    ensures ArithShiftRight(a, c) == !(!a >> c)
  {
  }

  lemma ArithPositive(a: W, c: W)
    requires c <= 31 && a & 0x8000_0000 == 0
    ensures ArithShiftRight(a, c) == a >> c
  {
  }

  lemma SignedNegative(a: W, c: W)
    requires c <= 31 && a & 0x8000_0000 != 0
    ensures IsCount(c) ==> ShiftSigned(a, c) == !(!a >> c)
  {
    ArithNegative(a, c);
    hide ArithShiftRight, IsCount;
  }

  lemma SignedPositive(a: W, c: W)
    requires c <= 31 && a & 0x8000_0000 == 0
    ensures IsCount(c) ==> ShiftSigned(a, c) == a >> c
  {
    ArithPositive(a, c);
    hide ArithShiftRight, IsCount;
  }

  lemma ShiftRightIs(a: W, c: W)
    requires IsCount(c) && c <= 31
    ensures ShiftRight(a, c) == a >> c
  {
    hide IsCount;
  }

  lemma NegativeShiftIs(a: W, c: W)
    requires IsCount(c) && c <= 31 && Negative(a)
    ensures ShiftSigned(a, c) == !ShiftRight(!a, c)
  {
    hide ShiftSigned, ShiftRight, IsCount;
    SignedNegative(a, c);
    ShiftRightIs(!a, c);
  }

  lemma PositiveShiftIs(a: W, c: W)
    requires IsCount(c) && c <= 31 && !Negative(a)
    ensures ShiftSigned(a, c) == ShiftRight(a, c)
  {
    hide ShiftSigned, ShiftRight, IsCount;
    SignedPositive(a, c);
    ShiftRightIs(a, c);
  }

  lemma SignedShiftIs(a: W, c: W)
    requires IsCount(c)
    ensures ShiftSigned(a, c) == if Negative(a) then !ShiftRight(!a, c) else ShiftRight(a, c)
  {
    hide ShiftSigned, ShiftRight, IsCount, Negative;
    CountBound(c);
    if Negative(a) {
      NegativeShiftIs(a, c);
    } else {
      PositiveShiftIs(a, c);
    }
  }

  lemma CountBound(c: W)
    requires IsCount(c)
    ensures c <= 31
  {
  }

  lemma RightSign(a: W, c: W)
    requires IsCount(c) && !Negative(a)
    ensures !Negative(ShiftRight(a, c))
  {
  }

  lemma NotSign(x: W)
    ensures Negative(!x) <==> !Negative(x)
  {
  }

  lemma RawNotHalf(x: W)
    requires x & 0x8000_0000 == 0
    ensures ((!x) >> 1) | 0x8000_0000 == !(x >> 1)
  {
  }

  lemma NotHalfOf(x: W)
    requires x & 0x8000_0000 == 0
    ensures Half(!x) | 0x8000_0000 == !(x >> 1)
  {
    RawNotHalf(x);
  }

  lemma NotSignedHalf(x: W)
    requires x & 0x8000_0000 == 0 && Negative(!x)
    ensures SignedHalf(!x) == !(x >> 1)
  {
    NotHalfOf(x);
    hide Half, Negative;
  }

  lemma NotHalf(x: W)
    requires !Negative(x)
    ensures SignedHalf(!x) == !Half(x)
  {
    NotSign(x);
    NotSignedHalf(x);
    hide SignedHalf;
  }

  lemma {:induction false} SignedStep(a: W, c: W)
    requires IsCount(c) && c != 0 && IsCount(Pred(c))
    ensures ShiftSigned(a, c) == SignedHalf(ShiftSigned(a, Pred(c)))
  {
    hide ShiftSigned, ShiftRight, IsCount, Pred, Half, SignedHalf, Negative;
    SignedShiftIs(a, c);
    SignedShiftIs(a, Pred(c));
    if Negative(a) {
      RightStep(!a, c);
      NotSign(a);
      RightSign(!a, Pred(c));
      NotHalf(ShiftRight(!a, Pred(c)));
    } else {
      RightStep(a, c);
      RightSign(a, Pred(c));
      SignedHalfPlain(ShiftRight(a, Pred(c)));
    }
  }

  lemma SignedHalfPlain(x: W)
    requires !Negative(x)
    ensures SignedHalf(x) == Half(x)
  {
  }

  // ----- shifts as products and quotients -----

  lemma {:induction false} RightNum(a: W, c: W)
    requires IsCount(c)
    ensures Num(ShiftRight(a, c)) == Num(a) / Pow2(Num(c))
    decreases c
  {
    hide Num, ShiftRight, IsCount, Pred, Succ, Half, Odd;
    if c == 0 {
      NoShift(a);
      NumZero();
      assert Pow2(0) == 1;
    } else {
      CountPred(c);
      RightNum(a, Pred(c));
      RightStep(a, c);
      NumSucc(Pred(c));
      HalfQuotient(ShiftRight(a, Pred(c)), Num(a), Num(Pred(c)));
    }
  }

  lemma {:induction false} HalfQuotient(x: W, n: nat, k: nat)
    requires Num(x) == n / Pow2(k)
    ensures Num(Half(x)) == n / Pow2(k + 1)
  {
    hide Num, Half, Odd;
    NumHalf(x);
    Nested(n, Pow2(k), 2);
    Divides(Num(x), 2, Num(Half(x)), if Odd(x) then 1 else 0);
    assert Pow2(k + 1) == 2 * Pow2(k);
    hide Pow2;
  }

  /** The word without its sign bit. */
  function Low31(x: W): W {
    x & 0x7fff_ffff
  }

  lemma TwiceHalf(x: W)
    ensures Half(Twice(x)) == Low31(x) && !Odd(Twice(x))
    ensures if Negative(x) then Disjoint(Low31(x), 0x8000_0000) && Join2(Low31(x), 0x8000_0000) == x else Low31(x) == x
    ensures !Negative(Low31(x))
  {
    hide Half, Twice, Low31, Negative, Disjoint, Join2, Odd;
    TwiceBits(x);
    SignSplit(x);
  }

  lemma TwiceBits(x: W)
    ensures Half(Twice(x)) == Low31(x) && !Odd(Twice(x))
  {
    assert (x << 1) >> 1 == x & 0x7fff_ffff && (x << 1) & 1 == 0;
  }

  lemma SignSplit(x: W)
    ensures !Negative(Low31(x))
    ensures if Negative(x) then Disjoint(Low31(x), 0x8000_0000) && Join2(Low31(x), 0x8000_0000) == x else Low31(x) == x
  {
    assert (x & 0x7fff_ffff) & 0x8000_0000 == 0;
    assert x & 0x8000_0000 != 0 ==> (x & 0x7fff_ffff) | 0x8000_0000 == x;
    assert x & 0x8000_0000 == 0 ==> x & 0x7fff_ffff == x;
  }

  lemma {:induction false} TwiceNum(x: W)
    ensures Num(Twice(x)) == 2 * Num(x) % P32
  {
    hide Num, Half, Odd, Twice, Low31, Negative, Disjoint, Join2;
    TwiceHalf(x);
    NumHalf(Twice(x));
    NegativeNum(Low31(x));
    if Negative(x) {
      JoinNum(Low31(x), 0x8000_0000);
      LargeNums();
    }
  }

  lemma {:induction false} LeftNum(a: W, c: W)
    requires IsCount(c)
    ensures Num(ShiftLeft(a, c)) == Num(a) * Pow2(Num(c)) % P32
    decreases c
  {
    hide Num, ShiftLeft, IsCount, Pred, Succ, Twice;
    if c == 0 {
      NoShift(a);
      NumZero();
      NumBytes(a);
      assert Pow2(0) == 1;
    } else {
      CountPred(c);
      LeftNum(a, Pred(c));
      LeftStep(a, c);
      NumSucc(Pred(c));
      TwiceNum(ShiftLeft(a, Pred(c)));
      TwiceProduct(Num(a), Num(Pred(c)));
    }
  }

  lemma {:induction false} TwiceProduct(n: nat, k: nat)
    ensures 2 * (n * Pow2(k) % P32) % P32 == n * Pow2(k + 1) % P32
  {
    var x := n * Pow2(k);
    assert n * Pow2(k + 1) == 2 * x by {
      assert Pow2(k + 1) == 2 * Pow2(k);
      Associates(n, 2, Pow2(k));
      assert n * 2 == 2 * n;
      Associates(2, n, Pow2(k));
    }
    DoubleMod(x);
    hide Pow2;
  }

  lemma DoubleMod(x: nat)
    ensures 2 * (x % P32) % P32 == 2 * x % P32
  {
    var q, r := x / P32, x % P32;
    assert 2 * x == 2 * q * P32 + 2 * r;
    if 2 * r < P32 {
      Divides(2 * x, P32, 2 * q, 2 * r);
    } else {
      Divides(2 * x, P32, 2 * q + 1, 2 * r - P32);
    }
  }

  lemma SignedHalfBits(x: W)
    ensures Negative(SignedHalf(x)) <==> Negative(x)
    ensures Negative(x) ==> Disjoint(Half(x), 0x8000_0000) && SignedHalf(x) == Join2(Half(x), 0x8000_0000)
  {
  }

  /** Halving a signed word rounds towards minus infinity. */
  lemma {:induction false} SignedHalfNum(x: W)
    ensures SNum(SignedHalf(x)) == SNum(x) / 2
  {
    hide Num, Half, Odd, Negative, SignedHalf, Disjoint, Join2;
    SignedHalfBits(x);
    NumHalf(x);
    if Negative(x) {
      JoinNum(Half(x), 0x8000_0000);
      LargeNums();
    } else {
      SignedHalfPlain(x);
    }
  }

  lemma {:induction false} SignedNum(a: W, c: W)
    requires IsCount(c)
    ensures SNum(ShiftSigned(a, c)) == SNum(a) / Pow2(Num(c))
    decreases c
  {
    hide Num, SNum, ShiftSigned, IsCount, Pred, Succ, SignedHalf;
    if c == 0 {
      NoShift(a);
      NumZero();
      assert Pow2(0) == 1;
    } else {
      CountPred(c);
      SignedNum(a, Pred(c));
      SignedStep(a, c);
      NumSucc(Pred(c));
      SignedHalfNum(ShiftSigned(a, Pred(c)));
      Nested(SNum(a), Pow2(Num(Pred(c))), 2);
      assert Pow2(Num(c)) == 2 * Pow2(Num(Pred(c)));
      hide Pow2;
    }
  }

  /** Shifts multiply and divide by a power of two; the arithmetic one rounds the signed value down. */
  lemma {:induction false} ShiftNum(a: W, b: W)
    ensures Num(Alu(Sll, a, b)) == Num(a) * Pow2(Num(b & 31)) % P32
    ensures Num(Alu(Srl, a, b)) == Num(a) / Pow2(Num(b & 31))
    ensures SNum(Alu(Sra, a, b)) == SNum(a) / Pow2(Num(b & 31))
  {
    hide Num, SNum, Alu, ShiftLeft, ShiftRight, ShiftSigned, IsCount, Pow2;
    ShiftsAre(a, b);
    LeftNum(a, b & 31);
    RightNum(a, b & 31);
    SignedNum(a, b & 31);
  }

  // ----- words from numbers -----

  lemma {:induction false} RawFromNat(n: nat)
    requires n > 0
    ensures FromNat(n) == (FromNat(n / 2) << 1) | (if n % 2 == 1 then 1 else 0)
  {
  }

  lemma {:induction false} TwiceFromNat(n: nat)
    requires n > 0
    ensures FromNat(n) == Twice(FromNat(n / 2)) | (if n % 2 == 1 then 1 else 0)
  {
    RawFromNat(n);
    hide FromNat;
  }

  lemma {:induction false} FromNatStep(n: nat)
    requires n > 0
    ensures FromNat(n) == Join2(Twice(FromNat(n / 2)), if n % 2 == 1 then 1 else 0)
  {
    TwiceFromNat(n);
    hide FromNat, Twice;
  }

  lemma TwiceEven(x: W)
    ensures Disjoint(Twice(x), 0) && Disjoint(Twice(x), 1)
  {
  }

  lemma {:induction false} NumFromNat(n: nat)
    requires n < P32
    ensures Num(FromNat(n)) == n
    decreases n
  {
    hide Num, FromNat, Twice, Disjoint, Join2;
    if n == 0 {
      FromZero();
    } else {
      FromNatStep(n);
      NumFromNat(n / 2);
      TwiceNum(FromNat(n / 2));
      TwiceEven(FromNat(n / 2));
      JoinNum(Twice(FromNat(n / 2)), if n % 2 == 1 then 1 else 0);
      SmallNums();
      NumZero();
    }
  }

  lemma {:induction false} FromZero()
    ensures FromNat(0) == 0 && Num(FromNat(0)) == 0
  {
  }
}
