/** 32-bit words, operand types, condition codes, the integer operations that QIR and RV32I
    share, guest memory and the byte-addressed spill frame. */
module Words {

  type W = bv32

  datatype Option<+T> = None | Some(value: T)

  datatype VType = I8 | I16 | I32

  datatype VSign = U | S

  function Size(t: VType): (n: nat)
    ensures n == 1 || n == 2 || n == 4
  {
    match t
    case I8 => 1
    case I16 => 2
    case I32 => 4
  }

  /** The part of a word that an operand of type `t` denotes. */
  function Trunc(t: VType, w: W): W {
    match t
    case I8 => w & 0xff
    case I16 => w & 0xffff
    case I32 => w
  }

  /** An x86 register write of width `t`: the untouched high part survives. */
  function Merge(t: VType, old_: W, w: W): W {
    match t
    case I8 => (old_ & 0xffff_ff00) | (w & 0xff)
    case I16 => (old_ & 0xffff_0000) | (w & 0xffff)
    case I32 => w
  }

  lemma TruncMerge(t: VType, old_: W, w: W)
    ensures Trunc(t, Merge(t, old_, w)) == Trunc(t, w)
  {
  }

  lemma TruncTrunc(t: VType, u: VType, w: W)
    requires Size(t) <= Size(u)
    ensures Trunc(t, Trunc(u, w)) == Trunc(t, w)
  {
  }

  /** The word whose binary digits are those of `n`. */
  function FromNat(n: nat): W {
    if n == 0 then 0 else (FromNat(n / 2) << 1) | (if n % 2 == 1 then 1 else 0)
  }

  // ----- conditions -----

  datatype CondCode = EQ | NE | LE | LT | GE | GT | LEU | LTU | GEU | GTU

  predicate SignedLess(a: W, b: W) {
    if (a < 0x8000_0000) == (b < 0x8000_0000) then a < b else b < 0x8000_0000
  }

  predicate Holds(cc: CondCode, a: W, b: W) {
    match cc
    case EQ => a == b
    case NE => a != b
    case LE => !SignedLess(b, a)
    case LT => SignedLess(a, b)
    case GE => !SignedLess(a, b)
    case GT => SignedLess(b, a)
    case LEU => a <= b
    case LTU => a < b
    case GEU => a >= b
    case GTU => a > b
  }

  function SwapCC(cc: CondCode): CondCode {
    match cc
    case EQ => EQ
    case NE => NE
    case LE => GE
    case LT => GT
    case GE => LE
    case GT => LT
    case LEU => GEU
    case LTU => GTU
    case GEU => LEU
    case GTU => LTU
  }

  // ----- arithmetic -----

  datatype BinOp = Add | Sub | And | Or | Xor | Sra | Srl | Sll

  function ArithShiftRight(a: W, n: W): W
    requires n <= 31
  {
    if a < 0x8000_0000 then a >> n else !(!a >> n)
  }

  function Plus(a: W, b: W): W {
    a + b
  }

  lemma PlusFacts(a: W, b: W)
    ensures Plus(a, b) == Plus(b, a) && Plus(a, 0) == a && Plus(0, a) == a
  {
  }

  function Alu(op: BinOp, a: W, b: W): W {
    match op
    case Add => Plus(a, b)
    case Sub => a - b
    case And => a & b
    case Or => a | b
    case Xor => a ^ b
    case Sra => ArithShiftRight(a, b & 31)
    case Srl => a >> (b & 31)
    case Sll => a << (b & 31)
  }

  function Bit(b: bool): W {
    if b then 1 else 0
  }

  // ----- guest memory -----

  /** A word used as a guest address. */
  datatype Address = Address(w: W)

  /** Absent addresses hold zero. */
  type Mem = map<Address, bv8>

  function LoadByte(m: Mem, a: W): bv8 {
    if Address(a) in m then m[Address(a)] else 0
  }

  function PutByte(m: Mem, a: W, b: bv8): Mem {
    m[Address(a) := b]
  }

  function ByteOf(w: W, k: nat): bv8
    requires k < 4
  {
    if k == 0 then (w & 0xff) as bv8
    else if k == 1 then ((w >> 8) & 0xff) as bv8
    else if k == 2 then ((w >> 16) & 0xff) as bv8
    else (w >> 24) as bv8
  }

  function Join(b0: bv8, b1: bv8, b2: bv8, b3: bv8): W {
    (b0 as bv32) | ((b1 as bv32) << 8) | ((b2 as bv32) << 16) | ((b3 as bv32) << 24)
  }

  function Extend(t: VType, sgn: VSign, w: W): W {
    match t
    case I8 => if sgn.S? && w & 0x80 != 0 then w | 0xffff_ff00 else w
    case I16 => if sgn.S? && w & 0x8000 != 0 then w | 0xffff_0000 else w
    case I32 => w
  }

  function Load(m: Mem, t: VType, sgn: VSign, a: W): W {
    var raw := match t
      case I8 => Join(LoadByte(m, a), 0, 0, 0)
      case I16 => Join(LoadByte(m, a), LoadByte(m, a + 1), 0, 0)
      case I32 => Join(LoadByte(m, a), LoadByte(m, a + 1), LoadByte(m, a + 2), LoadByte(m, a + 3));
    Extend(t, sgn, raw)
  }

  function Store(m: Mem, t: VType, a: W, w: W): Mem {
    match t
    case I8 => PutByte(m, a, ByteOf(w, 0))
    case I16 => PutByte(PutByte(m, a, ByteOf(w, 0)), a + 1, ByteOf(w, 1))
    case I32 =>
      var low := PutByte(PutByte(m, a, ByteOf(w, 0)), a + 1, ByteOf(w, 1));
      PutByte(PutByte(low, a + 2, ByteOf(w, 2)), a + 3, ByteOf(w, 3))
  }

  // ----- the spill frame -----

  const FRAME_SIZE: nat := 1024

  type Frame = f: seq<bv8> | |f| == FRAME_SIZE witness seq(FRAME_SIZE, _ => 0)

  function PutFrame(f: Frame, t: VType, o: nat, w: W): Frame
    requires o + Size(t) <= FRAME_SIZE
  {
    match t
    case I8 => f[o := ByteOf(w, 0)]
    case I16 => f[o := ByteOf(w, 0)][o + 1 := ByteOf(w, 1)]
    case I32 => f[o := ByteOf(w, 0)][o + 1 := ByteOf(w, 1)][o + 2 := ByteOf(w, 2)][o + 3 := ByteOf(w, 3)]
  }

  function GetFrame(f: Frame, t: VType, o: nat): W
    requires o + Size(t) <= FRAME_SIZE
  {
    match t
    case I8 => Join(f[o], 0, 0, 0)
    case I16 => Join(f[o], f[o + 1], 0, 0)
    case I32 => Join(f[o], f[o + 1], f[o + 2], f[o + 3])
  }

  lemma JoinBytes(w: W)
    ensures Join(ByteOf(w, 0), ByteOf(w, 1), ByteOf(w, 2), ByteOf(w, 3)) == w
    ensures Join(ByteOf(w, 0), ByteOf(w, 1), 0, 0) == w & 0xffff
    ensures Join(ByteOf(w, 0), 0, 0, 0) == w & 0xff
  {
  }

  lemma GetPut(f: Frame, t: VType, o: nat, w: W)
    requires o + Size(t) <= FRAME_SIZE
    ensures GetFrame(PutFrame(f, t, o, w), t, o) == Trunc(t, w)
  {
    JoinBytes(w);
  }

  lemma GetPutDisjoint(f: Frame, t: VType, o: nat, w: W, t': VType, o': nat)
    requires o + Size(t) <= FRAME_SIZE && o' + Size(t') <= FRAME_SIZE
    requires o + Size(t) <= o' || o' + Size(t') <= o
    ensures GetFrame(PutFrame(f, t, o, w), t', o') == GetFrame(f, t', o')
  {
  }

  /** Loads are already truncated: a load at type `t` re-read at `t` is itself. */
  lemma GetTrunc(f: Frame, t: VType, o: nat)
    requires o + Size(t) <= FRAME_SIZE
    ensures Trunc(t, GetFrame(f, t, o)) == GetFrame(f, t, o)
  {
  }
}
