/** RV32I encodings as the RISC-V Unprivileged ISA lists them, as an independent reference for the
    decoder: decoding an assembled word gives back operation, registers and immediate. */
module Assembler {
  import opened Words
  import opened Qir
  import opened Guest

  /** Opcode, funct3 and funct7. */
  datatype Codes = Codes(opcode: nat, f3: nat, f7: nat)

  function BranchCode(cc: CondCode): nat {
    match cc
    case EQ => 0
    case NE => 1
    case LT => 4
    case GE => 5
    case LTU => 6
    case _ => 7
  }

  function WidthCode(sz: VType): nat {
    match sz
    case I8 => 0
    case I16 => 1
    case I32 => 2
  }

  function BinCode(bin: BinOp): nat {
    match bin
    case Add => 0
    case Sub => 0
    case Sll => 1
    case Xor => 4
    case Srl => 5
    case Sra => 5
    case Or => 6
    case And => 7
  }

  function CodesOf(op: GuestOp): Codes {
    match op
    case Illegal => Codes(0, 0, 0)
    case Lui => Codes(0x37, 0, 0)
    case Auipc => Codes(0x17, 0, 0)
    case Jal => Codes(0x6f, 0, 0)
    case Jalr => Codes(0x67, 0, 0)
    case Branch(cc) => Codes(0x63, BranchCode(cc), 0)
    case LoadI(sz, sgn) => Codes(0x03, WidthCode(sz) + if sgn.U? then 4 else 0, 0)
    case StoreI(sz) => Codes(0x23, WidthCode(sz), 0)
    case ArithI(bin) => Codes(0x13, BinCode(bin), 0)
    case SetI(cc) => Codes(0x13, if cc.LT? then 2 else 3, 0)
    case ShiftI(bin) => Codes(0x13, BinCode(bin), if bin.Sra? then 0x20 else 0)
    case ArithR(bin) => Codes(0x33, BinCode(bin), if bin.Sra? || bin.Sub? then 0x20 else 0)
    case SetR(cc) => Codes(0x33, if cc.LT? then 2 else 3, 0)
    case Helper(stub) =>
      (match stub
       case Fence => Codes(0x0f, 0, 0)
       case Fencei => Codes(0x0f, 1, 0)
       case _ => Codes(0x73, 0, 0))
  }

  /** The operations that RV32I has. */
  predicate Exists(op: GuestOp) {
    match op
    case Illegal => false
    case Branch(cc) => cc in {EQ, NE, LT, GE, LTU, GEU}
    case LoadI(sz, sgn) => sz.I32? ==> sgn.S?
    case ArithI(bin) => bin in {Add, Xor, Or, And}
    case SetI(cc) => cc in {LT, LTU}
    case ShiftI(bin) => bin in {Sll, Srl, Sra}
    case SetR(cc) => cc in {LT, LTU}
    case _ => true
  }

  /** The immediates that the format of the operation can hold. */
  predicate ImmOk(op: GuestOp, imm: int) {
    match op
    case Lui => 0 <= imm < 0x1_0000_0000 && imm % 0x1000 == 0
    case Auipc => 0 <= imm < 0x1_0000_0000 && imm % 0x1000 == 0
    case Jal => -0x10_0000 <= imm < 0x10_0000 && imm % 2 == 0
    case Branch(_) => -0x1000 <= imm < 0x1000 && imm % 2 == 0
    case ShiftI(_) => 0 <= imm < 32
    case Helper(stub) => imm == if stub.Ebreak? then 1 else 0
    case ArithR(_) => imm == 0
    case SetR(_) => imm == 0
    case _ => -0x800 <= imm < 0x800
  }

  /** The word with the given fields, lowest first. */
  function Word(opcode: nat, rd: nat, f3: nat, rs1: nat, rs2: nat, f7: nat): nat {
    opcode + 0x80 * rd + 0x1000 * f3 + 0x8000 * rs1 + 0x10_0000 * rs2 + 0x200_0000 * f7
  }

  predicate FieldsOk(opcode: nat, rd: nat, f3: nat, rs1: nat, rs2: nat, f7: nat) {
    opcode < 128 && rd < 32 && f3 < 8 && rs1 < 32 && rs2 < 32 && f7 < 128
  }

  /** Bits `lo` and up, `n` of them, where `p` is two to the `lo` and `q` two to the `n`. */
  function Bits(imm: int, p: nat, q: nat): nat
    requires p > 0 && q > 0
  {
    imm / p % q
  }

  /** `imm[11:0] | rs1 | funct3 | rd | opcode` */
  function FormatI(opcode: nat, f3: nat, rd: Reg, rs1: Reg, imm: int): nat {
    Word(opcode, rd, f3, rs1, Bits(imm, 1, 32), Bits(imm, 32, 128))
  }

  /** `imm[11:5] | rs2 | rs1 | funct3 | imm[4:0] | opcode` */
  function FormatS(opcode: nat, f3: nat, rs1: Reg, rs2: Reg, imm: int): nat {
    Word(opcode, Bits(imm, 1, 32), f3, rs1, rs2, Bits(imm, 32, 128))
  }

  /** `imm[12] | imm[10:5] | rs2 | rs1 | funct3 | imm[4:1] | imm[11] | opcode` */
  function FormatB(opcode: nat, f3: nat, rs1: Reg, rs2: Reg, imm: int): nat {
    Word(opcode, Bits(imm, 2048, 2) + 2 * Bits(imm, 2, 16), f3, rs1, rs2, Bits(imm, 32, 64) + 64 * Bits(imm, 4096, 2))
  }

  /** `imm[31:12] | rd | opcode` */
  function FormatU(opcode: nat, rd: Reg, imm: int): nat {
    Word(opcode, rd, Bits(imm, 0x1000, 8), Bits(imm, 0x8000, 32), Bits(imm, 0x10_0000, 32), Bits(imm, 0x200_0000, 128))
  }

  /** `imm[20] | imm[10:1] | imm[11] | imm[19:12] | rd | opcode` */
  function FormatJ(opcode: nat, rd: Reg, imm: int): nat {
    Word(opcode, rd, Bits(imm, 0x1000, 8), Bits(imm, 0x8000, 32),
      Bits(imm, 2048, 2) + 2 * Bits(imm, 2, 16), Bits(imm, 32, 64) + 64 * Bits(imm, 0x10_0000, 2))
  }

  function Assemble(op: GuestOp, rd: Reg, rs1: Reg, rs2: Reg, imm: int): nat {
    var c := CodesOf(op);
    match op
    case Lui => FormatU(c.opcode, rd, imm)
    case Auipc => FormatU(c.opcode, rd, imm)
    case Jal => FormatJ(c.opcode, rd, imm)
    case Branch(_) => FormatB(c.opcode, c.f3, rs1, rs2, imm)
    case StoreI(_) => FormatS(c.opcode, c.f3, rs1, rs2, imm)
    case ShiftI(_) => Word(c.opcode, rd, c.f3, rs1, Bits(imm, 1, 32), c.f7)
    case ArithR(_) => Word(c.opcode, rd, c.f3, rs1, rs2, c.f7)
    case SetR(_) => Word(c.opcode, rd, c.f3, rs1, rs2, c.f7)
    case Helper(_) => FormatI(c.opcode, c.f3, 0, 0, imm)
    case _ => FormatI(c.opcode, c.f3, rd, rs1, imm)
  }

  // ----- reading the fields back -----

  lemma {:induction false} WordFields(opcode: nat, rd: nat, f3: nat, rs1: nat, rs2: nat, f7: nat)
    requires FieldsOk(opcode, rd, f3, rs1, rs2, f7)
    ensures var raw := Word(opcode, rd, f3, rs1, rs2, f7);
      && raw % 128 == opcode && Rd(raw) == rd && raw / 0x1000 % 8 == f3 && Rs1(raw) == rs1 && Rs2(raw) == rs2
      && raw / 0x200_0000 % 128 == f7 && raw / 0x10_0000 == rs2 + 32 * f7
        && raw / 0x1000 == f3 + 8 * rs1 + 0x100 * rs2 + 0x2000 * f7
  {
    var raw := Word(opcode, rd, f3, rs1, rs2, f7);
    var a := rd + 0x20 * f3 + 0x100 * rs1 + 0x2000 * rs2 + 0x4_0000 * f7;
    assert raw == opcode + 128 * a;
    assert raw / 128 == a;
    var b := f3 + 8 * rs1 + 0x100 * rs2 + 0x2000 * f7;
    assert a == rd + 32 * b && a / 32 == b && raw / 0x1000 == b;
    var c := rs1 + 32 * rs2 + 0x400 * f7;
    assert b == f3 + 8 * c && raw / 0x8000 == c;
    var d := rs2 + 32 * f7;
    assert c == rs1 + 32 * d && raw / 0x10_0000 == d;
    assert raw / 0x200_0000 == f7;
  }

  /** Bit 31 is the top bit of funct7. */
  lemma {:induction false} SignBit(raw: nat, f7: nat)
    requires raw / 0x10_0000 / 32 == f7 < 128
    ensures Sign(raw) == f7 / 64
  {
    assert raw / 0x8000_0000 == raw / 0x10_0000 / 32 / 64;
  }

  lemma {:induction false} Bits12(imm: int)
    requires -0x800 <= imm < 0x800
    ensures var a, b := Bits(imm, 1, 32), Bits(imm, 32, 128);
      a < 32 && b < 128 && a + 32 * (b % 64) - 0x800 * (b / 64) == imm
  {
    var q := imm / 32;
    assert imm == 32 * q + imm % 32 && -64 <= q < 64;
  }

  /** The part of a word above bit 20, split at bit 11 of it. */
  lemma {:induction false} Upper(opcode: nat, rd: nat, f3: nat, rs1: nat, a: nat, b: nat)
    requires FieldsOk(opcode, rd, f3, rs1, a, b)
    ensures var raw := Word(opcode, rd, f3, rs1, a, b);
      raw / 0x10_0000 % 0x800 == a + 32 * (b % 64) && Sign(raw) == b / 64
  {
    hide Word, Sign, Rd, Rs1, Rs2;
    var raw := Word(opcode, rd, f3, rs1, a, b);
    WordFields(opcode, rd, f3, rs1, a, b);
    assert raw / 0x10_0000 == a + 32 * b;
    Low11(a, b);
    SignBit(raw, b);
  }

  lemma {:induction false} Low11(a: nat, b: nat)
    requires a < 32 && b < 128
    ensures (a + 32 * b) % 0x800 == a + 32 * (b % 64) && (a + 32 * b) / 32 == b
  {
    assert b == 64 * (b / 64) + b % 64;
  }

  lemma {:induction false} ReadI(opcode: nat, f3: nat, rd: Reg, rs1: Reg, imm: int)
    requires opcode < 128 && f3 < 8 && -0x800 <= imm < 0x800
    ensures ImmI(FormatI(opcode, f3, rd, rs1, imm)) == imm
  {
    hide Word, Bits, Sign;
    Bits12(imm);
    Upper(opcode, rd, f3, rs1, Bits(imm, 1, 32), Bits(imm, 32, 128));
  }

  lemma {:induction false} ReadS(opcode: nat, f3: nat, rs1: Reg, rs2: Reg, imm: int)
    requires opcode < 128 && f3 < 8 && -0x800 <= imm < 0x800
    ensures ImmS(FormatS(opcode, f3, rs1, rs2, imm)) == imm
  {
    hide Word, Bits, Sign;
    var a, b := Bits(imm, 1, 32), Bits(imm, 32, 128);
    Bits12(imm);
    Sides(opcode, a, f3, rs1, rs2, b);
  }

  /** The parts that the S and B immediates are taken from. */
  lemma {:induction false} Sides(opcode: nat, a: nat, f3: nat, rs1: nat, rs2: nat, b: nat)
    requires FieldsOk(opcode, a, f3, rs1, rs2, b)
    ensures var raw := Word(opcode, a, f3, rs1, rs2, b);
      && raw / 0x80 % 0x20 == a && raw / 0x80 % 2 == a % 2 && raw / 0x100 % 0x10 == a / 2
      && raw / 0x200_0000 % 0x40 == b % 64 && Sign(raw) == b / 64
  {
    hide Word, Sign, Rs1, Rs2;
    var raw := Word(opcode, a, f3, rs1, rs2, b);
    WordFields(opcode, a, f3, rs1, rs2, b);
    Upper(opcode, a, f3, rs1, rs2, b);
    Halved(raw / 0x80, a);
    assert raw / 0x100 == raw / 0x80 / 2;
    Mod64(raw / 0x200_0000, b);
  }

  lemma {:induction false} Halved(x: nat, a: nat)
    requires x % 32 == a
    ensures x % 2 == a % 2 && x / 2 % 16 == a / 2
  {
    assert x == 32 * (x / 32) + a;
  }

  lemma {:induction false} Mod64(x: nat, b: nat)
    requires x % 128 == b
    ensures x % 64 == b % 64
  {
    assert x == 128 * (x / 128) + b;
  }

  lemma {:induction false} BitsB(imm: int)
    requires -0x1000 <= imm < 0x1000 && imm % 2 == 0
    ensures var e, f, g, h := Bits(imm, 2, 16), Bits(imm, 32, 64), Bits(imm, 2048, 2), Bits(imm, 4096, 2);
      e < 16 && f < 64 && g < 2 && h < 2 && 2 * (e + 0x10 * f + 0x400 * g - 0x800 * h) == imm
  {
    var i := imm / 2;
    assert imm / 32 == i / 16 && imm / 2048 == i / 16 / 64 && imm / 4096 == i / 16 / 64 / 2;
    var j := i / 16;
    var k := j / 64;
    assert i == 16 * j + i % 16 && j == 64 * k + j % 64 && k == 2 * (k / 2) + k % 2 && -1 <= k / 2 < 1;
  }

  lemma {:induction false} ReadB(opcode: nat, f3: nat, rs1: Reg, rs2: Reg, imm: int)
    requires opcode < 128 && f3 < 8 && -0x1000 <= imm < 0x1000 && imm % 2 == 0
    ensures ImmB(FormatB(opcode, f3, rs1, rs2, imm)) == imm
  {
    hide Word, Bits, Sign;
    BitsB(imm);
    Pairs(Bits(imm, 2048, 2), Bits(imm, 2, 16), Bits(imm, 32, 64), Bits(imm, 4096, 2));
    Sides(opcode, Bits(imm, 2048, 2) + 2 * Bits(imm, 2, 16), f3, rs1, rs2, Bits(imm, 32, 64) + 64 * Bits(imm, 4096, 2));
  }

  lemma {:induction false} BitsU(imm: int)
    requires 0 <= imm < 0x1_0000_0000 && imm % 0x1000 == 0
    ensures var a, b, c, d := Bits(imm, 0x1000, 8), Bits(imm, 0x8000, 32), Bits(imm, 0x10_0000, 32),
      Bits(imm, 0x200_0000, 128);
      a < 8 && b < 32 && c < 32 && d < 128 && 0x1000 * (a + 8 * b + 0x100 * c + 0x2000 * d) == imm
  {
    var i := imm / 0x1000;
    assert imm / 0x8000 == i / 8 && imm / 0x10_0000 == i / 8 / 32 && imm / 0x200_0000 == i / 8 / 32 / 32;
    var j := i / 8;
    var k := j / 32;
    assert i == 8 * j + i % 8 && j == 32 * k + j % 32 && k == 32 * (k / 32) + k % 32 && 0 <= k / 32 < 128;
  }

  lemma {:induction false} ReadU(opcode: nat, rd: Reg, imm: int)
    requires opcode < 128 && 0 <= imm < 0x1_0000_0000 && imm % 0x1000 == 0
    ensures ImmU(FormatU(opcode, rd, imm)) == imm
  {
    hide Word, Bits, Rd, Rs1, Rs2;
    BitsU(imm);
    WordFields(opcode, rd, Bits(imm, 0x1000, 8), Bits(imm, 0x8000, 32), Bits(imm, 0x10_0000, 32),
      Bits(imm, 0x200_0000, 128));
  }

  lemma {:induction false} BitsJ(imm: int)
    requires -0x10_0000 <= imm < 0x10_0000 && imm % 2 == 0
    ensures var e, f, g, a, b, h := Bits(imm, 2, 16), Bits(imm, 32, 64), Bits(imm, 2048, 2), Bits(imm, 0x1000, 8),
      Bits(imm, 0x8000, 32), Bits(imm, 0x10_0000, 2);
      && e < 16 && f < 64 && g < 2 && a < 8 && b < 32 && h < 2
      && 2 * (e + 0x10 * f + 0x400 * g + 0x800 * (a + 8 * b) - 0x8_0000 * h) == imm
  {
    var i := imm / 2;
    var j := i / 16;
    var k := j / 64;
    var l := k / 2;
    var m := l / 8;
    assert imm / 32 == j && imm / 2048 == k && imm / 0x1000 == l && imm / 0x8000 == m && imm / 0x10_0000 == m / 32;
    assert i == 16 * j + i % 16 && j == 64 * k + j % 64 && k == 2 * l + k % 2 && l == 8 * m + l % 8
      && m == 32 * (m / 32) + m % 32;
    assert -1 <= m / 32 < 1;
  }

  /** The parts that the J immediate is taken from. */
  lemma {:induction false} Middle(opcode: nat, rd: nat, a: nat, b: nat, c: nat, d: nat)
    requires FieldsOk(opcode, rd, a, b, c, d)
    ensures var raw := Word(opcode, rd, a, b, c, d);
      && raw / 0x20_0000 % 0x400 == c / 2 + 0x10 * (d % 64) && raw / 0x10_0000 % 2 == c % 2
      && raw / 0x1000 % 0x100 == a + 8 * b && Sign(raw) == d / 64
  {
    hide Word, Sign, Rd, Rs1, Rs2;
    var raw := Word(opcode, rd, a, b, c, d);
    WordFields(opcode, rd, a, b, c, d);
    Upper(opcode, rd, a, b, c, d);
    MiddleParts(a, b, c, d);
    assert raw / 0x20_0000 == raw / 0x10_0000 / 2;
  }

  lemma {:induction false} MiddleParts(a: nat, b: nat, c: nat, d: nat)
    requires a < 8 && b < 32 && c < 32 && d < 128
    ensures (a + 8 * b + 0x100 * c + 0x2000 * d) % 0x100 == a + 8 * b
    ensures (c + 32 * d) % 2 == c % 2 && (c + 32 * d) / 2 % 0x400 == c / 2 + 0x10 * (d % 64)
  {
    assert (c + 32 * d) / 2 == c / 2 + 16 * d;
    assert d == 64 * (d / 64) + d % 64;
  }

  lemma {:induction false} Pairs(g: nat, e: nat, f: nat, h: nat)
    requires g < 2 && e < 16 && f < 64 && h < 2
    ensures (g + 2 * e) / 2 == e && (g + 2 * e) % 2 == g && (f + 64 * h) % 64 == f && (f + 64 * h) / 64 == h
  {
  }

  lemma {:induction false} ReadJ(opcode: nat, rd: Reg, imm: int)
    requires opcode < 128 && -0x10_0000 <= imm < 0x10_0000 && imm % 2 == 0
    ensures ImmJ(FormatJ(opcode, rd, imm)) == imm
  {
    hide Word, Bits, Sign;
    BitsJ(imm);
    Pairs(Bits(imm, 2048, 2), Bits(imm, 2, 16), Bits(imm, 32, 64), Bits(imm, 0x10_0000, 2));
    Middle(opcode, rd, Bits(imm, 0x1000, 8), Bits(imm, 0x8000, 32), Bits(imm, 2048, 2) + 2 * Bits(imm, 2, 16),
      Bits(imm, 32, 64) + 64 * Bits(imm, 0x10_0000, 2));
  }

  // ----- decoding -----

  predicate HasFunct3(op: GuestOp) {
    !(op.Lui? || op.Auipc? || op.Jal?)
  }

  predicate HasRs1(op: GuestOp) {
    HasFunct3(op) && !op.Helper?
  }

  predicate HasRs2(op: GuestOp) {
    op.Branch? || op.StoreI? || op.ArithR? || op.SetR?
  }

  predicate HasImm(op: GuestOp) {
    !(op.ArithR? || op.SetR?)
  }

  /** The word carries the codes of the operation. */
  predicate Carries(op: GuestOp, raw: nat) {
    var c := CodesOf(op);
    && raw % 128 == c.opcode
    && (HasFunct3(op) ==> raw / 0x1000 % 8 == c.f3)
    && (op.ShiftI? || op.ArithR? ==> raw / 0x200_0000 % 128 == c.f7)
    && (op == Helper(Ecall) || op == Helper(Ebreak) ==>
          Rd(raw) == 0 && Rs1(raw) == 0 && raw / 0x10_0000 % 0x1000 == if op == Helper(Ebreak) then 1 else 0)
  }

  /** Operations whose funct7 the decoder looks at. */
  predicate Funct7Checked(op: GuestOp) {
    || (op.ShiftI? && (op.bin.Srl? || op.bin.Sra?))
    || (op.ArithR? && (op.bin.Add? || op.bin.Sub? || op.bin.Srl? || op.bin.Sra?))
  }

  /** The word has the fields that the decoder checks for the operation, which is less than the ISA
      prescribes: other funct7 values of slli, sll, slt, sltu, xor, or and and are let through. */
  predicate Checked(op: GuestOp, raw: nat) {
    var c := CodesOf(op);
    && raw % 128 == c.opcode
    && (HasFunct3(op) ==> raw / 0x1000 % 8 == c.f3)
    && (Funct7Checked(op) ==> raw / 0x200_0000 % 128 == c.f7)
    && (op == Helper(Ecall) || op == Helper(Ebreak) ==>
          Rd(raw) == 0 && Rs1(raw) == 0 && raw / 0x10_0000 % 0x1000 == if op == Helper(Ebreak) then 1 else 0)
  }

  /** The exact condition under which the decoder answers with an operation. */
  lemma {:induction false} DecodeIff(op: GuestOp, raw: nat)
    requires Exists(op)
    ensures Decode(raw) == op <==> Checked(op, raw)
  {
    hide Rd, Rs1;
  }

  lemma {:induction false} DecodeCarried(op: GuestOp, raw: nat)
    requires Exists(op) && Carries(op, raw)
    ensures Decode(raw) == op
  {
    hide Rd, Rs1, Decode, CodesOf;
    DecodeIff(op, raw);
  }

  lemma {:induction false} DecodeExists(raw: nat)
    ensures Decode(raw).Illegal? || Exists(Decode(raw))
  {
    hide Rd, Rs1;
  }

  /** A word is illegal exactly when it has the checked fields of no operation. */
  lemma {:induction false} IllegalIff(raw: nat)
    ensures Decode(raw).Illegal? <==> forall op :: Exists(op) ==> !Checked(op, raw)
  {
    hide Decode, Checked, Rd, Rs1, CodesOf;
    DecodeExists(raw);
    forall op | Exists(op) ensures Checked(op, raw) <==> Decode(raw) == op {
      DecodeIff(op, raw);
    }
  }

  /** A shift carries its amount where R-type words carry rs2. */
  lemma {:induction false} ReadShift(opcode: nat, rd: Reg, f3: nat, rs1: Reg, f7: nat, imm: int)
    requires opcode < 128 && f3 < 8 && f7 < 128 && 0 <= imm < 32
    ensures ImmShift(Word(opcode, rd, f3, rs1, Bits(imm, 1, 32), f7)) == imm
  {
    hide Word, Rd, Rs1;
    WordFields(opcode, rd, f3, rs1, imm, f7);
  }

  lemma {:induction false} CodesBound(op: GuestOp)
    ensures var c := CodesOf(op); c.opcode < 128 && c.f3 < 8 && c.f7 < 128
  {
  }

  /** What every format leaves readable. */
  ghost predicate Readable(op: GuestOp, rd: Reg, rs1: Reg, rs2: Reg, raw: nat) {
    Carries(op, raw) && (HasRd(op) ==> Rd(raw) == rd) && (HasRs1(op) ==> Rs1(raw) == rs1)
      && (HasRs2(op) ==> Rs2(raw) == rs2)
  }

  lemma {:induction false} SmallBits(imm: int)
    requires 0 <= imm < 32
    ensures Bits(imm, 1, 32) == imm && Bits(imm, 32, 128) == 0
  {
  }

  lemma {:induction false} WordReadable(op: GuestOp, rd: Reg, rs1: Reg, rs2: Reg, a: nat, f3: nat, b: nat, c: nat,
      f7: nat)
    requires FieldsOk(CodesOf(op).opcode, a, f3, b, c, f7)
    requires HasFunct3(op) ==> f3 == CodesOf(op).f3
    requires op.ShiftI? || op.ArithR? ==> f7 == CodesOf(op).f7
    requires op.Helper? ==> a == 0 && b == 0 && f7 == 0 && c == if op == Helper(Ebreak) then 1 else 0
    requires (HasRd(op) ==> a == rd) && (HasRs1(op) ==> b == rs1) && (HasRs2(op) ==> c == rs2)
    ensures Readable(op, rd, rs1, rs2, Word(CodesOf(op).opcode, a, f3, b, c, f7))
  {
    hide Word, CodesOf, Rd, Rs1, Rs2;
    WordFields(CodesOf(op).opcode, a, f3, b, c, f7);
  }

  lemma {:induction false} AssembledReadable(op: GuestOp, rd: Reg, rs1: Reg, rs2: Reg, imm: int)
    requires Exists(op) && ImmOk(op, imm)
    ensures Readable(op, rd, rs1, rs2, Assemble(op, rd, rs1, rs2, imm))
  {
    hide Word, Bits, CodesOf, Readable;
    CodesBound(op);
    var c := CodesOf(op);
    match op {
      case Lui =>
        BitsU(imm);
        WordReadable(op, rd, rs1, rs2, rd, Bits(imm, 0x1000, 8), Bits(imm, 0x8000, 32), Bits(imm, 0x10_0000, 32),
          Bits(imm, 0x200_0000, 128));
      case Auipc =>
        BitsU(imm);
        WordReadable(op, rd, rs1, rs2, rd, Bits(imm, 0x1000, 8), Bits(imm, 0x8000, 32), Bits(imm, 0x10_0000, 32),
          Bits(imm, 0x200_0000, 128));
      case Jal =>
        BitsJ(imm);
        WordReadable(op, rd, rs1, rs2, rd, Bits(imm, 0x1000, 8), Bits(imm, 0x8000, 32),
          Bits(imm, 2048, 2) + 2 * Bits(imm, 2, 16), Bits(imm, 32, 64) + 64 * Bits(imm, 0x10_0000, 2));
      case Branch(_) =>
        BitsB(imm);
        WordReadable(op, rd, rs1, rs2, Bits(imm, 2048, 2) + 2 * Bits(imm, 2, 16), c.f3, rs1, rs2,
          Bits(imm, 32, 64) + 64 * Bits(imm, 4096, 2));
      case StoreI(_) =>
        Bits12(imm);
        WordReadable(op, rd, rs1, rs2, Bits(imm, 1, 32), c.f3, rs1, rs2, Bits(imm, 32, 128));
      case ShiftI(_) =>
        Bits12(imm);
        WordReadable(op, rd, rs1, rs2, rd, c.f3, rs1, Bits(imm, 1, 32), c.f7);
      case ArithR(_) =>
        WordReadable(op, rd, rs1, rs2, rd, c.f3, rs1, rs2, c.f7);
      case SetR(_) =>
        WordReadable(op, rd, rs1, rs2, rd, c.f3, rs1, rs2, c.f7);
      case Helper(_) =>
        assert Bits(imm, 1, 32) == imm && Bits(imm, 32, 128) == 0 by {
          SmallBits(imm);
        }
        WordReadable(op, rd, rs1, rs2, 0, c.f3, 0, Bits(imm, 1, 32), Bits(imm, 32, 128));
      case Jalr =>
        Bits12(imm);
        WordReadable(op, rd, rs1, rs2, rd, c.f3, rs1, Bits(imm, 1, 32), Bits(imm, 32, 128));
      case LoadI(_, _) =>
        Bits12(imm);
        WordReadable(op, rd, rs1, rs2, rd, c.f3, rs1, Bits(imm, 1, 32), Bits(imm, 32, 128));
      case ArithI(_) =>
        Bits12(imm);
        WordReadable(op, rd, rs1, rs2, rd, c.f3, rs1, Bits(imm, 1, 32), Bits(imm, 32, 128));
      case SetI(_) =>
        Bits12(imm);
        WordReadable(op, rd, rs1, rs2, rd, c.f3, rs1, Bits(imm, 1, 32), Bits(imm, 32, 128));
    }
  }

  lemma {:induction false} AssembledImmediate(op: GuestOp, rd: Reg, rs1: Reg, rs2: Reg, imm: int)
    requires Exists(op) && ImmOk(op, imm) && HasImm(op)
    ensures Immediate(op, Assemble(op, rd, rs1, rs2, imm)) == imm
  {
    hide Word, Bits, CodesOf, ImmI, ImmS, ImmB, ImmU, ImmJ, ImmShift;
    CodesBound(op);
    var c := CodesOf(op);
    match op {
      case Lui => ReadU(c.opcode, rd, imm);
      case Auipc => ReadU(c.opcode, rd, imm);
      case Jal => ReadJ(c.opcode, rd, imm);
      case Branch(_) => ReadB(c.opcode, c.f3, rs1, rs2, imm);
      case StoreI(_) => ReadS(c.opcode, c.f3, rs1, rs2, imm);
      case ShiftI(_) => ReadShift(c.opcode, rd, c.f3, rs1, c.f7, imm);
      case Helper(_) => ReadI(c.opcode, c.f3, 0, 0, imm);
      case Jalr => ReadI(c.opcode, c.f3, rd, rs1, imm);
      case LoadI(_, _) => ReadI(c.opcode, c.f3, rd, rs1, imm);
      case ArithI(_) => ReadI(c.opcode, c.f3, rd, rs1, imm);
      case SetI(_) => ReadI(c.opcode, c.f3, rd, rs1, imm);
    }
  }

  /** Round trip: parsing an assembled instruction gives back its operation, its registers and its
      immediate, for every operation of RV32I and every value its format can hold. */
  lemma {:induction false} ParseAssembled(op: GuestOp, rd: Reg, rs1: Reg, rs2: Reg, imm: int)
    requires Exists(op) && ImmOk(op, imm)
    ensures var i := Parse(Assemble(op, rd, rs1, rs2, imm));
      && i.op == op && (HasImm(op) ==> i.imm == imm)
      && (HasRd(op) ==> i.rd == rd) && (HasRs1(op) ==> i.rs1 == rs1) && (HasRs2(op) ==> i.rs2 == rs2)
  {
    hide Assemble, Carries, Decode, Rd, Rs1, Rs2, Immediate, Wrap;
    AssembledReadable(op, rd, rs1, rs2, imm);
    DecodeCarried(op, Assemble(op, rd, rs1, rs2, imm));
    if HasImm(op) {
      AssembledImmediate(op, rd, rs1, rs2, imm);
    }
  }

  /** A word that no assembler produces and the decoder takes for slli: its funct7 is 1. */
  lemma {:induction false} UncheckedWord(op: GuestOp, rd: Reg, rs1: Reg, rs2: Reg, imm: int)
    requires Exists(op) && ImmOk(op, imm)
    ensures var raw := Word(0x13, 1, 1, 1, 0, 1); Decode(raw) == ShiftI(Sll) && Assemble(op, rd, rs1, rs2, imm) != raw
  {
    var raw := Word(0x13, 1, 1, 1, 0, 1);
    WordFields(0x13, 1, 1, 1, 0, 1);
    assert Checked(ShiftI(Sll), raw);
    DecodeIff(ShiftI(Sll), raw);
    hide Decode, Word, Rd, Rs1, Rs2, Assemble;
    AssembledReadable(op, rd, rs1, rs2, imm);
    DecodeCarried(op, Assemble(op, rd, rs1, rs2, imm));
  }
}
