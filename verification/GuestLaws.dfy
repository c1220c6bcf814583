/** The instruction handlers on integers: a second definition of every step, by the values of the registers
    and the bytes of memory, that the step of the interpreter meets. */
module GuestLaws {
  import opened Words
  import opened Powers
  import opened WordValues
  import opened WordLaws
  import opened MemLaws
  import opened Qir
  import opened Machine
  import opened Guest

  // ----- the definition -----

  function Cut(x: int): nat {
    x % P32
  }

  function Signed(n: nat): int {
    if n < P31 then n else n - P32
  }

  predicate Digit(n: nat, k: nat) {
    n / Pow2(k) % 2 == 1
  }

  /** What `op` makes of the value of `a` and the number `n`. */
  ghost predicate Computes(op: BinOp, v: W, a: W, n: nat) {
    match op
    case Add => Num(v) == Cut(Num(a) + n)
    case Sub => Num(v) == Cut(Num(a) - n)
    case And => forall k: nat :: Digit(Num(v), k) <==> Digit(Num(a), k) && Digit(n, k)
    case Or => forall k: nat :: Digit(Num(v), k) <==> Digit(Num(a), k) || Digit(n, k)
    case Xor => forall k: nat :: Digit(Num(v), k) <==> Digit(Num(a), k) != Digit(n, k)
    case Sll => Num(v) == Cut(Num(a) * Pow2(n % 32))
    case Srl => Num(v) == Num(a) / Pow2(n % 32)
    case Sra => Signed(Num(v)) == Signed(Num(a)) / Pow2(n % 32)
  }

  predicate Compared(cc: CondCode, m: nat, n: nat) {
    match cc
    case EQ => m == n
    case NE => m != n
    case LE => Signed(m) <= Signed(n)
    case LT => Signed(m) < Signed(n)
    case GE => Signed(m) >= Signed(n)
    case GT => Signed(m) > Signed(n)
    case LEU => m <= n
    case LTU => m < n
    case GEU => m >= n
    case GTU => m > n
  }

  /** The number in the `n` bytes of `mem` from address `x` on, least significant first. */
  function Bytes(mem: Mem, x: int, n: nat): nat {
    if n == 0 then 0 else Bytes(mem, x, n - 1) + Pow2(8 * (n - 1)) * ByteNum(LoadByte(mem, Wrap(x + n - 1)))
  }

  function Gpr(cpu: Cpu, r: Reg): nat {
    Num(cpu[r])
  }

  function Ip(cpu: Cpu): nat {
    Num(cpu[IP_WORD])
  }

  /** The value a handler gives its destination. */
  ghost predicate Result(i: Insn, cpu: Cpu, mem: Mem, v: W) {
    var m, n := Gpr(cpu, i.rs1), Gpr(cpu, i.rs2);
    match i.op
    case Lui => Num(v) == Cut(i.imm)
    case Auipc => Num(v) == Cut(Ip(cpu) + i.imm)
    case Jal => Num(v) == Cut(Ip(cpu) + 4)
    case Jalr => Num(v) == Cut(Ip(cpu) + 4)
    case LoadI(sz, sgn) =>
      var x := Bytes(mem, m + i.imm, Size(sz));
      if sgn.U? then Num(v) == x else Signed(Num(v)) == TwosComplement(x, Size(sz))
    case ArithI(bin) => Computes(bin, v, cpu[i.rs1], Cut(i.imm))
    case SetI(cc) => Num(v) == if Compared(cc, m, Cut(i.imm)) then 1 else 0
    case ShiftI(bin) => Computes(bin, v, cpu[i.rs1], Cut(i.imm))
    case ArithR(bin) => Computes(bin, v, cpu[i.rs1], n)
    case SetR(cc) => Num(v) == if Compared(cc, m, n) then 1 else 0
    case _ => true
  }

  function Target(i: Insn, cpu: Cpu): nat {
    match i.op
    case Jal => Cut(Ip(cpu) + i.imm)
    case Jalr => Cut(Gpr(cpu, i.rs1) + i.imm) / 2 * 2
    case Branch(cc) => if Compared(cc, Gpr(cpu, i.rs1), Gpr(cpu, i.rs2)) then Cut(Ip(cpu) + i.imm) else Cut(Ip(cpu) + 4)
    case _ => Cut(Ip(cpu) + 4)
  }

  /** Misaligned targets, illegal words, ebreak and ecall, numbered; 0 for none. */
  function TrapNumber(i: Insn, cpu: Cpu): nat {
    match i.op
    case Illegal => 2
    case Jal => if i.imm % 4 != 0 then 1 else 0
    case Jalr => if Target(i, cpu) % 4 != 0 then 1 else 0
    case Branch(cc) => if Compared(cc, Gpr(cpu, i.rs1), Gpr(cpu, i.rs2)) && i.imm % 4 != 0 then 1 else 0
    case Helper(stub) => if stub.Ebreak? then 3 else if stub.Ecall? then 4 else 0
    case _ => 0
  }

  predicate Writes(op: GuestOp) {
    match op
    case Illegal => false
    case Branch(_) => false
    case StoreI(_) => false
    case Helper(_) => false
    case _ => true
  }

  /** The registers after a step without a trap. */
  ghost predicate Registers(i: Insn, s: IState, cpu: Cpu) {
    && (Writes(i.op) && i.rd != 0 ==> Result(i, s.cpu, s.mem, cpu[i.rd]))
    && (Writes(i.op) ==> cpu[0] == 0)
    && (forall r: Reg :: (r != 0 || !Writes(i.op)) && !(Writes(i.op) && r == i.rd) ==> cpu[r] == s.cpu[r])
    && Ip(cpu) == Target(i, s.cpu)
    && cpu[33] == s.cpu[33]
  }

  /** The address of byte `k` of an access. */
  function Place(i: Insn, cpu: Cpu, k: nat): W {
    Wrap(Gpr(cpu, i.rs1) + i.imm + k)
  }

  /** Memory after a store: the digits of the value to base 256, and the rest as before. */
  ghost predicate Stored(i: Insn, s: IState, mem: Mem)
    requires i.op.StoreI?
  {
    && (forall k :: 0 <= k < Size(i.op.sz) ==>
          ByteNum(LoadByte(mem, Place(i, s.cpu, k))) == Gpr(s.cpu, i.rs2) / Pow2(8 * k) % 256)
    && (forall x: W :: (forall k :: 0 <= k < Size(i.op.sz) ==> x != Place(i, s.cpu, k)) ==>
          LoadByte(mem, x) == LoadByte(s.mem, x))
  }

  /** The access that a step makes of guest memory, or its trap, with the state it finds. */
  ghost predicate Recorded(i: Insn, s: IState, ev: seq<Event>) {
    match i.op
    case LoadI(sz, sgn) => ev == [Event(VMLoad(sz, sgn), [Place(i, s.cpu, 0)], s.cpu)]
    case StoreI(sz) =>
      && |ev| == 1 && ev[0].op == VMStore(sz) && ev[0].cpu == s.cpu && |ev[0].args| == 2
      && ev[0].args[0] == Place(i, s.cpu, 0) && Num(ev[0].args[1]) == Gpr(s.cpu, i.rs2) % Pow2(8 * Size(sz))
    case Helper(stub) =>
      if stub.Ebreak? || stub.Ecall? then ev == [Event(Hcall(stub), [i.raw], s.cpu)] else ev == []
    case _ => ev == []
  }

  /** One instruction. */
  ghost predicate Executes(i: Insn, s: IState, r: IRun) {
    var trap := TrapNumber(i, s.cpu);
    && r.trapped == (trap != 0) && Recorded(i, s, r.ev)
    && (if trap != 0 then Num(r.s.cpu[33]) == trap && r.s == IState(s.cpu[33 := r.s.cpu[33]], s.mem)
        else Registers(i, s, r.s.cpu) && if i.op.StoreI? then Stored(i, s, r.s.mem) else r.s.mem == s.mem)
  }

  // ----- words and numbers -----

  lemma CutCut(x: int, y: int)
    ensures Cut(x + Cut(y)) == Cut(x + y) && Cut(Cut(y)) == Cut(y)
  {
  }

  lemma {:induction false} NumWrap(x: int)
    ensures Num(Wrap(x)) == Cut(x)
  {
    hide Num, FromNat;
    NumFromNat(Cut(x));
  }

  lemma {:induction false} NumCut(w: W)
    ensures Cut(Num(w)) == Num(w)
  {
    hide Num;
    NumBytes(w);
  }

  lemma {:induction false} WrapNum(w: W)
    ensures Wrap(Num(w)) == w
  {
    hide Num, Wrap;
    NumWrap(Num(w));
    NumCut(w);
    NumInjective(Wrap(Num(w)), w);
  }

  lemma {:induction false} PlusWrap(a: W, x: int)
    ensures Plus(a, Wrap(x)) == Wrap(Num(a) + x)
  {
    hide Num, Wrap, Plus;
    NumPlus(a, Wrap(x));
    NumWrap(x);
    NumWrap(Num(a) + x);
    CutCut(Num(a), x);
    NumInjective(Plus(a, Wrap(x)), Wrap(Num(a) + x));
  }

  lemma {:induction false} PlusNumber(a: W, x: int)
    ensures Num(Plus(a, Wrap(x))) == Cut(Num(a) + x)
  {
    hide Num, Wrap, Plus;
    PlusWrap(a, x);
    NumWrap(Num(a) + x);
  }

  lemma {:induction false} SmallWraps()
    ensures Wrap(0) == 0 && Wrap(1) == 1 && Wrap(2) == 2 && Wrap(3) == 3 && Wrap(4) == 4
  {
    assert FromNat(0) == 0;
    assert FromNat(1) == 1;
    assert FromNat(2) == 2;
    assert FromNat(3) == 3;
    assert FromNat(4) == 4;
  }

  lemma AtIs(a: W)
    ensures At(a, 0) == a && At(a, 1) == a + 1 && At(a, 2) == a + 2 && At(a, 3) == a + 3
  {
  }

  lemma AtPlus(a: W)
    ensures At(a, 0) == Plus(a, 0) && At(a, 1) == Plus(a, 1) && At(a, 2) == Plus(a, 2) && At(a, 3) == Plus(a, 3)
  {
    hide At;
    AtIs(a);
    assert Plus(a, 0) == a;
    assert Plus(a, 1) == a + 1;
    assert Plus(a, 2) == a + 2;
    assert Plus(a, 3) == a + 3;
  }

  lemma {:induction false} AtWrap(x: int, k: nat)
    requires k < 4
    ensures At(Wrap(x), k) == Wrap(x + k)
  {
    hide Num, Wrap, Plus, At;
    SmallWraps();
    AtPlus(Wrap(x));
    assert At(Wrap(x), k) == Plus(Wrap(x), Wrap(k));
    PlusWrap(Wrap(x), k);
    NumWrap(x);
    WrapCut(x, k);
  }

  lemma WrapCut(x: int, k: int)
    ensures Wrap(Cut(x) + k) == Wrap(x + k)
  {
    CutCut(k, x);
    hide FromNat;
  }

  lemma {:induction false} SpelledBytes(mem: Mem, x: int, n: nat)
    requires n <= 4
    ensures Spelled(mem, Wrap(x), n) == Bytes(mem, x, n)
  {
    hide Pow2, ByteNum, LoadByte, Wrap, At;
    if n > 0 {
      SpelledBytes(mem, x, n - 1);
      AtWrap(x, n - 1);
      assert x + (n - 1) == x + n - 1;
    }
  }

  lemma {:induction false} SignedNum(w: W)
    ensures SNum(w) == Signed(Num(w))
  {
    hide Num, Negative;
    NegativeNum(w);
  }

  lemma {:induction false} HoldsCompared(cc: CondCode, a: W, b: W)
    ensures Holds(cc, a, b) <==> Compared(cc, Num(a), Num(b))
  {
    hide Num, SNum, Holds, Signed;
    HoldsCompares(cc, a, b);
    SignedNum(a);
    SignedNum(b);
  }

  // ----- the low bits -----

  function Low5(w: W): W {
    w & 31
  }

  function High27(w: W): W {
    w & 0xffff_ffe0
  }

  lemma FiveSplit(w: W)
    ensures Disjoint(Low5(w), High27(w)) && Join2(Low5(w), High27(w)) == w
  {
  }

  lemma {:induction false} FiveHalves(w: W)
    ensures Halves(Low5(w), 5) == 0 && forall k: nat :: k < 5 ==> !Odd(Halves(High27(w), k))
  {
    HalvesAre(Low5(w));
    HalvesAre(High27(w));
  }

  lemma Pow5()
    ensures Pow2(5) == 32
  {
  }

  lemma {:induction false} NumLow5(w: W)
    ensures Num(Low5(w)) == Num(w) % 32
  {
    hide Num, Half, Odd, Halves, Low5, High27, Join2, Disjoint, Pow2;
    Pow5();
    FiveSplit(w);
    JoinNum(Low5(w), High27(w));
    FiveHalves(w);
    NumHalvesExact(High27(w), 5);
    NumHalves(Low5(w), 5);
    NumZero();
  }

  lemma {:induction false} CountNum(w: W)
    ensures Num(w & 31) == Num(w) % 32
  {
    NumLow5(w);
    hide Num;
  }

  lemma EvenPart(w: W)
    ensures Half(w & 0xffff_fffe) == Half(w) && !Odd(w & 0xffff_fffe)
  {
  }

  lemma {:induction false} EvenNum(w: W)
    ensures Num(Alu(And, w, 0xffff_fffe)) == Num(w) / 2 * 2
  {
    hide Num, Half, Odd, Alu;
    AluAnd(w, 0xffff_fffe);
    EvenPart(w);
    NumHalf(w);
    NumHalf(w & 0xffff_fffe);
  }

  lemma LowTwo(w: W)
    ensures w & 3 == 0 <==> !Odd(w) && !Odd(Half(w))
  {
  }

  lemma {:induction false} AlignedNum(w: W)
    ensures Aligned4(w) <==> Num(w) % 4 == 0
  {
    hide Num, Half, Odd;
    LowTwo(w);
    NumHalf(w);
    NumHalf(Half(w));
  }

  // ----- the operations -----

  lemma {:induction false} AluComputes(op: BinOp, a: W, b: W)
    ensures Computes(op, Alu(op, a, b), a, Num(b))
  {
    hide Num, Alu, Pow2, SNum, Signed;
    match op {
      case Add => AddNum(a, b);
      case Sub => SubNum(a, b);
      case And => DigitsCombine(op, a, b);
      case Or => DigitsCombine(op, a, b);
      case Xor => DigitsCombine(op, a, b);
      case _ =>
        ShiftNum(a, b);
        CountNum(b);
        SignedNum(a);
        SignedNum(Alu(op, a, b));
    }
  }

  lemma {:induction false} DigitsCombine(op: BinOp, a: W, b: W)
    requires Bitwise(op)
    ensures forall k: nat :: Digit(Num(Alu(op, a, b)), k) <==> Combines(op, Digit(Num(a), k), Digit(Num(b), k))
  {
    hide Num, Alu, Pow2, BitSet;
    forall k: nat ensures Digit(Num(Alu(op, a, b)), k) <==> Combines(op, Digit(Num(a), k), Digit(Num(b), k)) {
      BitwiseBits(op, a, b, k);
      BitIsDigit(Alu(op, a, b), k);
      BitIsDigit(a, k);
      BitIsDigit(b, k);
    }
  }

  // ----- the handlers -----

  lemma {:induction false} LoadResult(mem: Mem, sz: VType, sgn: VSign, a: W, x: int)
    ensures var v, n := Load(mem, sz, sgn, Plus(a, Wrap(x))), Bytes(mem, Num(a) + x, Size(sz));
      if sgn.U? then Num(v) == n else Signed(Num(v)) == TwosComplement(n, Size(sz))
  {
    hide Num, SNum, Load, Plus, Wrap, Signed, TwosComplement, Spelled, Bytes;
    PlusWrap(a, x);
    var p := Wrap(Num(a) + x);
    LoadNum(mem, sz, p);
    SpelledBytes(mem, Num(a) + x, Size(sz));
    SignedNum(Load(mem, sz, sgn, p));
  }

  lemma {:induction false} HandlerResult(i: Insn, cpu: Cpu, mem: Mem)
    ensures Result(i, cpu, mem, RdValue(i, cpu, mem))
  {
    hide Num, Alu, Plus, Wrap, Load, Holds, Compared, Computes, Bit, Bytes, Cut, Signed, TwosComplement;
    var a, b, c, ip := cpu[i.rs1], cpu[i.rs2], Wrap(i.imm), cpu[IP_WORD];
    NumWrap(i.imm);
    match i.op {
      case Lui =>
      case Auipc => AuipcNumber(i.imm, ip);
      case Jal => FourMore(ip);
      case Jalr => FourMore(ip);
      case LoadI(sz, sgn) => LoadResult(mem, sz, sgn, a, i.imm);
      case ArithI(bin) => AluComputes(bin, a, c);
      case SetI(cc) => SetResult(cc, a, c);
      case ShiftI(bin) => AluComputes(bin, a, c);
      case ArithR(bin) => AluComputes(bin, a, b);
      case SetR(cc) => SetResult(cc, a, b);
      case _ =>
    }
  }

  lemma {:induction false} AuipcNumber(x: int, ip: W)
    ensures Num(Plus(Wrap(x), ip)) == Cut(Num(ip) + x)
  {
    PlusFacts(Wrap(x), ip);
    hide Num, Wrap, Plus;
    PlusNumber(ip, x);
  }

  lemma {:induction false} FourMore(ip: W)
    ensures Num(Plus(ip, 4)) == Cut(Num(ip) + 4)
  {
    hide Num, Wrap, Plus;
    SmallWraps();
    PlusNumber(ip, 4);
  }

  lemma {:induction false} SetResult(cc: CondCode, a: W, b: W)
    ensures Num(Bit(Holds(cc, a, b))) == if Compared(cc, Num(a), Num(b)) then 1 else 0
  {
    hide Num, Holds, Compared, Bit;
    HoldsCompared(cc, a, b);
    BitNum(Holds(cc, a, b));
  }

  lemma {:induction false} JalrNumber(a: W, x: int)
    ensures Num(Alu(And, Plus(a, Wrap(x)), 0xffff_fffe)) == Cut(Num(a) + x) / 2 * 2
  {
    hide Num, Alu, Plus, Wrap, Cut;
    PlusNumber(a, x);
    EvenNum(Plus(a, Wrap(x)));
  }

  lemma {:induction false} BranchNumber(i: Insn, cpu: Cpu)
    requires i.op.Branch?
    ensures Num(NextIp(i, cpu)) == Target(i, cpu)
  {
    hide Num, Alu, Plus, Wrap, Holds, Compared, Cut;
    HoldsCompared(i.op.cc, cpu[i.rs1], cpu[i.rs2]);
    PlusNumber(cpu[IP_WORD], i.imm);
    FourMore(cpu[IP_WORD]);
  }

  lemma {:induction false} HandlerTarget(i: Insn, cpu: Cpu)
    ensures Num(NextIp(i, cpu)) == Target(i, cpu)
  {
    if i.op.Branch? {
      BranchNumber(i, cpu);
    } else {
      JumpNumber(i, cpu);
    }
    hide Num, NextIp, Target;
  }

  lemma {:induction false} JumpNumber(i: Insn, cpu: Cpu)
    requires !i.op.Branch?
    ensures Num(NextIp(i, cpu)) == Target(i, cpu)
  {
    hide Num, Alu, Plus, Wrap, Cut;
    FourMore(cpu[IP_WORD]);
    if i.op.Jal? {
      PlusNumber(cpu[IP_WORD], i.imm);
    } else if i.op.Jalr? {
      JalrNumber(cpu[i.rs1], i.imm);
    }
  }

  lemma {:induction false} HandlerTrap(i: Insn, cpu: Cpu)
    ensures TrapOf(i, cpu) == match TrapNumber(i, cpu) case 0 => 0 case 1 => 1 case 2 => 2 case 3 => 3 case _ => 4
    ensures TrapNumber(i, cpu) <= 4
  {
    hide Num, NextIp, Target, Holds, Compared, Aligned4;
    match i.op {
      case Jalr =>
        AlignedNum(NextIp(i, cpu));
        HandlerTarget(i, cpu);
      case Branch(cc) => HoldsCompared(cc, cpu[i.rs1], cpu[i.rs2]);
      case _ =>
    }
  }

  lemma {:induction false} TrapWords()
    ensures Num(1) == 1 && Num(2) == 2 && Num(3) == 3 && Num(4) == 4
  {
    assert Num(1) == 1;
    assert Num(2) == 2;
  }

  lemma HandlerRegisters(i: Insn, s: IState)
    ensures Registers(i, s, GuestCpuAfter(i, s.cpu, s.mem))
  {
    hide Num, RdValue, NextIp, Target, Result;
    HandlerResult(i, s.cpu, s.mem);
    HandlerTarget(i, s.cpu);
  }

  lemma {:induction false} HandlerStored(i: Insn, s: IState)
    requires i.op.StoreI?
    ensures Stored(i, s, GuestMemAfter(i, s.cpu, s.mem))
  {
    hide Num, Plus, Wrap, Trunc, Store, LoadByte, ByteNum, Pow2, At, ByteOf;
    var sz, x, w := i.op.sz, Gpr(s.cpu, i.rs1) + i.imm, s.cpu[i.rs2];
    var mem := GuestMemAfter(i, s.cpu, s.mem);
    var p := Wrap(x);
    PlusWrap(s.cpu[i.rs1], i.imm);
    assert mem == Store(s.mem, sz, p, Trunc(sz, w));
    forall k | 0 <= k < Size(sz) ensures At(p, k) == Place(i, s.cpu, k)
      && ByteNum(LoadByte(mem, Place(i, s.cpu, k))) == Num(w) / Pow2(8 * k) % 256 {
      AtWrap(x, k);
      StoreByteAt(s.mem, sz, p, Trunc(sz, w), k);
      ByteOfTrunc(sz, w, k);
      ByteOfNum(w, k);
    }
    forall a: W | forall k :: 0 <= k < Size(sz) ==> a != Place(i, s.cpu, k)
      ensures LoadByte(mem, a) == LoadByte(s.mem, a) {
      StoreElsewhere(s.mem, sz, p, Trunc(sz, w), a);
    }
  }

  lemma ByteOfTrunc(sz: VType, w: W, k: nat)
    requires k < Size(sz)
    ensures ByteOf(Trunc(sz, w), k) == ByteOf(w, k)
  {
  }

  lemma {:induction false} HandlerRecords(i: Insn, s: IState)
    ensures Recorded(i, s, GuestEvents(i, s.cpu))
  {
    hide Num, Plus, Wrap, Trunc, Pow2;
    PlusWrap(s.cpu[i.rs1], i.imm);
    if i.op.StoreI? {
      TruncNum(i.op.sz, s.cpu[i.rs2]);
    }
  }

  /** Every handler does what the definition on integers says. */
  lemma {:induction false} HandlerExecutes(i: Insn, s: IState)
    ensures Executes(i, s, IExec(i, s))
  {
    hide Num, Target, TrapOf, TrapNumber, Registers, Stored, Recorded, GuestCpuAfter, GuestEvents, Store, Plus, Wrap;
    TrapWords();
    NumZero();
    HandlerTrap(i, s.cpu);
    HandlerRegisters(i, s);
    HandlerRecords(i, s);
    if i.op.StoreI? {
      HandlerStored(i, s);
    }
  }
}
