/** RV32I as the interpreter handlers define it: instruction fields, decoding, and one step. */
module Guest {
  import opened Words
  import opened Qir
  import opened Machine

  // ----- instruction fields -----

  function Rd(raw: nat): (r: nat)
    ensures r < 32
  {
    raw / 0x80 % 32
  }

  function Rs1(raw: nat): (r: nat)
    ensures r < 32
  {
    raw / 0x8000 % 32
  }

  function Rs2(raw: nat): (r: nat)
    ensures r < 32
  {
    raw / 0x10_0000 % 32
  }

  function Sign(raw: nat): nat {
    raw / 0x8000_0000 % 2
  }

  function ImmI(raw: nat): int {
    raw / 0x10_0000 % 0x800 - 0x800 * Sign(raw)
  }

  function ImmShift(raw: nat): int {
    raw / 0x10_0000 % 32
  }

  function ImmS(raw: nat): int {
    raw / 0x80 % 0x20 + 0x20 * (raw / 0x200_0000 % 0x40) - 0x800 * Sign(raw)
  }

  function ImmB(raw: nat): int {
    2 * (raw / 0x100 % 0x10 + 0x10 * (raw / 0x200_0000 % 0x40) + 0x400 * (raw / 0x80 % 2) - 0x800 * Sign(raw))
  }

  function ImmU(raw: nat): int {
    raw / 0x1000 % 0x10_0000 * 0x1000
  }

  function ImmJ(raw: nat): int {
    2 * (raw / 0x20_0000 % 0x400 + 0x400 * (raw / 0x10_0000 % 2) + 0x800 * (raw / 0x1000 % 0x100)
         - 0x8_0000 * Sign(raw))
  }

  /** Conversion to a 32-bit word, modulo 2^32. */
  function Wrap(x: int): W {
    FromNat(x % 0x1_0000_0000)
  }

  // ----- decoding -----

  datatype GuestOp =
    | Illegal
    | Lui | Auipc | Jal | Jalr
    | Branch(cc: CondCode)
    | LoadI(sz: VType, sgn: VSign)
    | StoreI(sz: VType)
    | ArithI(bin: BinOp)
    | SetI(cc: CondCode)
    | ShiftI(bin: BinOp)
    | ArithR(bin: BinOp)
    | SetR(cc: CondCode)
    | Helper(stub: Stub)

  function Decode(raw: nat): GuestOp {
    var funct3 := raw / 0x1000 % 8;
    var funct7 := raw / 0x200_0000 % 128;
    match raw % 128
    case 0x37 => Lui
    case 0x17 => Auipc
    case 0x6f => Jal
    case 0x67 => if funct3 == 0 then Jalr else Illegal
    case 0x63 =>
      (match funct3
       case 0 => Branch(EQ)
       case 1 => Branch(NE)
       case 4 => Branch(LT)
       case 5 => Branch(GE)
       case 6 => Branch(LTU)
       case 7 => Branch(GEU)
       case _ => Illegal)
    case 0x03 =>
      (match funct3
       case 0 => LoadI(I8, S)
       case 1 => LoadI(I16, S)
       case 2 => LoadI(I32, S)
       case 4 => LoadI(I8, U)
       case 5 => LoadI(I16, U)
       case _ => Illegal)
    case 0x23 =>
      (match funct3
       case 0 => StoreI(I8)
       case 1 => StoreI(I16)
       case 2 => StoreI(I32)
       case _ => Illegal)
    case 0x13 =>
      (match funct3
       case 0 => ArithI(Add)
       case 2 => SetI(LT)
       case 3 => SetI(LTU)
       case 4 => ArithI(Xor)
       case 6 => ArithI(Or)
       case 7 => ArithI(And)
       case 1 => ShiftI(Sll)
       case _ => if funct7 == 0 then ShiftI(Srl) else if funct7 == 0x20 then ShiftI(Sra) else Illegal)
    case 0x33 =>
      (match funct3
       case 0 => if funct7 == 0 then ArithR(Add) else if funct7 == 0x20 then ArithR(Sub) else Illegal
       case 1 => ArithR(Sll)
       case 2 => SetR(LT)
       case 3 => SetR(LTU)
       case 4 => ArithR(Xor)
       case 5 => if funct7 == 0 then ArithR(Srl) else if funct7 == 0x20 then ArithR(Sra) else Illegal
       case 6 => ArithR(Or)
       case _ => ArithR(And))
    case 0x0f => if funct3 == 0 then Helper(Fence) else if funct3 == 1 then Helper(Fencei) else Illegal
    case 0x73 =>
      if funct3 == 0 && Rd(raw) == 0 && Rs1(raw) == 0 then
        (match raw / 0x10_0000 % 0x1000
         case 0 => Helper(Ecall)
         case 1 => Helper(Ebreak)
         case _ => Illegal)
      else Illegal
    case _ => Illegal
  }

  type Reg = r: nat | r < 32

  /** A decoded instruction: handler, register numbers, the immediate of its format, raw word. */
  datatype Insn = Insn(op: GuestOp, rd: Reg, rs1: Reg, rs2: Reg, imm: int, raw: W)

  function Immediate(op: GuestOp, raw: nat): int {
    match op
    case Lui => ImmU(raw)
    case Auipc => ImmU(raw)
    case Jal => ImmJ(raw)
    case Branch(_) => ImmB(raw)
    case StoreI(_) => ImmS(raw)
    case ShiftI(_) => ImmShift(raw)
    case _ => ImmI(raw)
  }

  function Parse(raw: nat): Insn {
    var op := Decode(raw);
    Insn(op, Rd(raw), Rs1(raw), Rs2(raw), Immediate(op, raw), Wrap(raw))
  }

  // ----- the interpreter -----

  /** The instruction at every address; fixed during a run. */
  type Code = W -> Insn

  const TRAP_UNALIGNED: W := 1
  const TRAP_ILLEGAL: W := 2

  datatype IState = IState(cpu: Cpu, mem: Mem)

  datatype IRun = IRun(s: IState, ev: seq<Event>, trapped: bool)

  function AtIp(cpu: Cpu, ip: W): Cpu {
    cpu[IP_WORD := ip]
  }

  predicate HasRd(op: GuestOp) {
    !(op.Illegal? || op.Branch? || op.StoreI? || op.Helper?)
  }

  /** What the handler assigns to `gpr[rd]`. */
  function RdValue(i: Insn, cpu: Cpu, mem: Mem): W {
    var a, b, c, ip := cpu[i.rs1], cpu[i.rs2], Wrap(i.imm), cpu[IP_WORD];
    match i.op
    case Lui => c
    case Auipc => Plus(c, ip)
    case Jal => Plus(ip, 4)
    case Jalr => Plus(ip, 4)
    case LoadI(sz, sgn) => Load(mem, sz, sgn, Plus(a, c))
    case ArithI(bin) => Alu(bin, a, c)
    case SetI(cc) => Bit(Holds(cc, a, c))
    case ShiftI(bin) => Alu(bin, a, c)
    case ArithR(bin) => Alu(bin, a, b)
    case SetR(cc) => Bit(Holds(cc, a, b))
    case _ => 0
  }

  function NextIp(i: Insn, cpu: Cpu): W {
    var ip := cpu[IP_WORD];
    match i.op
    case Jal => Plus(ip, Wrap(i.imm))
    case Jalr => Alu(And, Plus(cpu[i.rs1], Wrap(i.imm)), 0xffff_fffe)
    case Branch(cc) => if Holds(cc, cpu[i.rs1], cpu[i.rs2]) then Plus(ip, Wrap(i.imm)) else Plus(ip, 4)
    case _ => Plus(ip, 4)
  }

  predicate Aligned4(ip: W) {
    ip & 3 == 0
  }

  /** The alignment checks of the jump and branch handlers. */
  predicate Unaligned(i: Insn, cpu: Cpu) {
    match i.op
    case Jal => i.imm % 4 != 0
    case Jalr => !Aligned4(NextIp(i, cpu))
    case Branch(cc) => Holds(cc, cpu[i.rs1], cpu[i.rs2]) && i.imm % 4 != 0
    case _ => false
  }

  /** Trap number raised by the handler; 0 for none. */
  function TrapOf(i: Insn, cpu: Cpu): W {
    if i.op.Illegal? then TRAP_ILLEGAL
    else if Unaligned(i, cpu) then TRAP_UNALIGNED
    else if i.op == Helper(Ecall) then TRAP_ECALL
    else if i.op == Helper(Ebreak) then TRAP_EBREAK
    else 0
  }

  function GuestMemAfter(i: Insn, cpu: Cpu, mem: Mem): Mem {
    match i.op
    case StoreI(sz) => Store(mem, sz, Plus(cpu[i.rs1], Wrap(i.imm)), Trunc(sz, cpu[i.rs2]))
    case _ => mem
  }

  function GuestEvents(i: Insn, cpu: Cpu): seq<Event> {
    match i.op
    case LoadI(sz, sgn) => [Event(VMLoad(sz, sgn), [Plus(cpu[i.rs1], Wrap(i.imm))], cpu)]
    case StoreI(sz) => [Event(VMStore(sz), [Plus(cpu[i.rs1], Wrap(i.imm)), Trunc(sz, cpu[i.rs2])], cpu)]
    case Helper(stub) => if stub.Ecall? || stub.Ebreak? then [Event(Hcall(stub), [i.raw], cpu)] else []
    case _ => []
  }

  /** CPU state after an instruction that does not trap: the destination is written, x0 is reset,
      the ip moves on. */
  function GuestCpuAfter(i: Insn, cpu: Cpu, mem: Mem): Cpu {
    var c := if HasRd(i.op) then cpu[i.rd := RdValue(i, cpu, mem)][0 := 0] else cpu;
    AtIp(c, NextIp(i, cpu))
  }

  function IExec(i: Insn, s: IState): IRun {
    var trap := TrapOf(i, s.cpu);
    if trap != 0 then IRun(IState(s.cpu[TRAP_WORD := trap], s.mem), GuestEvents(i, s.cpu), true)
    else IRun(IState(GuestCpuAfter(i, s.cpu, s.mem), GuestMemAfter(i, s.cpu, s.mem)), GuestEvents(i, s.cpu), false)
  }

  function IStep(code: Code, s: IState): IRun {
    IExec(code(s.cpu[IP_WORD]), s)
  }

  function Then(r: IRun, t: IRun): IRun {
    IRun(t.s, r.ev + t.ev, t.trapped)
  }

  /** At most `k` steps of `f`, stopping at a trap. */
  function Iterate(f: IState -> IRun, s: IState, k: nat): IRun
    decreases k
  {
    if k == 0 then IRun(s, [], false)
    else if f(s).trapped then f(s)
    else Then(f(s), Iterate(f, f(s).s, k - 1))
  }

  function Interpreter(code: Code): IState -> IRun {
    s => IStep(code, s)
  }

  function ISteps(code: Code, s: IState, k: nat): IRun {
    Iterate(Interpreter(code), s, k)
  }

  lemma ThenAssoc(a: IRun, b: IRun, c: IRun)
    ensures Then(a, Then(b, c)) == Then(Then(a, b), c)
  {
    assert a.ev + (b.ev + c.ev) == (a.ev + b.ev) + c.ev;
  }

  lemma {:induction false} IterateAppend(f: IState -> IRun, s: IState, j: nat, k: nat)
    ensures var r := Iterate(f, s, j);
      Iterate(f, s, j + k) == if r.trapped then r else Then(r, Iterate(f, r.s, k))
    decreases j
  {
    if j == 0 {
      var t := Iterate(f, s, k);
      assert [] + t.ev == t.ev;
    } else if !f(s).trapped {
      var t := Iterate(f, f(s).s, j - 1);
      IterateAppend(f, f(s).s, j - 1, k);
      if !t.trapped {
        ThenAssoc(f(s), t, Iterate(f, t.s, k));
      }
    }
  }

  /** x0 reads zero after every step that starts with it zero. */
  lemma X0StaysZero(code: Code, s: IState)
    requires s.cpu[0] == 0
    ensures IStep(code, s).s.cpu[0] == 0
  {
  }
}
