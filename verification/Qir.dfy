/** QIR: operands, operations, instructions, blocks and regions, together with the register
    file description of the target and the per-operation operand constraints. */
module Qir {
  import opened Words

  datatype Operand =
    | Const(ty: VType, val: W)
    | VReg(ty: VType, r: nat)
    | PReg(ty: VType, p: nat)
    | Slot(glob: bool, ty: VType, offs: nat)

  datatype Stub = Fence | Fencei | Ecall | Ebreak

  datatype Op =
    | Hcall(stub: Stub)
    | Br
    | Brcc(cc: CondCode)
    | GBr(tpc: W)
    | GBrind
    | VMLoad(sz: VType, sgn: VSign)
    | VMStore(sz: VType)
    | Setcc(cc: CondCode)
    | Mov
    | Bin(bin: BinOp)

  datatype Inst = Inst(op: Op, outs: seq<Operand>, ins: seq<Operand>)

  datatype Block = Block(code: seq<Inst>, succs: seq<nat>)

  datatype Region = Region(blocks: seq<Block>, locals: seq<VType>)

  function NumOut(op: Op): nat {
    match op
    case VMLoad(_, _) => 1
    case Setcc(_) => 1
    case Mov => 1
    case Bin(_) => 1
    case _ => 0
  }

  function NumIn(op: Op): nat {
    match op
    case Hcall(_) => 1
    case Brcc(_) => 2
    case GBrind => 1
    case VMLoad(_, _) => 1
    case VMStore(_) => 2
    case Setcc(_) => 2
    case Mov => 1
    case Bin(_) => 2
    case _ => 0
  }

  /** The SIDEEFF flag of the operation table. */
  predicate SideEffect(op: Op) {
    op.Hcall? || op.VMLoad? || op.VMStore?
  }

  // ----- virtual registers -----

  /** Globals: guest registers x1..x31 are 0..30 and the instruction pointer is 31. */
  const N_GLOBALS: nat := 32
  const IP_GLOBAL: nat := 31

  /** Byte offset of a global's slot in the CPU state. */
  function StateOffs(g: nat): nat {
    4 * (g + 1)
  }

  const IP_OFFS: nat := StateOffs(IP_GLOBAL)

  function TypeOf(locals: seq<VType>, r: nat): VType
    requires r < N_GLOBALS + |locals|
  {
    if r < N_GLOBALS then I32 else locals[r - N_GLOBALS]
  }

  // ----- target registers -----

  const GPR_NUM: nat := 16
  const RAX: nat := 0
  const RCX: nat := 1
  const RDX: nat := 2
  const RSP: nat := 4
  const RBP: nat := 5
  const RSI: nat := 6
  const RDI: nat := 7
  const R13: nat := 13

  type RegMask = set<nat>

  /** The registers through which code addresses the CPU state, guest memory and the spill frame. */
  const STATE: nat := R13
  const MEMBASE: nat := RBP
  const SP: nat := RSP

  const GPR_FIXED: RegMask := {STATE, MEMBASE, SP}
  const GPR_CALL_CLOBBER: RegMask := {RAX, RDI, RSI, RDX, RCX, 8, 9, 10, 11}
  const GPR_ALL: RegMask := set p: nat | p < GPR_NUM

  // ----- operand constraints -----

  datatype Imm = NO | ANY | S32 | U32

  /** `alias` of an input names the output it must share a register with. */
  datatype OpCt = OpCt(cr: RegMask, ci: Imm, alias: bool)

  function InCt(op: Op, i: nat): OpCt {
    match op
    case Brcc(_) => if i == 0 then OpCt(GPR_ALL, NO, false) else OpCt(GPR_ALL, S32, false)
    case GBrind => OpCt({RSI}, NO, false)
    case VMLoad(_, _) => OpCt(GPR_ALL, U32, false)
    case VMStore(_) => if i == 0 then OpCt(GPR_ALL, ANY, false) else OpCt(GPR_ALL, NO, false)
    case Setcc(_) => if i == 0 then OpCt(GPR_ALL, NO, false) else OpCt(GPR_ALL, S32, false)
    case Mov => OpCt(GPR_ALL, ANY, false)
    case Bin(b) =>
      if i == 0 then OpCt(GPR_ALL, NO, true)
      else if b.And? then OpCt(GPR_ALL, U32, false)
      else if b.Sra? || b.Srl? || b.Sll? then OpCt({RCX}, ANY, false)
      else OpCt(GPR_ALL, S32, false)
    case _ => OpCt(GPR_ALL, ANY, false)
  }

  /** The constants that the encodings take: any for moves, shift counts, store addresses and, since
      they are zero-extended, for `And` and loads; otherwise those below 2^31, as last operand. */
  predicate TakesConst(op: Op, i: nat, val: W) {
    match op
    case Brcc(_) => i > 0 && val < 0x8000_0000
    case GBrind => false
    case VMStore(_) => i == 0
    case Setcc(_) => i > 0 && val < 0x8000_0000
    case Bin(b) => i > 0 && (b.And? || b.Sll? || b.Srl? || b.Sra? || val < 0x8000_0000)
    case _ => true
  }

  lemma ConstantsTaken(op: Op, i: nat, val: W)
    ensures MatchConst(val, InCt(op, i).ci) <==> TakesConst(op, i, val)
  {
  }

  /** A shift count sits in CX and an indirect target in SI; other inputs go anywhere. */
  lemma RegistersTaken(op: Op, i: nat, p: nat)
    ensures p in InCt(op, i).cr <==>
      p <= 15 && (op.GBrind? ==> p == 6) && (op.Bin? && i > 0 && (op.bin.Sll? || op.bin.Srl? || op.bin.Sra?) ==> p == 1)
  {
  }

  /** Order in which inputs are allocated: fewest admissible registers first. */
  function InOrder(op: Op): (s: seq<nat>)
    ensures |s| == NumIn(op)
    ensures forall k :: 0 <= k < |s| ==> s[k] < |s|
    ensures forall j, k :: 0 <= j < k < |s| ==> s[j] != s[k]
    ensures forall i: nat :: i < |s| ==> i in s
  {
    if NumIn(op) == 2 then
      if op.Bin? && InCt(op, 1).cr == {RCX} then [1, 0] else [0, 1]
    else if NumIn(op) == 1 then [0] else []
  }

  /** No input has fewer admissible registers than one allocated before it. */
  lemma MostConstrainedFirst(op: Op, j: nat, k: nat)
    requires j < k < NumIn(op)
    ensures |InCt(op, InOrder(op)[j]).cr| <= |InCt(op, InOrder(op)[k]).cr|
  {
    assert RAX in GPR_ALL;
    assert |GPR_ALL| >= 1;
  }

  /** Does the constant fit the immediate class? Constants are zero-extended before the test. */
  predicate MatchConst(val: W, ci: Imm) {
    match ci
    case NO => false
    case ANY => true
    case U32 => true
    case S32 => val < 0x8000_0000
  }
}
