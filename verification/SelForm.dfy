/** The form of QIR that operand selection hands to the register allocator. */
module SelForm {
  import opened Words
  import opened Qir
  import opened Machine

  predicate Terminator(op: Op) {
    op.Br? || op.Brcc? || op.GBr? || op.GBrind? || Traps(op)
  }

  /** Successors that a block ending in `op` needs. */
  predicate SuccsFit(op: Op, succs: seq<nat>) {
    (op.Br? ==> |succs| >= 1) && (op.Brcc? ==> |succs| == 2)
  }

  predicate ArityOk(ins: Inst) {
    |ins.outs| == NumOut(ins.op) && |ins.ins| == NumIn(ins.op)
  }

  predicate VRegOk(r: nat, locals: seq<VType>) {
    r < N_GLOBALS + |locals| && r != IP_GLOBAL
  }

  /** An input is a constant or a register that already has a value. */
  predicate InputOk(o: Operand, locals: seq<VType>, defs: set<nat>) {
    match o
    case Const(_, _) => true
    case VReg(ty, r) => VRegOk(r, locals) && Size(ty) <= Size(TypeOf(locals, r)) && (r >= N_GLOBALS ==> r in defs)
    case _ => false
  }

  predicate OutputOk(op: Op, o: Operand, locals: seq<VType>) {
    match o
    case VReg(ty, r) => VRegOk(r, locals) && ty == TypeOf(locals, r)
    case Slot(glob, ty, offs) => op.Mov? && glob && ty == I32 && offs == IP_OFFS
    case _ => false
  }

  predicate TypesOk(ins: Inst)
    requires ArityOk(ins)
  {
    match ins.op
    case Mov => ins.ins[0].ty == ins.outs[0].ty
    case VMStore(sz) => ins.ins[0].ty == I32 && ins.ins[1].ty == sz
    case _ =>
      && (forall i :: 0 <= i < |ins.ins| ==> ins.ins[i].ty == I32)
      && (forall i :: 0 <= i < |ins.outs| ==> ins.outs[i].ty == I32)
  }

  /** A constant address is emitted as a displacement of 32 bits, which the processor sign-extends. */
  predicate DisplacementOk(o: Operand) {
    o.Const? ==> o.val < 0x8000_0000
  }

  /** Well-formed QIR, before operands are fitted to the target. */
  predicate WellFormed(ins: Inst, locals: seq<VType>, defs: set<nat>) {
    && ArityOk(ins)
    && (ins.op.VMLoad? || ins.op.VMStore? ==> DisplacementOk(ins.ins[0]))
    && (forall i :: 0 <= i < |ins.ins| ==> InputOk(ins.ins[i], locals, defs))
    && (forall i :: 0 <= i < |ins.outs| ==> OutputOk(ins.op, ins.outs[i], locals))
    && (ins.op.Hcall? ==> ins.ins[0].Const?)
    && TypesOk(ins)
  }

  /** Constraint `i` of the operation table: constants fit, aliased inputs equal the output. */
  predicate InputFits(ins: Inst, i: nat)
    requires ArityOk(ins) && i < |ins.ins|
  {
    && (ins.ins[i].Const? ==> MatchConst(ins.ins[i].val, InCt(ins.op, i).ci))
    && (InCt(ins.op, i).alias ==> |ins.outs| == 1 && ins.ins[i] == ins.outs[0])
  }

  predicate Selected(ins: Inst, locals: seq<VType>, defs: set<nat>) {
    && WellFormed(ins, locals, defs)
    && (!ins.op.Hcall? ==> forall i :: 0 <= i < |ins.ins| ==> InputFits(ins, i))
  }

  function DefsAfter(defs: set<nat>, ins: Inst): set<nat> {
    if |ins.outs| > 0 && ins.outs[0].VReg? && ins.outs[0].r >= N_GLOBALS then defs + {ins.outs[0].r} else defs
  }

  /** Locals defined by the first `n` instructions. */
  function Defs(code: seq<Inst>, n: nat): set<nat>
    requires n <= |code|
  {
    if n == 0 then {} else DefsAfter(Defs(code, n - 1), code[n - 1])
  }

  predicate Terminated(code: seq<Inst>) {
    && code != []
    && forall i :: 0 <= i < |code| ==> (Terminator(code[i].op) <==> i == |code| - 1)
  }

  function LastOp(code: seq<Inst>): Op
    requires code != []
  {
    code[|code| - 1].op
  }

  /** Every block ends in its only terminator and names existing successors. */
  predicate Shaped(rg: Region) {
    forall b :: 0 <= b < |rg.blocks| ==> BlockShaped(rg.blocks[b], |rg.blocks|)
  }

  predicate BlockShaped(bb: Block, n: nat) {
    && Terminated(bb.code) && SuccsFit(LastOp(bb.code), bb.succs)
    && forall k :: 0 <= k < |bb.succs| ==> bb.succs[k] < n
  }

  /** A pass that keeps the control flow graph. */
  predicate SameShape(rg: Region, rg': Region) {
    |rg'.blocks| == |rg.blocks| && forall b :: 0 <= b < |rg.blocks| ==> SameBlockShape(rg.blocks[b], rg'.blocks[b])
  }

  predicate SameBlockShape(bb: Block, bb': Block) {
    bb'.succs == bb.succs && Terminated(bb.code) && Terminated(bb'.code) && LastOp(bb'.code) == LastOp(bb.code)
  }

  lemma ShapeKept(rg: Region, rg': Region)
    requires Shaped(rg) && SameShape(rg, rg')
    ensures Shaped(rg')
  {
    forall b | 0 <= b < |rg'.blocks| ensures BlockShaped(rg'.blocks[b], |rg'.blocks|) {
      assert BlockShaped(rg.blocks[b], |rg.blocks|) && SameBlockShape(rg.blocks[b], rg'.blocks[b]);
    }
  }

  predicate WellFormedAt(code: seq<Inst>, i: nat, locals: seq<VType>) {
    i < |code| && WellFormed(code[i], locals, Defs(code, i))
  }

  predicate SelectedAt(code: seq<Inst>, i: nat, locals: seq<VType>) {
    i < |code| && Selected(code[i], locals, Defs(code, i))
  }

  predicate CodeWellFormed(code: seq<Inst>, locals: seq<VType>) {
    && Terminated(code)
    && forall i :: 0 <= i < |code| ==> WellFormedAt(code, i, locals)
  }

  predicate CodeSelected(code: seq<Inst>, locals: seq<VType>) {
    && Terminated(code)
    && forall i :: 0 <= i < |code| ==> SelectedAt(code, i, locals)
  }

  predicate RegionSelected(rg: Region) {
    forall b :: 0 <= b < |rg.blocks| ==> CodeSelected(rg.blocks[b].code, rg.locals)
  }

  predicate RegionWellFormed(rg: Region) {
    forall b :: 0 <= b < |rg.blocks| ==> CodeWellFormed(rg.blocks[b].code, rg.locals)
  }

  predicate CallFree(code: seq<Inst>) {
    forall i :: 0 <= i < |code| ==> !code[i].op.Hcall?
  }

  lemma CallFreeMore(code: seq<Inst>, ins: Inst)
    requires CallFree(code) && !ins.op.Hcall?
    ensures CallFree(code + [ins])
  {
  }

  lemma CallFreeNext(code: seq<Inst>, k: nat)
    requires k < |code|
    ensures CallFree(code[..k + 1]) <==> CallFree(code[..k]) && !code[k].op.Hcall?
    ensures CallFree(code) ==> !code[k].op.Hcall?
  {
    assert code[..k + 1] == code[..k] + [code[k]];
  }

  lemma CallFreeRegion(rg: Region)
    ensures HasCalls(rg) <==> exists b :: 0 <= b < |rg.blocks| && !CallFree(rg.blocks[b].code)
  {
  }

  predicate HasCalls(rg: Region) {
    exists b, i :: 0 <= b < |rg.blocks| && 0 <= i < |rg.blocks[b].code| && rg.blocks[b].code[i].op.Hcall?
  }

  // ----- monotonicity -----

  lemma {:induction false} DefsPrefix(code: seq<Inst>, more: seq<Inst>, j: nat)
    requires j <= |code|
    ensures Defs(code + more, j) == Defs(code, j)
  {
    if j > 0 {
      DefsPrefix(code, more, j - 1);
    }
  }

  lemma InputOkMono(o: Operand, locals: seq<VType>, locals': seq<VType>, defs: set<nat>, defs': set<nat>)
    requires InputOk(o, locals, defs) && locals <= locals' && defs <= defs'
    ensures InputOk(o, locals', defs')
  {
  }

  lemma WellFormedMono(ins: Inst, locals: seq<VType>, defs: set<nat>, defs': set<nat>)
    requires WellFormed(ins, locals, defs) && defs <= defs'
    ensures WellFormed(ins, locals, defs')
  {
    forall i | 0 <= i < |ins.ins| ensures InputOk(ins.ins[i], locals, defs') {
      InputOkMono(ins.ins[i], locals, locals, defs, defs');
    }
  }

  // ----- temporaries -----

  function ConstTemp(ins: Inst, i: nat): nat {
    if i < |ins.ins| && ins.ins[i].Const? && !MatchConst(ins.ins[i].val, InCt(ins.op, i).ci) then 1 else 0
  }

  /** A binary operation whose destination is also its second input, but not its first. */
  predicate DestIsSecondInput(ins: Inst) {
    && ins.op.Bin? && |ins.outs| == 1 && |ins.ins| == 2 && ins.outs[0].VReg?
    && ins.ins[1].VReg? && ins.ins[1].r == ins.outs[0].r
    && !(ins.ins[0].VReg? && ins.ins[0].r == ins.outs[0].r)
  }

  /** The number of temporaries that selecting an instruction takes. */
  function TempsFor(ins: Inst): nat {
    if ins.op.Hcall? then 0
    else if ins.op.Bin? then (if DestIsSecondInput(ins) then 1 else 0) + ConstTemp(ins, 1)
    else ConstTemp(ins, 0) + ConstTemp(ins, 1)
  }

  function TempsIn(code: seq<Inst>, n: nat): nat
    requires n <= |code|
  {
    if n == 0 then 0 else TempsIn(code, n - 1) + TempsFor(code[n - 1])
  }

  function TempsOf(blocks: seq<Block>, n: nat): nat
    requires n <= |blocks|
  {
    if n == 0 then 0 else TempsOf(blocks, n - 1) + TempsIn(blocks[n - 1].code, |blocks[n - 1].code|)
  }

  // ----- after allocation -----

  /** STATE, MEMBASE or SP. */
  predicate IsBase(o: Operand) {
    o.PReg? && (o.p == STATE || o.p == MEMBASE || o.p == SP)
  }

  /** One of the thirteen registers that hold values. */
  predicate PhysReg(o: Operand) {
    o.PReg? && o.p <= 15 && !IsBase(o)
  }

  predicate PhysSlot(o: Operand) {
    && o.Slot?
    && (if o.glob then o.ty == I32 && o.offs % 4 == 0 && o.offs / 4 < CPU_WORDS else o.offs + Size(o.ty) <= 1024)
  }

  /** The processor takes a shift count from CX, or as a constant. */
  predicate ShiftCountOk(b: BinOp, o: Operand) {
    o.PReg? && (b.Sll? || b.Srl? || b.Sra?) ==> o.p == RCX
  }

  /** Constants of the other operations are 32 bits wide, sign-extended except by `And`. */
  predicate ImmediateOk(b: BinOp, o: Operand) {
    o.Const? && (b.Add? || b.Sub? || b.Or? || b.Xor?) ==> o.val < 0x8000_0000
  }

  /** What the emitter asserts or takes for granted about an allocated instruction. */
  predicate Emittable(ins: Inst) {
    && ArityOk(ins)
    && match ins.op
       case Mov =>
         && (PhysReg(ins.outs[0]) || PhysSlot(ins.outs[0]))
         && (PhysReg(ins.ins[0]) || PhysSlot(ins.ins[0]) || ins.ins[0].Const?)
         && !(ins.outs[0].Slot? && ins.ins[0].Slot?)
         && ins.outs[0].ty == ins.ins[0].ty
       case Bin(b) =>
         && PhysReg(ins.outs[0]) && ins.outs[0].ty == I32 && ins.ins[0] == ins.outs[0]
         && (PhysReg(ins.ins[1]) || ins.ins[1].Const?) && ins.ins[1].ty == I32
         && ShiftCountOk(b, ins.ins[1]) && ImmediateOk(b, ins.ins[1])
       case Setcc(_) =>
         && PhysReg(ins.outs[0]) && ins.outs[0].ty == I32
         && PhysReg(ins.ins[0]) && ins.ins[0].ty == I32
         && (PhysReg(ins.ins[1]) || ins.ins[1].Const?) && ins.ins[1].ty == I32
         && (ins.ins[1].Const? ==> ins.ins[1].val < 0x8000_0000)
       case Brcc(_) =>
         && PhysReg(ins.ins[0]) && ins.ins[0].ty == I32
         && (PhysReg(ins.ins[1]) || ins.ins[1].Const?) && ins.ins[1].ty == I32
         && (ins.ins[1].Const? ==> ins.ins[1].val < 0x8000_0000)
       case GBrind => ins.ins[0] == PReg(I32, RSI)
       case VMLoad(_, _) =>
         && PhysReg(ins.outs[0]) && ins.outs[0].ty == I32
         && (PhysReg(ins.ins[0]) || ins.ins[0].Const?) && ins.ins[0].ty == I32 && DisplacementOk(ins.ins[0])
       case VMStore(sz) =>
         && (PhysReg(ins.ins[0]) || ins.ins[0].Const?) && ins.ins[0].ty == I32 && DisplacementOk(ins.ins[0])
         && PhysReg(ins.ins[1]) && ins.ins[1].ty == sz
       case Hcall(_) => ins.ins[0].Const? && ins.ins[0].ty == I32
       case Br => true
       case GBr(_) => true
  }

  // ----- the base registers -----

  predicate SparesBases(ins: Inst) {
    |ins.outs| > 0 ==> !IsBase(ins.outs[0])
  }

  lemma WriteKeepsBases(s: PState, o: Operand, w: W)
    requires !IsBase(o)
    ensures SameBases(s, PWrite(s, o, w))
  {
    hide Merge, PutFrame;
  }

  lemma SavedAt(s: PState, p: nat)
    requires p < GPR_NUM && CalleeSaved(p)
    ensures Clobbered(s.regs, s.junk, s.clock)[p] == s.regs[p]
  {
  }

  lemma CallKeepsBases(s: PState)
    ensures SameBases(s, s.(regs := Clobbered(s.regs, s.junk, s.clock)))
  {
    SavedAt(s, STATE);
    SavedAt(s, MEMBASE);
    SavedAt(s, SP);
    hide Clobbered;
  }

  /** Helpers preserve STATE, MEMBASE and SP, and other operations do not write them. */
  lemma StepKeepsBases(ins: Inst, s: PState)
    requires SparesBases(ins)
    ensures SameBases(s, PStep(ins, s).s)
  {
    hide PRead, PWrite, CpuAfter, MemAfter, ResultOf, Clobbered, EventsOf, NextOf, IsBase, HelperCpu, StoredMem;
    CallKeepsBases(s);
    var args := PReads(s, ins.ins);
    var s1 := s.(cpu := HelperCpu(ins.op, s), mem := StoredMem(ins.op, args, s));
    var s2 := if ins.op.Hcall? then s1.(regs := Clobbered(s.regs, s.junk, s.clock), clock := s.clock + 1) else s1;
    if |ins.outs| > 0 {
      WriteKeepsBases(s2, ins.outs[0], ResultOf(ins.op, args, Reachable(s)));
    }
  }
}
