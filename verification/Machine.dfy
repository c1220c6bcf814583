/** Operational semantics of QIR, before and after register allocation.

    Both machines share the CPU state (34 words: x0..x31, ip, trapno) and guest memory. The
    virtual machine keeps the globals in the CPU state itself and the locals in a map. The
    physical machine has 16 registers and a spill frame; it reaches the CPU state, guest memory and
    the frame through three of the registers, as long as those hold the right addresses. Every load,
    store and trapping helper call records an event holding the CPU state at that moment, so equal
    event sequences mean precise state. */
module Machine {
  import opened Words
  import opened Qir

  const CPU_WORDS: nat := 34
  const IP_WORD: nat := 32
  const TRAP_WORD: nat := 33

  type Cpu = c: seq<W> | |c| == CPU_WORDS witness seq(CPU_WORDS, _ => 0)
  type Regs = r: seq<W> | |r| == GPR_NUM witness seq(GPR_NUM, _ => 0)

  const TRAP_EBREAK: W := 3
  const TRAP_ECALL: W := 4

  datatype Event = Event(op: Op, args: seq<W>, cpu: Cpu)

  /** Where control goes after an instruction: to the next one, to successor number `i`, out of
      the region, or into the trap handler. */
  datatype Next = Fall | Jump(i: nat) | Leave(ip: W, indirect: bool) | Halt

  function Arg(args: seq<W>, k: nat): W {
    if k < |args| then args[k] else 0
  }

  // ----- effect of an operation on its argument values -----

  function ResultOf(op: Op, args: seq<W>, mem: Mem): W {
    match op
    case Mov => Arg(args, 0)
    case Bin(b) => Alu(b, Arg(args, 0), Arg(args, 1))
    case Setcc(cc) => Bit(Holds(cc, Arg(args, 0), Arg(args, 1)))
    case VMLoad(sz, sgn) => Load(mem, sz, sgn, Arg(args, 0))
    case _ => 0
  }

  predicate Traps(op: Op) {
    op.Hcall? && (op.stub.Ecall? || op.stub.Ebreak?)
  }

  function NextOf(op: Op, args: seq<W>): Next {
    match op
    case Br => Jump(0)
    case Brcc(cc) => if Holds(cc, Arg(args, 0), Arg(args, 1)) then Jump(0) else Jump(1)
    case GBr(tpc) => Leave(tpc, false)
    case GBrind => Leave(Arg(args, 0), true)
    case Hcall(_) => if Traps(op) then Halt else Fall
    case _ => Fall
  }

  function MemAfter(op: Op, args: seq<W>, mem: Mem): Mem {
    match op
    case VMStore(sz) => Store(mem, sz, Arg(args, 0), Arg(args, 1))
    case _ => mem
  }

  /** The runtime helpers. A fence steps the saved ip; ecall and ebreak record the trap. */
  function CpuAfter(op: Op, cpu: Cpu): Cpu {
    match op
    case Hcall(stub) =>
      (match stub
       case Ecall => cpu[TRAP_WORD := TRAP_ECALL]
       case Ebreak => cpu[TRAP_WORD := TRAP_EBREAK]
       case _ => cpu[IP_WORD := Plus(cpu[IP_WORD], 4)])
    case _ => cpu
  }

  function EventsOf(op: Op, args: seq<W>, cpu: Cpu): seq<Event> {
    if op.VMLoad? || op.VMStore? || Traps(op) then [Event(op, args, cpu)] else []
  }

  // ----- the virtual machine -----

  datatype VState = VState(cpu: Cpu, locals: map<nat, W>, mem: Mem)

  datatype VRun = VRun(s: VState, ev: seq<Event>, next: Next)

  function VGet(s: VState, r: nat): W {
    if r < N_GLOBALS then s.cpu[r + 1]
    else if r in s.locals then s.locals[r]
    else 0
  }

  function VRead(s: VState, o: Operand): W {
    match o
    case Const(ty, val) => Trunc(ty, val)
    case VReg(ty, r) => Trunc(ty, VGet(s, r))
    case _ => 0
  }

  function VReads(s: VState, os: seq<Operand>): (r: seq<W>)
    ensures |r| == |os|
    ensures forall i :: 0 <= i < |os| ==> r[i] == VRead(s, os[i])
  {
    seq(|os|, i requires 0 <= i < |os| => VRead(s, os[i]))
  }

  function VWrite(s: VState, o: Operand, w: W): VState {
    match o
    case VReg(ty, r) =>
      if r < N_GLOBALS then s.(cpu := s.cpu[r + 1 := w])
      else s.(locals := s.locals[r := Trunc(ty, w)])
    case Slot(glob, ty, offs) =>
      if glob && offs / 4 < CPU_WORDS then s.(cpu := s.cpu[offs / 4 := w]) else s
    case _ => s
  }

  function VStep(ins: Inst, s: VState): VRun {
    var args := VReads(s, ins.ins);
    var s1 := VState(CpuAfter(ins.op, s.cpu), s.locals, MemAfter(ins.op, args, s.mem));
    var s2 := if |ins.outs| > 0 then VWrite(s1, ins.outs[0], ResultOf(ins.op, args, s.mem)) else s1;
    VRun(s2, EventsOf(ins.op, args, s.cpu), NextOf(ins.op, args))
  }

  function VExec(code: seq<Inst>, s: VState): VRun {
    if code == [] then VRun(s, [], Fall)
    else
      var r := VStep(code[0], s);
      if r.next.Fall? then
        var t := VExec(code[1..], r.s);
        VRun(t.s, r.ev + t.ev, t.next)
      else r
  }

  /** Run at most `n` blocks starting with block `b`; `Jump(k)` means block `k` is next. */
  function VRegion(rg: Region, b: nat, s: VState, n: nat): VRun
    decreases n
  {
    if n == 0 || b >= |rg.blocks| then VRun(s, [], Jump(b))
    else
      var r := VExec(rg.blocks[b].code, s);
      if r.next.Jump? && r.next.i < |rg.blocks[b].succs| then
        var t := VRegion(rg, rg.blocks[b].succs[r.next.i], r.s, n - 1);
        VRun(t.s, r.ev + t.ev, t.next)
      else r
  }

  // ----- the physical machine -----

  /** Where the host keeps the CPU state, guest memory and the spill frame, and what an access through
      any other base address meets. */
  datatype Host = Host(state: W, mem: W, frame: W, stray: W, strayMem: Mem)

  /** `junk` supplies what a helper call leaves in the registers it may clobber; `clock` counts
      the calls so that every call may leave something different. */
  datatype PState = PState(regs: Regs, frame: Frame, cpu: Cpu, mem: Mem,
                           junk: (nat, nat) -> W, clock: nat, host: Host)

  datatype PRun = PRun(s: PState, ev: seq<Event>, next: Next)

  /** STATE points to the CPU state. */
  predicate AtState(s: PState) {
    s.regs[STATE] == s.host.state
  }

  /** MEMBASE points to guest memory. */
  predicate AtMemory(s: PState) {
    s.regs[MEMBASE] == s.host.mem
  }

  /** SP points to the spill frame. */
  predicate AtFrame(s: PState) {
    s.regs[SP] == s.host.frame
  }

  predicate Based(s: PState) {
    AtState(s) && AtMemory(s) && AtFrame(s)
  }

  /** Nothing has moved the base registers. */
  predicate SameBases(s: PState, s': PState) {
    s'.host == s.host && s'.regs[STATE] == s.regs[STATE] && s'.regs[MEMBASE] == s.regs[MEMBASE]
      && s'.regs[SP] == s.regs[SP]
  }

  /** What a guest access reads. */
  function Reachable(s: PState): Mem {
    if AtMemory(s) then s.mem else s.host.strayMem
  }

  /** State slots are addressed from STATE and frame slots from SP. */
  function PRead(s: PState, o: Operand): W {
    match o
    case Const(ty, val) => Trunc(ty, val)
    case PReg(ty, p) => if p < GPR_NUM then Trunc(ty, s.regs[p]) else 0
    case Slot(glob, ty, offs) =>
      if glob then (if AtState(s) && offs / 4 < CPU_WORDS then Trunc(ty, s.cpu[offs / 4]) else s.host.stray)
      else if AtFrame(s) && offs + Size(ty) <= FRAME_SIZE then GetFrame(s.frame, ty, offs)
      else s.host.stray
    case _ => 0
  }

  function PReads(s: PState, os: seq<Operand>): (r: seq<W>)
    ensures |r| == |os|
    ensures forall i :: 0 <= i < |os| ==> r[i] == PRead(s, os[i])
  {
    seq(|os|, i requires 0 <= i < |os| => PRead(s, os[i]))
  }

  function PWrite(s: PState, o: Operand, w: W): PState {
    match o
    case PReg(ty, p) =>
      if p < GPR_NUM then s.(regs := s.regs[p := Merge(ty, s.regs[p], w)]) else s
    case Slot(glob, ty, offs) =>
      if glob then (if AtState(s) && offs / 4 < CPU_WORDS then s.(cpu := s.cpu[offs / 4 := w]) else s)
      else if AtFrame(s) && offs + Size(ty) <= FRAME_SIZE then s.(frame := PutFrame(s.frame, ty, offs, w))
      else s
    case _ => s
  }

  /** RBX, RSP, RBP and R12 to R15: what a callee preserves in the System V calling convention. */
  predicate CalleeSaved(p: nat) {
    p == 3 || p == 4 || p == 5 || 12 <= p <= 15
  }

  function Clobbered(regs: Regs, junk: (nat, nat) -> W, clock: nat): Regs {
    seq(GPR_NUM, p requires 0 <= p < GPR_NUM => if CalleeSaved(p) then regs[p] else junk(clock, p))
  }

  /** A helper finds the CPU state through STATE. */
  function HelperCpu(op: Op, s: PState): Cpu {
    if op.Hcall? && !AtState(s) then s.cpu else CpuAfter(op, s.cpu)
  }

  /** A store through another base leaves guest memory alone. */
  function StoredMem(op: Op, args: seq<W>, s: PState): Mem {
    if AtMemory(s) then MemAfter(op, args, s.mem) else s.mem
  }

  function PStep(ins: Inst, s: PState): PRun {
    var args := PReads(s, ins.ins);
    var s1 := s.(cpu := HelperCpu(ins.op, s), mem := StoredMem(ins.op, args, s));
    var s2 := if ins.op.Hcall? then s1.(regs := Clobbered(s.regs, s.junk, s.clock), clock := s.clock + 1) else s1;
    var s3 := if |ins.outs| > 0 then PWrite(s2, ins.outs[0], ResultOf(ins.op, args, Reachable(s))) else s2;
    PRun(s3, EventsOf(ins.op, args, s.cpu), NextOf(ins.op, args))
  }

  function PExec(code: seq<Inst>, s: PState): PRun {
    if code == [] then PRun(s, [], Fall)
    else
      var r := PStep(code[0], s);
      if r.next.Fall? then
        var t := PExec(code[1..], r.s);
        PRun(t.s, r.ev + t.ev, t.next)
      else r
  }

  function PRegion(rg: Region, b: nat, s: PState, n: nat): PRun
    decreases n
  {
    if n == 0 || b >= |rg.blocks| then PRun(s, [], Jump(b))
    else
      var r := PExec(rg.blocks[b].code, s);
      if r.next.Jump? && r.next.i < |rg.blocks[b].succs| then
        var t := PRegion(rg, rg.blocks[b].succs[r.next.i], r.s, n - 1);
        PRun(t.s, r.ev + t.ev, t.next)
      else r
  }

  // ----- running concatenated code -----

  lemma {:induction false} VExecAppend(a: seq<Inst>, b: seq<Inst>, s: VState)
    ensures var r := VExec(a, s);
      VExec(a + b, s) ==
      if r.next.Fall? then var t := VExec(b, r.s); VRun(t.s, r.ev + t.ev, t.next) else r
  {
    hide VStep;
    if a == [] {
      assert a + b == b;
    } else {
      assert (a + b)[0] == a[0] && (a + b)[1..] == a[1..] + b;
      var r := VStep(a[0], s);
      if r.next.Fall? {
        VExecAppend(a[1..], b, r.s);
      }
    }
  }

  lemma {:induction false} PExecAppend(a: seq<Inst>, b: seq<Inst>, s: PState)
    ensures var r := PExec(a, s);
      PExec(a + b, s) ==
      if r.next.Fall? then var t := PExec(b, r.s); PRun(t.s, r.ev + t.ev, t.next) else r
  {
    hide PStep;
    if a == [] {
      assert a + b == b;
    } else {
      assert (a + b)[0] == a[0] && (a + b)[1..] == a[1..] + b;
      var r := PStep(a[0], s);
      if r.next.Fall? {
        PExecAppend(a[1..], b, r.s);
      }
    }
  }

  lemma {:induction false} VExecOne(ins: Inst, s: VState)
    ensures VExec([ins], s) == VStep(ins, s)
  {
    hide VStep;
    var r := VStep(ins, s);
    assert VExec([ins][1..], r.s) == VRun(r.s, [], Fall);
  }

  lemma {:induction false} PExecOne(ins: Inst, s: PState)
    ensures PExec([ins], s) == PStep(ins, s)
  {
    hide PStep;
    var r := PStep(ins, s);
    assert PExec([ins][1..], r.s) == PRun(r.s, [], Fall);
  }
}
