/** What the allocator owes for one instruction and for one block, and how the pieces compose. */
module AllocSteps {
  import opened Words
  import opened Qir
  import opened Machine
  import opened SelForm
  import opened AllocView
  import opened AllocMoves

  // ----- global synchronisation -----

  ghost predicate AllSynced(a: View) {
    forall g :: 0 <= g < N_GLOBALS && g < |a.vregs| ==> a.vregs[g].loc == MEM || a.vregs[g].spillSynced
  }

  ghost predicate AllInMemory(a: View) {
    forall g :: 0 <= g < N_GLOBALS && g < |a.vregs| ==> a.vregs[g].loc == MEM
  }

  /** Once every global is synchronised the CPU state in memory is exact. */
  lemma SyncedIsExact(a: View, vs: VState, ps: PState)
    requires Valid(a) && AllSynced(a) && Rel(a, vs, ps)
    ensures ps.cpu == vs.cpu
  {
    forall i | 0 <= i < CPU_WORDS ensures ps.cpu[i] == vs.cpu[i] {
      if 1 <= i <= N_GLOBALS {
        var g: nat := i - 1;
        assert Covered(a, g) && GlobalTrack(a.vregs[g], g);
        assert TrackOk(a.vregs[g], VGet(vs, g), ps);
      }
    }
  }

  // ----- inputs -----

  /** `o'` in the physical machine reads what `o` reads in the virtual one, after the moves from
      `a` to `b`. */
  ghost predicate ReadsAs(a: View, b: View, o: Operand, o': Operand) {
    forall vs, ps :: Rel(a, vs, ps) ==> PRead(MovExec(Delta(a, b), ps), o') == VRead(vs, o)
  }

  predicate HeldIn(o: Operand, keep: set<nat>) {
    o.Const? || (o.PReg? && o.p < GPR_NUM && o.p in keep)
  }

  lemma ReadsAsKept(a: View, b: View, c: View, o: Operand, o': Operand, keep: set<nat>)
    requires Sim(a, b, {}) && ReadsAs(a, b, o, o') && Sim(b, c, keep) && HeldIn(o', keep)
    ensures ReadsAs(a, c, o, o')
  {
    DeltaAppend(a, b, c);
    forall vs, ps | Rel(a, vs, ps) ensures PRead(MovExec(Delta(a, c), ps), o') == VRead(vs, o) {
      MovExecAppend(Delta(a, b), Delta(b, c), ps);
      var m := MovExec(Delta(a, b), ps);
      assert Rel(b, vs, m);
      assert KeepsRegs(keep, m, MovExec(Delta(b, c), m));
    }
  }

  lemma ReadsAsLater(a: View, b: View, c: View, o: Operand, o': Operand)
    requires Sim(a, b, {}) && Sim(b, c, {}) && ReadsAs(b, c, o, o')
    ensures ReadsAs(a, c, o, o')
  {
    DeltaAppend(a, b, c);
    forall vs, ps | Rel(a, vs, ps) ensures PRead(MovExec(Delta(a, c), ps), o') == VRead(vs, o) {
      MovExecAppend(Delta(a, b), Delta(b, c), ps);
      assert Rel(b, vs, MovExec(Delta(a, b), ps));
    }
  }

  lemma ReadsAsConst(a: View, b: View, o: Operand)
    requires o.Const?
    ensures ReadsAs(a, b, o, o)
  {
  }

  /** A tracked register can be read in place. */
  lemma ReadsAsTracked(a: View, v: nat, ty: VType)
    requires Valid(a) && Covered(a, v) && a.vregs[v].loc == REG && Size(ty) <= Size(a.vregs[v].ty)
    ensures ReadsAs(a, a, VReg(ty, v), PReg(ty, a.vregs[v].p))
  {
    var t := a.vregs[v];
    assert Delta(a, a) == [];
    forall vs, ps | Rel(a, vs, ps) ensures PRead(MovExec(Delta(a, a), ps), PReg(ty, t.p)) == VRead(vs, VReg(ty, v)) {
      assert TrackOk(t, VGet(vs, v), ps);
      TruncTrunc(ty, t.ty, ps.regs[t.p]);
    }
  }

  // ----- the instruction itself -----

  /** After the moves from `a` to `m` the rewritten instruction reads the virtual arguments, and a
      side effect sees exact CPU state. */
  ghost predicate Ready(a: View, m: View, ins: Inst, ins': Inst) {
    && Sim(a, m, {})
    && ins'.op == ins.op && |ins'.ins| == |ins.ins|
    && (forall i :: 0 <= i < |ins.ins| ==> ReadsAs(a, m, ins.ins[i], ins'.ins[i]))
    && (SideEffect(ins.op) ==> AllSynced(m))
  }

  lemma {:induction false} ReadyArgs(a: View, m: View, ins: Inst, ins': Inst, vs: VState, ps: PState)
    requires Valid(m) && Ready(a, m, ins, ins') && Rel(a, vs, ps)
    ensures var ps' := MovExec(Delta(a, m), ps);
      && Rel(m, vs, ps')
      && PReads(ps', ins'.ins) == VReads(vs, ins.ins)
      && (SideEffect(ins.op) ==> ps'.cpu == vs.cpu)
  {
    var ps' := MovExec(Delta(a, m), ps);
    assert Rel(m, vs, ps');
    forall i | 0 <= i < |ins.ins| ensures PReads(ps', ins'.ins)[i] == VReads(vs, ins.ins)[i] {
      assert ReadsAs(a, m, ins.ins[i], ins'.ins[i]);
    }
    if SideEffect(ins.op) {
      SyncedIsExact(m, vs, ps');
    }
  }

  /** Bookkeeping after `r` has been given a new value in register `p`. */
  function Assigned(m: View, r: nat, p: nat): View
    requires r < |m.vregs| && p < |m.p2v| && (m.vregs[r].loc == REG ==> m.vregs[r].p < |m.p2v|)
  {
    var t := m.vregs[r];
    m.(vregs := m.vregs[r := t.(loc := REG, p := p, spillSynced := false)],
       p2v := (if t.loc == REG then m.p2v[t.p := None] else m.p2v)[p := Some(r)],
       live := if r >= N_GLOBALS then m.live + {r} else m.live)
  }

  predicate Target(m: View, r: nat, p: nat) {
    && r < |m.vregs| && r != IP_GLOBAL
    && (Free(m, p) || (p < GPR_NUM && p < |m.p2v| && m.p2v[p] == Some(r)))
  }

  lemma AssignedValid(m: View, r: nat, p: nat)
    requires Valid(m) && Target(m, r, p)
    ensures Valid(Assigned(m, r, p))
  {
    hide FrameOk;
    var b := Assigned(m, r, p);
    FrameKept(m, b, r);
    assert Coupled(b);
  }

  lemma AssignedSelf(t: RTrack, r: nat, p: nat, vs: VState, ps: PState, w: W)
    requires p < GPR_NUM && r < N_GLOBALS ==> t.ty == I32
    ensures TrackOk(t.(loc := REG, p := p, spillSynced := false), VGet(VWrite(vs, VReg(t.ty, r), w), r),
      PWrite(ps, PReg(t.ty, p), w))
  {
    if p < GPR_NUM {
      TruncMerge(t.ty, ps.regs[p], w);
    }
  }

  lemma AssignedOther(m: View, r: nat, p: nat, u: nat, vs: VState, ps: PState, w: W)
    requires Valid(m) && Target(m, r, p) && u < |m.vregs| && u != r && TrackOk(m.vregs[u], VGet(vs, u), ps)
    ensures TrackOk(m.vregs[u], VGet(VWrite(vs, VReg(m.vregs[r].ty, r), w), u), PWrite(ps, PReg(m.vregs[r].ty, p), w))
  {
    HomeKept(m.vregs[u], ps, m.vregs[r].ty, p, w);
    hide Merge, Home, GetFrame;
    assert VGet(VWrite(vs, VReg(m.vregs[r].ty, r), w), u) == VGet(vs, u);
    assert m.vregs[u].loc == REG ==> m.vregs[u].p != p;
  }

  lemma AssignedRel(m: View, r: nat, p: nat, ty: VType, vs: VState, ps: PState, w: W)
    requires Valid(m) && Target(m, r, p) && ty == m.vregs[r].ty && Rel(m, vs, ps)
    ensures Rel(Assigned(m, r, p), VWrite(vs, VReg(ty, r), w), PWrite(ps, PReg(ty, p), w))
  {
    var b := Assigned(m, r, p);
    var vs', ps' := VWrite(vs, VReg(ty, r), w), PWrite(ps, PReg(ty, p), w);
    assert r < N_GLOBALS ==> GlobalTrack(m.vregs[r], r);
    forall u: nat | Covered(b, u) ensures TrackOk(b.vregs[u], VGet(vs', u), ps') {
      if u == r {
        AssignedSelf(m.vregs[r], r, p, vs, ps, w);
      } else {
        assert Covered(m, u);
        AssignedOther(m, r, p, u, vs, ps, w);
      }
    }
  }

  /** What running `ins` in the virtual machine and `code` in the physical one must agree on. */
  ghost predicate StepMatches(b: View, rv: VRun, rp: PRun) {
    && rv.ev == rp.ev && rv.next == rp.next
    && (if rv.next.Fall? then Rel(b, rv.s, rp.s) else Agree(rv.s, rp.s))
  }

  /** Agreement at block boundaries: nothing but the CPU state in memory, guest memory and the base
      addresses. */
  ghost predicate Agree(vs: VState, ps: PState) {
    Based(ps) && vs.cpu == ps.cpu && vs.mem == ps.mem
  }

  ghost predicate StepSim(a: View, b: View, ins: Inst, ins': Inst, m: View) {
    && Extends(a, m) && b.out == m.out + [ins']
    && forall vs, ps :: Rel(a, vs, ps) ==> StepMatches(b, VStep(ins, vs), PStep(ins', MovExec(Delta(a, m), ps)))
  }

  /** An operation with a register destination. */
  lemma StepWithDest(a: View, m: View, ins: Inst, ins': Inst, r: nat, p: nat)
    requires Valid(m) && Ready(a, m, ins, ins') && Target(m, r, p)
    requires NumOut(ins.op) == 1 && ins.outs == [VReg(m.vregs[r].ty, r)] && ins'.outs == [PReg(m.vregs[r].ty, p)]
    ensures StepSim(a, Assigned(m, r, p).(out := m.out + [ins']), ins, ins', m)
  {
    hide Alu, Plus, Load, Store, Holds;
    var b0 := Assigned(m, r, p);
    var b := b0.(out := m.out + [ins']);
    forall vs, ps | Rel(a, vs, ps)
      ensures StepMatches(b, VStep(ins, vs), PStep(ins', MovExec(Delta(a, m), ps)))
    {
      var ps' := MovExec(Delta(a, m), ps);
      ReadyArgs(a, m, ins, ins', vs, ps);
      var w := ResultOf(ins.op, VReads(vs, ins.ins), vs.mem);
      AssignedRel(m, r, p, m.vregs[r].ty, vs, ps', w);
      RelOut(b0, b, VStep(ins, vs).s, PStep(ins', ps').s);
    }
  }

  /** The emitted code is not part of the coupling. */
  lemma RelOut(a: View, b: View, vs: VState, ps: PState)
    requires b == a.(out := b.out) && Rel(a, vs, ps)
    ensures Rel(b, vs, ps)
  {
    forall u: nat | Covered(b, u) ensures TrackOk(b.vregs[u], VGet(vs, u), ps) {
      assert Covered(a, u);
    }
  }

  lemma IpSlotRel(m: View, vs: VState, ps: PState, w: W)
    requires Valid(m) && Rel(m, vs, ps)
    ensures Rel(m, VWrite(vs, Slot(true, I32, IP_OFFS), w), PWrite(ps, Slot(true, I32, IP_OFFS), w))
  {
    var vs1, ps1 := VWrite(vs, Slot(true, I32, IP_OFFS), w), PWrite(ps, Slot(true, I32, IP_OFFS), w);
    forall u: nat | Covered(m, u) ensures TrackOk(m.vregs[u], VGet(vs1, u), ps1) {
      assert TrackOk(m.vregs[u], VGet(vs, u), ps);
      TrackKind(m, u);
    }
  }

  /** A move of the current ip into its state slot. */
  lemma StepIpSlot(a: View, m: View, ins: Inst, ins': Inst)
    requires Valid(m) && Ready(a, m, ins, ins') && ins.op == Mov
    requires ins.outs == [Slot(true, I32, IP_OFFS)] && ins'.outs == ins.outs
    ensures StepSim(a, m.(out := m.out + [ins']), ins, ins', m)
  {
    hide Alu, Plus, Load, Store, Holds, Rel, PWrite, VWrite, Valid;
    var b := m.(out := m.out + [ins']);
    forall vs, ps | Rel(a, vs, ps)
      ensures StepMatches(b, VStep(ins, vs), PStep(ins', MovExec(Delta(a, m), ps)))
    {
      var ps' := MovExec(Delta(a, m), ps);
      ReadyArgs(a, m, ins, ins', vs, ps);
      IpSlotRel(m, vs, ps', ResultOf(Mov, VReads(vs, ins.ins), vs.mem));
      RelOut(m, b, VStep(ins, vs).s, PStep(ins', ps').s);
    }
  }

  /** Guest memory may change under the coupling, in both machines alike. */
  lemma MemRel(m: View, vs: VState, ps: PState, mem: Mem)
    requires Rel(m, vs, ps)
    ensures Rel(m, vs.(mem := mem), ps.(mem := mem))
  {
    var vs1, ps1 := vs.(mem := mem), ps.(mem := mem);
    forall u: nat | Covered(m, u) ensures TrackOk(m.vregs[u], VGet(vs1, u), ps1) {
      assert TrackOk(m.vregs[u], VGet(vs, u), ps);
      assert Home(m.vregs[u], ps1) == Home(m.vregs[u], ps);
    }
  }

  lemma NoDestRuns(ins: Inst, s: PState)
    requires Based(s) && !ins.op.Hcall? && ins.outs == []
    ensures var args := PReads(s, ins.ins);
      PStep(ins, s) ==
        PRun(s.(mem := MemAfter(ins.op, args, s.mem)), EventsOf(ins.op, args, s.cpu), NextOf(ins.op, args))
  {
    hide MemAfter, EventsOf, NextOf, ResultOf;
  }

  /** An operation without destination: stores and terminators. */
  lemma StepNoDest(a: View, m: View, ins: Inst, ins': Inst)
    requires Valid(m) && Ready(a, m, ins, ins') && !ins.op.Hcall? && ins.outs == [] && ins'.outs == []
    requires Terminator(ins.op) ==> AllSynced(m)
    ensures StepSim(a, m.(out := m.out + [ins']), ins, ins', m)
  {
    hide Alu, Plus, Load, Store, Holds, Rel, Valid, AllSynced, PStep;
    var b := m.(out := m.out + [ins']);
    forall vs, ps | Rel(a, vs, ps)
      ensures StepMatches(b, VStep(ins, vs), PStep(ins', MovExec(Delta(a, m), ps)))
    {
      var ps' := MovExec(Delta(a, m), ps);
      ReadyArgs(a, m, ins, ins', vs, ps);
      RelMem(m, vs, ps');
      NoDestRuns(ins', ps');
      MemRel(m, vs, ps', MemAfter(ins.op, VReads(vs, ins.ins), vs.mem));
      if Terminator(ins.op) {
        SyncedIsExact(m, vs, ps');
      } else {
        RelOut(m, b, VStep(ins, vs).s, PStep(ins', ps').s);
      }
    }
  }

  lemma RelMem(m: View, vs: VState, ps: PState)
    requires Rel(m, vs, ps)
    ensures vs.mem == ps.mem && Based(ps)
  {
  }

  /** No tracked value lives in a register that a call may overwrite. */
  ghost predicate CallSafe(a: View) {
    AllInMemory(a) && forall p :: 0 <= p < |a.p2v| && !CalleeSaved(p) ==> a.p2v[p].None?
  }

  lemma HcallLocal(m: View, u: nat, ins: Inst, ps: PState)
    requires Valid(m) && CallSafe(m) && ins.op.Hcall? && ins.outs == [] && N_GLOBALS <= u < |m.vregs|
    ensures var ps1 := PStep(ins, ps).s;
      && Home(m.vregs[u], ps1) == Home(m.vregs[u], ps)
      && (m.vregs[u].loc == REG ==> ps1.regs[m.vregs[u].p] == ps.regs[m.vregs[u].p])
  {
    hide Alu, Plus, Load, Store, Holds;
    assert LocalTrack(m.vregs[u], m.frameCur);
  }

  lemma HcallRel(m: View, ins: Inst, vs: VState, ps: PState)
    requires Valid(m) && CallSafe(m) && ins.op.Hcall? && ins.outs == [] && Rel(m, vs, ps)
    ensures Rel(m, VStep(ins, vs).s, PStep(ins, ps).s)
  {
    hide Alu, Plus, Load, Store, Holds;
    SyncedIsExact(m, vs, ps);
    var vs1, ps1 := VStep(ins, vs).s, PStep(ins, ps).s;
    assert ps1.cpu == vs1.cpu && ps1.mem == vs1.mem && vs1.locals == vs.locals;
    forall u: nat | Covered(m, u) ensures TrackOk(m.vregs[u], VGet(vs1, u), ps1) {
      assert TrackOk(m.vregs[u], VGet(vs, u), ps);
      if u < N_GLOBALS {
        assert GlobalTrack(m.vregs[u], u);
      } else {
        HcallLocal(m, u, ins, ps);
      }
    }
  }

  lemma StepHcall(a: View, m: View, ins: Inst)
    requires Valid(m) && Sim(a, m, {}) && CallSafe(m) && ins.op.Hcall? && ins.outs == [] && |ins.ins| == 1
      && ins.ins[0].Const?
    ensures StepSim(a, m.(out := m.out + [ins]), ins, ins, m)
  {
    hide Alu, Plus, Load, Store, Holds;
    var b := m.(out := m.out + [ins]);
    assert Ready(a, m, ins, ins) by {
      ReadsAsConst(a, m, ins.ins[0]);
    }
    forall vs, ps | Rel(a, vs, ps)
      ensures StepMatches(b, VStep(ins, vs), PStep(ins, MovExec(Delta(a, m), ps)))
    {
      var ps' := MovExec(Delta(a, m), ps);
      ReadyArgs(a, m, ins, ins, vs, ps);
      HcallRel(m, ins, vs, ps');
      RelOut(m, b, VStep(ins, vs).s, PStep(ins, ps').s);
    }
  }

  // ----- blocks -----

  /** The first `n` instructions of `code` and the code emitted so far behave alike. */
  ghost predicate BlockSim(code: seq<Inst>, n: nat, a: View)
    requires n <= |code|
  {
    forall vs, ps :: Agree(vs, ps) ==> StepMatches(a, VExec(code[..n], vs), PExec(a.out, ps))
  }

  lemma BlockStart(code: seq<Inst>, a: View)
    requires Valid(a) && AllInMemory(a) && a.out == [] && a.live == {}
    ensures BlockSim(code, 0, a)
  {
    forall vs, ps | Agree(vs, ps) ensures StepMatches(a, VExec(code[..0], vs), PExec(a.out, ps)) {
      forall u: nat | Covered(a, u) ensures TrackOk(a.vregs[u], VGet(vs, u), ps) {
        assert GlobalTrack(a.vregs[u], u);
      }
    }
  }

  lemma {:induction false} MovesThenStep(a: View, m: View, ins': Inst, ps: PState)
    requires Extends(a, m)
    ensures PExec(Delta(a, m) + [ins'], ps) == PStep(ins', MovExec(Delta(a, m), ps))
  {
    hide Alu, Plus, Load, Store, Holds, VStep, PStep, Rel;
    var d := Delta(a, m);
    MovExecIsPExec(d, ps);
    PExecAppend(d, [ins'], ps);
    PExecOne(ins', MovExec(d, ps));
  }

  lemma BlockExtend(code: seq<Inst>, n: nat, a: View, m: View, b: View, ins': Inst)
    requires n < |code| && BlockSim(code, n, a) && StepSim(a, b, code[n], ins', m)
    ensures BlockSim(code, n + 1, b)
  {
    hide Alu, Plus, Load, Store, Holds, VStep, PStep, Rel;
    var d := Delta(a, m);
    assert b.out == a.out + (d + [ins']) by {
      assert m.out == a.out + d;
    }
    assert code[..n + 1] == code[..n] + [code[n]];
    forall vs, ps | Agree(vs, ps) ensures StepMatches(b, VExec(code[..n + 1], vs), PExec(b.out, ps)) {
      var rv, rp := VExec(code[..n], vs), PExec(a.out, ps);
      assert StepMatches(a, rv, rp);
      VExecAppend(code[..n], [code[n]], vs);
      PExecAppend(a.out, d + [ins'], ps);
      if rv.next.Fall? {
        VExecOne(code[n], rv.s);
        MovesThenStep(a, m, ins', rp.s);
        assert StepMatches(b, VStep(code[n], rv.s), PStep(ins', MovExec(d, rp.s)));
      }
    }
  }

  lemma {:induction false} TerminatedLeaves(code: seq<Inst>, s: VState)
    requires Terminated(code)
    ensures !VExec(code, s).next.Fall?
  {
    assert Terminator(code[|code| - 1].op);
    if |code| > 1 {
      assert Terminated(code[1..]) by {
        forall i | 0 <= i < |code[1..]| ensures Terminator(code[1..][i].op) <==> i == |code[1..]| - 1 {
          assert code[1..][i] == code[i + 1];
        }
      }
      TerminatedLeaves(code[1..], VStep(code[0], s).s);
    }
  }

  /** Physical code that replaces the virtual code of a block. */
  ghost predicate BlockRefines(code: seq<Inst>, out: seq<Inst>) {
    forall vs, ps :: Agree(vs, ps) ==>
      var rv, rp := VExec(code, vs), PExec(out, ps);
      rv.ev == rp.ev && rv.next == rp.next && !rv.next.Fall? && Agree(rv.s, rp.s)
  }

  lemma BlockDone(code: seq<Inst>, a: View)
    requires Terminated(code) && BlockSim(code, |code|, a)
    ensures BlockRefines(code, a.out)
  {
    hide Alu, Plus, Load, Store, Holds, VStep, PStep, Rel;
    assert code[..|code|] == code;
    forall vs, ps | Agree(vs, ps)
      ensures var rv, rp := VExec(code, vs), PExec(a.out, ps);
        rv.ev == rp.ev && rv.next == rp.next && !rv.next.Fall? && Agree(rv.s, rp.s)
    {
      TerminatedLeaves(code, vs);
      assert StepMatches(a, VExec(code[..|code|], vs), PExec(a.out, ps));
    }
  }
}
