/** The allocator's bookkeeping as a value, the coupling between that bookkeeping and the two
    machines, and what the elementary allocator moves do to it. */
module AllocView {
  import opened Words
  import opened Qir
  import opened Machine
  import opened SelForm

  datatype Loc = DEAD | MEM | REG

  const NO_SPILL: int := -1

  datatype RTrack = RTrack(ty: VType, isGlobal: bool, spillOffs: int, p: nat, loc: Loc, spillSynced: bool)

  /** `live` is the set of locals defined so far in the current block. */
  datatype View = View(vregs: seq<RTrack>, p2v: seq<Option<nat>>, frameCur: nat, out: seq<Inst>, live: set<nat>)

  /** Globals and as many locals as have room for four bytes each in the frame. */
  const MAX_TRACKS: nat := N_GLOBALS + FRAME_SIZE / 4

  /** What the eight-bit loop over all tracks around a helper call can count. */
  const MAX_CALL_TRACKS: nat := 255

  // ----- structural invariant -----

  /** `p2v` and the REG tracks describe the same partial bijection, off the fixed registers. */
  ghost predicate Coupled(a: View) {
    && |a.p2v| == GPR_NUM
    && (forall p :: 0 <= p < GPR_NUM && a.p2v[p].Some? ==>
          a.p2v[p].value < |a.vregs| && a.vregs[a.p2v[p].value].loc == REG && a.vregs[a.p2v[p].value].p == p)
    && (forall v :: 0 <= v < |a.vregs| && a.vregs[v].loc == REG ==>
          a.vregs[v].p < GPR_NUM && a.vregs[v].p !in GPR_FIXED && a.p2v[a.vregs[v].p] == Some(v))
  }

  ghost predicate GlobalTrack(t: RTrack, g: nat) {
    t.isGlobal && t.ty == I32 && t.spillOffs == StateOffs(g) && t.loc != DEAD && (g == IP_GLOBAL ==> t.loc == MEM)
  }

  predicate Aligned(t: VType, offs: nat) {
    match t
    case I8 => true
    case I16 => offs % 2 == 0
    case I32 => offs % 4 == 0
  }

  ghost predicate LocalTrack(t: RTrack, frameCur: nat) {
    && !t.isGlobal
    && (t.spillOffs != NO_SPILL ==>
          0 <= t.spillOffs && t.spillOffs + Size(t.ty) <= frameCur && Aligned(t.ty, t.spillOffs))
  }

  ghost predicate SlotsDisjoint(t: RTrack, u: RTrack) {
    t.spillOffs != NO_SPILL && u.spillOffs != NO_SPILL ==>
      t.spillOffs + Size(t.ty) <= u.spillOffs || u.spillOffs + Size(u.ty) <= t.spillOffs
  }

  /** Number of locals among the first `n` tracks that own a frame slot. */
  function SlotCount(vregs: seq<RTrack>, n: nat): nat
    requires n <= |vregs|
  {
    if n <= N_GLOBALS then 0
    else SlotCount(vregs, n - 1) + (if vregs[n - 1].spillOffs != NO_SPILL then 1 else 0)
  }

  ghost predicate FrameOk(a: View) {
    && (forall v :: N_GLOBALS <= v < |a.vregs| ==> LocalTrack(a.vregs[v], a.frameCur))
    && (forall v, u :: N_GLOBALS <= v < u < |a.vregs| ==> SlotsDisjoint(a.vregs[v], a.vregs[u]))
    && a.frameCur <= 4 * SlotCount(a.vregs, |a.vregs|)
  }

  ghost predicate LiveTrack(t: RTrack) {
    t.loc != DEAD && (t.loc == MEM || t.spillSynced ==> t.spillOffs != NO_SPILL)
  }

  ghost predicate Valid(a: View) {
    && N_GLOBALS <= |a.vregs| <= MAX_TRACKS
    && Coupled(a)
    && (forall g :: 0 <= g < N_GLOBALS ==> GlobalTrack(a.vregs[g], g))
    && FrameOk(a)
    && (forall v :: v in a.live ==> N_GLOBALS <= v < |a.vregs| && LiveTrack(a.vregs[v]))
  }

  lemma TrackKind(a: View, v: nat)
    requires Valid(a) && v < |a.vregs|
    ensures a.vregs[v].isGlobal <==> v < N_GLOBALS
    ensures v < N_GLOBALS ==> GlobalTrack(a.vregs[v], v)
    ensures v >= N_GLOBALS ==> LocalTrack(a.vregs[v], a.frameCur)
  {
    assert v < N_GLOBALS ==> GlobalTrack(a.vregs[v], v);
    assert v >= N_GLOBALS ==> LocalTrack(a.vregs[v], a.frameCur);
  }

  // ----- coupling with the machines -----

  predicate Covered(a: View, v: nat) {
    v < |a.vregs| && (v < N_GLOBALS || v in a.live)
  }

  /** The value a track's memory home holds. */
  function Home(t: RTrack, ps: PState): W {
    if t.spillOffs < 0 then 0 else PRead(ps, Slot(t.isGlobal, t.ty, t.spillOffs))
  }

  ghost predicate TrackOk(t: RTrack, val: W, ps: PState) {
    && (t.loc == MEM || t.spillSynced ==> Home(t, ps) == val)
    && (t.loc == REG && t.p < GPR_NUM ==> Trunc(t.ty, ps.regs[t.p]) == val)
  }

  ghost predicate Rel(a: View, vs: VState, ps: PState) {
    && Based(ps)
    && vs.mem == ps.mem
    && vs.cpu[0] == ps.cpu[0]
    && vs.cpu[TRAP_WORD] == ps.cpu[TRAP_WORD]
    && (forall v :: v in a.live ==> v in vs.locals)
    && (forall v: nat :: Covered(a, v) ==> TrackOk(a.vregs[v], VGet(vs, v), ps))
  }

  // ----- inserted moves -----

  predicate IsMov(i: Inst) {
    i.op == Mov && Emittable(i)
  }

  function MovExec(code: seq<Inst>, s: PState): PState {
    if code == [] then s else MovExec(code[1..], PStep(code[0], s).s)
  }

  lemma {:induction false} MovExecAppend(a: seq<Inst>, b: seq<Inst>, s: PState)
    ensures MovExec(a + b, s) == MovExec(b, MovExec(a, s))
  {
    if a == [] {
      assert a + b == b;
    } else {
      assert (a + b)[0] == a[0] && (a + b)[1..] == a[1..] + b;
      MovExecAppend(a[1..], b, PStep(a[0], s).s);
    }
  }

  /** Moves fall through silently. */
  lemma {:induction false} MovExecIsPExec(code: seq<Inst>, s: PState)
    requires forall i :: 0 <= i < |code| ==> IsMov(code[i])
    ensures PExec(code, s) == PRun(MovExec(code, s), [], Fall)
  {
    if code != [] {
      assert IsMov(code[0]);
      MovExecIsPExec(code[1..], PStep(code[0], s).s);
    }
  }

  // ----- simulation between two bookkeeping states -----

  ghost predicate Extends(a: View, b: View) {
    && |a.out| <= |b.out| && b.out[..|a.out|] == a.out
    && (forall i :: |a.out| <= i < |b.out| ==> IsMov(b.out[i]))
    && |b.vregs| == |a.vregs|
    && (forall v :: 0 <= v < |a.vregs| ==> b.vregs[v].ty == a.vregs[v].ty)
    && b.live <= a.live
  }

  function Delta(a: View, b: View): seq<Inst> {
    if |a.out| <= |b.out| then b.out[|a.out|..] else []
  }

  ghost predicate KeepsRegs(keep: set<nat>, s: PState, t: PState) {
    forall p :: p in keep && p < GPR_NUM ==> t.regs[p] == s.regs[p]
  }

  /** Going from `a` to `b` only appended moves, and those moves carry every pair of machine
      states coupled by `a` to one coupled by `b`, without touching the registers in `keep`. */
  ghost predicate Sim(a: View, b: View, keep: set<nat>) {
    && Extends(a, b)
    && forall vs, ps :: Rel(a, vs, ps) ==>
         Rel(b, vs, MovExec(Delta(a, b), ps)) && KeepsRegs(keep, ps, MovExec(Delta(a, b), ps))
  }

  lemma SimRefl(a: View, keep: set<nat>)
    ensures Sim(a, a, keep)
  {
    assert Delta(a, a) == [];
  }

  lemma DeltaAppend(a: View, b: View, c: View)
    requires Extends(a, b) && Extends(b, c)
    ensures Extends(a, c) && Delta(a, c) == Delta(a, b) + Delta(b, c)
  {
    assert c.out[..|a.out|] == c.out[..|b.out|][..|a.out|];
    forall i | |a.out| <= i < |c.out| ensures IsMov(c.out[i]) {
      if i < |b.out| {
        assert c.out[i] == c.out[..|b.out|][i] == b.out[i];
      }
    }
    assert c.out == b.out + c.out[|b.out|..];
  }

  lemma SimTrans(a: View, b: View, c: View, keep: set<nat>)
    requires Sim(a, b, keep) && Sim(b, c, keep)
    ensures Sim(a, c, keep)
  {
    DeltaAppend(a, b, c);
    forall vs, ps | Rel(a, vs, ps)
      ensures Rel(c, vs, MovExec(Delta(a, c), ps)) && KeepsRegs(keep, ps, MovExec(Delta(a, c), ps))
    {
      MovExecAppend(Delta(a, b), Delta(b, c), ps);
      assert Rel(b, vs, MovExec(Delta(a, b), ps));
    }
  }

  lemma SimWeaken(a: View, b: View, keep: set<nat>, keep': set<nat>)
    requires Sim(a, b, keep) && keep' <= keep
    ensures Sim(a, b, keep')
  {
    forall vs, ps | Rel(a, vs, ps)
      ensures KeepsRegs(keep', ps, MovExec(Delta(a, b), ps))
    {
      assert KeepsRegs(keep, ps, MovExec(Delta(a, b), ps));
    }
  }

  lemma {:induction false} MovExecOne(ins: Inst, s: PState)
    ensures MovExec([ins], s) == PStep(ins, s).s
  {
    assert [ins][1..] == [];
    assert MovExec([ins][1..], PStep(ins, s).s) == PStep(ins, s).s;
  }

  /** A single appended move establishes `Sim` when it does so for each pair of states. */
  lemma DeltaOne(a: View, b: View, ins: Inst)
    requires b.out == a.out + [ins] && IsMov(ins)
    requires |b.vregs| == |a.vregs| && b.live <= a.live
    requires forall v :: 0 <= v < |a.vregs| ==> b.vregs[v].ty == a.vregs[v].ty
    ensures Extends(a, b) && Delta(a, b) == [ins]
    ensures forall s :: MovExec(Delta(a, b), s) == PStep(ins, s).s
  {
    assert b.out[..|a.out|] == a.out;
    assert Delta(a, b) == [ins];
    forall s ensures MovExec(Delta(a, b), s) == PStep(ins, s).s {
      MovExecOne(ins, s);
    }
  }
}
