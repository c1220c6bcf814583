/** The elementary allocator moves on the bookkeeping value: each keeps the structural invariant
    and simulates. */
module AllocMoves {
  import opened Words
  import opened Qir
  import opened Machine
  import opened SelForm
  import opened AllocView

  /** `roundup(x, VTypeToSize(t))`. */
  function RoundUp(x: nat, t: VType): nat {
    match t
    case I8 => x
    case I16 => (x + 1) / 2 * 2
    case I32 => (x + 3) / 4 * 4
  }

  function HomeSlot(t: RTrack): Operand
    requires t.spillOffs >= 0
  {
    Slot(t.isGlobal, t.ty, t.spillOffs)
  }

  function RegOf(t: RTrack): Operand {
    PReg(t.ty, t.p)
  }

  // ----- the moves -----

  function WithSlot(a: View, v: nat): View
    requires v < |a.vregs|
  {
    var offs := RoundUp(a.frameCur, a.vregs[v].ty);
    a.(vregs := a.vregs[v := a.vregs[v].(spillOffs := offs)], frameCur := offs + Size(a.vregs[v].ty))
  }

  function Spilled(a: View, v: nat): View
    requires v < |a.vregs| && a.vregs[v].spillOffs >= 0
  {
    a.(vregs := a.vregs[v := a.vregs[v].(spillSynced := true)],
       out := a.out + [Inst(Mov, [HomeSlot(a.vregs[v])], [RegOf(a.vregs[v])])])
  }

  function Released(a: View, v: nat): View
    requires v < |a.vregs| && a.vregs[v].p < |a.p2v|
  {
    a.(vregs := a.vregs[v := a.vregs[v].(loc := MEM)], p2v := a.p2v[a.vregs[v].p := None])
  }

  function Filled(a: View, v: nat, p: nat): View
    requires v < |a.vregs| && p < |a.p2v| && a.vregs[v].spillOffs >= 0
  {
    var t := a.vregs[v].(p := p, loc := REG, spillSynced := true);
    a.(vregs := a.vregs[v := t], p2v := a.p2v[p := Some(v)],
       out := a.out + [Inst(Mov, [RegOf(t)], [HomeSlot(t)])])
  }

  function Copied(a: View, ty: VType, p: nat, q: nat): View {
    a.(out := a.out + [Inst(Mov, [PReg(ty, p)], [PReg(ty, q)])])
  }

  /** Write `v` home unless its home is up to date. */
  function Settled(a: View, v: nat): View
    requires v < |a.vregs|
  {
    if a.vregs[v].spillSynced || a.vregs[v].loc != REG then a
    else if a.vregs[v].spillOffs < 0 then Spilled(WithSlot(a, v), v)
    else Spilled(a, v)
  }

  /** Give up the register of `v`, if it has one. */
  function Dropped(a: View, v: nat): View
    requires v < |a.vregs|
  {
    if a.vregs[v].loc == REG && a.vregs[v].p < |a.p2v| then Released(a, v)
    else a.(vregs := a.vregs[v := a.vregs[v].(loc := MEM)])
  }

  function Stowed(a: View, v: nat): View
    requires v < |a.vregs|
  {
    Dropped(Settled(a, v), v)
  }

  /** Empty register `p`. */
  function Vacated(a: View, p: nat): View {
    if p < |a.p2v| && a.p2v[p].Some? && a.p2v[p].value < |a.vregs| then Stowed(a, a.p2v[p].value) else a
  }

  predicate FreeIn(p2v: seq<Option<nat>>, target: RegMask, q: nat) {
    q < |p2v| && p2v[q].None? && q in target
  }

  /** The lowest free register of `target`, or, if none is free, its lowest. */
  ghost predicate Lowest(p2v: seq<Option<nat>>, target: RegMask, p: nat) {
    if exists q :: FreeIn(p2v, target, q) then FreeIn(p2v, target, p) && forall q :: FreeIn(p2v, target, q) ==> p <= q
    else p in target && forall q :: q in target ==> p <= q
  }

  // ----- frame slots -----

  lemma {:induction false} SlotCountUpdate(s: seq<RTrack>, v: nat, t: RTrack, n: nat)
    requires v < |s| && n <= |s| && N_GLOBALS <= v
    ensures SlotCount(s[v := t], n) ==
      SlotCount(s, n) + (if v < n
        then (if t.spillOffs != NO_SPILL then 1 else 0) - (if s[v].spillOffs != NO_SPILL then 1 else 0)
        else 0)
  {
    if n > N_GLOBALS {
      SlotCountUpdate(s, v, t, n - 1);
    }
  }

  lemma {:induction false} SlotCountGlobal(s: seq<RTrack>, v: nat, t: RTrack, n: nat)
    requires v < |s| && n <= |s| && (v < N_GLOBALS || t.spillOffs == s[v].spillOffs)
    ensures SlotCount(s[v := t], n) == SlotCount(s, n)
  {
    if n > N_GLOBALS {
      SlotCountGlobal(s, v, t, n - 1);
    }
  }

  lemma {:induction false} SlotCountBound(s: seq<RTrack>, n: nat)
    requires n <= |s|
    ensures SlotCount(s, n) <= if n <= N_GLOBALS then 0 else n - N_GLOBALS
  {
    if n > N_GLOBALS {
      SlotCountBound(s, n - 1);
    }
  }

  lemma {:induction false} SlotCountMissing(s: seq<RTrack>, v: nat, n: nat)
    requires N_GLOBALS <= v < n <= |s| && s[v].spillOffs == NO_SPILL
    ensures SlotCount(s, n) <= n - N_GLOBALS - 1
  {
    if v == n - 1 {
      SlotCountBound(s, n - 1);
    } else {
      SlotCountMissing(s, v, n - 1);
    }
  }

  lemma RoundUpBounds(x: nat, t: VType, k: nat)
    requires x <= 4 * k
    ensures x <= RoundUp(x, t) <= 4 * k
    ensures Aligned(t, RoundUp(x, t))
  {
    var h, q := (x + 1) / 2, (x + 3) / 4;
    assert x <= 2 * h <= x + 1 && x <= 4 * q <= x + 3;
    assert h <= 2 * k && q <= k;
    assert (2 * h) % 2 == 0 && (4 * q) % 4 == 0;
  }

  /** The least multiple of the size that is not below `x`. */
  lemma RoundUpLeast(x: nat, t: VType)
    ensures Aligned(t, RoundUp(x, t)) && x <= RoundUp(x, t) < x + Size(t)
  {
    var h, q := (x + 1) / 2, (x + 3) / 4;
    assert x <= 2 * h <= x + 1 && x <= 4 * q <= x + 3;
    assert (2 * h) % 2 == 0 && (4 * q) % 4 == 0;
  }

  /** A local without a slot can always get one: it is fresh, aligned and inside the frame. */
  lemma WithSlotOk(a: View, v: nat)
    requires Valid(a) && N_GLOBALS <= v < |a.vregs| && a.vregs[v].spillOffs == NO_SPILL
    ensures RoundUp(a.frameCur, a.vregs[v].ty) + Size(a.vregs[v].ty) <= FRAME_SIZE
    ensures Valid(WithSlot(a, v))
    ensures Extends(a, WithSlot(a, v)) && Sim(a, WithSlot(a, v), GPR_ALL)
  {
    var b := WithSlot(a, v);
    var t := a.vregs[v];
    var k := SlotCount(a.vregs, |a.vregs|);
    SlotCountMissing(a.vregs, v, |a.vregs|);
    RoundUpBounds(a.frameCur, t.ty, k);
    SlotCountUpdate(a.vregs, v, b.vregs[v], |a.vregs|);
    WithSlotValid(a, v);
    assert b.out[..|a.out|] == a.out && Delta(a, b) == [];
    forall vs, ps | Rel(a, vs, ps)
      ensures Rel(b, vs, MovExec(Delta(a, b), ps))
    {
      forall u: nat | Covered(b, u) ensures TrackOk(b.vregs[u], VGet(vs, u), ps) {
        assert Covered(a, u);
        assert TrackOk(a.vregs[u], VGet(vs, u), ps);
        if u == v {
          assert LiveTrack(a.vregs[v]);
        }
      }
    }
  }

  lemma WithSlotValid(a: View, v: nat)
    requires Valid(a) && N_GLOBALS <= v < |a.vregs| && a.vregs[v].spillOffs == NO_SPILL
    requires a.frameCur <= RoundUp(a.frameCur, a.vregs[v].ty) <= 4 * SlotCount(a.vregs, |a.vregs|)
    requires Aligned(a.vregs[v].ty, RoundUp(a.frameCur, a.vregs[v].ty))
    requires SlotCount(WithSlot(a, v).vregs, |a.vregs|) == SlotCount(a.vregs, |a.vregs|) + 1
    ensures Valid(WithSlot(a, v))
  {
    var b := WithSlot(a, v);
    assert Coupled(b);
    assert FrameOk(b) by {
      forall u | N_GLOBALS <= u < |b.vregs| ensures LocalTrack(b.vregs[u], b.frameCur) {
        assert LocalTrack(a.vregs[u], a.frameCur);
      }
      forall u, w | N_GLOBALS <= u < w < |b.vregs| ensures SlotsDisjoint(b.vregs[u], b.vregs[w]) {
        assert SlotsDisjoint(a.vregs[u], a.vregs[w]);
        assert LocalTrack(a.vregs[u], a.frameCur) && LocalTrack(a.vregs[w], a.frameCur);
      }
    }
  }

  /** Moving a value around does not touch the frame layout. */
  lemma FrameKept(a: View, b: View, v: nat)
    requires FrameOk(a) && v < |a.vregs| && b.frameCur == a.frameCur && |b.vregs| == |a.vregs|
    requires b.vregs == a.vregs[v := b.vregs[v]]
    requires b.vregs[v].ty == a.vregs[v].ty && b.vregs[v].isGlobal == a.vregs[v].isGlobal
      && b.vregs[v].spillOffs == a.vregs[v].spillOffs
    ensures FrameOk(b)
  {
    SlotCountGlobal(a.vregs, v, b.vregs[v], |a.vregs|);
    forall u | N_GLOBALS <= u < |b.vregs| ensures LocalTrack(b.vregs[u], b.frameCur) {
      assert LocalTrack(a.vregs[u], a.frameCur);
    }
    forall u, w | N_GLOBALS <= u < w < |b.vregs| ensures SlotsDisjoint(b.vregs[u], b.vregs[w]) {
      assert SlotsDisjoint(a.vregs[u], a.vregs[w]);
    }
  }

  // ----- spilling -----

  lemma SpilledValid(a: View, v: nat)
    requires Valid(a) && v < |a.vregs| && a.vregs[v].loc == REG && a.vregs[v].spillOffs >= 0
    ensures Valid(Spilled(a, v))
  {
    hide FrameOk;
    var b := Spilled(a, v);
    FrameKept(a, b, v);
    assert Coupled(b);
  }

  /** Four bytes per local suffice: 768 for the 192 locals that a region can have. */
  lemma FrameBound(a: View)
    requires Valid(a)
    ensures a.frameCur <= 4 * (|a.vregs| - N_GLOBALS) <= 1024
  {
    SlotCountBound(a.vregs, |a.vregs|);
  }

  /** Storing `v` leaves every other track's home alone. */
  lemma StoreFrames(a: View, v: nat, u: nat, ps: PState, w: W)
    requires Valid(a) && v < |a.vregs| && u < |a.vregs| && u != v && a.vregs[v].spillOffs >= 0
    ensures Home(a.vregs[u], PWrite(ps, HomeSlot(a.vregs[v]), w)) == Home(a.vregs[u], ps)
  {
    FrameBound(a);
    var t, t' := a.vregs[v], a.vregs[u];
    if v < N_GLOBALS {
      assert GlobalTrack(t, v);
      if u < N_GLOBALS {
        assert GlobalTrack(t', u);
      } else {
        assert LocalTrack(t', a.frameCur);
      }
    } else {
      assert LocalTrack(t, a.frameCur);
      if u < N_GLOBALS {
        assert GlobalTrack(t', u);
      } else {
        assert LocalTrack(t', a.frameCur);
        if u < v { assert SlotsDisjoint(t', t); } else { assert SlotsDisjoint(t, t'); }
        if t'.spillOffs != NO_SPILL {
          GetPutDisjoint(ps.frame, t.ty, t.spillOffs, w, t'.ty, t'.spillOffs);
        }
      }
    }
  }

  lemma StoreHome(a: View, v: nat, ps: PState, w: W)
    requires Valid(a) && v < |a.vregs| && a.vregs[v].spillOffs >= 0 && Based(ps)
    ensures var ps' := PWrite(ps, HomeSlot(a.vregs[v]), w);
      && Home(a.vregs[v], ps') == Trunc(a.vregs[v].ty, w)
      && ps'.regs == ps.regs && ps'.mem == ps.mem && ps'.host == ps.host
      && ps'.cpu[0] == ps.cpu[0] && ps'.cpu[TRAP_WORD] == ps.cpu[TRAP_WORD]
  {
    FrameBound(a);
    var t := a.vregs[v];
    if v < N_GLOBALS {
      assert GlobalTrack(t, v);
    } else {
      assert LocalTrack(t, a.frameCur);
      GetPut(ps.frame, t.ty, t.spillOffs, w);
    }
  }

  lemma HomeIsSlot(a: View, v: nat)
    requires Valid(a) && v < |a.vregs| && a.vregs[v].spillOffs >= 0
    ensures PhysSlot(HomeSlot(a.vregs[v]))
  {
    FrameBound(a);
    if v < N_GLOBALS {
      assert GlobalTrack(a.vregs[v], v);
    } else {
      assert LocalTrack(a.vregs[v], a.frameCur);
    }
  }

  lemma SpilledSim(a: View, v: nat)
    requires Valid(a) && v < |a.vregs| && a.vregs[v].loc == REG && a.vregs[v].spillOffs >= 0
    ensures Sim(a, Spilled(a, v), GPR_ALL)
  {
    hide Alu, Plus, Load, Store, Holds;
    var b := Spilled(a, v);
    var t := a.vregs[v];
    var ins := Inst(Mov, [HomeSlot(t)], [RegOf(t)]);
    HomeIsSlot(a, v);
    DeltaOne(a, b, ins);
    forall vs, ps | Rel(a, vs, ps)
      ensures var ps' := MovExec(Delta(a, b), ps); Rel(b, vs, ps') && KeepsRegs(GPR_ALL, ps, ps')
    {
      var w := Trunc(t.ty, ps.regs[t.p]);
      var ps' := PStep(ins, ps).s;
      assert ps' == PWrite(ps, HomeSlot(t), w);
      StoreHome(a, v, ps, w);
      TruncTrunc(t.ty, t.ty, ps.regs[t.p]);
      forall u: nat | Covered(b, u) ensures TrackOk(b.vregs[u], VGet(vs, u), ps') {
        assert Covered(a, u) && TrackOk(a.vregs[u], VGet(vs, u), ps);
        if u != v {
          StoreFrames(a, v, u, ps, w);
        }
      }
    }
  }

  // ----- releasing -----

  lemma ReleasedOk(a: View, v: nat)
    requires Valid(a) && v < |a.vregs| && a.vregs[v].loc == REG
    requires Covered(a, v) ==> a.vregs[v].spillSynced
    ensures Valid(Released(a, v)) && Sim(a, Released(a, v), GPR_ALL)
  {
    hide FrameOk;
    var b := Released(a, v);
    FrameKept(a, b, v);
    assert Coupled(b);
    assert b.out[..|a.out|] == a.out && Delta(a, b) == [];
    forall vs, ps | Rel(a, vs, ps)
      ensures Rel(b, vs, MovExec(Delta(a, b), ps))
    {
      forall u: nat | Covered(b, u) ensures TrackOk(b.vregs[u], VGet(vs, u), ps) {
        assert Covered(a, u) && TrackOk(a.vregs[u], VGet(vs, u), ps);
      }
    }
  }

  /** Tracks that own no register may be declared to be in memory, if nothing depends on it. */
  lemma ParkedOk(a: View, v: nat)
    requires Valid(a) && v < |a.vregs| && a.vregs[v].loc != REG && (Covered(a, v) ==> a.vregs[v].loc == MEM)
    ensures var b := a.(vregs := a.vregs[v := a.vregs[v].(loc := MEM)]);
      Valid(b) && Sim(a, b, GPR_ALL)
  {
    hide FrameOk;
    var b := a.(vregs := a.vregs[v := a.vregs[v].(loc := MEM)]);
    FrameKept(a, b, v);
    assert Coupled(b);
    assert b.out[..|a.out|] == a.out && Delta(a, b) == [];
    forall vs, ps | Rel(a, vs, ps)
      ensures Rel(b, vs, MovExec(Delta(a, b), ps))
    {
      forall u: nat | Covered(b, u) ensures TrackOk(b.vregs[u], VGet(vs, u), ps) {
        assert Covered(a, u) && TrackOk(a.vregs[u], VGet(vs, u), ps);
      }
    }
  }

  /** Locals are not carried across a block boundary. */
  lemma ForgetOk(a: View)
    requires Valid(a)
    ensures Valid(a.(live := {})) && Sim(a, a.(live := {}), GPR_ALL)
  {
    var b := a.(live := {});
    assert Coupled(b) && FrameOk(b);
    assert b.out[..|a.out|] == a.out && Delta(a, b) == [];
    forall vs, ps | Rel(a, vs, ps)
      ensures Rel(b, vs, MovExec(Delta(a, b), ps))
    {
      forall u: nat | Covered(b, u) ensures TrackOk(b.vregs[u], VGet(vs, u), ps) {
        assert Covered(a, u);
      }
    }
  }

  // ----- filling -----

  predicate Free(a: View, p: nat) {
    p < |a.p2v| && p < GPR_NUM && a.p2v[p].None? && p !in GPR_FIXED
  }

  lemma FilledValid(a: View, v: nat, p: nat)
    requires Valid(a) && Covered(a, v) && v != IP_GLOBAL && a.vregs[v].loc == MEM && Free(a, p)
    ensures a.vregs[v].spillOffs >= 0
    ensures Valid(Filled(a, v, p))
  {
    assert v < N_GLOBALS ==> GlobalTrack(a.vregs[v], v);
    assert v >= N_GLOBALS ==> LiveTrack(a.vregs[v]) && LocalTrack(a.vregs[v], a.frameCur);
    var b := Filled(a, v, p);
    FrameKept(a, b, v);
    assert Coupled(b);
  }

  /** A register no track uses may be overwritten. */
  lemma FreeWrite(a: View, u: nat, p: nat, ty: VType, ps: PState, val: W, w: W)
    requires Valid(a) && u < |a.vregs| && Free(a, p) && TrackOk(a.vregs[u], val, ps)
    ensures TrackOk(a.vregs[u], val, PWrite(ps, PReg(ty, p), w))
  {
    var ps' := PWrite(ps, PReg(ty, p), w);
    FreeSpares(a, u, p);
    HomeKept(a.vregs[u], ps, ty, p, w);
    hide Merge, Home, Valid, Free, GetFrame;
  }

  lemma FreeSpares(a: View, u: nat, p: nat)
    requires Valid(a) && u < |a.vregs| && Free(a, p)
    ensures p < GPR_NUM && !IsBase(PReg(I32, p)) && (a.vregs[u].loc == REG ==> a.vregs[u].p != p)
  {
  }

  /** Values of registers that are not base registers do not matter to what memory holds. */
  lemma HomeKept(t: RTrack, ps: PState, ty: VType, p: nat, w: W)
    requires !IsBase(PReg(I32, p))
    ensures Home(t, PWrite(ps, PReg(ty, p), w)) == Home(t, ps)
  {
    hide Merge, GetFrame;
  }

  lemma HomeTrunc(a: View, v: nat, ps: PState)
    requires Valid(a) && v < |a.vregs| && a.vregs[v].spillOffs >= 0 && Based(ps)
    ensures Trunc(a.vregs[v].ty, Home(a.vregs[v], ps)) == Home(a.vregs[v], ps)
  {
    FrameBound(a);
    var t := a.vregs[v];
    if v < N_GLOBALS {
      assert GlobalTrack(t, v);
    } else {
      assert LocalTrack(t, a.frameCur);
      GetTrunc(ps.frame, t.ty, t.spillOffs);
    }
  }

  /** The home is copied into the register. */
  lemma FilledTrack(t: RTrack, p: nat, val: W, ps: PState)
    requires t.loc == MEM && TrackOk(t, val, ps) && p < GPR_NUM && !IsBase(PReg(I32, p))
    requires Trunc(t.ty, Home(t, ps)) == Home(t, ps)
    ensures TrackOk(t.(p := p, loc := REG, spillSynced := true), val, PWrite(ps, PReg(t.ty, p), Home(t, ps)))
  {
    var t' := t.(p := p, loc := REG, spillSynced := true);
    HomeKept(t', ps, t.ty, p, Home(t, ps));
    TruncMerge(t.ty, ps.regs[p], Home(t, ps));
    hide Merge, Trunc, GetFrame, IsBase;
  }

  lemma FilledRel(a: View, v: nat, p: nat, vs: VState, ps: PState)
    requires Valid(a) && Covered(a, v) && v != IP_GLOBAL && a.vregs[v].loc == MEM && Free(a, p)
    requires a.vregs[v].spillOffs >= 0 && Rel(a, vs, ps)
    ensures Rel(Filled(a, v, p), vs, PWrite(ps, PReg(a.vregs[v].ty, p), Home(a.vregs[v], ps)))
  {
    var b := Filled(a, v, p);
    var t, w := b.vregs[v], Home(a.vregs[v], ps);
    var ps' := PWrite(ps, PReg(t.ty, p), w);
    HomeTrunc(a, v, ps);
    forall u: nat | Covered(b, u) ensures TrackOk(b.vregs[u], VGet(vs, u), ps') {
      assert Covered(a, u) && TrackOk(a.vregs[u], VGet(vs, u), ps);
      if u == v {
        FreeSpares(a, v, p);
        FilledTrack(a.vregs[v], p, VGet(vs, v), ps);
      } else {
        FreeWrite(a, u, p, t.ty, ps, VGet(vs, u), w);
      }
    }
  }

  lemma FilledSim(a: View, v: nat, p: nat)
    requires Valid(a) && Covered(a, v) && v != IP_GLOBAL && a.vregs[v].loc == MEM && Free(a, p)
    requires a.vregs[v].spillOffs >= 0
    ensures Sim(a, Filled(a, v, p), GPR_ALL - {p})
  {
    hide Alu, Plus, Load, Store, Holds, Rel, Valid;
    var b := Filled(a, v, p);
    var t := b.vregs[v];
    var ins := Inst(Mov, [RegOf(t)], [HomeSlot(t)]);
    HomeIsSlot(a, v);
    DeltaOne(a, b, ins);
    forall vs, ps | Rel(a, vs, ps)
      ensures var ps' := MovExec(Delta(a, b), ps); Rel(b, vs, ps') && KeepsRegs(GPR_ALL - {p}, ps, ps')
    {
      FilledRel(a, v, p, vs, ps);
      assert PStep(ins, ps).s == PWrite(ps, PReg(t.ty, p), Home(a.vregs[v], ps));
    }
  }

  // ----- copying into a free register -----

  lemma CopyStep(ty: VType, p: nat, q: nat, s: PState)
    requires p < GPR_NUM && q < GPR_NUM
    ensures PStep(Inst(Mov, [PReg(ty, p)], [PReg(ty, q)]), s).s == PWrite(s, PReg(ty, p), Trunc(ty, s.regs[q]))
    ensures PWrite(s, PReg(ty, p), Trunc(ty, s.regs[q])).regs[p] == Merge(ty, s.regs[p], Trunc(ty, s.regs[q]))
  {
    hide Trunc, Merge;
  }

  lemma CopiedTrunc(ty: VType, p: nat, q: nat, s: PState)
    requires p < GPR_NUM && q < GPR_NUM
    ensures Trunc(ty, PStep(Inst(Mov, [PReg(ty, p)], [PReg(ty, q)]), s).s.regs[p]) == Trunc(ty, s.regs[q])
  {
    hide Trunc, Merge, PStep, PWrite;
    CopyStep(ty, p, q, s);
    TruncMerge(ty, s.regs[p], Trunc(ty, s.regs[q]));
    TruncTrunc(ty, ty, s.regs[q]);
  }

  lemma CopiedRel(a: View, ty: VType, p: nat, q: nat, vs: VState, ps: PState)
    requires Valid(a) && Free(a, p) && q < GPR_NUM && Rel(a, vs, ps)
    ensures var ps' := PStep(Inst(Mov, [PReg(ty, p)], [PReg(ty, q)]), ps).s;
      Rel(Copied(a, ty, p, q), vs, ps') && KeepsRegs(GPR_ALL - {p}, ps, ps')
  {
    hide Trunc, Merge, PStep, Valid, TrackOk;
    CopyStep(ty, p, q, ps);
    var b, w := Copied(a, ty, p, q), Trunc(ty, ps.regs[q]);
    forall u: nat | Covered(b, u) ensures TrackOk(b.vregs[u], VGet(vs, u), PWrite(ps, PReg(ty, p), w)) {
      assert Covered(a, u) && TrackOk(a.vregs[u], VGet(vs, u), ps);
      FreeWrite(a, u, p, ty, ps, VGet(vs, u), w);
    }
  }

  lemma CopiedOk(a: View, ty: VType, p: nat, q: nat)
    requires Valid(a) && Free(a, p) && q < GPR_NUM && q !in GPR_FIXED
    ensures Valid(Copied(a, ty, p, q)) && Sim(a, Copied(a, ty, p, q), GPR_ALL - {p})
    ensures Delta(a, Copied(a, ty, p, q)) == [Inst(Mov, [PReg(ty, p)], [PReg(ty, q)])]
    ensures forall ps :: Trunc(ty, MovExec(Delta(a, Copied(a, ty, p, q)), ps).regs[p]) == Trunc(ty, ps.regs[q])
  {
    hide Trunc, Merge, PStep, Rel, KeepsRegs;
    var b := Copied(a, ty, p, q);
    var ins := Inst(Mov, [PReg(ty, p)], [PReg(ty, q)]);
    DeltaOne(a, b, ins);
    assert Coupled(b) && FrameOk(b);
    forall ps ensures Trunc(ty, MovExec(Delta(a, b), ps).regs[p]) == Trunc(ty, ps.regs[q]) {
      CopiedTrunc(ty, p, q, ps);
    }
    forall vs, ps | Rel(a, vs, ps)
      ensures var ps' := MovExec(Delta(a, b), ps); Rel(b, vs, ps') && KeepsRegs(GPR_ALL - {p}, ps, ps')
    {
      CopiedRel(a, ty, p, q, vs, ps);
    }
  }
}
