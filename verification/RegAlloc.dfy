/** The local register allocator. The class follows the pass statement by statement; every method
    promises the structural invariant and a simulation over all machine states. */
module RegAlloc {
  import opened Words
  import opened Qir
  import opened Machine
  import opened SelForm
  import opened AllocView
  import opened AllocMoves
  import opened AllocSteps

  /** `p` was emptied and nothing else moved: at most its former occupant went to memory. */
  ghost predicate Evicts(a: View, b: View, p: nat) {
    && |b.vregs| == |a.vregs| && |a.p2v| == |b.p2v| == GPR_NUM && p < GPR_NUM
    && (forall q :: 0 <= q < GPR_NUM && q != p ==> b.p2v[q] == a.p2v[q])
    && (forall v :: 0 <= v < |a.vregs| && a.p2v[p] != Some(v) ==> b.vregs[v] == a.vregs[v])
    && (forall v :: 0 <= v < |a.vregs| && a.p2v[p] == Some(v) ==> b.vregs[v].loc == MEM)
  }

  /** Registers in `avoid` keep their occupants. */
  ghost predicate KeepsOwners(a: View, b: View, avoid: set<nat>) {
    |a.p2v| == |b.p2v| == GPR_NUM && forall q :: q in avoid && 0 <= q < GPR_NUM ==> b.p2v[q] == a.p2v[q]
  }

  /** Inputs already placed occupy at most `used`, so some caller-saved register is left. */
  lemma SomeRegisterLeft(avoid: set<nat>, used: seq<nat>)
    requires |used| <= 2 && forall q :: q in avoid ==> q in GPR_FIXED || q in used
    ensures exists p :: p in GPR_ALL && p !in avoid
  {
    if RAX in avoid && RCX in avoid {
      assert RAX in used && RCX in used;
      assert RDX !in used by {
        if RDX in used {
          assert exists i, j, k ::
            0 <= i < 2 && 0 <= j < 2 && 0 <= k < 2 && used[i] == RAX && used[j] == RCX && used[k] == RDX;
        }
      }
      assert RDX in GPR_ALL && RDX !in avoid;
    } else if RAX in avoid {
      assert RCX in GPR_ALL && RCX !in avoid;
    } else {
      assert RAX in GPR_ALL && RAX !in avoid;
    }
  }

  newtype u8 = x: int | 0 <= x < 256

  class QRegAlloc {
    var vregs: seq<RTrack>
    var p2v: seq<Option<nat>>
    var frameCur: nat
    var out: seq<Inst>
    ghost var live: set<nat>

    ghost function Now(): View
      reads this
    {
      View(vregs, p2v, frameCur, out, live)
    }

    /** One track per global, then one per local; the prologue puts globals in memory. */
    constructor (locals: seq<VType>)
      requires N_GLOBALS + |locals| <= MAX_TRACKS
      ensures Valid(Now()) && AllInMemory(Now()) && out == [] && live == {}
      ensures |vregs| == N_GLOBALS + |locals|
      ensures forall v :: 0 <= v < |vregs| ==> vregs[v].ty == TypeOf(locals, v)
    {
      vregs := seq(N_GLOBALS + |locals|, v requires 0 <= v < N_GLOBALS + |locals| =>
        if v < N_GLOBALS then RTrack(I32, true, StateOffs(v), 0, MEM, false)
        else RTrack(locals[v - N_GLOBALS], false, NO_SPILL, 0, DEAD, false));
      p2v := seq(GPR_NUM, _ => None);
      frameCur := 0;
      out := [];
      live := {};
    }

    method AllocFrameSlot(v: nat)
      requires Valid(Now()) && N_GLOBALS <= v < |vregs| && vregs[v].spillOffs == NO_SPILL
      modifies this`vregs, this`frameCur
      ensures Now() == WithSlot(old(Now()), v)
      ensures Valid(Now()) && Sim(old(Now()), Now(), GPR_ALL)
      ensures vregs[v].spillOffs >= 0 && vregs[v].spillOffs + Size(vregs[v].ty) <= 1024
      ensures Aligned(vregs[v].ty, vregs[v].spillOffs)
      ensures old(frameCur) <= vregs[v].spillOffs < old(frameCur) + Size(vregs[v].ty)
    {
      hide Sim;
      WithSlotOk(Now(), v);
      RoundUpLeast(frameCur, vregs[v].ty);
      var slotOffs := RoundUp(frameCur, vregs[v].ty);
      frameCur := slotOffs + Size(vregs[v].ty);
      vregs := vregs[v := vregs[v].(spillOffs := slotOffs)];
    }

    method SyncSpill(v: nat)
      requires Valid(Now()) && v < |vregs| && (vregs[v].spillSynced || vregs[v].loc != DEAD)
      modifies this`vregs, this`frameCur, this`out
      ensures Valid(Now()) && Sim(old(Now()), Now(), GPR_ALL)
      ensures |vregs| == old(|vregs|) && forall u :: 0 <= u < |vregs| && u != v ==> vregs[u] == old(vregs[u])
      ensures vregs[v].loc == old(vregs[v].loc) && vregs[v].p == old(vregs[v].p)
      ensures vregs[v].loc == REG ==> vregs[v].spillSynced
      ensures old(vregs[v].spillSynced) ==> vregs[v].spillSynced
      ensures Now() == Settled(old(Now()), v)
    {
      hide Sim;
      ghost var a := Now();
      SimRefl(a, GPR_ALL);
      if vregs[v].spillSynced {
        return;
      }
      if vregs[v].loc == REG {
        assert v < N_GLOBALS ==> GlobalTrack(vregs[v], v);
        assert v >= N_GLOBALS ==> LocalTrack(vregs[v], frameCur);
        if !vregs[v].isGlobal && vregs[v].spillOffs == NO_SPILL {
          AllocFrameSlot(v);
        }
        ghost var b := Now();
        SpilledValid(b, v);
        SpilledSim(b, v);
        var t := vregs[v];
        out := out + [Inst(Mov, [HomeSlot(t)], [RegOf(t)])];
        vregs := vregs[v := t.(spillSynced := true)];
        assert Now() == Spilled(b, v);
        SimTrans(a, b, Now(), GPR_ALL);
      }
    }

    /** `Release<false>`: the register is given up; the value must already be safe in memory. */
    method Release(v: nat)
      requires Valid(Now()) && v < |vregs|
      requires Covered(Now(), v) ==> vregs[v].loc == MEM || (vregs[v].loc == REG && vregs[v].spillSynced)
      modifies this`vregs, this`p2v
      ensures Valid(Now()) && Sim(old(Now()), Now(), GPR_ALL)
      ensures |vregs| == old(|vregs|) && forall u :: 0 <= u < |vregs| && u != v ==> vregs[u] == old(vregs[u])
      ensures vregs[v].loc == MEM
      ensures p2v == if old(vregs[v].loc) == REG then old(p2v)[old(vregs[v].p) := None] else old(p2v)
      ensures Now() == Dropped(old(Now()), v)
    {
      hide Sim;
      ghost var a := Now();
      if vregs[v].loc == REG {
        ReleasedOk(a, v);
        p2v := p2v[vregs[v].p := None];
        vregs := vregs[v := vregs[v].(loc := MEM)];
        assert Now() == Released(a, v);
      } else {
        ParkedOk(a, v);
        vregs := vregs[v := vregs[v].(loc := MEM)];
      }
    }

    method Spill(v: nat)
      requires Valid(Now()) && v < |vregs| && vregs[v].loc != DEAD
      modifies this`vregs, this`p2v, this`frameCur, this`out
      ensures Valid(Now()) && Sim(old(Now()), Now(), GPR_ALL)
      ensures |vregs| == old(|vregs|) && forall u :: 0 <= u < |vregs| && u != v ==> vregs[u] == old(vregs[u])
      ensures vregs[v].loc == MEM
      ensures p2v == if old(vregs[v].loc) == REG then old(p2v)[old(vregs[v].p) := None] else old(p2v)
      ensures Now() == Stowed(old(Now()), v)
    {
      hide Sim;
      ghost var a := Now();
      SyncSpill(v);
      ghost var b := Now();
      Release(v);
      SimTrans(a, b, Now(), GPR_ALL);
    }

    method SpillReg(p: nat)
      requires Valid(Now()) && p < GPR_NUM
      modifies this`vregs, this`p2v, this`frameCur, this`out
      ensures Valid(Now()) && Sim(old(Now()), Now(), GPR_ALL)
      ensures p2v[p].None? && Evicts(old(Now()), Now(), p) && Now() == Vacated(old(Now()), p)
    {
      hide Sim;
      SimRefl(Now(), GPR_ALL);
      if p2v[p].None? {
        return;
      }
      Spill(p2v[p].value);
    }

    /** A free admissible register if there is one, otherwise the first admissible one, emptied.
        It never runs out. */
    method AllocPReg(desire: RegMask, avoid: RegMask) returns (p: nat)
      requires Valid(Now()) && GPR_FIXED <= avoid
      requires exists t :: t in GPR_ALL && t in desire && t !in avoid
      modifies this`vregs, this`p2v, this`frameCur, this`out
      ensures Valid(Now()) && Sim(old(Now()), Now(), GPR_ALL)
      ensures p in desire && p !in avoid && Free(Now(), p) && Evicts(old(Now()), Now(), p)
      ensures Lowest(old(p2v), desire - avoid, p) && Now() == Vacated(old(Now()), p)
      ensures (exists q :: FreeIn(old(p2v), desire - avoid, q)) ==> Now() == old(Now())
    {
      hide Sim;
      SimRefl(Now(), GPR_ALL);
      var target := desire - avoid;
      p := 0;
      while p < GPR_NUM
        invariant p <= GPR_NUM && forall q :: 0 <= q < p ==> !FreeIn(p2v, target, q)
      {
        if p2v[p].None? && p in target {
          assert FreeIn(p2v, target, p);
          return;
        }
        p := p + 1;
      }
      ghost var t :| t in GPR_ALL && t in desire && t !in avoid;
      p := 0;
      while p !in target
        invariant p <= t && forall q :: 0 <= q < p ==> q !in target
        decreases t - p
      {
        p := p + 1;
      }
      SpillReg(p);
    }

    method Fill(v: nat, desire: RegMask, avoid: RegMask)
      requires Valid(Now()) && Covered(Now(), v) && v != IP_GLOBAL && GPR_FIXED <= avoid
      requires exists t :: t in GPR_ALL && t in desire && t !in avoid
      modifies this`vregs, this`p2v, this`frameCur, this`out
      ensures Valid(Now()) && Sim(old(Now()), Now(), avoid) && KeepsOwners(old(Now()), Now(), avoid)
      ensures Covered(Now(), v) && vregs[v].loc == REG
      ensures old(vregs[v].loc) == REG ==> Now() == old(Now())
      ensures old(vregs[v].loc) != REG ==> vregs[v].p in desire && vregs[v].p !in avoid
      ensures old(vregs[v].loc) != REG ==>
        Lowest(old(p2v), desire - avoid, vregs[v].p) && Now() == Filled(Vacated(old(Now()), vregs[v].p), v, vregs[v].p)
    {
      hide Sim, Lowest, FreeIn, Vacated, FrameOk, LocalTrack;
      ghost var a := Now();
      assert v < N_GLOBALS ==> GlobalTrack(vregs[v], v);
      if vregs[v].loc == REG {
        SimRefl(a, avoid);
        return;
      }
      var p := AllocPReg(desire, avoid);
      ghost var b := Now();
      SimWeaken(a, b, GPR_ALL, avoid * GPR_ALL);
      assert Covered(b, v) && vregs[v].loc == MEM;
      FilledValid(b, v, p);
      FilledSim(b, v, p);
      var t := vregs[v].(p := p, loc := REG, spillSynced := true);
      p2v := p2v[p := Some(v)];
      vregs := vregs[v := t];
      out := out + [Inst(Mov, [RegOf(t)], [HomeSlot(t)])];
      assert Now() == Filled(b, v, p);
      SimWeaken(b, Now(), GPR_ALL - {p}, avoid * GPR_ALL);
      SimTrans(a, b, Now(), avoid * GPR_ALL);
      SimRange(a, Now(), avoid);
    }

    /** One register input: brought into an admissible register, copied if it sits elsewhere. */
    method AllocInput(o: Operand, ct: OpCt, avoid: RegMask) returns (o': Operand)
      requires Valid(Now()) && GPR_FIXED <= avoid && o.VReg? && o.r != IP_GLOBAL && Covered(Now(), o.r)
      requires Size(o.ty) <= Size(vregs[o.r].ty)
      requires exists t :: t in GPR_ALL && t in ct.cr && t !in avoid
      modifies this`vregs, this`p2v, this`frameCur, this`out
      ensures Valid(Now()) && Sim(old(Now()), Now(), avoid) && KeepsOwners(old(Now()), Now(), avoid)
      ensures o'.PReg? && o'.ty == o.ty && PhysReg(o') && o'.p in ct.cr
      ensures ReadsAs(old(Now()), Now(), o, o')
      ensures ct.cr == GPR_ALL ==> p2v[o'.p] == Some(o.r)
    {
      hide Sim, ReadsAs, Lowest, FreeIn, Vacated, FrameOk, LiveTrack, LocalTrack, GlobalTrack;
      ghost var a := Now();
      Fill(o.r, ct.cr, avoid);
      ghost var b := Now();
      var src := vregs[o.r];
      var p := src.p;
      SimExtends(a, b, avoid);
      ReadsAsTracked(b, o.r, src.ty);
      ReadsAsTracked(b, o.r, o.ty);
      SimRefl(b, {});
      SimWeaken(a, b, avoid, {});
      if p !in ct.cr {
        assert a == b;
        p := AllocPReg(ct.cr, avoid);
        ghost var c := Now();
        assert p != src.p;
        CopiedOk(c, src.ty, p, src.p);
        out := out + [Inst(Mov, [PReg(src.ty, p)], [PReg(src.ty, src.p)])];
        assert Now() == Copied(c, src.ty, p, src.p);
        CopyReads(b, c, o, src.ty, p, src.p);
        SimWeaken(b, c, GPR_ALL, avoid * GPR_ALL);
        SimWeaken(c, Now(), GPR_ALL - {p}, avoid * GPR_ALL);
        SimTrans(b, c, Now(), avoid * GPR_ALL);
        SimRange(b, Now(), avoid);
      } else {
        ReadsAsLater(a, b, b, o, PReg(o.ty, p));
      }
      o' := PReg(o.ty, p);
    }

    method SyncGlobals()
      requires Valid(Now())
      modifies this`vregs, this`frameCur, this`out
      ensures Valid(Now()) && Sim(old(Now()), Now(), GPR_ALL) && AllSynced(Now())
    {
      hide Sim, Stowed, Vacated, Settled, Dropped;
      ghost var a := Now();
      SimRefl(a, GPR_ALL);
      var i := 0;
      while i < |vregs|
        invariant i <= |vregs| && |vregs| == old(|vregs|)
        invariant Valid(Now()) && Sim(a, Now(), GPR_ALL) && p2v == old(p2v)
        invariant forall g :: 0 <= g < i && g < N_GLOBALS ==> vregs[g].loc == MEM || vregs[g].spillSynced
        decreases |vregs| - i
      {
        ghost var b := Now();
        TrackKind(b, i);
        if vregs[i].isGlobal {
          SyncSpill(i);
          SimTrans(a, b, Now(), GPR_ALL);
        }
        i := i + 1;
      }
    }

    // ----- boundaries and calls -----

    /** Every global goes home; locals stay where they are and are forgotten. */
    method BlockBoundary()
      requires Valid(Now())
      modifies this
      ensures Valid(Now()) && Sim(old(Now()), Now(), GPR_ALL) && AllInMemory(Now()) && live == {}
      ensures |vregs| == old(|vregs|) && forall v :: N_GLOBALS <= v < |vregs| ==> vregs[v] == old(vregs[v])
    {
      hide Sim, Stowed, Vacated, Settled, Dropped;
      ghost var a := Now();
      ForgetOk(a);
      live := {};
      var i := 0;
      while i < |vregs|
        invariant i <= |vregs| && |vregs| == old(|vregs|)
        invariant forall v :: N_GLOBALS <= v < |vregs| ==> vregs[v] == old(vregs[v])
        invariant Valid(Now()) && Sim(a, Now(), GPR_ALL) && live == {}
        invariant forall g :: 0 <= g < i && g < N_GLOBALS ==> vregs[g].loc == MEM
        decreases |vregs| - i
      {
        ghost var b := Now();
        TrackKind(b, i);
        if vregs[i].isGlobal {
          Spill(i);
          SimTrans(a, b, Now(), GPR_ALL);
        }
        i := i + 1;
      }
    }

    /** Every global goes home and every local gives up its register. */
    method RegionBoundary()
      requires Valid(Now())
      modifies this
      ensures Valid(Now()) && Sim(old(Now()), Now(), GPR_ALL) && AllInMemory(Now()) && live == {}
      ensures forall p :: 0 <= p < GPR_NUM ==> p2v[p].None?
    {
      hide Sim, Stowed, Vacated, Settled, Dropped;
      ghost var a := Now();
      ForgetOk(a);
      live := {};
      var i := 0;
      while i < |vregs|
        invariant i <= |vregs| && |vregs| == old(|vregs|)
        invariant Valid(Now()) && Sim(a, Now(), GPR_ALL) && live == {}
        invariant forall v :: 0 <= v < i ==> vregs[v].loc == MEM
        decreases |vregs| - i
      {
        ghost var b := Now();
        TrackKind(b, i);
        if vregs[i].isGlobal {
          Spill(i);
        } else {
          Release(i);
        }
        SimTrans(a, b, Now(), GPR_ALL);
        i := i + 1;
      }
    }

    method SpillClobbered()
      requires Valid(Now())
      modifies this`vregs, this`p2v, this`frameCur, this`out
      ensures Valid(Now()) && Sim(old(Now()), Now(), GPR_ALL)
      ensures |vregs| == old(|vregs|) && forall q :: 0 <= q < GPR_NUM && q in GPR_CALL_CLOBBER ==> p2v[q].None?
    {
      hide Sim, Stowed, Vacated, Settled, Dropped;
      ghost var a := Now();
      SimRefl(a, GPR_ALL);
      var p := 0;
      while p < GPR_NUM
        invariant p <= GPR_NUM && |vregs| == old(|vregs|)
        invariant Valid(Now()) && Sim(a, Now(), GPR_ALL)
        invariant forall q :: 0 <= q < p && q in GPR_CALL_CLOBBER ==> p2v[q].None?
      {
        if p in GPR_CALL_CLOBBER {
          ghost var b := Now();
          SpillReg(p);
          SimTrans(a, b, Now(), GPR_ALL);
        }
        p := p + 1;
      }
    }

    /** Around a helper call: clobbered registers are emptied and the CPU state is complete. The
        second loop counts in eight bits. */
    method CallOp()
      requires Valid(Now()) && |vregs| <= MAX_CALL_TRACKS
      modifies this`vregs, this`p2v, this`frameCur, this`out
      ensures Valid(Now()) && Sim(old(Now()), Now(), GPR_ALL) && CallSafe(Now())
    {
      hide Sim, FrameOk, LiveTrack, LocalTrack, Aligned, Stowed;
      ghost var a := Now();
      SpillClobbered();
      ghost var p2v0 := p2v;
      var i: u8 := 0;
      while i as int < |vregs|
        invariant i as int <= |vregs| == old(|vregs|)
        invariant Valid(Now()) && Sim(a, Now(), GPR_ALL)
        invariant forall q :: 0 <= q < GPR_NUM && p2v0[q].None? ==> p2v[q].None?
        invariant forall g :: 0 <= g < i as int && g < N_GLOBALS ==> vregs[g].loc == MEM
        decreases |vregs| - i as int
      {
        ghost var b := Now();
        var v: nat := i as int;
        TrackKind(b, v);
        if vregs[v].isGlobal {
          Spill(v);
          SimTrans(a, b, Now(), GPR_ALL);
        }
        i := i + 1;
      }
    }

    // ----- one operation -----

    /** Place input `i`, given that the inputs in `done` are placed already. */
    method PlaceInput(ghost a: View, ins: Inst, i: nat, srcl: seq<Operand>, avoid: RegMask,
        ghost done: set<nat>) returns (o': Operand)
      requires Valid(Now()) && Sim(a, Now(), {}) && GPR_FIXED <= avoid && i < |ins.ins| == |srcl| && i !in done
      requires srcl[i] == ins.ins[i] && Available(Now(), srcl[i])
      requires InCt(ins.op, i).alias ==> InCt(ins.op, i).cr == GPR_ALL
      requires exists t :: t in GPR_ALL && t in InCt(ins.op, i).cr && t !in avoid
      requires forall j :: j in done ==> Placed(a, Now(), ins, srcl, j, avoid)
      modifies this`vregs, this`p2v, this`frameCur, this`out
      ensures Valid(Now()) && Sim(a, Now(), {}) && Extends(old(Now()), Now()) && (o'.PReg? || o' == srcl[i])
      ensures forall j :: j in done || j == i ==> Placed(a, Now(), ins, srcl[i := o'], j, WithReg(avoid, o'))
    {
      hide Sim;
      ghost var b := Now();
      if srcl[i].Const? {
        o' := srcl[i];
        ReadsAsConst(a, b, o');
        SimRefl(b, {});
        assert srcl[i := o'] == srcl;
        return;
      }
      o' := AllocInput(ins.ins[i], InCt(ins.op, i), avoid);
      ghost var c := Now();
      SimWeaken(b, c, avoid, {});
      SimTrans(a, b, c, {});
      ReadsAsLater(a, b, c, ins.ins[i], o');
      forall j | j in done ensures Placed(a, c, ins, srcl[i := o'], j, WithReg(avoid, o')) {
        PlacedKept(a, b, c, ins, srcl, j, avoid);
      }
      assert Placed(a, c, ins, srcl[i := o'], i, WithReg(avoid, o'));
    }

    /** Place the inputs, most constrained first. */
    method AllocInputs(ins: Inst, ghost locals: seq<VType>) returns (srcl: seq<Operand>, avoid: RegMask,
        ghost used: seq<nat>)
      requires Valid(Now()) && Typed(Now(), locals) && Selected(ins, locals, live) && !ins.op.Hcall?
      modifies this`vregs, this`p2v, this`frameCur, this`out
      ensures Valid(Now()) && Typed(Now(), locals) && Sim(old(Now()), Now(), {})
      ensures |srcl| == |ins.ins| && forall i :: 0 <= i < |ins.ins| ==> Placed(old(Now()), Now(), ins, srcl, i, avoid)
      ensures GPR_FIXED <= avoid && |used| <= 2 && forall q :: q in avoid ==> q in GPR_FIXED || q in used
    {
      hide Sim, Placed, Valid;
      ghost var a := Now();
      SimRefl(a, {});
      avoid, srcl, used := GPR_FIXED, ins.ins, [];
      var order := InOrder(ins.op);
      ghost var done: set<nat> := {};
      var k := 0;
      while k < |order|
        invariant k <= |order|
        invariant Valid(Now()) && Typed(Now(), locals) && Sim(a, Now(), {})
        invariant |srcl| == |ins.ins| && GPR_FIXED <= avoid
        invariant |used| <= k && forall q :: q in avoid ==> q in GPR_FIXED || q in used
        invariant forall j :: 0 <= j < k ==> order[j] in done
        invariant forall j :: k <= j < |order| ==> order[j] !in done && srcl[order[j]] == ins.ins[order[j]]
        invariant forall i :: i in done ==> Placed(a, Now(), ins, srcl, i, avoid)
      {
        var i := order[k];
        ghost var b := Now();
        InputFacts(ins, i, locals, live);
        InputAvailable(b, ins.ins[i], locals);
        ChoiceExists(ins.op, k, avoid, used);
        var o' := PlaceInput(a, ins, i, srcl, avoid, done);
        TypedKept(b, Now(), locals);
        avoid := WithReg(avoid, o');
        srcl := srcl[i := o'];
        used := if o'.PReg? then used + [o'.p] else used;
        done := done + {i};
        k := k + 1;
      }
      forall i: nat | i < |ins.ins| ensures i in done {
        assert i in order;
      }
    }

    /** Choose the register of the result, and record that it will hold a new value there. */
    method AllocOutput(ghost a: View, ghost b: View, ins: Inst, srcl: seq<Operand>, avoid: RegMask,
        ghost used: seq<nat>, ghost locals: seq<VType>)
      returns (dstl: seq<Operand>, ghost m: View)
      requires Valid(Now()) && Typed(Now(), locals) && Selected(ins, locals, live) && !ins.op.Hcall?
      requires GPR_FIXED <= avoid && |used| <= 2 && forall q :: q in avoid ==> q in GPR_FIXED || q in used
      requires ins.op.Bin? ==> Now() == b && Placed(a, b, ins, srcl, 0, avoid)
      modifies this
      ensures Valid(Now()) && Valid(m) && Typed(Now(), locals) && Sim(old(Now()), m, GPR_ALL)
      ensures old(AllSynced(Now())) ==> AllSynced(m)
      ensures live == DefsAfter(old(live), ins)
      ensures if |ins.outs| == 1 && ins.outs[0].VReg? then
          && |dstl| == 1 && PhysReg(dstl[0]) && dstl[0].ty == ins.outs[0].ty
          && Target(m, ins.outs[0].r, dstl[0].p) && Now() == Assigned(m, ins.outs[0].r, dstl[0].p)
        else Now() == m && dstl == ins.outs
      ensures ins.op.Bin? ==> srcl[0].PReg? && dstl[0].p == srcl[0].p
    {
      hide Sim, Ready, Valid, AllSynced, Selected, Lowest, FreeIn, Vacated;
      ghost var c := Now();
      m, dstl := c, ins.outs;
      SimRefl(c, GPR_ALL);
      OutputFacts(ins, locals, live);
      if |dstl| == 1 && dstl[0].VReg? {
        var r := dstl[0].r;
        var p: nat;
        if ins.op.Bin? {
          p := vregs[r].p;
          Owner(b, srcl[0].p, r);
        } else {
          SomeRegisterLeft(avoid, used);
          p := AllocPReg(GPR_ALL, avoid);
          m := Now();
          SimExtends(c, m, GPR_ALL);
          TypedKept(c, m, locals);
          SyncedEvict(c, m, p);
        }
        Assign(r, p);
        dstl := [PReg(dstl[0].ty, p)];
      }
    }

    method Assign(r: nat, p: nat)
      requires Valid(Now()) && Target(Now(), r, p)
      modifies this`vregs, this`p2v, this`live
      ensures Now() == Assigned(old(Now()), r, p) && Valid(Now())
    {
      AssignedValid(Now(), r, p);
      var t := vregs[r];
      p2v := (if t.loc == REG then p2v[t.p := None] else p2v)[p := Some(r)];
      vregs := vregs[r := t.(loc := REG, p := p, spillSynced := false)];
      live := if r >= N_GLOBALS then live + {r} else live;
    }

    /** Rewrites one instruction to physical operands. `m` is the bookkeeping just before the
        instruction runs; the final bookkeeping describes the state just after it. */
    method AllocOp(ins: Inst, ghost locals: seq<VType>) returns (ins': Inst, ghost m: View)
      requires Valid(Now()) && Typed(Now(), locals) && Selected(ins, locals, live) && !ins.op.Hcall?
      modifies this
      ensures Valid(Now()) && Valid(m) && Typed(Now(), locals) && Ready(old(Now()), m, ins, ins')
      ensures Emittable(ins') && ins'.op == ins.op && live == DefsAfter(old(live), ins)
      ensures Results(m, Now(), ins, ins')
    {
      hide Sim, Ready, Placed, Emittable;
      ghost var a := Now();
      var srcl, avoid, used := AllocInputs(ins, locals);
      ghost var b := Now();
      if SideEffect(ins.op) {
        SyncGlobals();
      } else {
        SimRefl(b, GPR_ALL);
      }
      ghost var c := Now();
      SimExtends(b, c, GPR_ALL);
      TypedKept(b, c, locals);
      var dstl;
      dstl, m := AllocOutput(a, b, ins, srcl, avoid, used, locals);
      ins' := Inst(ins.op, dstl, srcl);
      ReadyFromPlaced(a, b, c, m, ins, ins', srcl, avoid);
      EmittableFromPlaced(a, b, ins, ins', locals, a.live, avoid);
    }

    // ----- visiting -----

    method VisitBranch(ins: Inst, ghost locals: seq<VType>) returns (ins': Inst, ghost m: View)
      requires Valid(Now()) && Typed(Now(), locals) && Selected(ins, locals, live)
      requires ins.op.Br? || ins.op.GBr? || ins.op.Brcc? || ins.op.GBrind?
      modifies this
      ensures Valid(Now()) && Typed(Now(), locals) && AllInMemory(Now()) && Now() == m
      ensures StepSim(old(Now()), m.(out := m.out + [ins']), ins, ins', m) && Emittable(ins') && ins'.op == ins.op
      ensures ins.op.GBr? || ins.op.GBrind? ==> forall p :: 0 <= p < GPR_NUM ==> p2v[p].None?
      ensures ins.op.Br? ==> |vregs| == old(|vregs|)
      ensures ins.op.Br? ==> forall v :: N_GLOBALS <= v < |vregs| ==> vregs[v] == old(vregs[v])
    {
      hide Sim, Ready, StepSim;
      ghost var a := Now();
      if ins.op.Br? || ins.op.GBr? {
        ins' := ins;
        m := a;
        SimRefl(a, {});
        ReadyNoOperands(a, ins);
      } else {
        ins', m := AllocOp(ins, locals);
      }
      ghost var b := m;
      if ins.op.Br? || ins.op.Brcc? { BlockBoundary(); } else { RegionBoundary(); }
      m := Now();
      SimExtends(b, m, GPR_ALL);
      TypedKept(b, m, locals);
      ReadyLater(a, b, m, ins, ins');
      StepNoDest(a, m, ins, ins');
    }

    method VisitOp(ins: Inst, ghost locals: seq<VType>) returns (ins': Inst, ghost m: View)
      requires Valid(Now()) && Typed(Now(), locals) && Selected(ins, locals, live)
      requires ins.op.VMLoad? || ins.op.VMStore? || ins.op.Setcc? || ins.op.Mov? || ins.op.Bin?
      modifies this
      ensures Valid(Now()) && Typed(Now(), locals)
      ensures Now().out == m.out && StepSim(old(Now()), Now().(out := m.out + [ins']), ins, ins', m)
        && Emittable(ins') && ins'.op == ins.op
      ensures live == DefsAfter(old(live), ins)
    {
      hide Sim, Ready, StepSim, Emittable;
      ghost var a := Now();
      ins', m := AllocOp(ins, locals);
      if ins.op.VMStore? {
        StepNoDest(a, m, ins, ins');
      } else {
        assert OutputOk(ins.op, ins.outs[0], locals);
        if ins.outs[0].VReg? {
          StepWithDest(a, m, ins, ins', ins.outs[0].r, ins'.outs[0].p);
        } else {
          StepIpSlot(a, m, ins, ins');
        }
      }
    }

    method Visit(ins: Inst, ghost locals: seq<VType>) returns (ins': Inst, ghost m: View)
      requires Valid(Now()) && Typed(Now(), locals) && Selected(ins, locals, live)
      requires ins.op.Hcall? ==> N_GLOBALS + |locals| <= MAX_CALL_TRACKS
      modifies this
      ensures Valid(Now()) && Typed(Now(), locals) && StepSim(old(Now()), Now(), ins, ins', m)
      ensures Emittable(ins') && ins'.op == ins.op
      ensures if Terminator(ins.op) then AllInMemory(Now()) else live == DefsAfter(old(live), ins)
    {
      hide Sim, Ready, StepSim;
      ghost var a := Now();
      if ins.op.Hcall? {
        CallOp();
        m := Now();
        SimExtends(a, m, GPR_ALL);
        TypedKept(a, m, locals);
        SimWeaken(a, m, GPR_ALL, {});
        StepHcall(a, m, ins);
        ins' := ins;
      } else if ins.op.Br? || ins.op.GBr? || ins.op.Brcc? || ins.op.GBrind? {
        ins', m := VisitBranch(ins, locals);
      } else {
        ins', m := VisitOp(ins, locals);
      }
      ghost var n := Now();
      out := out + [ins'];
      ValidOut(n, Now());
    }

    /** Instruction `n` of a block whose first `n` instructions have been allocated. */
    method AllocNext(code: seq<Inst>, n: nat, ghost locals: seq<VType>)
      requires n < |code| && Valid(Now()) && Typed(Now(), locals) && BlockSim(code, n, Now()) && OutOk(code, n, out)
      requires SelectedAt(code, n, locals) && live == Defs(code, n)
      requires Terminator(code[n].op) <==> n == |code| - 1
      requires N_GLOBALS + |locals| <= MAX_CALL_TRACKS || CallFree(code)
      modifies this
      ensures Valid(Now()) && Typed(Now(), locals) && BlockSim(code, n + 1, Now()) && OutOk(code, n + 1, out)
      ensures if n == |code| - 1 then AllInMemory(Now()) else live == Defs(code, n + 1)
    {
      hide Sim, StepSim, BlockSim, Valid, Emittable, Selected, CallFree, OutOk, AllInMemory, Typed, Terminator;
      CallFreeNext(code, n);
      ghost var a := Now();
      ghost var m;
      var ins';
      ins', m := Visit(code[n], locals);
      StepSimShape(a, Now(), code[n], ins', m);
      OutNext(code, n, a, m, Now(), ins');
      BlockExtend(code, n, a, m, Now(), ins');
    }

    /** One block. The emitted code behaves like the virtual code from every pair of agreeing
        states, whatever the registers and the frame held on entry. */
    method AllocBlock(code: seq<Inst>, ghost locals: seq<VType>)
      requires Valid(Now()) && Typed(Now(), locals) && AllInMemory(Now()) && CodeSelected(code, locals)
      requires N_GLOBALS + |locals| <= MAX_CALL_TRACKS || CallFree(code)
      modifies this
      ensures Valid(Now()) && Typed(Now(), locals) && AllInMemory(Now())
      ensures BlockRefines(code, out)
      ensures forall i :: 0 <= i < |out| ==> Emittable(out[i])
      ensures Terminated(out) && Terminated(code) && LastOp(out) == LastOp(code)
      ensures CallFree(code) ==> CallFree(out)
    {
      hide Sim, StepSim, BlockSim, Valid, Emittable, BlockRefines, CallFree, OutOk, AllInMemory, Typed, CodeSelected,
        SelectedAt, Terminated, Terminator;
      OpenBlock(code, locals);
      var n := 0;
      while n < |code|
        invariant n <= |code|
        invariant Valid(Now()) && Typed(Now(), locals) && BlockSim(code, n, Now()) && OutOk(code, n, out)
        invariant if n == |code| then AllInMemory(Now()) else live == Defs(code, n)
      {
        SelectedInst(code, n, locals);
        AllocNext(code, n, locals);
        n := n + 1;
      }
      OutDone(code, out);
      BlockDone(code, Now());
    }

    /** Nothing emitted yet, and no local relied on. */
    method OpenBlock(code: seq<Inst>, ghost locals: seq<VType>)
      requires Valid(Now()) && Typed(Now(), locals) && AllInMemory(Now()) && CodeSelected(code, locals)
      modifies this`out, this`live
      ensures Valid(Now()) && Typed(Now(), locals) && BlockSim(code, 0, Now()) && OutOk(code, 0, out)
      ensures live == Defs(code, 0) && code != [] && Terminated(code)
    {
      OutStart(code, locals);
      hide Sim, BlockSim, Valid, OutOk, CodeSelected, Terminated;
      ForgetOk(Now());
      ghost var fresh_ := Now().(live := {});
      out := [];
      live := {};
      ValidOut(fresh_, Now());
      BlockStart(code, Now());
    }
  }

  lemma SelectedInst(code: seq<Inst>, n: nat, locals: seq<VType>)
    requires CodeSelected(code, locals) && n < |code|
    ensures SelectedAt(code, n, locals) && (Terminator(code[n].op) <==> n == |code| - 1)
  {
    hide SelectedAt, Terminator;
  }

  // ----- the pass -----

  /** `rp` has the control flow graph of `rv`, and each of its blocks refines the virtual one. */
  ghost predicate RegionRefines(rv: Region, rp: Region) {
    && |rp.blocks| == |rv.blocks|
    && forall b :: 0 <= b < |rv.blocks| ==>
         rp.blocks[b].succs == rv.blocks[b].succs && BlockRefines(rv.blocks[b].code, rp.blocks[b].code)
  }

  predicate RegionEmittable(rg: Region) {
    forall b, i :: 0 <= b < |rg.blocks| && 0 <= i < |rg.blocks[b].code| ==> Emittable(rg.blocks[b].code[i])
  }

  method Run(rg: Region) returns (rp: Region)
    requires RegionSelected(rg) && N_GLOBALS + |rg.locals| <= MAX_TRACKS
    requires N_GLOBALS + |rg.locals| <= MAX_CALL_TRACKS || !HasCalls(rg)
    ensures RegionRefines(rg, rp) && RegionEmittable(rp) && SameShape(rg, rp)
    ensures !HasCalls(rg) ==> !HasCalls(rp)
  {
    hide BlockRefines, CodeSelected, Emittable, Valid, AllInMemory, HasCalls, CallFree;
    CallFreeRegion(rg);
    var ra := new QRegAlloc(rg.locals);
    var blocks: seq<Block> := [];
    while |blocks| < |rg.blocks|
      invariant |blocks| <= |rg.blocks|
      invariant fresh(ra) && Valid(ra.Now()) && Typed(ra.Now(), rg.locals) && AllInMemory(ra.Now())
      invariant forall b :: 0 <= b < |blocks| ==>
        && blocks[b].succs == rg.blocks[b].succs && BlockRefines(rg.blocks[b].code, blocks[b].code)
        && SameBlockShape(rg.blocks[b], blocks[b])
        && (CallFree(rg.blocks[b].code) ==> CallFree(blocks[b].code))
      invariant forall b, i :: 0 <= b < |blocks| && 0 <= i < |blocks[b].code| ==> Emittable(blocks[b].code[i])
      decreases |rg.blocks| - |blocks|
    {
      var bb := rg.blocks[|blocks|];
      ra.AllocBlock(bb.code, rg.locals);
      blocks := blocks + [Block(ra.out, bb.succs)];
    }
    rp := Region(blocks, rg.locals);
    CallFreeRegion(rp);
  }

  /** Allocation preserves meaning: from agreeing states, every run of the region, however many
      blocks and back edges it takes, makes the same branch choices and the same memory accesses
      with the same CPU state visible at each of them, and ends in agreement. */
  lemma {:induction false} AllocationPreservesRuns(rv: Region, rp: Region, b: nat, vs: VState, ps: PState, n: nat)
    requires RegionRefines(rv, rp) && Agree(vs, ps)
    ensures var tv, tp := VRegion(rv, b, vs, n), PRegion(rp, b, ps, n);
      tv.ev == tp.ev && tv.next == tp.next && Agree(tv.s, tp.s)
    decreases n
  {
    hide VExec, PExec;
    if n > 0 && b < |rv.blocks| {
      assert BlockRefines(rv.blocks[b].code, rp.blocks[b].code);
      var r, r' := VExec(rv.blocks[b].code, vs), PExec(rp.blocks[b].code, ps);
      if r.next.Jump? && r.next.i < |rv.blocks[b].succs| {
        AllocationPreservesRuns(rv, rp, rv.blocks[b].succs[r.next.i], r.s, r'.s, n - 1);
      }
    }
  }

  // ----- the base registers -----

  lemma EmittableSpares(ins: Inst)
    requires Emittable(ins)
    ensures SparesBases(ins)
  {
    hide ShiftCountOk, ImmediateOk, DisplacementOk;
  }

  lemma {:induction false} CodeKeepsBases(code: seq<Inst>, s: PState)
    requires forall i :: 0 <= i < |code| ==> Emittable(code[i])
    ensures SameBases(s, PExec(code, s).s)
  {
    hide PStep, Emittable;
    if code != [] {
      EmittableSpares(code[0]);
      StepKeepsBases(code[0], s);
      CodeKeepsBases(code[1..], PStep(code[0], s).s);
    }
  }

  /** No run of an allocated region, of any length, writes STATE, MEMBASE or SP. */
  lemma {:induction false} RegionKeepsBases(rg: Region, b: nat, s: PState, n: nat)
    requires RegionEmittable(rg)
    ensures SameBases(s, PRegion(rg, b, s, n).s)
    decreases n
  {
    hide PExec, Emittable;
    if n > 0 && b < |rg.blocks| {
      CodeKeepsBases(rg.blocks[b].code, s);
      var r := PExec(rg.blocks[b].code, s);
      if r.next.Jump? && r.next.i < |rg.blocks[b].succs| {
        RegionKeepsBases(rg, rg.blocks[b].succs[r.next.i], r.s, n - 1);
      }
    }
  }

  // ----- auxiliary facts -----

  ghost predicate Typed(a: View, locals: seq<VType>) {
    |a.vregs| == N_GLOBALS + |locals| && forall v :: 0 <= v < |a.vregs| ==> a.vregs[v].ty == TypeOf(locals, v)
  }

  /** Input `i` has been dealt with: it reads the virtual value, in an admissible place that the
      registers in `avoid` protect; an aliased input still sits in its own register. */
  ghost predicate Placed(a: View, b: View, ins: Inst, srcl: seq<Operand>, i: nat, avoid: set<nat>) {
    && i < |ins.ins| && i < |srcl|
    && ReadsAs(a, b, ins.ins[i], srcl[i])
    && HeldIn(srcl[i], avoid) && srcl[i].ty == ins.ins[i].ty
    && (if ins.ins[i].VReg? then PhysReg(srcl[i]) && srcl[i].p in InCt(ins.op, i).cr else srcl[i] == ins.ins[i])
    && (InCt(ins.op, i).alias && ins.ins[i].VReg? ==> |b.p2v| == GPR_NUM && b.p2v[srcl[i].p] == Some(ins.ins[i].r))
  }

  lemma PlacedKept(a: View, b: View, c: View, ins: Inst, srcl: seq<Operand>, i: nat, avoid: set<nat>)
    requires Placed(a, b, ins, srcl, i, avoid) && Sim(a, b, {}) && Sim(b, c, avoid) && KeepsOwners(b, c, avoid)
    ensures Placed(a, c, ins, srcl, i, avoid)
  {
    ReadsAsKept(a, b, c, ins.ins[i], srcl[i], avoid);
  }

  /** A constraint that is not the whole register file is one register, and no operation has two
      inputs with such a constraint. */
  lemma FewConstrained(op: Op, j: nat, k: nat)
    requires j < NumIn(op) && k < NumIn(op) && j != k
    ensures |InCt(op, j).cr| > 1 || |InCt(op, k).cr| > 1
    ensures InCt(op, k).cr == GPR_ALL || |InCt(op, k).cr| == 1
  {
    assert RAX in GPR_ALL && RCX in GPR_ALL - {RAX};
    assert |GPR_ALL - {RAX}| == |GPR_ALL| - 1;
  }

  /** Because the most constrained input goes first, an admissible register is always left. */
  lemma ChoiceExists(op: Op, k: nat, avoid: set<nat>, used: seq<nat>)
    requires k < NumIn(op) && |used| <= k && forall q :: q in avoid ==> q in GPR_FIXED || q in used
    ensures exists t :: t in GPR_ALL && t in InCt(op, InOrder(op)[k]).cr && t !in avoid
  {
    if k > 0 {
      hide InCt, InOrder, GPR_ALL;
      MostConstrainedFirst(op, 0, k);
      FewConstrained(op, InOrder(op)[0], InOrder(op)[k]);
      assert InCt(op, InOrder(op)[k]).cr == GPR_ALL;
      SomeRegisterLeft(avoid, used);
    } else {
      FirstChoice(op, avoid);
    }
  }

  lemma FirstChoice(op: Op, avoid: set<nat>)
    requires 0 < NumIn(op) && avoid <= GPR_FIXED
    ensures exists t :: t in GPR_ALL && t in InCt(op, InOrder(op)[0]).cr && t !in avoid
  {
    var cr := InCt(op, InOrder(op)[0]).cr;
    assert cr == GPR_ALL || cr == {RCX} || cr == {RSI};
    assert RCX in GPR_ALL && RSI in GPR_ALL && RCX !in avoid && RSI !in avoid;
  }

  lemma ReadyFromPlaced(a: View, b: View, c: View, m: View, ins: Inst, ins': Inst, srcl: seq<Operand>, avoid: set<nat>)
    requires Sim(a, b, {}) && Sim(b, c, GPR_ALL) && Sim(c, m, GPR_ALL)
    requires |srcl| == |ins.ins| && ins'.op == ins.op && ins'.ins == srcl
    requires forall i :: 0 <= i < |ins.ins| ==> Placed(a, b, ins, srcl, i, avoid)
    requires SideEffect(ins.op) ==> AllSynced(m)
    ensures Ready(a, m, ins, ins')
  {
    SimTrans(b, c, m, GPR_ALL);
    forall i | 0 <= i < |ins.ins| ensures ReadsAs(a, m, ins.ins[i], ins'.ins[i]) {
      assert Placed(a, b, ins, srcl, i, avoid);
      ReadsAsKept(a, b, m, ins.ins[i], srcl[i], GPR_ALL);
    }
    SimWeaken(b, m, GPR_ALL, {});
    SimTrans(a, b, m, {});
  }

  lemma OutputFacts(ins: Inst, locals: seq<VType>, defs: set<nat>)
    requires Selected(ins, locals, defs) && !ins.op.Hcall?
    ensures ArityOk(ins) && forall i :: 0 <= i < |ins.outs| ==> OutputOk(ins.op, ins.outs[i], locals)
    ensures ins.op.Bin? ==> ins.outs[0].VReg? && ins.ins[0] == ins.outs[0]
  {
    if ins.op.Bin? {
      assert InputFits(ins, 0) && InputOk(ins.ins[0], locals, defs);
    }
  }

  lemma Owner(a: View, p: nat, r: nat)
    requires Valid(a) && p < GPR_NUM && a.p2v[p] == Some(r)
    ensures r < |a.vregs| && a.vregs[r].p == p && a.vregs[r].loc == REG && p !in GPR_FIXED
  {
  }

  lemma SyncedEvict(a: View, b: View, p: nat)
    requires Evicts(a, b, p)
    ensures AllSynced(a) ==> AllSynced(b)
  {
  }

  lemma StepSimShape(a: View, b: View, ins: Inst, ins': Inst, m: View)
    requires StepSim(a, b, ins, ins', m)
    ensures Extends(a, m) && b.out == m.out + [ins']
  {
  }

  lemma SimExtends(a: View, b: View, keep: set<nat>)
    requires Sim(a, b, keep)
    ensures Extends(a, b)
  {
  }

  lemma ReadyNoOperands(a: View, ins: Inst)
    requires Sim(a, a, {}) && ins.ins == [] && !SideEffect(ins.op)
    ensures Ready(a, a, ins, ins)
  {
  }

  lemma ReadyLater(a: View, b: View, c: View, ins: Inst, ins': Inst)
    requires Ready(a, b, ins, ins') && Sim(b, c, GPR_ALL) && Emittable(ins') && !ins.op.Mov? && AllSynced(c)
    ensures Ready(a, c, ins, ins')
  {
    forall i | 0 <= i < |ins.ins| ensures ReadsAs(a, c, ins.ins[i], ins'.ins[i]) {
      assert ReadsAs(a, b, ins.ins[i], ins'.ins[i]);
      assert HeldIn(ins'.ins[i], GPR_ALL);
      ReadsAsKept(a, b, c, ins.ins[i], ins'.ins[i], GPR_ALL);
    }
    SimWeaken(b, c, GPR_ALL, {});
    SimTrans(a, b, c, {});
  }

  /** An operand the allocator can place: a constant, or a register with a value. */
  predicate Available(a: View, o: Operand) {
    o.Const? || (o.VReg? && o.r != IP_GLOBAL && Covered(a, o.r) && Size(o.ty) <= Size(a.vregs[o.r].ty))
  }

  lemma InputAvailable(a: View, o: Operand, locals: seq<VType>)
    requires Typed(a, locals) && InputOk(o, locals, a.live)
    ensures Available(a, o)
  {
  }

  lemma TypedKept(a: View, b: View, locals: seq<VType>)
    requires Typed(a, locals) && Extends(a, b)
    ensures Typed(b, locals)
  {
  }

  function WithReg(avoid: RegMask, o: Operand): RegMask {
    if o.PReg? then avoid + {o.p} else avoid
  }

  lemma InputFacts(ins: Inst, i: nat, locals: seq<VType>, defs: set<nat>)
    requires Selected(ins, locals, defs) && !ins.op.Hcall? && i < |ins.ins|
    ensures InputOk(ins.ins[i], locals, defs) && InputFits(ins, i)
    ensures InCt(ins.op, i).alias ==> InCt(ins.op, i).cr == GPR_ALL
  {
  }

  /** What `Placed` says about the shape of the operand. */
  predicate Shaped(ins: Inst, i: nat, o: Operand)
    requires ArityOk(ins) && i < |ins.ins|
  {
    && (ins.ins[i].Const? || ins.ins[i].VReg?) && InputFits(ins, i)
    && o.ty == ins.ins[i].ty
    && (if ins.ins[i].VReg? then PhysReg(o) && o.p in InCt(ins.op, i).cr else o == ins.ins[i])
  }

  lemma EmittableFromPlaced(a: View, b: View, ins: Inst, ins': Inst, locals: seq<VType>, defs: set<nat>,
      avoid: set<nat>)
    requires Selected(ins, locals, defs) && !ins.op.Hcall?
    requires ins'.op == ins.op && |ins'.ins| == |ins.ins|
    requires forall i :: 0 <= i < |ins.ins| ==> Placed(a, b, ins, ins'.ins, i, avoid)
    requires if |ins.outs| == 1 && ins.outs[0].VReg?
      then |ins'.outs| == 1 && PhysReg(ins'.outs[0]) && ins'.outs[0].ty == ins.outs[0].ty
      else ins'.outs == ins.outs
    requires ins.op.Bin? ==>
      |ins'.outs| == 1 && ins'.outs[0].PReg? && ins'.ins[0].PReg? && ins'.outs[0].p == ins'.ins[0].p
    ensures Emittable(ins')
  {
    forall i | 0 <= i < |ins.ins| ensures Shaped(ins, i, ins'.ins[i]) {
      assert Placed(a, b, ins, ins'.ins, i, avoid);
      InputFacts(ins, i, locals, defs);
    }
    EmittableFromShape(ins, ins', locals);
  }

  lemma EmittableFromShape(ins: Inst, ins': Inst, locals: seq<VType>)
    requires ArityOk(ins) && TypesOk(ins) && !ins.op.Hcall?
    requires ins.op.VMLoad? || ins.op.VMStore? ==> DisplacementOk(ins.ins[0])
    requires forall i :: 0 <= i < |ins.outs| ==> OutputOk(ins.op, ins.outs[i], locals)
    requires ins'.op == ins.op && |ins'.ins| == |ins.ins|
    requires forall i :: 0 <= i < |ins.ins| ==> Shaped(ins, i, ins'.ins[i])
    requires if |ins.outs| == 1 && ins.outs[0].VReg?
      then |ins'.outs| == 1 && PhysReg(ins'.outs[0]) && ins'.outs[0].ty == ins.outs[0].ty
      else ins'.outs == ins.outs
    requires ins.op.Bin? ==>
      |ins'.outs| == 1 && ins'.outs[0].PReg? && ins'.ins[0].PReg? && ins'.outs[0].p == ins'.ins[0].p
    ensures Emittable(ins')
  {
    assert |ins.outs| == 1 ==> OutputOk(ins.op, ins.outs[0], locals);
    assert |ins.ins| >= 1 ==> Shaped(ins, 0, ins'.ins[0]);
    assert |ins.ins| >= 2 ==> Shaped(ins, 1, ins'.ins[1]);
    assert |ins.ins| >= 1 && !ins.op.Mov? ==> ins.ins[0].ty == I32;
  }

  /** The bookkeeping after an instruction records its result, if it has one. */
  ghost predicate Results(m: View, b: View, ins: Inst, ins': Inst) {
    if |ins.outs| == 1 && ins.outs[0].VReg? then
      && |ins'.outs| == 1 && ins'.outs[0].PReg? && ins'.outs[0].ty == ins.outs[0].ty && |m.p2v| == GPR_NUM
      && Target(m, ins.outs[0].r, ins'.outs[0].p) && (m.vregs[ins.outs[0].r].loc == REG
        ==> m.vregs[ins.outs[0].r].p < GPR_NUM)
      && b == Assigned(m, ins.outs[0].r, ins'.outs[0].p)
    else b == m && ins'.outs == ins.outs
  }

  lemma ValidOut(a: View, b: View)
    requires Valid(a) && b == a.(out := b.out)
    ensures Valid(b)
  {
    assert Coupled(b) && FrameOk(b);
  }

  /** What has been emitted for the first `n` instructions of a block. */
  predicate OutOk(code: seq<Inst>, n: nat, out: seq<Inst>) {
    && n <= |code|
    && (forall i :: 0 <= i < |out| ==> Emittable(out[i]))
    && (forall i :: 0 <= i < |out| ==> (Terminator(out[i].op) <==> n == |code| && i == |out| - 1))
    && (n > 0 ==> out != [] && LastOp(out) == code[n - 1].op)
    && (CallFree(code) ==> CallFree(out))
  }

  lemma OutStart(code: seq<Inst>, locals: seq<VType>)
    requires CodeSelected(code, locals)
    ensures OutOk(code, 0, []) && Terminated(code) && code != []
  {
  }

  lemma OutNext(code: seq<Inst>, n: nat, a: View, m: View, b: View, ins': Inst)
    requires OutOk(code, n, a.out) && n < |code| && (Terminator(code[n].op) <==> n == |code| - 1)
    requires Extends(a, m) && b.out == m.out + [ins'] && Emittable(ins') && ins'.op == code[n].op
    ensures OutOk(code, n + 1, b.out)
  {
    hide Emittable, CallFree, Extends;
    CallFreeNext(code, n);
    OutEmittable(a, m, b, ins');
    OutTerminators(a, m, b, ins');
    OutCallFree(a, m, b, ins');
  }

  lemma OutDone(code: seq<Inst>, out: seq<Inst>)
    requires OutOk(code, |code|, out) && code != []
    ensures (forall i :: 0 <= i < |out| ==> Emittable(out[i])) && Terminated(out) && LastOp(out) == LastOp(code)
    ensures CallFree(code) ==> CallFree(out)
  {
    hide Emittable, CallFree;
  }

  lemma OutTerminators(a: View, m: View, b: View, ins': Inst)
    requires Extends(a, m) && b.out == m.out + [ins'] && forall i :: 0 <= i < |a.out| ==> !Terminator(a.out[i].op)
    ensures forall i :: 0 <= i < |b.out| ==> (Terminator(b.out[i].op) <==> i == |b.out| - 1 && Terminator(ins'.op))
  {
    forall i | 0 <= i < |m.out| ensures !Terminator(m.out[i].op) {
      if i < |a.out| {
        assert m.out[..|a.out|][i] == a.out[i];
      } else {
        assert IsMov(m.out[i]);
      }
    }
  }

  lemma OutCallFree(a: View, m: View, b: View, ins': Inst)
    requires Extends(a, m) && b.out == m.out + [ins']
    ensures CallFree(a.out) && !ins'.op.Hcall? ==> CallFree(b.out)
  {
    if CallFree(a.out) {
      forall i | 0 <= i < |m.out| ensures !m.out[i].op.Hcall? {
        if i < |a.out| {
          assert m.out[..|a.out|][i] == a.out[i];
        } else {
          assert IsMov(m.out[i]);
        }
      }
    }
  }

  lemma OutEmittable(a: View, m: View, b: View, ins': Inst)
    requires Extends(a, m) && b.out == m.out + [ins'] && Emittable(ins')
    requires forall i :: 0 <= i < |a.out| ==> Emittable(a.out[i])
    ensures forall i :: 0 <= i < |b.out| ==> Emittable(b.out[i])
  {
    forall i | 0 <= i < |b.out| ensures Emittable(b.out[i]) {
      if i < |a.out| {
        assert b.out[i] == m.out[..|a.out|][i] == a.out[i];
      } else if i < |m.out| {
        assert IsMov(m.out[i]);
      }
    }
  }

  /** `keep` only matters on real registers. */
  lemma SimRange(a: View, b: View, keep: set<nat>)
    requires Sim(a, b, keep * GPR_ALL)
    ensures Sim(a, b, keep)
  {
    forall vs, ps | Rel(a, vs, ps) ensures KeepsRegs(keep, ps, MovExec(Delta(a, b), ps)) {
      assert KeepsRegs(keep * GPR_ALL, ps, MovExec(Delta(a, b), ps));
    }
  }

  lemma CopyReads(b: View, c: View, o: Operand, ty: VType, p: nat, q: nat)
    requires o.VReg? && Size(o.ty) <= Size(ty) && Sim(b, c, GPR_ALL) && Valid(c) && Free(c, p) && q < GPR_NUM
      && q !in GPR_FIXED
    requires ReadsAs(b, b, VReg(ty, o.r), PReg(ty, q))
    ensures ReadsAs(b, Copied(c, ty, p, q), o, PReg(o.ty, p))
  {
    hide Rel, Valid, Trunc, MovExec, Copied, VGet;
    var d := Copied(c, ty, p, q);
    CopiedOk(c, ty, p, q);
    SimExtends(c, d, GPR_ALL - {p});
    DeltaAppend(b, c, d);
    assert Delta(b, b) == [];
    forall vs, ps | Rel(b, vs, ps) ensures PRead(MovExec(Delta(b, d), ps), PReg(o.ty, p)) == VRead(vs, o) {
      MovExecAppend(Delta(b, c), Delta(c, d), ps);
      var m := MovExec(Delta(b, c), ps);
      assert KeepsRegs(GPR_ALL, ps, m);
      assert q in GPR_ALL;
      assert m.regs[q] == ps.regs[q];
      MovExecNone(ps);
      assert PRead(MovExec(Delta(b, b), ps), PReg(ty, q)) == VRead(vs, VReg(ty, o.r));
      CopiedReads(ty, o.ty, MovExec(Delta(c, d), m).regs[p], ps.regs[q], VGet(vs, o.r));
    }
  }

  lemma {:induction false} MovExecNone(s: PState)
    ensures MovExec([], s) == s
  {
  }

  /** A narrower read of a copy reads what the original does. */
  lemma CopiedReads(ty: VType, narrow: VType, copy: W, orig: W, val: W)
    requires Size(narrow) <= Size(ty) && Trunc(ty, copy) == Trunc(ty, orig) == Trunc(ty, val)
    ensures Trunc(narrow, copy) == Trunc(narrow, val)
  {
    TruncTrunc(narrow, ty, copy);
    TruncTrunc(narrow, ty, val);
    hide Trunc;
  }
}
