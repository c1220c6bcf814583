/** What operand selection owes: moves inserted before an instruction, plus the rewritten
    instruction, behave like the original on every register that existed before. */
module SelSteps {
  import opened Words
  import opened Qir
  import opened Machine
  import opened SelForm

  /** The locals numbered below `n`. */
  function Low(locals: map<nat, W>, n: nat): map<nat, W> {
    map r | r in locals && r < n :: locals[r]
  }

  /** Same state on the registers below `n`. */
  ghost predicate Same(n: nat, vs: VState, ws: VState) {
    vs.cpu == ws.cpu && vs.mem == ws.mem && Low(vs.locals, n) == Low(ws.locals, n)
  }

  /** Same state on the registers below `n`, once register `x` gets the same new value in both. */
  ghost predicate SameBut(n: nat, vs: VState, ws: VState, x: Option<nat>) {
    && vs.mem == ws.mem
    && match x
       case None => Same(n, vs, ws)
       case Some(r) => r < n && forall w :: Same(n, VWrite(vs, VReg(I32, r), w), VWrite(ws, VReg(I32, r), w))
  }

  lemma SameGet(n: nat, vs: VState, ws: VState, r: nat)
    requires Same(n, vs, ws) && r < n
    ensures VGet(vs, r) == VGet(ws, r)
  {
    if r >= N_GLOBALS {
      assert r in vs.locals <==> r in Low(vs.locals, n);
      assert r in ws.locals <==> r in Low(ws.locals, n);
      if r in vs.locals {
        assert Low(vs.locals, n)[r] == Low(ws.locals, n)[r];
      }
    }
  }

  lemma LowUpdate(m: map<nat, W>, n: nat, r: nat, w: W)
    ensures Low(m[r := w], n) == if r < n then Low(m, n)[r := w] else Low(m, n)
  {
  }

  /** Writing the same value to the same register keeps two states the same. */
  lemma SameWrite(n: nat, vs: VState, ws: VState, o: Operand, w: W)
    requires Same(n, vs, ws) && (o.VReg? ==> o.r < n)
    ensures Same(n, VWrite(vs, o, w), VWrite(ws, o, w))
  {
    if o.VReg? {
      LowUpdate(vs.locals, n, o.r, Trunc(o.ty, w));
      LowUpdate(ws.locals, n, o.r, Trunc(o.ty, w));
    }
  }

  lemma SameReads(n: nat, vs: VState, ws: VState, os: seq<Operand>)
    requires Same(n, vs, ws) && forall k :: 0 <= k < |os| && os[k].VReg? ==> os[k].r < n
    ensures VReads(vs, os) == VReads(ws, os)
  {
    forall k | 0 <= k < |os| ensures VRead(vs, os[k]) == VRead(ws, os[k]) {
      if os[k].VReg? {
        SameGet(n, vs, ws, os[k].r);
      }
    }
  }

  /** Running the moves from a state that agrees with `vs` leaves arguments `srcl` with the values
      the original instruction reads, having disturbed register `x` at most. */
  ghost predicate Prepared(n: nat, movs: seq<Inst>, ins: Inst, srcl: seq<Operand>, x: Option<nat>) {
    |srcl| == |ins.ins| && forall vs, ws {:trigger Same(n, vs, ws), VExec(movs, ws)} ::
      Same(n, vs, ws) ==> PreparedAt(n, vs, VExec(movs, ws), ins, srcl, x)
  }

  ghost predicate PreparedAt(n: nat, vs: VState, t: VRun, ins: Inst, srcl: seq<Operand>, x: Option<nat>) {
    t.next == Fall && t.ev == [] && SameBut(n, vs, t.s, x) && VReads(t.s, srcl) == VReads(vs, ins.ins)
  }

  lemma PreparedStart(n: nat, ins: Inst, locals: seq<VType>, defs: set<nat>)
    requires n >= N_GLOBALS + |locals| && WellFormed(ins, locals, defs)
    ensures Prepared(n, [], ins, ins.ins, None)
  {
    forall vs, ws | Same(n, vs, ws) ensures PreparedAt(n, vs, VExec([], ws), ins, ins.ins, None) {
      forall i | 0 <= i < |ins.ins| && ins.ins[i].VReg? ensures ins.ins[i].r < n {
        assert InputOk(ins.ins[i], locals, defs);
      }
      SameReads(n, vs, ws, ins.ins);
    }
  }

  lemma {:induction false} MovRun(movs: seq<Inst>, dst: Operand, src: Operand, ws: VState)
    requires VExec(movs, ws).next == Fall && VExec(movs, ws).ev == []
    ensures var t := VExec(movs, ws);
      VExec(movs + [Inst(Mov, [dst], [src])], ws) == VRun(VWrite(t.s, dst, VRead(t.s, src)), [], Fall)
  {
    var ins := Inst(Mov, [dst], [src]);
    VExecAppend(movs, [ins], ws);
    var t := VExec(movs, ws);
    VExecOne(ins, t.s);
    assert VReads(t.s, [src]) == [VRead(t.s, src)];
  }

  predicate Reads(srcl: seq<Operand>, r: nat) {
    exists k :: 0 <= k < |srcl| && srcl[k].VReg? && srcl[k].r == r
  }

  lemma TempValue(t: VType, w: W)
    ensures Trunc(t, Trunc(t, Trunc(t, w))) == Trunc(t, w)
  {
    TruncTrunc(t, t, w);
  }

  lemma TempReads(s: VState, srcl: seq<Operand>, r: nat, src: Operand, srcl': seq<Operand>)
    requires r >= N_GLOBALS && !Reads(srcl, r) && |srcl'| == |srcl| && (src.Const? || src.VReg?)
    requires forall k :: 0 <= k < |srcl| ==> srcl'[k] == srcl[k] || (srcl'[k] == VReg(src.ty, r) && srcl[k] == src)
    ensures VReads(VWrite(s, VReg(src.ty, r), VRead(s, src)), srcl') == VReads(s, srcl)
  {
    var s' := VWrite(s, VReg(src.ty, r), VRead(s, src));
    forall k | 0 <= k < |srcl'| ensures VRead(s', srcl'[k]) == VRead(s, srcl[k]) {
      if srcl'[k] == srcl[k] {
        assert srcl[k].VReg? ==> srcl[k].r != r;
        assert srcl[k].VReg? ==> VGet(s', srcl[k].r) == VGet(s, srcl[k].r);
      } else {
        assert VGet(s', r) == Trunc(src.ty, VRead(s, src));
        TempValue(src.ty, if src.Const? then src.val else VGet(s, src.r));
      }
    }
  }

  /** A temporary above `n` is invisible. */
  lemma TempSame(n: nat, vs: VState, s: VState, x: Option<nat>, ty: VType, r: nat, w: W)
    requires SameBut(n, vs, s, x) && r >= n >= N_GLOBALS
    ensures SameBut(n, vs, VWrite(s, VReg(ty, r), w), x)
  {
    var s' := VWrite(s, VReg(ty, r), w);
    LowUpdate(s.locals, n, r, Trunc(ty, w));
    if x.Some? {
      forall u ensures Same(n, VWrite(vs, VReg(I32, x.value), u), VWrite(s', VReg(I32, x.value), u)) {
        assert Same(n, VWrite(vs, VReg(I32, x.value), u), VWrite(s, VReg(I32, x.value), u));
        LowUpdate(s.locals, n, x.value, u);
        LowUpdate(s'.locals, n, x.value, u);
      }
    }
  }

  /** A fresh temporary may replace any occurrence of the operand it was copied from. */
  lemma PreparedTemp(n: nat, movs: seq<Inst>, ins: Inst, srcl: seq<Operand>, x: Option<nat>, r: nat, src: Operand,
      srcl': seq<Operand>)
    requires Prepared(n, movs, ins, srcl, x) && r >= n >= N_GLOBALS && !Reads(srcl, r)
    requires |srcl'| == |srcl| && (src.Const? || src.VReg?)
    requires forall k :: 0 <= k < |srcl| ==> srcl'[k] == srcl[k] || (srcl'[k] == VReg(src.ty, r) && srcl[k] == src)
    ensures Prepared(n, movs + [Inst(Mov, [VReg(src.ty, r)], [src])], ins, srcl', x)
  {
    var tmp := VReg(src.ty, r);
    forall vs, ws | Same(n, vs, ws)
      ensures PreparedAt(n, vs, VExec(movs + [Inst(Mov, [tmp], [src])], ws), ins, srcl', x)
    {
      var t := VExec(movs, ws);
      assert PreparedAt(n, vs, t, ins, srcl, x);
      MovRun(movs, tmp, src, ws);
      TempReads(t.s, srcl, r, src, srcl');
      TempSame(n, vs, t.s, x, src.ty, r, VRead(t.s, src));
    }
  }

  lemma AliasReads(s: VState, srcl: seq<Operand>, i: nat, d: nat)
    requires i < |srcl| && srcl[i].ty == I32 && (srcl[i].Const? || srcl[i].VReg?)
    requires forall k :: 0 <= k < |srcl| && k != i && srcl[k].VReg? ==> srcl[k].r != d
    ensures VReads(VWrite(s, VReg(I32, d), VRead(s, srcl[i])), srcl[i := VReg(I32, d)]) == VReads(s, srcl)
  {
    var s' := VWrite(s, VReg(I32, d), VRead(s, srcl[i]));
    var srcl' := srcl[i := VReg(I32, d)];
    forall k | 0 <= k < |srcl| ensures VRead(s', srcl'[k]) == VRead(s, srcl[k]) {
      if k != i && srcl[k].VReg? {
        assert VGet(s', srcl[k].r) == VGet(s, srcl[k].r);
      }
    }
  }

  lemma AliasSame(n: nat, vs: VState, s: VState, d: nat, v: W)
    requires Same(n, vs, s) && d < n
    ensures SameBut(n, vs, VWrite(s, VReg(I32, d), v), Some(d))
  {
    var s' := VWrite(s, VReg(I32, d), v);
    forall u ensures Same(n, VWrite(vs, VReg(I32, d), u), VWrite(s', VReg(I32, d), u)) {
      SameWrite(n, vs, s, VReg(I32, d), u);
      assert VWrite(s', VReg(I32, d), u) == VWrite(s, VReg(I32, d), u) by {
        if d < N_GLOBALS {
          assert s.cpu[d + 1 := v][d + 1 := u] == s.cpu[d + 1 := u];
        } else {
          assert s.locals[d := v][d := u] == s.locals[d := u];
        }
      }
    }
  }

  /** An aliased input may be moved into the destination if no other input still reads it. */
  lemma PreparedAlias(n: nat, movs: seq<Inst>, ins: Inst, srcl: seq<Operand>, i: nat, d: nat)
    requires Prepared(n, movs, ins, srcl, None) && N_GLOBALS <= n && i < |srcl|
    requires d < n && srcl[i].ty == I32 && (srcl[i].Const? || srcl[i].VReg?)
    requires forall k :: 0 <= k < |srcl| && k != i && srcl[k].VReg? ==> srcl[k].r != d
    ensures Prepared(n, movs + [Inst(Mov, [VReg(I32, d)], [srcl[i]])], ins, srcl[i := VReg(I32, d)], Some(d))
  {
    var dst := VReg(I32, d);
    forall vs, ws | Same(n, vs, ws)
      ensures PreparedAt(n, vs, VExec(movs + [Inst(Mov, [dst], [srcl[i]])], ws), ins, srcl[i := dst], Some(d))
    {
      var t := VExec(movs, ws);
      assert PreparedAt(n, vs, t, ins, srcl, None);
      MovRun(movs, dst, srcl[i], ws);
      AliasReads(t.s, srcl, i, d);
      AliasSame(n, vs, t.s, d, VRead(t.s, srcl[i]));
    }
  }

  /** Moves and rewritten instruction together behave like the original instruction. */
  ghost predicate SelectsTo(n: nat, ins: Inst, movs: seq<Inst>, ins': Inst) {
    forall vs, ws {:trigger VStep(ins, vs), VExec(movs + [ins'], ws)} ::
      Same(n, vs, ws) ==> Matches(n, VStep(ins, vs), VExec(movs + [ins'], ws))
  }

  ghost predicate Matches(n: nat, rv: VRun, rw: VRun) {
    rv.ev == rw.ev && rv.next == rw.next && Same(n, rv.s, rw.s)
  }

  lemma StepSame(n: nat, vs: VState, s: VState, ins: Inst, ins': Inst, x: Option<nat>, locals: seq<VType>,
      defs: set<nat>)
    requires n == N_GLOBALS + |locals| && WellFormed(ins, locals, defs)
    requires ins' == Inst(ins.op, ins.outs, ins'.ins) && SameBut(n, vs, s, x)
      && VReads(s, ins'.ins) == VReads(vs, ins.ins)
    requires x.Some? ==> ins.op.Bin? && ins.outs[0] == VReg(I32, x.value)
    ensures Matches(n, VStep(ins, vs), VStep(ins', s))
  {
    var args := VReads(vs, ins.ins);
    if x.None? {
      if |ins.outs| == 1 {
        assert OutputOk(ins.op, ins.outs[0], locals);
        var vs1 := VState(CpuAfter(ins.op, vs.cpu), vs.locals, MemAfter(ins.op, args, vs.mem));
        var s1 := VState(CpuAfter(ins.op, s.cpu), s.locals, MemAfter(ins.op, args, s.mem));
        SameWrite(n, vs1, s1, ins.outs[0], ResultOf(ins.op, args, vs.mem));
      }
    } else {
      assert Same(n, VWrite(vs, ins.outs[0], ResultOf(ins.op, args, vs.mem)),
        VWrite(s, ins.outs[0], ResultOf(ins.op, args, vs.mem)));
    }
  }

  lemma PreparedDone(n: nat, movs: seq<Inst>, ins: Inst, srcl: seq<Operand>, x: Option<nat>, locals: seq<VType>,
      defs: set<nat>)
    requires Prepared(n, movs, ins, srcl, x) && n == N_GLOBALS + |locals| && WellFormed(ins, locals, defs)
    requires x.Some? ==> ins.op.Bin? && ins.outs[0] == VReg(I32, x.value)
    ensures SelectsTo(n, ins, movs, Inst(ins.op, ins.outs, srcl))
  {
    var ins' := Inst(ins.op, ins.outs, srcl);
    forall vs, ws | Same(n, vs, ws) ensures Matches(n, VStep(ins, vs), VExec(movs + [ins'], ws)) {
      var t := VExec(movs, ws);
      assert PreparedAt(n, vs, t, ins, srcl, x);
      VExecAppend(movs, [ins'], ws);
      VExecOne(ins', t.s);
      StepSame(n, vs, t.s, ins, ins', x, locals, defs);
    }
  }

  // ----- blocks -----

  /** `code'` does what the first `k` instructions of `code` do. */
  ghost predicate CodeMatches(n: nat, code: seq<Inst>, code': seq<Inst>) {
    forall vs, ws {:trigger VExec(code, vs), VExec(code', ws)} ::
      Same(n, vs, ws) ==> Matches(n, VExec(code, vs), VExec(code', ws))
  }

  lemma CodeMatchesExtend(n: nat, code: seq<Inst>, code': seq<Inst>, ins: Inst, movs: seq<Inst>, ins': Inst)
    requires CodeMatches(n, code, code') && SelectsTo(n, ins, movs, ins')
    ensures CodeMatches(n, code + [ins], code' + movs + [ins'])
  {
    assert code' + movs + [ins'] == code' + (movs + [ins']);
    forall vs, ws | Same(n, vs, ws)
      ensures Matches(n, VExec(code + [ins], vs), VExec(code' + movs + [ins'], ws))
    {
      VExecAppend(code, [ins], vs);
      VExecAppend(code', movs + [ins'], ws);
      var rv, rw := VExec(code, vs), VExec(code', ws);
      assert Matches(n, rv, rw);
      if rv.next.Fall? {
        VExecOne(ins, rv.s);
        assert Matches(n, VStep(ins, rv.s), VExec(movs + [ins'], rw.s));
      }
    }
  }

  ghost predicate RegionMatches(rg: Region, rg': Region) {
    && |rg'.blocks| == |rg.blocks| && rg.locals <= rg'.locals
    && forall b :: 0 <= b < |rg.blocks| ==>
         && rg'.blocks[b].succs == rg.blocks[b].succs
         && CodeMatches(N_GLOBALS + |rg.locals|, rg.blocks[b].code, rg'.blocks[b].code)
  }

  /** Selection preserves meaning over every run of the region. */
  lemma {:induction false} SelectionPreservesRuns(rg: Region, rg': Region, b: nat, vs: VState, ws: VState, k: nat)
    requires RegionMatches(rg, rg') && Same(N_GLOBALS + |rg.locals|, vs, ws)
    ensures Matches(N_GLOBALS + |rg.locals|, VRegion(rg, b, vs, k), VRegion(rg', b, ws, k))
    decreases k
  {
    if k > 0 && b < |rg.blocks| {
      assert CodeMatches(N_GLOBALS + |rg.locals|, rg.blocks[b].code, rg'.blocks[b].code);
      var r, r' := VExec(rg.blocks[b].code, vs), VExec(rg'.blocks[b].code, ws);
      assert Matches(N_GLOBALS + |rg.locals|, r, r');
      if r.next.Jump? && r.next.i < |rg.blocks[b].succs| {
        SelectionPreservesRuns(rg, rg', rg.blocks[b].succs[r.next.i], r.s, r'.s, k - 1);
      }
    }
  }
}
