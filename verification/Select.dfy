/** Operand selection: two-address form and immediate ranges. */
module Select {
  import opened Words
  import opened Qir
  import opened Machine
  import opened SelForm
  import opened SelSteps

  /** Straight-line code in selected form, using the locals declared so far. */
  ghost predicate Linear(code: seq<Inst>, locals: seq<VType>) {
    forall j :: 0 <= j < |code| ==> Plain(code, j, locals)
  }

  predicate Plain(code: seq<Inst>, j: nat, locals: seq<VType>) {
    SelectedAt(code, j, locals) && !Terminator(code[j].op)
  }

  lemma SelectedMono(ins: Inst, locals: seq<VType>, locals': seq<VType>, defs: set<nat>)
    requires Selected(ins, locals, defs) && locals <= locals'
    ensures Selected(ins, locals', defs)
  {
    forall i | 0 <= i < |ins.ins| ensures InputOk(ins.ins[i], locals', defs) {
      InputOkMono(ins.ins[i], locals, locals', defs, defs);
    }
    forall i | 0 <= i < |ins.outs| ensures OutputOk(ins.op, ins.outs[i], locals') {
      assert OutputOk(ins.op, ins.outs[i], locals);
    }
  }

  lemma {:induction false} LinearExtend(code: seq<Inst>, locals: seq<VType>, locals': seq<VType>, ins: Inst)
    requires Linear(code, locals) && locals <= locals'
    requires Selected(ins, locals', Defs(code, |code|)) && !Terminator(ins.op)
    ensures Linear(code + [ins], locals') && Defs(code + [ins], |code| + 1) == DefsAfter(Defs(code, |code|), ins)
  {
    var code' := code + [ins];
    DefsPrefix(code, [ins], |code|);
    forall j | 0 <= j < |code'| ensures Plain(code', j, locals') {
      DefsPrefix(code, [ins], j);
      if j < |code| {
        assert Plain(code, j, locals);
        SelectedMono(code[j], locals, locals', Defs(code, j));
      }
    }
  }

  lemma AliasesAreBinops(op: Op, i: nat)
    ensures InCt(op, i).alias <==> op.Bin? && i == 0
  {
  }

  /** State of the work on one instruction: `srcl` are its inputs so far. */
  ghost predicate Working(n: nat, out0: seq<Inst>, out: seq<Inst>, locals: seq<VType>, ins: Inst, srcl: seq<Operand>,
      x: Option<nat>) {
    && |out0| <= |out| && out[..|out0|] == out0
    && Prepared(n, out[|out0|..], ins, srcl, x)
    && Linear(out, locals)
    && Inputs(ins, srcl, locals, Defs(out, |out|))
    && (x.Some? ==> ins.op.Bin? && |ins.outs| == 1 && ins.outs[0] == VReg(I32, x.value))
    && Defs(out0, |out0|) <= Defs(out, |out|)
  }

  /** A working input is a register or still the original constant. */
  predicate FromInput(o: Operand, o0: Operand) {
    o.Const? ==> o == o0
  }

  ghost predicate Inputs(ins: Inst, srcl: seq<Operand>, locals: seq<VType>, defs: set<nat>) {
    && |srcl| == |ins.ins|
    && forall k :: 0 <= k < |srcl| ==>
         InputOk(srcl[k], locals, defs) && srcl[k].ty == ins.ins[k].ty && FromInput(srcl[k], ins.ins[k])
  }

  lemma MovSelected(locals: seq<VType>, defs: set<nat>, r: nat, src: Operand)
    requires VRegOk(r, locals) && src.ty == TypeOf(locals, r) && InputOk(src, locals, defs)
    ensures Selected(Inst(Mov, [VReg(src.ty, r)], [src]), locals, defs)
  {
  }

  /** A temporary `r` has been declared and `src` moved into it. */
  lemma {:induction false} WorkingTemp(n: nat, out0: seq<Inst>, out: seq<Inst>, locals: seq<VType>, ins: Inst,
      srcl: seq<Operand>, x: Option<nat>,
                    src: Operand, srcl': seq<Operand>)
    requires Working(n, out0, out, locals, ins, srcl, x) && N_GLOBALS <= n <= N_GLOBALS + |locals|
    requires |srcl'| == |srcl| && (src.Const? || src.VReg?) && InputOk(src, locals, Defs(out, |out|))
    requires forall k :: 0 <= k < |srcl| ==>
      srcl'[k] == srcl[k] || (srcl'[k] == VReg(src.ty, N_GLOBALS + |locals|) && srcl[k] == src)
    ensures var mov := Inst(Mov, [VReg(src.ty, N_GLOBALS + |locals|)], [src]);
      Working(n, out0, out + [mov], locals + [src.ty], ins, srcl', x)
  {
    var r := N_GLOBALS + |locals|;
    var mov := Inst(Mov, [VReg(src.ty, r)], [src]);
    var locals' := locals + [src.ty];
    var defs := Defs(out, |out|);
    forall k | 0 <= k < |srcl| ensures !(srcl[k].VReg? && srcl[k].r == r) {
      assert InputOk(srcl[k], locals, defs);
    }
    PreparedTemp(n, out[|out0|..], ins, srcl, x, r, src, srcl');
    assert (out + [mov])[|out0|..] == out[|out0|..] + [mov];
    assert (out + [mov])[..|out0|] == out0;
    InputOkMono(src, locals, locals', defs, defs);
    MovSelected(locals', defs, r, src);
    LinearExtend(out, locals, locals', mov);
    forall k | 0 <= k < |srcl'| ensures InputOk(srcl'[k], locals', defs + {r}) && srcl'[k].ty == ins.ins[k].ty {
      assert InputOk(srcl[k], locals, defs) && srcl[k].ty == ins.ins[k].ty;
      if srcl'[k] == srcl[k] {
        InputOkMono(srcl[k], locals, locals', defs, defs + {r});
      }
    }
  }

  lemma WorkingLength(n: nat, out0: seq<Inst>, out: seq<Inst>, locals: seq<VType>, ins: Inst, srcl: seq<Operand>,
      x: Option<nat>)
    requires Working(n, out0, out, locals, ins, srcl, x)
    ensures |srcl| == |ins.ins|
  {
  }

  lemma {:induction false} WorkingInput(n: nat, out0: seq<Inst>, out: seq<Inst>, locals: seq<VType>, ins: Inst,
      srcl: seq<Operand>, x: Option<nat>, i: nat)
    requires Working(n, out0, out, locals, ins, srcl, x) && i < |srcl|
    ensures InputOk(srcl[i], locals, Defs(out, |out|))
  {
  }

  /** The aliased input has been moved into the destination. */
  lemma {:induction false} WorkingAlias(n: nat, out0: seq<Inst>, out: seq<Inst>, locals: seq<VType>, ins: Inst,
      srcl: seq<Operand>)
    requires Working(n, out0, out, locals, ins, srcl, None) && N_GLOBALS <= n <= N_GLOBALS + |locals|
    requires ins.op.Bin? && |ins.outs| == 1 && |srcl| == 2 && srcl[0].ty == I32
    requires ins.outs[0].VReg? && ins.outs[0].ty == I32 && ins.outs[0].r < n && VRegOk(ins.outs[0].r, locals)
      && TypeOf(locals, ins.outs[0].r) == I32
    requires srcl[1].VReg? ==> srcl[1].r != ins.outs[0].r
    ensures Working(n, out0, out + [Inst(Mov, ins.outs, [srcl[0]])], locals, ins, srcl[0 := ins.outs[0]],
      Some(ins.outs[0].r))
  {
    var d := ins.outs[0].r;
    var mov := Inst(Mov, [VReg(I32, d)], [srcl[0]]);
    assert ins.outs == [VReg(I32, d)];
    var defs := Defs(out, |out|);
    assert InputOk(srcl[0], locals, defs) && InputOk(srcl[1], locals, defs);
    PreparedAlias(n, out[|out0|..], ins, srcl, 0, d);
    assert (out + [mov])[|out0|..] == out[|out0|..] + [mov];
    assert (out + [mov])[..|out0|] == out0;
    MovSelected(locals, defs, d, srcl[0]);
    LinearExtend(out, locals, locals, mov);
    var srcl' := srcl[0 := ins.outs[0]];
    forall k | 0 <= k < |srcl'| ensures InputOk(srcl'[k], locals, DefsAfter(defs, mov))
      && srcl'[k].ty == ins.ins[k].ty {
      assert InputOk(srcl[k], locals, defs) && srcl[k].ty == ins.ins[k].ty;
    }
  }

  /** The first operand already sits in the destination, so that no move is needed. */
  predicate StartsInDest(dst: Operand, srcl: seq<Operand>) {
    |srcl| > 0 && dst.VReg? && srcl[0].VReg? && srcl[0].r == dst.r
  }

  class QSel {
    var locals: seq<VType>
    var out: seq<Inst>

    constructor (locals_: seq<VType>)
      ensures locals == locals_ && out == []
    {
      locals, out := locals_, [];
    }

    method CreateTemp(src: Operand) returns (tmp: Operand)
      modifies this
      ensures tmp == VReg(src.ty, N_GLOBALS + old(|locals|))
      ensures locals == old(locals) + [src.ty] && out == old(out) + [Inst(Mov, [tmp], [src])]
      ensures old(CallFree(out)) ==> CallFree(out)
    {
      tmp := VReg(src.ty, N_GLOBALS + |locals|);
      locals := locals + [src.ty];
      out := out + [Inst(Mov, [tmp], [src])];
    }

    /** Move the second input out of the way if it is the destination. */
    method FreeDestination(ins: Inst, srcl: seq<Operand>, ghost n: nat, ghost out0: seq<Inst>)
      returns (srcl': seq<Operand>)
      requires N_GLOBALS <= n <= N_GLOBALS + |locals| && Working(n, out0, out, locals, ins, srcl, None)
      requires |srcl| == 2 && |ins.outs| == 1 && ins.outs[0].VReg? && srcl[1].ty == ins.outs[0].ty == I32
      modifies this
      ensures Working(n, out0, out, locals, ins, srcl', None) && old(locals) <= locals
      ensures |srcl'| == 2 && srcl'[0] == srcl[0]
      ensures if srcl[1].VReg? && srcl[1].r == ins.outs[0].r
              then |locals| == old(|locals|) + 1 && srcl'[1] == VReg(I32, N_GLOBALS + |old(locals)|)
              else locals == old(locals) && srcl' == srcl
      ensures |out| == |old(out)| + |locals| - |old(locals)|
      ensures old(CallFree(out)) ==> CallFree(out)
    {
      var dst := ins.outs[0];
      srcl' := srcl;
      assert InputOk(srcl[1], locals, Defs(out, |out|));
      hide Working, Defs, InputOk, CallFree;
      if srcl[1].VReg? && srcl[1].r == dst.r {
        WorkingTemp(n, out0, out, locals, ins, srcl, None, dst, srcl[1 := VReg(I32, N_GLOBALS + |locals|)]);
        var tmp := CreateTemp(dst);
        srcl' := srcl'[1 := tmp];
      }
    }

    /** Make the first input of a binary operation the same register as its output. */
    method SatisfyAlias(ins: Inst, srcl: seq<Operand>, ghost n: nat, ghost out0: seq<Inst>, ghost locals0: seq<VType>)
      returns (srcl': seq<Operand>, ghost x: Option<nat>)
      requires N_GLOBALS <= n <= N_GLOBALS + |locals| && Working(n, out0, out, locals, ins, srcl, None)
      requires ins.op.Bin? && ArityOk(ins) && TypesOk(ins) && n == N_GLOBALS + |locals0| && locals0 <= locals
      requires OutputOk(ins.op, ins.outs[0], locals0)
      modifies this
      ensures Working(n, out0, out, locals, ins, srcl', x) && old(locals) <= locals
      ensures |srcl'| == 2 && srcl'[0] == ins.outs[0]
      ensures srcl == ins.ins ==> |locals| == old(|locals|) + (if DestIsSecondInput(ins) then 1 else 0)
      ensures srcl[1].Const? ==> srcl'[1] == srcl[1]
      ensures srcl[1].VReg? ==> srcl'[1].VReg?
      ensures |out| == |old(out)| + |locals| - |old(locals)| + if StartsInDest(ins.outs[0], srcl) then 0 else 1
      ensures old(CallFree(out)) ==> CallFree(out)
    {
      var dst := ins.outs[0];
      assert ins.ins[0].ty == I32 && ins.ins[1].ty == I32 && ins.outs[0].ty == I32;
      assert |srcl| == 2 && srcl[0].ty == I32 && srcl[1].ty == I32;
      hide Working, Defs, InputOk, TypesOk, CallFree;
      srcl', x := srcl, None;
      if StartsInDest(dst, srcl) {
        return;
      }
      srcl' := FreeDestination(ins, srcl, n, out0);
      WorkingAlias(n, out0, out, locals, ins, srcl');
      if CallFree(out) {
        CallFreeMore(out, Inst(Mov, [dst], [srcl'[0]]));
      }
      out := out + [Inst(Mov, [dst], [srcl'[0]])];
      assert ins.outs == [dst];
      srcl' := srcl'[0 := dst];
      x := Some(dst.r);
    }

    /** A constant that does not fit its immediate class goes through a temporary. */
    method LowerConstant(ins: Inst, srcl: seq<Operand>, i: nat, ghost x: Option<nat>, ghost n: nat,
        ghost out0: seq<Inst>)
      returns (srcl': seq<Operand>)
      requires N_GLOBALS <= n <= N_GLOBALS + |locals| && Working(n, out0, out, locals, ins, srcl, x) && i < |srcl|
      modifies this
      ensures Working(n, out0, out, locals, ins, srcl', x) && old(locals) <= locals && |srcl'| == |srcl|
      ensures if Unfit(ins.op, srcl, i)
              then srcl' == srcl[i := srcl'[i]] && srcl'[i].VReg? && |locals| == old(|locals|) + 1
              else srcl' == srcl && locals == old(locals)
      ensures |out| == |old(out)| + |locals| - |old(locals)|
      ensures old(CallFree(out)) ==> CallFree(out)
    {
      hide Working, MatchConst, InCt, InputOk, CallFree;
      srcl' := srcl;
      if Unfit(ins.op, srcl, i) {
        var src := srcl[i];
        WorkingInput(n, out0, out, locals, ins, srcl, x, i);
        WorkingTemp(n, out0, out, locals, ins, srcl, x, src, srcl[i := VReg(src.ty, N_GLOBALS + |locals|)]);
        var tmp := CreateTemp(src);
        srcl' := srcl[i := tmp];
      }
    }

    method LowerConstants(ins: Inst, srcl: seq<Operand>, ghost x: Option<nat>, ghost n: nat, ghost out0: seq<Inst>)
      returns (srcl': seq<Operand>)
      requires N_GLOBALS <= n <= N_GLOBALS + |locals| && Working(n, out0, out, locals, ins, srcl, x) && ArityOk(ins)
      requires ins.op.Bin? ==> srcl[0] == ins.outs[0] && srcl[0].VReg?
      modifies this
      ensures Working(n, out0, out, locals, ins, srcl', x) && old(locals) <= locals
      ensures ins.op.Bin? ==> srcl'[0] == ins.outs[0]
      ensures forall k :: 0 <= k < |srcl'| && srcl'[k].Const? ==> MatchConst(srcl'[k].val, InCt(ins.op, k).ci)
      ensures |locals| == old(|locals|) + ConstTemps(ins.op, srcl, |srcl|)
      ensures |out| == |old(out)| + |locals| - |old(locals)|
      ensures old(CallFree(out)) ==> CallFree(out)
    {
      WorkingLength(n, out0, out, locals, ins, srcl, x);
      hide Working, MatchConst, InCt, InputOk, CallFree;
      srcl' := srcl;
      var i := 0;
      while i < |srcl'|
        invariant i <= |srcl'| == |srcl| && N_GLOBALS <= n <= N_GLOBALS + |locals| && old(locals) <= locals
        invariant Working(n, out0, out, locals, ins, srcl', x)
        invariant ins.op.Bin? ==> srcl'[0] == ins.outs[0]
        invariant forall k :: 0 <= k < i && srcl'[k].Const? ==> MatchConst(srcl'[k].val, InCt(ins.op, k).ci)
        invariant forall k :: i <= k < |srcl| ==> srcl'[k] == srcl[k]
        invariant |locals| == old(|locals|) + ConstTemps(ins.op, srcl, i)
        invariant |out| == |old(out)| + |locals| - |old(locals)|
        invariant old(CallFree(out)) ==> CallFree(out)
        decreases |srcl| - i
      {
        srcl' := LowerConstant(ins, srcl', i, x, n, out0);
        i := i + 1;
      }
    }

    /** The inserted moves and the rewritten instruction compute the original result on all prior
        registers, and the rewritten instruction meets every operand constraint. */
    method SelectOperands(ins: Inst, ghost locals0: seq<VType>) returns (ins': Inst)
      requires WellFormed(ins, locals0, Defs(out, |out|)) && !ins.op.Hcall? && locals0 <= locals && Linear(out, locals)
      modifies this
      ensures old(locals) <= locals && |locals| == old(|locals|) + TempsFor(ins)
      ensures |old(out)| <= |out| && out[..|old(out)|] == old(out) && Linear(out, locals)
      ensures Selected(ins', locals, Defs(out, |out|)) && ins'.op == ins.op && ins'.outs == ins.outs
      ensures Defs(old(out), |old(out)|) <= Defs(out, |out|)
      ensures SelectsTo(N_GLOBALS + |locals0|, ins, out[|old(out)|..], ins')
      ensures |out| == |old(out)| + TempsFor(ins) + if ins.op.Bin? && !StartsInDest(ins.outs[0], ins.ins) then 1 else 0
      ensures old(CallFree(out)) ==> CallFree(out)
    {
      hide CallFree;
      ghost var n := N_GLOBALS + |locals0|;
      ghost var out0 := out;
      ghost var x: Option<nat> := None;
      var srcl := ins.ins;
      WorkingStart(n, out, locals0, locals, ins);
      if ins.op.Bin? {
        assert OutputOk(ins.op, ins.outs[0], locals0);
        srcl, x := SatisfyAlias(ins, srcl, n, out0, locals0);
      }
      ghost var srcl0 := srcl;
      srcl := LowerConstants(ins, srcl, x, n, out0);
      ConstTempsAre(ins, srcl0);
      ins' := Inst(ins.op, ins.outs, srcl);
      WorkingDone(n, out0, out, locals0, locals, ins, srcl, x);
    }

    /** Helper calls are left alone. */
    method Visit(ins: Inst, ghost locals0: seq<VType>) returns (ins': Inst)
      requires WellFormed(ins, locals0, Defs(out, |out|)) && locals0 <= locals && Linear(out, locals)
      modifies this
      ensures old(locals) <= locals && |locals| == old(|locals|) + TempsFor(ins)
      ensures |old(out)| <= |out| && out[..|old(out)|] == old(out) && Linear(out, locals)
      ensures Selected(ins', locals, Defs(out, |out|)) && ins'.op == ins.op && ins'.outs == ins.outs
      ensures Defs(old(out), |old(out)|) <= Defs(out, |out|)
      ensures SelectsTo(N_GLOBALS + |locals0|, ins, out[|old(out)|..], ins')
      ensures old(CallFree(out)) ==> CallFree(out)
    {
      hide CallFree;
      if ins.op.Hcall? {
        ins' := ins;
        WorkingStart(N_GLOBALS + |locals0|, out, locals0, locals, ins);
        PreparedDone(N_GLOBALS + |locals0|, [], ins, ins.ins, None, locals0, Defs(out, |out|));
        assert out[|out|..] == [] && ins' == Inst(ins.op, ins.outs, ins.ins);
      } else {
        ins' := SelectOperands(ins, locals0);
      }
    }

    /** Select instruction `k` of a block whose first `k` instructions have been selected. */
    method SelectNext(code: seq<Inst>, k: nat, ghost locals0: seq<VType>) returns (isCall: bool)
      requires CodeWellFormed(code, locals0) && locals0 <= locals && k < |code|
      requires CodeMatches(N_GLOBALS + |locals0|, code[..k], out) && Linear(out, locals)
        && Defs(code, k) <= Defs(out, |out|)
      modifies this
      ensures old(locals) <= locals && |locals| == old(|locals|) + TempsFor(code[k])
      ensures CodeMatches(N_GLOBALS + |locals0|, code[..k + 1], out)
      ensures if k == |code| - 1 then CodeSelected(out, locals)
        else Linear(out, locals) && Defs(code, k + 1) <= Defs(out, |out|)
      ensures isCall <==> code[k].op.Hcall?
      ensures out != [] && LastOp(out) == code[k].op
      ensures old(CallFree(out)) && !isCall ==> CallFree(out)
    {
      hide CallFree;
      ghost var out0 := out;
      assert WellFormedAt(code, k, locals0) && (Terminator(code[k].op) <==> k == |code| - 1);
      WellFormedMono(code[k], locals0, Defs(code, k), Defs(out, |out|));
      var ins' := Visit(code[k], locals0);
      CodeMatchesExtend(N_GLOBALS + |locals0|, code[..k], out0, code[k], out[|out0|..], ins');
      assert code[..k + 1] == code[..k] + [code[k]];
      assert out0 + out[|out0|..] == out;
      if Terminator(ins'.op) {
        LinearTerminated(out, locals, ins');
      } else {
        LinearExtend(out, locals, locals, ins');
      }
      if CallFree(out) && !ins'.op.Hcall? {
        CallFreeMore(out, ins');
      }
      out := out + [ins'];
      isCall := ins'.op.Hcall?;
    }

    method SelectBlock(code: seq<Inst>, ghost locals0: seq<VType>) returns (hasCalls: bool)
      requires CodeWellFormed(code, locals0) && locals0 <= locals
      modifies this
      ensures old(locals) <= locals && |locals| == old(|locals|) + TempsIn(code, |code|)
      ensures CodeSelected(out, locals) && CodeMatches(N_GLOBALS + |locals0|, code, out)
      ensures out != [] && code != [] && LastOp(out) == LastOp(code)
      ensures hasCalls <==> !CallFree(code)
      ensures !hasCalls ==> CallFree(out)
    {
      assert CallFree([]);
      hide CallFree, CodeMatches, Linear, CodeSelected, CodeWellFormed, TempsFor, Terminated;
      out := [];
      hasCalls := false;
      ghost var n := N_GLOBALS + |locals0|;
      var k := 0;
      SelectStart(n, code, locals0, locals);
      while k < |code|
        invariant k <= |code| && old(locals) <= locals && |locals| == old(|locals|) + TempsIn(code, k)
        invariant CodeMatches(n, code[..k], out)
        invariant if k == |code| then CodeSelected(out, locals)
          else Linear(out, locals) && Defs(code, k) <= Defs(out, |out|)
        invariant hasCalls <==> !CallFree(code[..k])
        invariant !hasCalls ==> CallFree(out)
        invariant k > 0 ==> out != [] && LastOp(out) == code[k - 1].op
      {
        CallFreeNext(code, k);
        var isCall := SelectNext(code, k, locals0);
        hasCalls := hasCalls || isCall;
        k := k + 1;
      }
      assert code[..|code|] == code;
    }
  }

  // ----- the pass -----

  method Run(rg: Region) returns (rg': Region, hasCalls: bool)
    requires RegionWellFormed(rg)
    ensures RegionMatches(rg, rg') && RegionSelected(rg') && SameShape(rg, rg')
    ensures |rg'.locals| == |rg.locals| + TempsOf(rg.blocks, |rg.blocks|)
    ensures hasCalls <==> HasCalls(rg)
    ensures !hasCalls ==> !HasCalls(rg')
  {
    hide CodeMatches, CodeSelected, CodeWellFormed, SameBlockShape, TempsFor, CallFree, HasCalls;
    var sel := new QSel(rg.locals);
    var blocks: seq<Block> := [];
    hasCalls := false;
    ghost var n := N_GLOBALS + |rg.locals|;
    while |blocks| < |rg.blocks|
      invariant |blocks| <= |rg.blocks| && fresh(sel) && rg.locals <= sel.locals
      invariant |sel.locals| == |rg.locals| + TempsOf(rg.blocks, |blocks|)
      invariant forall b :: 0 <= b < |blocks| ==>
        && blocks[b].succs == rg.blocks[b].succs && CodeSelected(blocks[b].code, sel.locals)
        && CodeMatches(n, rg.blocks[b].code, blocks[b].code) && SameBlockShape(rg.blocks[b], blocks[b])
      invariant hasCalls <==> exists b :: 0 <= b < |blocks| && !CallFree(rg.blocks[b].code)
      invariant !hasCalls ==> forall b :: 0 <= b < |blocks| ==> CallFree(blocks[b].code)
      decreases |rg.blocks| - |blocks|
    {
      var bb := rg.blocks[|blocks|];
      ghost var locals0 := sel.locals;
      var calls := sel.SelectBlock(bb.code, rg.locals);
      forall b | 0 <= b < |blocks| ensures CodeSelected(blocks[b].code, sel.locals) {
        CodeSelectedMono(blocks[b].code, locals0, sel.locals);
      }
      ShapeOfSelected(bb, sel.out, rg.locals, sel.locals);
      hasCalls := hasCalls || calls;
      blocks := blocks + [Block(sel.out, bb.succs)];
    }
    rg' := Region(blocks, sel.locals);
    CallFreeRegion(rg);
    CallFreeRegion(rg');
  }

  lemma {:induction false} SelectStart(n: nat, code: seq<Inst>, locals0: seq<VType>, locals: seq<VType>)
    requires CodeWellFormed(code, locals0)
    ensures code != [] && code[..0] == [] && CodeMatches(n, code[..0], []) && Linear([], locals)
  {
  }

  lemma ShapeOfSelected(bb: Block, out: seq<Inst>, locals0: seq<VType>, locals: seq<VType>)
    requires CodeWellFormed(bb.code, locals0) && CodeSelected(out, locals) && out != [] && bb.code != []
      && LastOp(out) == LastOp(bb.code)
    ensures SameBlockShape(bb, Block(out, bb.succs))
  {
  }

  lemma {:induction false} LinearTerminated(code: seq<Inst>, locals: seq<VType>, ins: Inst)
    requires Linear(code, locals) && Selected(ins, locals, Defs(code, |code|)) && Terminator(ins.op)
    ensures CodeSelected(code + [ins], locals)
  {
    var code' := code + [ins];
    forall j | 0 <= j < |code'|
      ensures SelectedAt(code', j, locals) && (Terminator(code'[j].op) <==> j == |code'| - 1)
    {
      DefsPrefix(code, [ins], j);
      if j < |code| {
        assert Plain(code, j, locals);
      }
    }
  }

  lemma {:induction false} CodeSelectedMono(code: seq<Inst>, locals: seq<VType>, locals': seq<VType>)
    requires CodeSelected(code, locals) && locals <= locals'
    ensures CodeSelected(code, locals')
  {
    forall j | 0 <= j < |code| ensures SelectedAt(code, j, locals') {
      assert SelectedAt(code, j, locals);
      SelectedMono(code[j], locals, locals', Defs(code, j));
    }
  }

  /** Constants among the first `n` inputs that need a temporary. */
  function ConstTemps(op: Op, srcl: seq<Operand>, n: nat): nat
    requires n <= |srcl|
  {
    if n == 0 then 0
    else ConstTemps(op, srcl, n - 1) + if Unfit(op, srcl, n - 1) then 1 else 0
  }

  /** Input `i` is a constant that its immediate class does not hold. */
  predicate Unfit(op: Op, srcl: seq<Operand>, i: nat) {
    i < |srcl| && srcl[i].Const? && !MatchConst(srcl[i].val, InCt(op, i).ci)
  }

  lemma {:induction false} ConstTempsAre(ins: Inst, srcl: seq<Operand>)
    requires ArityOk(ins) && |srcl| == |ins.ins| && !ins.op.Hcall?
    requires if ins.op.Bin? then srcl[0].VReg? && (ins.ins[1].Const? ==> srcl[1] == ins.ins[1])
      && (ins.ins[1].VReg? ==> srcl[1].VReg?) && (ins.ins[1].Const? || ins.ins[1].VReg?) else srcl == ins.ins
    ensures ConstTemps(ins.op, srcl, |srcl|) == if ins.op.Bin? then ConstTemp(ins, 1) else TempsFor(ins)
  {
    assert |srcl| >= 1 ==> ConstTemps(ins.op, srcl, 1) == if srcl[0].Const?
      && !MatchConst(srcl[0].val, InCt(ins.op, 0).ci) then 1 else 0;
  }

  lemma {:induction false} WorkingStart(n: nat, out: seq<Inst>, locals0: seq<VType>, locals: seq<VType>, ins: Inst)
    requires WellFormed(ins, locals0, Defs(out, |out|)) && locals0 <= locals && Linear(out, locals)
      && n == N_GLOBALS + |locals0|
    ensures Working(n, out, out, locals, ins, ins.ins, None)
  {
    assert out[|out|..] == [] && out[..|out|] == out;
    PreparedStart(n, ins, locals0, Defs(out, |out|));
    forall k | 0 <= k < |ins.ins| ensures InputOk(ins.ins[k], locals, Defs(out, |out|)) {
      InputOkMono(ins.ins[k], locals0, locals, Defs(out, |out|), Defs(out, |out|));
    }
  }

  lemma {:induction false} WorkingDone(n: nat, out0: seq<Inst>, out: seq<Inst>, locals0: seq<VType>,
      locals: seq<VType>, ins: Inst, srcl: seq<Operand>, x: Option<nat>)
    requires Working(n, out0, out, locals, ins, srcl, x) && n == N_GLOBALS + |locals0| && locals0 <= locals
    requires WellFormed(ins, locals0, Defs(out0, |out0|)) && !ins.op.Hcall?
    requires ins.op.Bin? ==> srcl[0] == ins.outs[0]
    requires forall k :: 0 <= k < |srcl| && srcl[k].Const? ==> MatchConst(srcl[k].val, InCt(ins.op, k).ci)
    ensures Selected(Inst(ins.op, ins.outs, srcl), locals, Defs(out, |out|))
    ensures SelectsTo(n, ins, out[|out0|..], Inst(ins.op, ins.outs, srcl))
  {
    PreparedDone(n, out[|out0|..], ins, srcl, x, locals0, Defs(out0, |out0|));
    var ins' := Inst(ins.op, ins.outs, srcl);
    forall i | 0 <= i < |ins.outs| ensures OutputOk(ins.op, ins.outs[i], locals) {
      assert OutputOk(ins.op, ins.outs[i], locals0);
    }
    assert TypesOk(ins') by {
      assert forall k :: 0 <= k < |srcl| ==> srcl[k].ty == ins.ins[k].ty;
    }
    forall i | 0 <= i < |srcl| ensures InputOk(srcl[i], locals, Defs(out, |out|)) && InputFits(ins', i) {
      AliasesAreBinops(ins.op, i);
    }
  }
}
