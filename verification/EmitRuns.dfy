/** The emitter as a pass over a region, and the theorem that the linear code it lays out follows
    the control flow graph. */
module EmitRuns {
  import opened Words
  import opened Qir
  import opened Machine
  import opened SelForm
  import opened Emit

  /** Linear code and the position each block's label is bound to. */
  datatype XProg = XProg(buf: seq<XInst>, labels: seq<nat>)

  class QEmit {
    var buf: seq<XInst>
    var labels: seq<nat>
    const isLeaf: bool

    constructor (isLeaf_: bool)
      ensures buf == [] && labels == [] && isLeaf == isLeaf_
    {
      buf, labels, isLeaf := [], [], isLeaf_;
    }

    method Put(x: XInst)
      modifies this`buf
      ensures buf == old(buf) + [x]
    {
      buf := buf + [x];
    }

    method EmitSetcc(ins: Inst, ghost b: nat, ghost succs: seq<nat>) returns (ghost xs: seq<XInst>)
      requires ins.op.Setcc? && Emittable(ins)
      modifies this`buf
      ensures buf == old(buf) + xs && InstEmitted(ins, xs, b, succs) && Spared(xs)
    {
      hide InstEmitted;
      var prd, cc := ins.outs[0], ins.op.cc;
      var dstAliased := SetccAliased(ins);
      if !dstAliased {
        Put(XAlu(Xor, prd, prd));
      }
      Put(XCmp(ins.ins[0], ins.ins[1]));
      Put(XSetcc(cc, prd));
      if dstAliased {
        Put(XMovzx8(prd));
        xs := [XCmp(ins.ins[0], ins.ins[1])] + ([XSetcc(cc, prd)] + [XMovzx8(prd)]);
      } else {
        xs := [XAlu(Xor, prd, prd)] + ([XCmp(ins.ins[0], ins.ins[1])] + [XSetcc(cc, prd)]);
      }
      SetccEmitted(ins, xs, b, succs);
    }

    method EmitBr(ins: Inst, b: nat, succs: seq<nat>) returns (ghost xs: seq<XInst>)
      requires ins.op.Br? && Emittable(ins) && |succs| >= 1
      modifies this`buf
      ensures |buf| == |old(buf)| + if succs[0] == b + 1 then 0 else 1
      ensures buf == old(buf) + xs && InstEmitted(ins, xs, b, succs) && Spared(xs)
    {
      BrEmitted(ins, b, succs);
      xs := [];
      if succs[0] != b + 1 {
        Put(XJmp(succs[0]));
        xs := [XJmp(succs[0])];
      }
    }

    method EmitBrcc(ins: Inst, b: nat, succs: seq<nat>) returns (ghost xs: seq<XInst>)
      requires ins.op.Brcc? && ArityOk(ins) && |succs| == 2
      modifies this`buf
      ensures |buf| == |old(buf)| + if succs[1] == b + 1 then 2 else 3
      ensures buf == old(buf) + xs && InstEmitted(ins, xs, b, succs) && Spared(xs)
    {
      hide InstEmitted;
      var vs0, vs1, cc := ins.ins[0], ins.ins[1], ins.op.cc;
      if vs0.Const? {
        vs0, vs1, cc := vs1, vs0, SwapCC(cc);
      }
      Put(XCmp(vs0, vs1));
      Put(XJcc(cc, succs[0]));
      if succs[1] != b + 1 {
        Put(XJmp(succs[1]));
      }
      xs := [XCmp(vs0, vs1)] + ([XJcc(cc, succs[0])] + if succs[1] != b + 1 then [XJmp(succs[1])] else []);
      BrccEmitted(ins, b, succs, xs);
    }

    method EmitInst(ins: Inst, b: nat, succs: seq<nat>) returns (ghost xs: seq<XInst>)
      requires Emittable(ins) && SuccsFit(ins.op, succs) && (ins.op.Hcall? ==> !isLeaf)
      modifies this`buf
      ensures buf == old(buf) + xs && InstEmitted(ins, xs, b, succs) && Spared(xs)
    {
      hide InstEmitted;
      match ins.op {
        case Hcall(stub) =>
          assert !isLeaf;
          CallEmitted(ins, b, succs);
          Put(XCall(stub, ins.ins[0]));
          xs := [XCall(stub, ins.ins[0])];
        case Br =>
          xs := EmitBr(ins, b, succs);
        case Brcc(_) =>
          xs := EmitBrcc(ins, b, succs);
        case GBr(tpc) =>
          ExitEmitted(ins, b, succs);
          Put(XSlot(tpc));
          xs := [XSlot(tpc)];
        case GBrind =>
          ExitEmitted(ins, b, succs);
          Put(XBrind);
          xs := [XBrind];
        case VMLoad(sz, sgn) =>
          LoadEmitted(ins, b, succs);
          Put(XLoad(sz, sgn, ins.outs[0], ins.ins[0]));
          xs := [XLoad(sz, sgn, ins.outs[0], ins.ins[0])];
        case VMStore(sz) =>
          StoreEmitted(ins, b, succs);
          Put(XStore(sz, ins.ins[0], ins.ins[1]));
          xs := [XStore(sz, ins.ins[0], ins.ins[1])];
        case Setcc(_) =>
          xs := EmitSetcc(ins, b, succs);
        case Mov =>
          MovEmitted(ins, b, succs);
          Put(XMov(ins.outs[0], ins.ins[0]));
          xs := [XMov(ins.outs[0], ins.ins[0])];
        case Bin(bin) =>
          BinEmitted(ins, b, succs);
          Put(XAlu(bin, ins.outs[0], ins.ins[1]));
          xs := [XAlu(bin, ins.outs[0], ins.ins[1])];
      }
    }

    /** Bind the block's label and emit its instructions. */
    method EmitBlock(bb: Block, b: nat) returns (ghost xs: seq<XInst>)
      requires BlockEmittable(bb) && (isLeaf ==> CallFree(bb.code))
      modifies this
      ensures labels == old(labels) + [|old(buf)|] && buf == old(buf) + xs
      ensures CodeEmitted(bb.code, xs, b, bb.succs) && Spared(xs)
    {
      assert CodeEmitted([], [], b, bb.succs);
      hide CodeEmitted, InstEmitted, Emittable;
      labels := labels + [|buf|];
      xs := [];
      var i := 0;
      assert bb.code[..0] == [];
      while i < |bb.code|
        invariant i <= |bb.code| && buf == old(buf) + xs && labels == old(labels) + [|old(buf)|]
        invariant CodeEmitted(bb.code[..i], xs, b, bb.succs) && Spared(xs)
      {
        var ins := bb.code[i];
        assert Emittable(ins) && (Terminator(ins.op) ==> i == |bb.code| - 1);
        assert forall j :: 0 <= j < i ==> !Terminator(bb.code[..i][j].op);
        ghost var ys := EmitInst(ins, b, bb.succs);
        CodeEmittedExtend(bb.code[..i], xs, ins, ys, b, bb.succs);
        assert bb.code[..i + 1] == bb.code[..i] + [ins];
        xs := xs + ys;
        i := i + 1;
      }
      assert bb.code[..|bb.code|] == bb.code;
    }
  }

  lemma {:induction false} SetccEmitted(ins: Inst, xs: seq<XInst>, b: nat, succs: seq<nat>)
    requires ins.op.Setcc? && Emittable(ins)
    requires var d := ins.outs[0];
      xs == if SetccAliased(ins) then [XCmp(ins.ins[0], ins.ins[1])] + ([XSetcc(ins.op.cc, d)] + [XMovzx8(d)])
            else [XAlu(Xor, d, d)] + ([XCmp(ins.ins[0], ins.ins[1])] + [XSetcc(ins.op.cc, d)])
    ensures InstEmitted(ins, xs, b, succs)
  {
    hide XSeq, Alu, Plus, Load, Store, Holds;
    forall s ensures RunMatches(XSeq(xs, s), PStep(ins, s.p), b, succs) {
      if SetccAliased(ins) {
        SetccExtend(ins, s);
      } else {
        SetccClear(ins, s);
      }
    }
  }

  predicate Spared(xs: seq<XInst>) {
    forall x :: x in xs ==> Spares(x)
  }

  predicate BlockEmittable(bb: Block) {
    && Terminated(bb.code)
    && forall i :: 0 <= i < |bb.code| ==> Emittable(bb.code[i]) && SuccsFit(bb.code[i].op, bb.succs)
  }

  // ----- the linear machine -----

  /** `Left` is out of the region through the branch at `pc`. */
  datatype XPos = At(pc: nat) | Left(pc: nat, ip: W, indirect: bool) | Stopped | Wedged

  datatype XTrace = XTrace(s: XState, ev: seq<Event>, pos: XPos)

  /** At most `n` steps from position `pc`. */
  function Linear(prog: XProg, pc: nat, s: XState, n: nat): XTrace
    decreases n
  {
    if n == 0 then XTrace(s, [], At(pc))
    else if pc >= |prog.buf| then XTrace(s, [], Wedged)
    else
      var r := XStep(prog.buf[pc], s);
      match r.next
      case XFall => Prefixed(r.ev, Linear(prog, pc + 1, r.s, n - 1))
      case XGoto(l) => if l < |prog.labels| then Prefixed(r.ev, Linear(prog, prog.labels[l], r.s, n - 1))
        else XTrace(r.s, r.ev, Wedged)
      case XLeave(ip, indirect) => XTrace(r.s, r.ev, Left(pc, ip, indirect))
      case XHalt => XTrace(r.s, r.ev, Stopped)
      case XStuck => XTrace(r.s, r.ev, Wedged)
  }

  function Prefixed(ev: seq<Event>, t: XTrace): XTrace {
    t.(ev := ev + t.ev)
  }

  lemma {:induction false} LinearAppend(prog: XProg, pc: nat, s: XState, m: nat, n: nat)
    requires Linear(prog, pc, s, m).pos.At?
    ensures var t := Linear(prog, pc, s, m);
      Linear(prog, pc, s, m + n) == Prefixed(t.ev, Linear(prog, t.pos.pc, t.s, n))
    decreases m
  {
    hide XStep;
    if m == 0 {
      var u := Linear(prog, pc, s, n);
      assert [] + u.ev == u.ev;
    } else {
      var r := XStep(prog.buf[pc], s);
      var pc' := if r.next.XFall? then pc + 1 else prog.labels[r.next.l];
      LinearAppend(prog, pc', r.s, m - 1, n);
      var t := Linear(prog, pc', r.s, m - 1);
      var u := Linear(prog, t.pos.pc, t.s, n);
      assert r.ev + (t.ev + u.ev) == (r.ev + t.ev) + u.ev;
    }
  }

  /** Where a straight piece of code that ends before `end` leads. */
  predicate Placed(prog: XProg, next: XNext, end: nat, pos: XPos) {
    match next
    case XFall => pos == At(end)
    case XGoto(l) => pos == if l < |prog.labels| then At(prog.labels[l]) else Wedged
    case XLeave(ip, indirect) => pos.Left? && pos.ip == ip && pos.indirect == indirect
    case XHalt => pos == Stopped
    case XStuck => pos == Wedged
  }

  lemma {:induction false} PieceRuns(prog: XProg, pc: nat, xs: seq<XInst>, s: XState) returns (n: nat)
    requires pc + |xs| <= |prog.buf| && prog.buf[pc..pc + |xs|] == xs
    ensures var r, t := XSeq(xs, s), Linear(prog, pc, s, n);
      t.s == r.s && t.ev == r.ev && Placed(prog, r.next, pc + |xs|, t.pos)
    ensures n == 0 ==> xs == []
    decreases |xs|
  {
    hide XStep;
    n := 0;
    if xs != [] {
      assert prog.buf[pc] == xs[0];
      var r := XStep(xs[0], s);
      if r.next.XFall? {
        assert prog.buf[pc + 1..pc + |xs|] == xs[1..];
        n := PieceRuns(prog, pc + 1, xs[1..], r.s);
        n := n + 1;
      } else {
        n := 1;
        if r.next.XGoto? && r.next.l < |prog.labels| {
          assert Linear(prog, prog.labels[r.next.l], r.s, 0) == XTrace(r.s, [], At(prog.labels[r.next.l]));
          assert r.ev + [] == r.ev;
        }
      }
    }
  }

  // ----- layout -----

  /** The pieces of code of the blocks lie in order, each bound to its label. */
  ghost predicate Laid(rg: Region, prog: XProg, segs: seq<seq<XInst>>) {
    && |prog.labels| == |rg.blocks| == |segs|
    && forall b :: 0 <= b < |segs| ==> LaidAt(rg, prog, segs, b)
  }

  ghost predicate LaidAt(rg: Region, prog: XProg, segs: seq<seq<XInst>>, b: nat)
    requires |prog.labels| == |rg.blocks| == |segs| && b < |segs|
  {
    var pc := prog.labels[b];
    && pc + |segs[b]| <= |prog.buf| && prog.buf[pc..pc + |segs[b]|] == segs[b]
    && (if b + 1 < |segs| then prog.labels[b + 1] == pc + |segs[b]| else |prog.buf| == pc + |segs[b]|)
    && CodeEmitted(rg.blocks[b].code, segs[b], b, rg.blocks[b].succs)
  }

  predicate RegionLaidOut(rg: Region) {
    && (forall b :: 0 <= b < |rg.blocks| ==> BlockEmittable(rg.blocks[b]))
    && (forall b, k :: 0 <= b < |rg.blocks| && 0 <= k < |rg.blocks[b].succs| ==> rg.blocks[b].succs[k] < |rg.blocks|)
  }

  /** A leaf, which sets up no frame, has no helper calls. */
  method EmitRegion(rg: Region, isLeaf: bool) returns (prog: XProg, ghost segs: seq<seq<XInst>>)
    requires RegionLaidOut(rg) && (HasCalls(rg) ==> !isLeaf)
    ensures Laid(rg, prog, segs) && Spared(prog.buf)
    ensures |prog.labels| == |rg.blocks|
  {
    hide CodeEmitted, BlockEmittable, CallFree, HasCalls;
    CallFreeRegion(rg);
    var ce := new QEmit(isLeaf);
    segs := [];
    var b := 0;
    while b < |rg.blocks|
      invariant b <= |rg.blocks| && fresh(ce) && |ce.labels| == |segs| == b && ce.isLeaf == isLeaf
      invariant (b == 0 ==> ce.buf == []) && Spared(ce.buf)
      invariant Laid(Region(rg.blocks[..b], rg.locals), XProg(ce.buf, ce.labels), segs)
    {
      ghost var old_ := XProg(ce.buf, ce.labels);
      ghost var xs := ce.EmitBlock(rg.blocks[b], b);
      LaidExtend(rg, b, old_, segs, xs, XProg(ce.buf, ce.labels));
      segs := segs + [xs];
      b := b + 1;
    }
    assert Region(rg.blocks[..b], rg.locals) == rg;
    prog := XProg(ce.buf, ce.labels);
  }

  lemma LaidExtend(rg: Region, b: nat, prog: XProg, segs: seq<seq<XInst>>, xs: seq<XInst>, prog': XProg)
    requires b < |rg.blocks| && Laid(Region(rg.blocks[..b], rg.locals), prog, segs) && (b == 0 ==> prog.buf == [])
    requires prog' == XProg(prog.buf + xs, prog.labels + [|prog.buf|])
      && CodeEmitted(rg.blocks[b].code, xs, b, rg.blocks[b].succs)
    ensures Laid(Region(rg.blocks[..b + 1], rg.locals), prog', segs + [xs])
  {
    hide CodeEmitted;
    var rg0, rg1, segs' := Region(rg.blocks[..b], rg.locals), Region(rg.blocks[..b + 1], rg.locals), segs + [xs];
    forall c | 0 <= c < |segs'| ensures LaidAt(rg1, prog', segs', c) {
      if c < b {
        assert LaidAt(rg0, prog, segs, c);
        var pc := prog.labels[c];
        assert prog'.buf[pc..pc + |segs[c]|] == prog.buf[pc..pc + |segs[c]|];
      }
    }
  }

  /** Block layout preserves control flow: every run of the region is a run of the linear code,
      with the same machine state and events, at the label of the block the graph names. */
  lemma {:induction false} LayoutPreservesRuns(rg: Region, prog: XProg, segs: seq<seq<XInst>>, b: nat, s: XState,
      n: nat) returns (m: nat)
    requires Laid(rg, prog, segs) && RegionLaidOut(rg) && b < |rg.blocks|
    ensures var r := PRegion(rg, b, s.p, n);
      var t := Linear(prog, prog.labels[b], s, m);
      && t.s.p == r.s && t.ev == r.ev
      && (match r.next
          case Fall => false
          case Jump(k) => k < |rg.blocks| && t.pos == At(prog.labels[k])
          case Leave(ip, indirect) => t.pos.Left? && t.pos.ip == ip && t.pos.indirect == indirect
          case Halt => t.pos == Stopped)
    ensures var r := PRegion(rg, b, s.p, n); r.next.Jump? ==> n <= Blocks(m, |rg.blocks|) + r.next.i - b
    decreases n
  {
    hide XStep, XSeq, PExec, Linear, Blocks;
    if n == 0 {
      m := 0;
      BlocksLater(0, 0, |rg.blocks|);
      LinearZero(prog, prog.labels[b], s);
    } else {
      assert LaidAt(rg, prog, segs, b) && BlockEmittable(rg.blocks[b]);
      var code, succs := rg.blocks[b].code, rg.blocks[b].succs;
      m := PieceRuns(prog, prog.labels[b], segs[b], s);
      var x, r := XSeq(segs[b], s), PExec(code, s.p);
      assert RunMatches(x, r, b, succs);
      PhysLeaves(code, s.p);
      if r.next.Jump? {
        var k := succs[r.next.i];
        var j := LayoutPreservesRuns(rg, prog, segs, k, x.s, n - 1);
        LinearAppend(prog, prog.labels[b], s, m, j);
        BlocksLater(m, j, |rg.blocks|);
        if m == 0 {
          EmptyFalls(segs[b], s);
        }
        m := m + j;
      }
    }
  }

  /** A bound on the blocks that `m` machine steps run through: only a fall to the next block is free. */
  function Blocks(m: nat, count: nat): nat {
    m * count
  }

  lemma BlocksLater(p: nat, j: nat, count: nat)
    ensures Blocks(0, count) == 0 && Blocks(p + j, count) >= Blocks(j, count) + if p > 0 then count else 0
  {
    assert (p + j) * count == p * count + j * count;
    if p > 0 {
      assert p * count == count + (p - 1) * count;
    }
  }

  lemma BlocksAtLeast(n: nat, count: nat)
    requires count > 0
    ensures Blocks(n, count) >= n
  {
    assert n * count == n + n * (count - 1);
  }

  /** Enough blocks take enough machine steps. */
  lemma BlocksEnough(n: nat, m: nat, count: nat, k: nat)
    requires k < count && Blocks(n + 1, count) <= Blocks(m, count) + k
    ensures m > n && Blocks(n + 1, count) >= n
  {
    hide Blocks;
    BlocksAtLeast(n + 1, count);
    if m <= n {
      BlocksLater(n + 1 - m, m, count);
    }
  }

  /** Code whose operations spare the base registers finds them unchanged at every point of a run. */
  lemma {:induction false} LinearKeepsBases(prog: XProg, pc: nat, s: XState, m: nat)
    requires Spared(prog.buf)
    ensures SameBases(s.p, Linear(prog, pc, s, m).s.p)
    decreases m
  {
    hide XStep, Spares;
    if m > 0 && pc < |prog.buf| {
      var x := prog.buf[pc];
      XStepKeepsBases(x, s);
      var r := XStep(x, s);
      if r.next.XFall? {
        LinearKeepsBases(prog, pc + 1, r.s, m - 1);
      } else if r.next.XGoto? && r.next.l < |prog.labels| {
        LinearKeepsBases(prog, prog.labels[r.next.l], r.s, m - 1);
      }
    }
  }

  /** More machine steps only add events. */
  lemma {:induction false} LinearEvents(prog: XProg, pc: nat, s: XState, m: nat, n: nat)
    requires m <= n
    ensures Linear(prog, pc, s, m).ev <= Linear(prog, pc, s, n).ev
  {
    hide Linear;
    if Linear(prog, pc, s, m).pos.At? {
      LinearAppend(prog, pc, s, m, n - m);
    } else {
      LinearStable(prog, pc, s, m, n);
    }
  }

  lemma {:induction false} LinearStable(prog: XProg, pc: nat, s: XState, m: nat, n: nat)
    requires !Linear(prog, pc, s, m).pos.At? && m <= n
    ensures Linear(prog, pc, s, n) == Linear(prog, pc, s, m)
    decreases m
  {
    hide XStep;
    if pc < |prog.buf| {
      var r := XStep(prog.buf[pc], s);
      if r.next.XFall? {
        LinearStable(prog, pc + 1, r.s, m - 1, n - 1);
      } else if r.next.XGoto? && r.next.l < |prog.labels| {
        LinearStable(prog, prog.labels[r.next.l], r.s, m - 1, n - 1);
      }
    }
  }

  /** Code is left only through a branch slot or an indirect branch. */
  lemma {:induction false} LeftAt(prog: XProg, pc: nat, s: XState, m: nat)
    requires Linear(prog, pc, s, m).pos.Left?
    ensures var l := Linear(prog, pc, s, m).pos;
      l.pc < |prog.buf| && (if l.indirect then prog.buf[l.pc] == XBrind else prog.buf[l.pc] == XSlot(l.ip))
    decreases m
  {
    hide PRead, PWrite, Alu, Plus, Holds, Load, Store, Merge, Trunc, PStep;
    var r := XStep(prog.buf[pc], s);
    if r.next.XFall? {
      LeftAt(prog, pc + 1, r.s, m - 1);
    } else if r.next.XGoto? {
      LeftAt(prog, prog.labels[r.next.l], r.s, m - 1);
    }
  }

  ghost predicate Finished(t: XTrace, r: PRun) {
    && t.s.p == r.s && t.ev == r.ev
    && (match r.next
        case Leave(ip, indirect) => t.pos.Left? && t.pos.ip == ip && t.pos.indirect == indirect
        case Halt => t.pos == Stopped
        case _ => false)
  }

  /** The other direction: linear code that has come to an end got there along a run of the
      region. In particular it never runs off the code or reads flags that were not set. */
  lemma {:induction false} LayoutReflectsRuns(rg: Region, prog: XProg, segs: seq<seq<XInst>>, b: nat, s: XState,
      m: nat) returns (n: nat)
    requires Laid(rg, prog, segs) && RegionLaidOut(rg) && b < |rg.blocks| && !Linear(prog, prog.labels[b], s, m).pos.At?
    ensures n > 0 && Finished(Linear(prog, prog.labels[b], s, m), PRegion(rg, b, s.p, n))
    decreases m, |rg.blocks| - b
  {
    hide XStep, XSeq, PExec, Linear;
    assert LaidAt(rg, prog, segs, b) && BlockEmittable(rg.blocks[b]);
    var pc, code, succs := prog.labels[b], rg.blocks[b].code, rg.blocks[b].succs;
    var p := PieceRuns(prog, pc, segs[b], s);
    var x, r := XSeq(segs[b], s), PExec(code, s.p);
    assert RunMatches(x, r, b, succs);
    PhysLeaves(code, s.p);
    if p > m {
      LinearStable(prog, pc, s, m, p);
    }
    n := 1;
    if r.next.Jump? {
      var k := succs[r.next.i];
      LinearAppend(prog, pc, s, p, m - p);
      if p == 0 {
        EmptyFalls(segs[b], s);
      }
      n := LayoutReflectsRuns(rg, prog, segs, k, x.s, m - p);
      n := n + 1;
    } else if p < m {
      LinearStable(prog, pc, s, p, m);
    }
  }

  lemma {:induction false} EmptyFalls(xs: seq<XInst>, s: XState)
    requires xs == []
    ensures XSeq(xs, s).next == XFall
  {
  }

  lemma {:induction false} LinearZero(prog: XProg, pc: nat, s: XState)
    ensures Linear(prog, pc, s, 0) == XTrace(s, [], At(pc))
  {
  }

  lemma {:induction false} PhysLeaves(code: seq<Inst>, s: PState)
    requires Terminated(code)
    ensures !PExec(code, s).next.Fall?
  {
    hide Alu, Plus, Load, Store, Holds;
    assert Terminator(code[|code| - 1].op);
    if |code| > 1 {
      assert Terminated(code[1..]) by {
        forall i | 0 <= i < |code[1..]| ensures Terminator(code[1..][i].op) <==> i == |code[1..]| - 1 {
          assert code[1..][i] == code[i + 1];
        }
      }
      PhysLeaves(code[1..], PStep(code[0], s).s);
    }
  }
}
