/** The bytes of the branch slots under the table of patched slots: a patched slot executes as a jump to
    the code the table names, a lazy one as a call of the linker whose return address names the slot. */
module SlotBytes {
  import opened Words
  import opened Emit
  import opened EmitRuns
  import opened Machine
  import opened Guest
  import opened Pipeline
  import opened TCache
  import opened BranchSlots
  import opened Chain
  import opened ChainRuns

  /** Where slots and code lie, and the linker stub. */
  datatype Layout = Layout(slotAt: SlotId -> nat, codeAt: nat -> nat, stub: nat)

  ghost predicate LayoutOk(l: Layout) {
    l.stub < M64 && forall c :: l.codeAt(c) < M64
  }

  type SlotMem = map<SlotId, seq<Byte>>

  /** What executing the slot does, according to the table. */
  function Expected(l: Layout, t: Tables, slot: SlotId): Action {
    if slot in t.patched then Action.Jump(l.codeAt(t.patched[slot])) else Call(l.stub, l.slotAt(slot) + CALL_SIZE)
  }

  ghost predicate Shown(l: Layout, mem: SlotMem, t: Tables, slot: SlotId) {
    slot in mem && |mem[slot]| == CODE_SIZE && Executes(mem[slot], l.slotAt(slot)) == Expected(l, t, slot)
  }

  ghost predicate Shows(l: Layout, mem: SlotMem, t: Tables) {
    forall slot :: IsSlot(t.store, slot) ==> Shown(l, mem, t, slot)
  }

  /** The call of a lazy slot identifies it, and a patched slot calls nothing. */
  lemma CallerIsSlot(l: Layout, mem: SlotMem, t: Tables, slot: SlotId)
    requires Shows(l, mem, t) && IsSlot(t.store, slot)
    ensures var a := Executes(mem[slot], l.slotAt(slot));
      && (a.Call? <==> slot !in t.patched)
      && (a.Call? ==> a.to == l.stub && FromCallPtrRetaddr(a.ret) == l.slotAt(slot))
      && (a.Jump? ==> slot in t.patched && a.to == l.codeAt(t.patched[slot]))
  {
    hide Executes, IsSlot;
    assert Shown(l, mem, t, slot);
  }

  // ----- what the steps write -----

  function Link1(l: Layout, mem: SlotMem, slot: SlotId, code: nat): SlotMem
    requires slot in mem && |mem[slot]| == CODE_SIZE
  {
    mem[slot := Linked(mem[slot], l.slotAt(slot), l.codeAt(code))]
  }

  /** The slots of new code, each a lazy call. */
  function LazySlots(l: Layout, code: nat, prog: XProg): SlotMem {
    var ids := set pc: nat | pc < |prog.buf| && prog.buf[pc].XSlot? :: SlotId(code, pc);
    map id | id in ids :: CallAbs(l.stub)
  }

  lemma LinkShows(l: Layout, mem: SlotMem, t: Tables, slot: SlotId, tb: TBlock)
    requires LayoutOk(l) && Shows(l, mem, t) && IsSlot(t.store, slot)
    ensures slot in mem && |mem[slot]| == CODE_SIZE && Shows(l, Link1(l, mem, slot, tb.code), Link(t, slot, tb))
  {
    hide Executes, IsSlot, Linked;
    assert Shown(l, mem, t, slot);
    LinkedExecutes(mem[slot], l.slotAt(slot), l.codeAt(tb.code));
    var mem', u := Link1(l, mem, slot, tb.code), Link(t, slot, tb);
    forall sl | IsSlot(u.store, sl) ensures Shown(l, mem', u, sl) {
      assert Shown(l, mem, t, sl);
    }
  }

  lemma CompileShows(l: Layout, mem: SlotMem, t: Tables, ip: W, prog: XProg)
    requires LayoutOk(l) && Shows(l, mem, t) && forall sl :: sl in t.patched ==> sl.code < |t.store|
    ensures Shows(l, mem + LazySlots(l, |t.store|, prog), Compiled(t, ip, prog))
  {
    hide Executes, CallAbs, L1Key, AfterInsert;
    var lazy, u := LazySlots(l, |t.store|, prog), Compiled(t, ip, prog);
    forall sl | IsSlot(u.store, sl) ensures Shown(l, mem + lazy, u, sl) {
      if sl.code < |t.store| {
        assert IsSlot(t.store, sl);
        assert Shown(l, mem, t, sl);
      } else {
        AbsExecutes(l.slotAt(sl), l.stub);
        assert sl in lazy && lazy[sl] == CallAbs(l.stub);
        CallSize(l.stub);
      }
    }
  }

  lemma CallSize(to: nat)
    ensures |CallAbs(to)| == CODE_SIZE
  {
  }

  lemma SameShows(l: Layout, mem: SlotMem, t: Tables, u: Tables)
    requires Shows(l, mem, t) && u.store == t.store && u.patched == t.patched
    ensures Shows(l, mem, u)
  {
    hide Executes, IsSlot;
    forall sl | IsSlot(u.store, sl) ensures Shown(l, mem, u, sl) {
      assert Shown(l, mem, t, sl);
    }
  }

  /** A step writes only slots of new code, and slots that it patches. */
  ghost predicate Writes(l: Layout, mem: SlotMem, mem': SlotMem, t: Tables, u: Tables) {
    forall slot :: IsSlot(t.store, slot) ==>
      && slot in mem && slot in mem' && |mem[slot]| == CODE_SIZE
      && mem'[slot] == if slot in u.patched && slot !in t.patched
        then Linked(mem[slot], l.slotAt(slot), l.codeAt(u.patched[slot])) else mem[slot]
  }

  lemma PatchedCodes(cm: Code, t: Tables)
    requires TablesOk(cm, t)
    ensures forall sl :: sl in t.patched ==> sl.code < |t.store| && IsSlot(t.store, sl)
  {
    hide UnitGood, Coherent, BlockOk, LinkOk;
    forall sl | sl in t.patched ensures sl.code < |t.store| && IsSlot(t.store, sl) {
      assert PatchOk(t, sl);
    }
  }

  lemma NothingWritten(l: Layout, mem: SlotMem, t: Tables, u: Tables)
    requires Shows(l, mem, t) && u.store == t.store && u.patched == t.patched
    ensures Shows(l, mem, u) && Writes(l, mem, mem, t, u)
  {
    hide Executes, IsSlot, Linked;
    SameShows(l, mem, t, u);
    forall sl | IsSlot(t.store, sl) ensures sl in mem && |mem[sl]| == CODE_SIZE {
      assert Shown(l, mem, t, sl);
    }
  }

  lemma LinkWritten(l: Layout, mem: SlotMem, t: Tables, slot: SlotId, tb: TBlock) returns (mem': SlotMem)
    requires LayoutOk(l) && Shows(l, mem, t) && IsSlot(t.store, slot) && slot !in t.patched
    ensures Shows(l, mem', Link(t, slot, tb)) && Writes(l, mem, mem', t, Link(t, slot, tb))
  {
    hide Executes, IsSlot, Linked;
    LinkShows(l, mem, t, slot, tb);
    mem' := Link1(l, mem, slot, tb.code);
    var u := Link(t, slot, tb);
    forall sl | IsSlot(t.store, sl)
      ensures && sl in mem && sl in mem' && |mem[sl]| == CODE_SIZE
        && mem'[sl] == if sl in u.patched && sl !in t.patched
          then Linked(mem[sl], l.slotAt(sl), l.codeAt(u.patched[sl])) else mem[sl]
    {
      assert Shown(l, mem, t, sl);
    }
  }

  lemma HookWritten(l: Layout, mem: SlotMem, t: Tables, slot: Option<SlotId>, tb: TBlock) returns (mem': SlotMem)
    requires LayoutOk(l) && Shows(l, mem, t) && (slot.Some? ==> IsSlot(t.store, slot.value) && slot.value !in t.patched)
    ensures Shows(l, mem', Hook(t, slot, tb)) && Writes(l, mem, mem', t, Hook(t, slot, tb))
  {
    hide Shows, Writes, IsSlot;
    if slot.Some? {
      mem' := LinkWritten(l, mem, t, slot.value, tb);
    } else {
      mem' := mem;
      NothingWritten(l, mem, t, Hook(t, slot, tb));
    }
  }

  lemma CompileWritten(l: Layout, mem: SlotMem, t: Tables, ip: W, prog: XProg)
    requires LayoutOk(l) && Shows(l, mem, t) && forall sl :: sl in t.patched ==> sl.code < |t.store|
    ensures var mem' := mem + LazySlots(l, |t.store|, prog);
      Shows(l, mem', Compiled(t, ip, prog)) && Writes(l, mem, mem', t, Compiled(t, ip, prog))
  {
    hide Executes, CallAbs, L1Key, AfterInsert, Linked;
    CompileShows(l, mem, t, ip, prog);
    var lazy := LazySlots(l, |t.store|, prog);
    forall sl | IsSlot(t.store, sl) ensures sl in mem && |mem[sl]| == CODE_SIZE && sl !in lazy {
      assert Shown(l, mem, t, sl);
    }
  }

  lemma WritesThen(l: Layout, m0: SlotMem, m1: SlotMem, m2: SlotMem, t: Tables, u: Tables, v: Tables)
    requires Writes(l, m0, m1, t, u) && Writes(l, m1, m2, u, v) && u.patched == t.patched
    requires forall sl :: IsSlot(t.store, sl) ==> IsSlot(u.store, sl)
    ensures Writes(l, m0, m2, t, v)
  {
    hide IsSlot, Linked;
  }

  lemma DispatchWritten(cm: Code, l: Layout, a: Sys, b: Sys, mem: SlotMem) returns (mem': SlotMem)
    requires LayoutOk(l) && Safe(cm, a) && DispatchStep(cm, a, b) && Shows(l, mem, a.tables)
    ensures Shows(l, mem', b.tables) && Writes(l, mem, mem', a.tables, b.tables)
  {
    PatchedCodes(cm, a.tables);
    hide UnitGood, TablesOk, Compilable, EntryIllegal, EntryRefused, L1Key, Shows, Writes, LayoutOk, AfterInsert,
      IsSlot, Gip, LazySlots;
    var t, ip := a.tables, IpOf(a.s);
    mem' := mem;
    NothingWritten(l, mem, t, t);
    if a.s.p.cpu[TRAP_WORD] == 0 {
      if Has(t.cache, ip) {
        var tb := t.cache.blocks[Key(ip)];
        NothingWritten(l, mem, t, Looked(t, ip));
        mem' := HookWritten(l, mem, Looked(t, ip), a.mode.slot, tb);
        WritesThen(l, mem, mem, mem', t, Looked(t, ip), b.tables);
      } else if Compilable(ip) && !b.mode.Panicked? && !b.mode.Rejected? {
        var tb := TBlock(ip, |t.store|);
        var prog :| UnitGood(cm, ip, prog) && Enters(a, b, Hook(Compiled(t, ip, prog), a.mode.slot, tb), |t.store|);
        var u, mem1 := Compiled(t, ip, prog), mem + LazySlots(l, |t.store|, prog);
        CompileWritten(l, mem, t, ip, prog);
        forall sl | IsSlot(t.store, sl) ensures IsSlot(u.store, sl) {
          StoreGrows(t.store, Unit(ip, prog), sl);
        }
        mem' := HookWritten(l, mem1, u, a.mode.slot, tb);
        WritesThen(l, mem, mem1, mem', t, u, b.tables);
      }
    }
  }

  lemma SlotWritten(l: Layout, a: Sys, b: Sys, slot: SlotId, gip: W, mem: SlotMem) returns (mem': SlotMem)
    requires LayoutOk(l) && IsSlot(a.tables.store, slot) && SlotStep(a, b, slot, gip) && Shows(l, mem, a.tables)
    ensures Shows(l, mem', b.tables) && Writes(l, mem, mem', a.tables, b.tables)
  {
    hide Shows, Writes, LayoutOk, IsSlot, L1Key;
    var t := a.tables;
    mem' := mem;
    NothingWritten(l, mem, t, t);
    if slot !in t.patched && Has(t.cache, gip) {
      NothingWritten(l, mem, t, Looked(t, gip));
      mem' := LinkWritten(l, mem, Looked(t, gip), slot, t.cache.blocks[Key(gip)]);
      WritesThen(l, mem, mem, mem', t, Looked(t, gip), b.tables);
    }
  }

  lemma BrindWritten(l: Layout, a: Sys, b: Sys, ip: W, mem: SlotMem)
    requires BrindStep(a, b, ip) && Shows(l, mem, a.tables)
    ensures Shows(l, mem, b.tables) && Writes(l, mem, mem, a.tables, b.tables)
  {
    hide Shows, Writes, L1Key, BrindAt;
    NothingWritten(l, mem, a.tables, b.tables);
  }

  /** Every step of the system is matched by writes to slot bytes: lazy calls into new code, and one
      jump over the lazy call of each slot it patches. */
  lemma StepWritten(cm: Code, l: Layout, a: Sys, b: Sys, mem: SlotMem) returns (mem': SlotMem)
    requires LayoutOk(l) && Safe(cm, a) && Step(cm, a, b) && Shows(l, mem, a.tables)
    ensures Shows(l, mem', b.tables) && Writes(l, mem, mem', a.tables, b.tables)
  {
    hide DispatchStep, TablesOk, SlotStep, BrindStep, UnitRun, Shows, Writes, LayoutOk, IsSlot, Gip;
    mem' := mem;
    NothingWritten(l, mem, a.tables, a.tables);
    if DispatchStep(cm, a, b) {
      mem' := DispatchWritten(cm, l, a, b, mem);
    } else if RunStep(a, b) {
      var m: nat :| ExitTo(Ran(a, UnitRun(a, m)), b, a.mode.code, UnitRun(a, m).pos);
      var t := UnitRun(a, m);
      if t.pos.Left? && t.pos.indirect {
        BrindWritten(l, Ran(a, t), b, t.pos.ip, mem);
      } else if t.pos.Left? {
        LeftSlot(a, m);
        mem' := SlotWritten(l, Ran(a, t), b, SlotId(a.mode.code, t.pos.pc), t.pos.ip, mem);
      }
    }
  }

  /** One store of slot bytes per state: empty at first, each as its table says, and each got from the
      one before by the writes of the step between them. */
  ghost predicate Carried(l: Layout, run: seq<Sys>, mems: seq<SlotMem>) {
    && 0 < |mems| <= |run| && mems[0] == map[]
    && (forall j :: 0 <= j < |mems| ==> Shows(l, mems[j], run[j].tables))
    && (forall j :: 0 < j < |mems| ==> Writes(l, mems[j - 1], mems[j], run[j - 1].tables, run[j].tables))
  }

  lemma NoSlots(l: Layout, a: Sys)
    requires Init(a)
    ensures Shows(l, map[], a.tables)
  {
  }

  /** Along every run, writing lazy calls into new code and one jump per slot patched keeps the bytes
      executing as the table says. */
  lemma {:induction false} RunWritten(cm: Code, l: Layout, run: seq<Sys>, i: nat) returns (mems: seq<SlotMem>)
    requires LayoutOk(l) && Run(cm, run) && i < |run|
    ensures |mems| == i + 1 && Carried(l, run, mems)
  {
    hide LayoutOk, Safe, Step, Shows, Writes, Init;
    if i == 0 {
      mems := [map[]];
      NoSlots(l, run[0]);
    } else {
      mems := RunWritten(cm, l, run, i - 1);
      RunSafe(cm, run, i - 1);
      var mem := StepWritten(cm, l, run[i - 1], run[i], mems[i - 1]);
      mems := mems + [mem];
    }
  }
}
