/** A branch slot: twelve bytes of patchable machine code followed by the target's guest address. */
module BranchSlots {
  import opened Words

  type Byte = b: nat | b < 256

  const M32: nat := 0x1_0000_0000
  const M64: nat := 0x1_0000_0000_0000_0000
  const CODE_SIZE: nat := 12
  const CALL_SIZE: nat := 12
  const JUMP_SIZE: nat := 5

  // ----- little-endian numbers -----

  function Pow256(k: nat): (p: nat)
    ensures p > 0
  {
    if k == 0 then 1 else 256 * Pow256(k - 1)
  }

  function Bytes(x: nat, k: nat): (bs: seq<Byte>)
    ensures |bs| == k
  {
    if k == 0 then [] else [x % 256] + Bytes(x / 256, k - 1)
  }

  function Number(bs: seq<Byte>): nat {
    if bs == [] then 0 else bs[0] + 256 * Number(bs[1..])
  }

  lemma {:induction false} BytesNumber(x: nat, k: nat)
    requires x < Pow256(k)
    ensures Number(Bytes(x, k)) == x
    decreases k
  {
    if k > 0 {
      BytesNumber(x / 256, k - 1);
      assert Bytes(x, k)[1..] == Bytes(x / 256, k - 1);
    }
  }

  // ----- what the processor does with the bytes -----

  /** A jump, or a call that pushes `ret`. */
  datatype Action = Jump(to: nat) | Call(to: nat, ret: nat) | Other

  function SignExtend32(x: nat): int {
    if x < 0x8000_0000 then x else x - M32
  }

  /** The instructions at `addr`: `jmp rel32`, or `mov rax, imm64` and a jump or call through rax. */
  function Executes(code: seq<Byte>, addr: nat): Action {
    if |code| >= 5 && code[0] == 0xe9 then Jump((addr + 5 + SignExtend32(Number(code[1..5]))) % M64)
    else if |code| >= 12 && code[0] == 0x48 && code[1] == 0xb8 && code[10] == 0xff
      && code[11] == 0xe0 then Jump(Number(code[2..10]))
    else if |code| >= 12 && code[0] == 0x48 && code[1] == 0xb8 && code[10] == 0xff && code[11] == 0xd0 then
      Call(Number(code[2..10]), addr + 12)
    else Other
  }

  function JumpRel(rel: int): seq<Byte> {
    [0xe9] + Bytes(rel % M32, 4)
  }

  function JumpAbs(to: nat): seq<Byte> {
    [0x48, 0xb8] + Bytes(to, 8) + [0xff, 0xe0]
  }

  function CallAbs(to: nat): seq<Byte> {
    [0x48, 0xb8] + Bytes(to, 8) + [0xff, 0xd0]
  }

  /** Distance from the end of a short jump at `addr`, as a signed 64-bit number. */
  function Distance(addr: nat, to: nat): int {
    var d := (to - (addr + JUMP_SIZE)) % M64;
    if d < 0x8000_0000_0000_0000 then d else d - M64
  }

  /** The code bytes once `Link` has written over them. */
  function Linked(code: seq<Byte>, addr: nat, to: nat): seq<Byte>
    requires |code| == CODE_SIZE
  {
    var rel := Distance(addr, to);
    if Near(rel) then JumpRel(rel) + code[JUMP_SIZE..] else JumpAbs(to)
  }

  /** Whatever the bytes were, they now jump to `to`. */
  lemma LinkedExecutes(code: seq<Byte>, addr: nat, to: nat)
    requires |code| == CODE_SIZE && to < M64
    ensures |Linked(code, addr, to)| == CODE_SIZE && Executes(Linked(code, addr, to), addr) == Jump(to)
  {
    hide Executes;
    if Near(Distance(addr, to)) {
      RelExecutes(addr, to, code[JUMP_SIZE..]);
    } else {
      AbsExecutes(addr, to);
    }
  }

  predicate Near(rel: int) {
    -0x8000_0000 <= rel < 0x8000_0000
  }

  /** The short form is taken exactly when 32 bits hold the distance. */
  lemma NearWraps(rel: int)
    ensures Near(rel) <==> SignExtend32(rel % M32) == rel
  {
  }

  lemma DistanceReaches(addr: nat, to: nat)
    requires to < M64
    ensures (addr + JUMP_SIZE + Distance(addr, to)) % M64 == to
  {
  }

  lemma Sizes()
    ensures Pow256(4) == M32 && Pow256(8) == M64
  {
  }

  lemma RelExecutes(addr: nat, to: nat, rest: seq<Byte>)
    requires to < M64 && Near(Distance(addr, to))
    ensures Executes(JumpRel(Distance(addr, to)) + rest, addr) == Jump(to)
  {
    var rel := Distance(addr, to);
    var imm := rel % M32;
    var code := JumpRel(rel) + rest;
    assert code[1..5] == Bytes(imm, 4);
    Sizes();
    hide Pow256, Number, Bytes;
    BytesNumber(imm, 4);
    NearWraps(rel);
    DistanceReaches(addr, to);
  }

  lemma AbsExecutes(addr: nat, to: nat)
    requires to < M64
    ensures Executes(JumpAbs(to), addr) == Jump(to) && Executes(CallAbs(to), addr) == Call(to, addr + CALL_SIZE)
  {
    assert JumpAbs(to)[2..10] == Bytes(to, 8) == CallAbs(to)[2..10];
    Sizes();
    hide Pow256, Number, Bytes;
    BytesNumber(to, 8);
  }

  class BranchSlot {
    const addr: nat
    const code: array<Byte>
    var gip: W
    var crossSegment: bool

    ghost predicate Valid() {
      code.Length == CODE_SIZE
    }

    /** A zeroed slot at `addr`. */
    constructor (addr: nat, gip: W, crossSegment: bool)
      ensures Valid() && this.addr == addr && this.gip == gip && this.crossSegment == crossSegment && fresh(code)
    {
      this.addr, this.gip, this.crossSegment := addr, gip, crossSegment;
      code := new Byte[CODE_SIZE](_ => 0);
    }

    /** Overwrite the start of the code with `bs`. */
    method CreatePatch(bs: seq<Byte>)
      requires Valid() && |bs| <= CODE_SIZE
      modifies code
      ensures code[..] == bs + old(code[..])[|bs|..]
    {
      var i := 0;
      while i < |bs|
        invariant i <= |bs|
        invariant code[..i] == bs[..i] && code[i..] == old(code[..])[i..]
      {
        code[i] := bs[i];
        i := i + 1;
      }
      assert code[..] == code[..i] + code[i..];
    }

    /** Turn the slot into a call of the linker stub. */
    method LinkLazyJIT(stub: nat)
      requires Valid() && stub < M64
      modifies code
      ensures code[..] == CallAbs(stub) && Executes(code[..], addr) == Call(stub, addr + CALL_SIZE)
      ensures FromCallPtrRetaddr(addr + CALL_SIZE) == addr
    {
      CreatePatch(CallAbs(stub));
      AbsExecutes(addr, stub);
      assert code[..] == CallAbs(stub);
    }

    /** Turn the slot into a jump to `to`, short if it reaches. */
    method Link(to: nat)
      requires Valid() && to < M64
      modifies code
      ensures code[..] == Linked(old(code[..]), addr, to) && Executes(code[..], addr) == Jump(to)
      ensures Near(Distance(addr, to)) ==> code[JUMP_SIZE..] == old(code[JUMP_SIZE..])
    {
      LinkedExecutes(code[..], addr, to);
      hide Executes;
      var rel := Distance(addr, to);
      if Near(rel) {
        CreatePatch(JumpRel(rel));
      } else {
        CreatePatch(JumpAbs(to));
        assert code[..] == JumpAbs(to);
      }
    }
  }

  /** The slot that a pushed return address belongs to. */
  function FromCallPtrRetaddr(ra: int): int {
    ra - CALL_SIZE
  }

  /** Patching, in either form, round-trips: the patched bytes jump to the target, and the return
      address of the lazy call leads back to the slot. */
  lemma PatchRoundTrip(code: seq<Byte>, addr: nat, to: nat, stub: nat)
    requires |code| == CODE_SIZE && to < M64 && stub < M64
    ensures Executes(Linked(code, addr, to), addr) == Jump(to)
    ensures var a := Executes(CallAbs(stub), addr); a.Call? && a.to == stub && FromCallPtrRetaddr(a.ret) == addr
  {
    hide Executes;
    AbsExecutes(addr, stub);
    LinkedExecutes(code, addr, to);
  }
}
