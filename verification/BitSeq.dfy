/** Values spread over several fields: instruction immediates and packed operands. */
module BitSeq {
  import opened Powers
  import opened BitField
  import Guest

  datatype Pt = Pt(l: nat, h: nat)

  predicate PtsOk(fs: seq<Pt>, w: nat) {
    |fs| > 0 && forall i :: 0 <= i < |fs| ==> fs[i].l <= fs[i].h < w
  }

  function Total(fs: seq<Pt>, w: nat): nat
    requires PtsOk(fs, w)
  {
    fs[0].h - fs[0].l + 1 + if |fs| == 1 then 0 else Total(fs[1..], w)
  }

  /** The fields one after the other, the first one lowest. */
  function Concat(c: nat, fs: seq<Pt>, w: nat): nat
    requires PtsOk(fs, w)
  {
    Field(c, fs[0].l, fs[0].h) + if |fs| == 1 then 0 else Concat(c, fs[1..], w) * Pow2(fs[0].h - fs[0].l + 1)
  }

  /** The recursive decoder, in arithmetic of `tw` bits: all fields but the last are unsigned. */
  function SeqDecode(c: nat, w: nat, fs: seq<Pt>, tw: nat): int
    requires PtsOk(fs, w) && tw > 0
  {
    if |fs| == 1 then DecodeSigned(c, w, fs[0].l, fs[0].h)
    else
      var rest := SeqDecode(c, w, fs[1..], tw) * Pow2(fs[0].h - fs[0].l + 1);
      Signed(Or(Decode(c, w, fs[0].l, fs[0].h), rest % Pow2(tw)), tw)
  }

  lemma {:induction false} SignedJoin(x: nat, y: nat, n: nat, r: nat)
    requires r > 0 && x < Pow2(n) && y < Pow2(r)
    ensures Signed(y * Pow2(n) + x, r + n) == Signed(y, r) * Pow2(n) + x
  {
    hide Pow2;
    var half, p := Pow2(r - 1), Pow2(n);
    PowAdd(r, n);
    PowAdd(r - 1, n);
    if y < half {
      LessProduct(y, x, p, half);
    } else {
      LessProduct(y - half, x, p, y - half + 1);
      Distributes(y, half, p);
      Distributes(y, Pow2(r), p);
    }
  }

  lemma {:induction false} PowMono(a: nat, b: nat)
    requires a <= b
    ensures Pow2(a) <= Pow2(b)
    decreases b - a
  {
    if a < b {
      PowMono(a + 1, b);
    }
  }

  /** Wrapping a value that fits loses nothing. */
  lemma {:induction false} SignedWraps(q: nat, m: nat, r: nat)
    requires 0 < m <= r && q < Pow2(m)
    ensures var s := Signed(q, m); Signed(s % Pow2(r), r) == s
  {
    var s := Signed(q, m);
    PowMono(m - 1, r - 1);
    assert Pow2(m) == 2 * Pow2(m - 1) && Pow2(r) == 2 * Pow2(r - 1);
    if s >= 0 {
      Divides(s, Pow2(r), 0, s);
    } else {
      Divides(s, Pow2(r), -1, s + Pow2(r));
    }
  }

  lemma {:induction false} ConcatBound(c: nat, fs: seq<Pt>, w: nat)
    requires PtsOk(fs, w)
    ensures Concat(c, fs, w) < Pow2(Total(fs, w)) && Total(fs, w) > 0
  {
    hide Pow2;
    var n := fs[0].h - fs[0].l + 1;
    DivBounds(c / Pow2(fs[0].l), Pow2(n));
    if |fs| > 1 {
      ConcatBound(c, fs[1..], w);
      PowAdd(Total(fs[1..], w), n);
      LessProduct(Concat(c, fs[1..], w), Field(c, fs[0].l, fs[0].h), Pow2(n), Pow2(Total(fs[1..], w)));
    }
  }

  /** Over any list of fields the result is their concatenation, sign-extended from the last. */
  lemma {:induction false} SeqDecodeConcatenates(c: nat, w: nat, fs: seq<Pt>, tw: nat)
    requires PtsOk(fs, w) && tw > 0 && Total(fs, w) <= tw
    ensures Total(fs, w) > 0 && SeqDecode(c, w, fs, tw) == Signed(Concat(c, fs, w), Total(fs, w))
  {
    hide Pow2, Or, Signed, Field, Decode, DecodeSigned;
    var f := fs[0];
    if |fs| == 1 {
      DecodeSignedIsField(c, w, f.l, f.h);
    } else {
      var rest, n := fs[1..], f.h - f.l + 1;
      SeqDecodeConcatenates(c, w, rest, tw);
      ConcatBound(c, rest, w);
      DecodeIsField(c, w, f.l, f.h);
      JoinFields(Field(c, f.l, f.h), Concat(c, rest, w), n, Total(rest, w), tw) by {
        FieldBound(c, f.l, f.h);
      }
    }
  }

  lemma {:induction false} FieldBound(c: nat, l: nat, h: nat)
    requires l <= h
    ensures Field(c, l, h) < Pow2(h - l + 1)
  {
    hide Pow2;
    DivBounds(c / Pow2(l), Pow2(h - l + 1));
  }

  lemma {:induction false} JoinFields(x: nat, q: nat, n: nat, m: nat, tw: nat)
    requires m > 0 && n + m <= tw && x < Pow2(n) && q < Pow2(m)
    ensures Signed(Or(x, Signed(q, m) * Pow2(n) % Pow2(tw)), tw) == Signed(x + q * Pow2(n), n + m)
  {
    hide Pow2, Or;
    var r := tw - n;
    var s := Signed(q, m);
    PowAdd(r, n);
    Scaled(s, Pow2(n), Pow2(r));
    DivBounds(s, Pow2(r));
    OrAdds(x, s % Pow2(r), n);
    SignedJoin(x, s % Pow2(r), n, r);
    SignedWraps(q, m, r);
    SignedJoin(x, q, n, m);
  }

  // ----- immediates -----

  const IMM_I := [Pt(20, 30), Pt(31, 31)]
  const IMM_S := [Pt(7, 11), Pt(25, 30), Pt(31, 31)]
  const IMM_B := [Pt(8, 11), Pt(25, 30), Pt(7, 7), Pt(31, 31)]
  const IMM_J := [Pt(21, 30), Pt(20, 20), Pt(12, 19), Pt(31, 31)]

  lemma Powers32()
    ensures Pow2(0) == 1 && Pow2(1) == 2 && Pow2(4) == 0x10 && Pow2(5) == 0x20 && Pow2(6) == 0x40 && Pow2(7) == 0x80
      && Pow2(8) == 0x100
    ensures Pow2(10) == 0x400 && Pow2(11) == 0x800 && Pow2(12) == 0x1000 && Pow2(19) == 0x8_0000
      && Pow2(20) == 0x10_0000 && Pow2(21) == 0x20_0000
    ensures Pow2(25) == 0x200_0000 && Pow2(31) == 0x8000_0000
  {
  }

  /** A last field of one bit is the sign. */
  lemma {:induction false} TopBit(x: nat, s: nat, n: nat)
    requires s < 2 && x < Pow2(n)
    ensures Signed(x + s * Pow2(n), n + 1) == x - s * Pow2(n)
  {
  }

  lemma {:induction false} Concat2(c: nat, a: Pt, b: Pt, w: nat)
    requires a.l <= a.h < w && b.l <= b.h < w
    ensures PtsOk([a, b], w)
    ensures Concat(c, [a, b], w) == Field(c, a.l, a.h) + Field(c, b.l, b.h) * Pow2(a.h - a.l + 1)
    ensures Total([a, b], w) == (b.h - b.l + 1) + (a.h - a.l + 1)
  {
    hide Field, Pow2;
    var fs := [a, b];
    assert fs[1..] == [b];
  }

  lemma {:induction false} ConcatCons(c: nat, a: Pt, rest: seq<Pt>, w: nat)
    requires PtsOk(rest, w) && a.l <= a.h < w
    ensures PtsOk([a] + rest, w)
    ensures Concat(c, [a] + rest, w) == Field(c, a.l, a.h) + Concat(c, rest, w) * Pow2(a.h - a.l + 1)
    ensures Total([a] + rest, w) == Total(rest, w) + (a.h - a.l + 1)
  {
    hide Field, Pow2;
    var fs := [a] + rest;
    assert fs[1..] == rest;
  }

  lemma {:induction false} ImmediateI(raw: nat)
    ensures SeqDecode(raw, 32, IMM_I, 16) == Guest.ImmI(raw)
  {
    Powers32();
    hide Pow2, SeqDecode, Concat, Total;
    Concat2(raw, Pt(20, 30), Pt(31, 31), 32);
    SeqDecodeConcatenates(raw, 32, IMM_I, 16);
    TopBit(Field(raw, 20, 30), Field(raw, 31, 31), 11);
  }

  lemma {:induction false} ImmediateS(raw: nat)
    ensures SeqDecode(raw, 32, IMM_S, 16) == Guest.ImmS(raw)
  {
    Powers32();
    hide Pow2, SeqDecode, Concat, Total;
    Concat2(raw, Pt(25, 30), Pt(31, 31), 32);
    ConcatCons(raw, Pt(7, 11), [Pt(25, 30), Pt(31, 31)], 32);
    assert IMM_S == [Pt(7, 11)] + [Pt(25, 30), Pt(31, 31)];
    SeqDecodeConcatenates(raw, 32, IMM_S, 16);
    TopBit(Field(raw, 7, 11) + Field(raw, 25, 30) * 0x20, Field(raw, 31, 31), 11);
  }

  /** The branch offset is twice the decoded value. */
  lemma {:induction false} ImmediateB(raw: nat)
    ensures SeqDecode(raw, 32, IMM_B, 16) * 2 == Guest.ImmB(raw)
  {
    Powers32();
    hide Pow2, SeqDecode, Concat, Total;
    Concat2(raw, Pt(7, 7), Pt(31, 31), 32);
    ConcatCons(raw, Pt(25, 30), [Pt(7, 7), Pt(31, 31)], 32);
    ConcatCons(raw, Pt(8, 11), [Pt(25, 30)] + [Pt(7, 7), Pt(31, 31)], 32);
    assert IMM_B == [Pt(8, 11)] + ([Pt(25, 30)] + [Pt(7, 7), Pt(31, 31)]);
    SeqDecodeConcatenates(raw, 32, IMM_B, 16);
    TopBit(Field(raw, 8, 11) + Field(raw, 25, 30) * 0x10 + Field(raw, 7, 7) * 0x400, Field(raw, 31, 31), 11);
  }

  lemma {:induction false} ImmediateJ(raw: nat)
    ensures SeqDecode(raw, 32, IMM_J, 32) * 2 == Guest.ImmJ(raw)
  {
    Powers32();
    hide Pow2, SeqDecode, Concat, Total;
    Concat2(raw, Pt(12, 19), Pt(31, 31), 32);
    ConcatCons(raw, Pt(20, 20), [Pt(12, 19), Pt(31, 31)], 32);
    ConcatCons(raw, Pt(21, 30), [Pt(20, 20)] + [Pt(12, 19), Pt(31, 31)], 32);
    assert IMM_J == [Pt(21, 30)] + ([Pt(20, 20)] + [Pt(12, 19), Pt(31, 31)]);
    SeqDecodeConcatenates(raw, 32, IMM_J, 32);
    TopBit(Field(raw, 21, 30) + Field(raw, 20, 20) * 0x400 + Field(raw, 12, 19) * 0x800, Field(raw, 31, 31), 19);
  }

  /** Register numbers, shift amounts and the upper immediate are single fields. */
  lemma SingleFields(raw: nat)
    ensures Decode(raw, 32, 7, 11) == Guest.Rd(raw) && Decode(raw, 32, 15, 19) == Guest.Rs1(raw)
    ensures Decode(raw, 32, 20, 24) == Guest.Rs2(raw) == Guest.ImmShift(raw)
    ensures Decode(raw, 32, 12, 31) * 0x1000 == Guest.ImmU(raw)
  {
    Powers32();
    assert Pow2(15) == 0x8000;
    hide Pow2, Decode;
    DecodeIsField(raw, 32, 7, 11);
    DecodeIsField(raw, 32, 15, 19);
    DecodeIsField(raw, 32, 20, 24);
    DecodeIsField(raw, 32, 12, 31);
  }
}
