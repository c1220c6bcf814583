/** The bit-field codec: one field of a container word, and a value spread over several fields. */
module BitField {
  import opened Powers

  // ----- bitwise operations -----

  function Or(x: nat, y: nat): nat
    decreases x + y
  {
    if x == 0 && y == 0 then 0
    else (if x % 2 == 1 || y % 2 == 1 then 1 else 0) + 2 * Or(x / 2, y / 2)
  }

  function AndNot(x: nat, y: nat): nat {
    if x == 0 then 0
    else (if x % 2 == 1 && y % 2 == 0 then 1 else 0) + 2 * AndNot(x / 2, y / 2)
  }

  lemma {:induction false} OrZero(y: nat)
    ensures Or(0, y) == y && Or(y, 0) == y
    decreases y
  {
    if y > 0 {
      OrZero(y / 2);
    }
  }

  lemma {:induction false} AndNotZero(x: nat)
    ensures AndNot(x, 0) == x
    decreases x
  {
    if x > 0 {
      AndNotZero(x / 2);
    }
  }

  /** `a` moved up by `n` bits. */
  function Up(a: nat, n: nat): nat {
    NatProduct(a, Pow2(n));
    a * Pow2(n)
  }

  lemma {:induction false} UpNone(a: nat)
    ensures Up(a, 0) == a
  {
  }

  lemma {:induction false} Halves(a: nat, b: nat, n: nat)
    requires n > 0
    ensures Up(a, n) == 2 * Up(a, n - 1) && (Up(a, n) + b) % 2 == b % 2 && (Up(a, n) + b) / 2 == Up(a, n - 1) + b / 2
  {
    assert Pow2(n) == Pow2(n - 1) * 2;
    Associates(a, Pow2(n - 1), 2);
    hide Pow2;
  }

  lemma {:induction false} OrStep(x: nat, y: nat)
    ensures Or(x, y) == (if x % 2 == 1 || y % 2 == 1 then 1 else 0) + 2 * Or(x / 2, y / 2)
  {
  }

  lemma {:induction false} AndNotStep(x: nat, y: nat)
    ensures AndNot(x, y) == (if x % 2 == 1 && y % 2 == 0 then 1 else 0) + 2 * AndNot(x / 2, y / 2)
  {
  }

  lemma {:induction false} PowSteps(n: nat)
    ensures Pow2(0) == 1 && (n > 0 ==> Pow2(n) == 2 * Pow2(n - 1))
  {
  }

  /** Two numbers that share no bit are added. */
  lemma {:induction false} OrAdds(x: nat, y: nat, n: nat)
    requires x < Pow2(n)
    ensures Or(x, Up(y, n)) == x + Up(y, n) && Or(Up(y, n), x) == x + Up(y, n)
    decreases n
  {
    hide Up, Or, Pow2;
    PowSteps(n);
    if n == 0 {
      UpNone(y);
      OrZero(y);
    } else {
      Halves(y, 0, n);
      OrStep(x, Up(y, n));
      OrStep(Up(y, n), x);
      OrAdds(x / 2, y, n - 1);
    }
  }

  lemma {:induction false} OrField(hi: nat, f: nat, lo: nat, l: nat, size: nat)
    requires lo < Pow2(l) && f < Pow2(size)
    ensures Or(Up(hi, l + size) + lo, Up(f, l)) == Up(hi, l + size) + Up(f, l) + lo
    decreases l
  {
    hide Up, Or, Pow2;
    PowSteps(l);
    if l == 0 {
      UpNone(f);
      OrAdds(f, hi, size);
    } else {
      Halves(hi, lo, l + size);
      Halves(f, 0, l);
      OrStep(Up(hi, l + size) + lo, Up(f, l));
      OrField(hi, f, lo / 2, l - 1, size);
    }
  }

  lemma {:induction false} ClearLow(hi: nat, f: nat, size: nat)
    requires f < Pow2(size)
    ensures AndNot(Up(hi, size) + f, Pow2(size) - 1) == Up(hi, size)
    decreases size
  {
    hide Up, AndNot, Pow2;
    PowSteps(size);
    if size == 0 {
      UpNone(hi);
      AndNotZero(hi);
    } else {
      Halves(hi, f, size);
      AndNotStep(Up(hi, size) + f, Pow2(size) - 1);
      ClearLow(hi, f / 2, size - 1);
    }
  }

  lemma {:induction false} ClearField(hi: nat, f: nat, lo: nat, l: nat, size: nat)
    requires lo < Pow2(l) && f < Pow2(size)
    ensures AndNot(Up(hi, l + size) + (Up(f, l) + lo), Up(Pow2(size) - 1, l)) == Up(hi, l + size) + lo
    decreases l
  {
    hide Up, AndNot, Pow2;
    PowSteps(l);
    if l == 0 {
      UpNone(f);
      UpNone(Pow2(size) - 1);
      ClearLow(hi, f, size);
    } else {
      Halves(f, lo, l);
      Halves(hi, Up(f, l) + lo, l + size);
      Halves(Pow2(size) - 1, 0, l);
      AndNotStep(Up(hi, l + size) + (Up(f, l) + lo), Up(Pow2(size) - 1, l));
      ClearField(hi, f, lo / 2, l - 1, size);
      Halves(hi, lo, l + size);
    }
  }

  // ----- one field -----

  /** The two's complement reading of an `n`-bit word. */
  function Signed(x: int, n: nat): int
    requires n > 0
  {
    if x < Pow2(n - 1) then x else x - Pow2(n)
  }

  /** Left shift in `w` bits. */
  function Shl(x: nat, k: nat, w: nat): nat {
    x * Pow2(k) % Pow2(w)
  }

  function Shr(x: nat, k: nat): nat {
    NatQuotient(x, Pow2(k));
    x / Pow2(k)
  }

  /** `n` ones from bit `l` up. */
  function Mask(n: nat, l: nat): nat {
    Up(Pow2(n) - 1, l)
  }

  /** Bits `l` to `h` of a container of `w` bits: shift left until `h` is on top, then right. */
  function Decode(c: nat, w: nat, l: nat, h: nat): nat
    requires l <= h < w
  {
    Shr(Shl(c, w - 1 - h, w), w - 1 - h + l)
  }

  /** The same with an arithmetic right shift. */
  function DecodeSigned(c: nat, w: nat, l: nat, h: nat): int
    requires l <= h < w
  {
    Signed(Shl(c, w - 1 - h, w), w) / Pow2(w - 1 - h + l)
  }

  /** Replace bits `l` to `h` by the low bits of `t`. */
  function Encode(c: nat, w: nat, l: nat, h: nat, t: nat): nat
    requires l <= h < w
  {
    Or(AndNot(c, Mask(h - l + 1, l)), Shr(Shl(t, w - 1 - h + l, w), w - 1 - h))
  }

  /** What a field is: digits `l` to `h`. */
  function Field(c: nat, l: nat, h: nat): nat
    requires l <= h
  {
    c / Pow2(l) % Pow2(h - l + 1)
  }

  lemma DecodeIsField(c: nat, w: nat, l: nat, h: nat)
    requires l <= h < w
    ensures Decode(c, w, l, h) == Field(c, l, h)
  {
    hide Pow2;
    var k := w - 1 - h;
    PowAdd(h + 1, k);
    Scaled(c, Pow2(k), Pow2(h + 1));
    PowAdd(l, k);
    Scaled(c % Pow2(h + 1), Pow2(k), Pow2(l));
    PowAdd(h + 1 - l, l);
    Nested(c, Pow2(l), Pow2(h + 1 - l));
  }

  lemma DecodeSignedIsField(c: nat, w: nat, l: nat, h: nat)
    requires l <= h < w
    ensures DecodeSigned(c, w, l, h) == Signed(Field(c, l, h), h - l + 1)
  {
    hide Pow2;
    var k, n := w - 1 - h, h + 1 - l;
    var x := c % Pow2(h + 1);
    PowAdd(h + 1, k);
    Scaled(c, Pow2(k), Pow2(h + 1));
    assert c * Pow2(k) % Pow2(w) == x * Pow2(k);
    SignedScaled(x, h + 1, k);
    PowAdd(l, k);
    Scaled(Signed(x, h + 1), Pow2(k), Pow2(l));
    PowAdd(n, l);
    Nested(c, Pow2(l), Pow2(n));
    SignedShift(x, n, l);
  }

  lemma {:induction false} SignedScaled(x: nat, n: nat, k: nat)
    requires n > 0 && x < Pow2(n)
    ensures Signed(x * Pow2(k), n + k) == Signed(x, n) * Pow2(k)
  {
    hide Pow2;
    var half, p := Pow2(n - 1), Pow2(k);
    PowAdd(n, k);
    PowAdd(n - 1, k);
    if x < half {
      LessProduct(x, 0, p, half);
    } else {
      LessProduct(x - half, 0, p, x - half + 1);
      Distributes(x, half, p);
      Distributes(x, Pow2(n), p);
    }
  }

  /** An arithmetic shift by `l` of a word of `n + l` bits. */
  lemma {:induction false} SignedShift(x: nat, n: nat, l: nat)
    requires n > 0 && x < Pow2(n + l)
    ensures Signed(x, n + l) / Pow2(l) == Signed(x / Pow2(l), n)
  {
    hide Pow2;
    var half, p := Pow2(n - 1), Pow2(l);
    PowAdd(n, l);
    PowAdd(n - 1, l);
    DivBounds(x, p);
    var q, r := x / p, x % p;
    if q < half {
      LessProduct(q, r, p, half);
    } else {
      LessProduct(q - half, r, p, q - half + 1);
      Distributes(q, half, p);
      Distributes(q, Pow2(n), p);
      Divides(x - Pow2(n + l), p, q - Pow2(n), r);
    }
  }

  /** A container taken apart around bits `l` to `h`. */
  lemma Parts(c: nat, l: nat, h: nat) returns (hi: nat, f: nat, lo: nat)
    requires l <= h
    ensures hi == c / Pow2(h + 1) && f == Field(c, l, h) && lo == c % Pow2(l)
    ensures f < Pow2(h - l + 1) && lo < Pow2(l) && c == Up(hi, h + 1) + (Up(f, l) + lo)
  {
    hide Pow2;
    var n := h + 1 - l;
    PowAdd(n, l);
    Nested(c, Pow2(l), Pow2(n));
    DivBounds(c, Pow2(l));
    DivBounds(c / Pow2(l), Pow2(n));
    hi, f, lo := c / Pow2(h + 1), Field(c, l, h), c % Pow2(l);
    Distributes(hi * Pow2(n), f, Pow2(l));
    Associates(hi, Pow2(n), Pow2(l));
  }

  /** A container put together from parts. */
  lemma Joined(hi: nat, f: nat, lo: nat, l: nat, h: nat)
    requires l <= h && f < Pow2(h - l + 1) && lo < Pow2(l)
    ensures var c := Up(hi, h + 1) + (Up(f, l) + lo);
      c / Pow2(h + 1) == hi && Field(c, l, h) == f && c % Pow2(l) == lo
  {
    var n := h + 1 - l;
    var c := Up(hi, h + 1) + (Up(f, l) + lo);
    hide Pow2;
    PowAdd(n, l);
    LessProduct(f, lo, Pow2(l), Pow2(n));
    Divides(c, Pow2(h + 1), hi, f * Pow2(l) + lo);
    Nested(c, Pow2(l), Pow2(n));
    Divides(f * Pow2(l) + lo, Pow2(l), f, lo);
  }

  /** Encoding replaces the field by `t` modulo its width and keeps what is above and below. */
  lemma {:induction false} EncodeParts(c: nat, w: nat, l: nat, h: nat, t: nat)
    requires l <= h < w
    ensures var e := Encode(c, w, l, h, t);
      Field(e, l, h) == t % Pow2(h - l + 1) && e / Pow2(h + 1) == c / Pow2(h + 1) && e % Pow2(l) == c % Pow2(l)
    ensures c < Pow2(w) ==> Encode(c, w, l, h, t) < Pow2(w)
  {
    hide Pow2, Or, AndNot, Up;
    var n, k := h - l + 1, w - 1 - h;
    DivBounds(t, Pow2(n));
    var hi, f, lo := Parts(c, l, h);
    ClearField(hi, f, lo, l, n);
    var v := t % Pow2(n);
    ShiftedField(t, n, k, l);
    OrField(hi, v, lo, l, n);
    Joined(hi, v, lo, l, h);
    assert Encode(c, w, l, h, t) == Up(hi, h + 1) + (Up(v, l) + lo);
    if c < Pow2(w) {
      Fits(c, hi, v, lo, l, h, w);
    }
  }

  lemma {:induction false} Fits(c: nat, hi: nat, v: nat, lo: nat, l: nat, h: nat, w: nat)
    requires l <= h < w && c < Pow2(w) && hi == c / Pow2(h + 1) && v < Pow2(h - l + 1) && lo < Pow2(l)
    ensures Up(hi, h + 1) + (Up(v, l) + lo) < Pow2(w)
  {
    hide Pow2;
    var n, k := h - l + 1, w - 1 - h;
    PowAdd(k, h + 1);
    PowAdd(n, l);
    LessProduct(v, lo, Pow2(l), Pow2(n));
    HighPart(c, Pow2(h + 1), Pow2(k));
    LessProduct(hi, v * Pow2(l) + lo, Pow2(h + 1), Pow2(k));
  }

  /** The shifts of the encoder place the low `n` bits of `t` at bit `l`. */
  lemma {:induction false} ShiftedField(t: nat, n: nat, k: nat, l: nat)
    ensures Shr(Shl(t, k + l, n + k + l), k) == Up(t % Pow2(n), l)
  {
    hide Pow2;
    var v := t % Pow2(n);
    PowAdd(n, k + l);
    Scaled(t, Pow2(k + l), Pow2(n));
    PowAdd(l, k);
    Associates(v, Pow2(l), Pow2(k));
    var u := v * Pow2(l);
    assert Shl(t, k + l, n + k + l) == u * Pow2(k);
    Divides(u * Pow2(k), Pow2(k), u, 0);
  }

  lemma HighPart(c: nat, a: nat, b: nat)
    requires a > 0 && c < b * a
    ensures c / a < b
  {
    DivBounds(c, a);
    if c / a >= b {
      Grows(b, c / a, a);
    }
  }

  /** Round trip: encode, then decode, gives the value modulo the width of the field. */
  lemma {:induction false} EncodeDecode(c: nat, w: nat, l: nat, h: nat, t: nat)
    requires l <= h < w
    ensures Decode(Encode(c, w, l, h, t), w, l, h) == t % Pow2(h - l + 1)
  {
    EncodeParts(c, w, l, h, t);
    DecodeIsField(Encode(c, w, l, h, t), w, l, h);
  }

  /** Disjoint fields are preserved. */
  lemma EncodeKeeps(c: nat, w: nat, l: nat, h: nat, t: nat, l': nat, h': nat)
    requires l <= h < w && l' <= h' < w && (h' < l || h < l')
    ensures Decode(Encode(c, w, l, h, t), w, l', h') == Decode(c, w, l', h')
  {
    var e := Encode(c, w, l, h, t);
    EncodeParts(c, w, l, h, t);
    DecodeIsField(e, w, l', h');
    DecodeIsField(c, w, l', h');
    if h' < l {
      FieldBelow(e, l, l', h');
      FieldBelow(c, l, l', h');
    } else {
      FieldAbove(e, h, l', h');
      FieldAbove(c, h, l', h');
    }
  }

  lemma {:induction false} FieldBelow(c: nat, l: nat, l': nat, h': nat)
    requires l' <= h' < l
    ensures Field(c, l', h') == Field(c % Pow2(l), l', h')
  {
    var n, m := h' - l' + 1, l - h' - 1;
    PowAdd(m, h' + 1);
    Nested(c, Pow2(h' + 1), Pow2(m));
    PowAdd(n, l');
    Nested(c, Pow2(l'), Pow2(n));
    Nested(c % Pow2(l), Pow2(l'), Pow2(n));
  }

  lemma FieldAbove(c: nat, h: nat, l': nat, h': nat)
    requires h < l' <= h'
    ensures Field(c, l', h') == c / Pow2(h + 1) / Pow2(l' - h - 1) % Pow2(h' - l' + 1)
  {
    PowAdd(l' - h - 1, h + 1);
    Nested(c, Pow2(h + 1), Pow2(l' - h - 1));
  }
}
