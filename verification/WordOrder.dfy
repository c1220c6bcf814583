/** Transitivity of the unsigned order on words. */
module WordOrder {
  import opened Words

  /** Unsigned order, kept behind a name so that proofs can use its laws instead of its bits. */
  predicate Le(a: W, b: W) {
    a <= b
  }

  /** Compare a leading byte, then the rest. */
  predicate Lex(x: W, y: W, rest: bool) {
    if x == y then rest else Le(x, y)
  }

  lemma Split3(a: W, b: W)
    ensures Le(a, b) <==> Lex(a >> 24, b >> 24, Le(a & 0xff_ffff, b & 0xff_ffff))
  {
  }

  lemma Split2(a: W, b: W)
    ensures Le(a & 0xff_ffff, b & 0xff_ffff) <==> Lex((a >> 16) & 0xff, (b >> 16) & 0xff, Le(a & 0xffff, b & 0xffff))
  {
  }

  lemma Split1(a: W, b: W)
    ensures Le(a & 0xffff, b & 0xffff) <==> Lex((a >> 8) & 0xff, (b >> 8) & 0xff, Le(a & 0xff, b & 0xff))
  {
  }

  predicate IsByte(w: W) {
    w & 0xff == w
  }

  lemma Bytes(w: W)
    ensures IsByte(w & 0xff) && IsByte((w >> 8) & 0xff) && IsByte((w >> 16) & 0xff) && IsByte(w >> 24)
  {
  }

  lemma ByteTrans(a: W, b: W, c: W)
    requires IsByte(a) && IsByte(b) && IsByte(c) && Le(a, b) && Le(b, c)
    ensures Le(a, c) && (a == c ==> a == b)
  {
  }

  lemma LexTrans(a: W, b: W, c: W, ab: bool, bc: bool, ac: bool)
    requires IsByte(a) && IsByte(b) && IsByte(c) && (ab && bc ==> ac) && Lex(a, b, ab) && Lex(b, c, bc)
    ensures Lex(a, c, ac)
  {
    hide Le, IsByte;
    if a != b && b != c {
      ByteTrans(a, b, c);
    }
  }

  /** The order is transitive: byte by byte from the top. */
  lemma LeTrans(a: W, b: W, c: W)
    requires Le(a, b) && Le(b, c)
    ensures Le(a, c)
  {
    hide *;
    Bytes(a); Bytes(b); Bytes(c);
    Split3(a, b); Split3(b, c); Split3(a, c);
    Split2(a, b); Split2(b, c); Split2(a, c);
    Split1(a, b); Split1(b, c); Split1(a, c);
    if Le(a & 0xff, b & 0xff) && Le(b & 0xff, c & 0xff) {
      ByteTrans(a & 0xff, b & 0xff, c & 0xff);
    }
    if Le(a & 0xffff, b & 0xffff) && Le(b & 0xffff, c & 0xffff) {
      LexTrans((a >> 8) & 0xff, (b >> 8) & 0xff, (c >> 8) & 0xff, Le(a & 0xff, b & 0xff), Le(b & 0xff, c & 0xff),
        Le(a & 0xff, c & 0xff));
    }
    if Le(a & 0xff_ffff, b & 0xff_ffff) && Le(b & 0xff_ffff, c & 0xff_ffff) {
      LexTrans((a >> 16) & 0xff, (b >> 16) & 0xff, (c >> 16) & 0xff, Le(a & 0xffff, b & 0xffff),
        Le(b & 0xffff, c & 0xffff), Le(a & 0xffff, c & 0xffff));
    }
    LexTrans(a >> 24, b >> 24, c >> 24, Le(a & 0xff_ffff, b & 0xff_ffff), Le(b & 0xff_ffff, c & 0xff_ffff),
      Le(a & 0xff_ffff, c & 0xff_ffff));
  }
}
