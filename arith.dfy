/**
 * Small facts of natural-number arithmetic used by the index computations
 * (row-major offsets, slice offsets and block layouts).
 */
module Arith {

  lemma {:induction false} MulLeft(a: nat, b: nat, w: nat)
    requires a <= b
    ensures a * w <= b * w
  {
  }

  lemma {:induction false} MulDistrib(a: nat, b: nat, w: nat)
    ensures (a + b) * w == a * w + b * w
  {
  }

  /** An element of block `i` (of `n` blocks of `len` elements) lies inside the layout. */
  lemma {:induction false} BlockIndex(i: nat, j: nat, len: nat, n: nat)
    requires i < n && j < len
    ensures i * len + j < n * len
    ensures (i + 1) * len <= n * len
  {
    MulLeft(i + 1, n, len);
    MulDistrib(i, 1, len);
  }

  /** Block `i` of `n` blocks of `len` elements ends inside the layout. */
  lemma {:induction false} BlockEnd(i: nat, n: nat, len: nat)
    requires i < n
    ensures i * len <= i * len + len == (i + 1) * len <= n * len
  {
    MulLeft(i + 1, n, len);
    MulDistrib(i, 1, len);
  }

  lemma {:induction false} DivMod(k: nat, w: nat)
    requires w > 0
    ensures k == (k / w) * w + k % w && k % w < w
  {
  }

  /** Division by `w` of a number below `d * w` is below `d`. */
  lemma {:induction false} DivBelow(k: nat, w: nat, d: nat)
    requires w > 0 && k < d * w
    ensures k / w < d
  {
    var q := k / w;
    assert k == q * w + k % w;
    if q >= d {
      MulLeft(d, q, w);
      assert false;
    }
  }

  /** Quotient and remainder of `q * w + r` when `r < w`. */
  lemma {:induction false} DivModOf(q: nat, r: nat, w: nat)
    requires r < w
    ensures (q * w + r) / w == q
    ensures (q * w + r) % w == r
  {
    var k: nat := q * w + r;
    var q' := k / w;
    var r' := k % w;
    assert k == q' * w + r';
    if q' < q {
      MulLeft(q' + 1, q, w);
      MulDistrib(q', 1, w);
      assert false;
    } else if q' > q {
      MulLeft(q + 1, q', w);
      MulDistrib(q, 1, w);
      assert false;
    }
  }

  /** Scaling an offset `h * w + r` by `a`. */
  lemma {:induction false} MulScaled(a: nat, h: nat, w: nat, r: nat)
    ensures a * (h * w + r) == h * (a * w) + a * r
  {
    MulDistrib(h * w, r, a);
  }

  /** A block offset `a * (w * p) + r * p` regrouped as `(a * w + r) * p`. */
  lemma {:induction false} MulRegroup(a: nat, w: nat, p: nat, r: nat)
    ensures a * (w * p) + r * p == (a * w + r) * p
  {
    assert a * (w * p) == (a * w) * p;
    MulDistrib(a * w, r, p);
  }

  lemma {:induction false} MulRotate(a: nat, b: nat, c: nat)
    ensures a * (b * c) == (a * c) * b
  {
  }
}
