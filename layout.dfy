/**
 * Row-major layout of an n-dimensional array in a flat buffer.
 *
 * A shape is a sequence of dimensions; an element index (a coordinate) has
 * one entry per dimension. The element at coordinate `c` of shape `s` is
 * stored at offset `sum over i of c[i] * Product(s[i+1..])`.
 */
module Layout {
  import opened Arith

  /** Number of elements of an array of shape `s`; the empty shape holds one element. */
  function Product(s: seq<nat>): nat
  {
    if |s| == 0 then 1 else s[0] * Product(s[1..])
  }

  /** Every coordinate is within its dimension. */
  predicate InBounds(c: seq<nat>, s: seq<nat>)
  {
    |c| == |s| && forall i :: 0 <= i < |s| ==> c[i] < s[i]
  }

  /** Row-major offset of coordinate `c` in shape `s` (the last coordinate varies fastest). */
  function RowMajor(c: seq<nat>, s: seq<nat>): nat
    requires |c| == |s|
  {
    if |s| == 0 then 0 else c[0] * Product(s[1..]) + RowMajor(c[1..], s[1..])
  }

  /** The coordinate stored at offset `k`: the inverse of `RowMajor`. */
  function Unrank(k: nat, s: seq<nat>): (c: seq<nat>)
    requires 0 !in s && k < Product(s)
    ensures InBounds(c, s) && RowMajor(c, s) == k
    decreases |s|
  {
    if |s| == 0 then []
    else
      var w := Product(s[1..]);
      ProductPositive(s[1..]);
      var q, r := k / w, k % w;
      DivBelow(k, w, s[0]);
      var rest := Unrank(r, s[1..]);
      UnrankStep(q, rest, s, k);
      [q] + rest
  }

  lemma {:induction false} UnrankStep(q: nat, rest: seq<nat>, s: seq<nat>, k: nat)
    requires |s| > 0 && Product(s[1..]) > 0 && q < s[0]
    requires q == k / Product(s[1..])
    requires InBounds(rest, s[1..]) && RowMajor(rest, s[1..]) == k % Product(s[1..])
    ensures InBounds([q] + rest, s) && RowMajor([q] + rest, s) == k
  {
    var c := [q] + rest;
    var w := Product(s[1..]);
    assert c[1..] == rest;
    assert RowMajor(c, s) == q * w + RowMajor(rest, s[1..]);
    DivMod(k, w);
    forall i | 0 < i < |s|
      ensures c[i] < s[i]
    {
      assert c[i] == rest[i - 1] && s[1..][i - 1] == s[i];
    }
  }

  lemma {:induction false} ProductPositive(s: seq<nat>)
    requires 0 !in s
    ensures Product(s) > 0
    decreases |s|
  {
    if |s| > 0 {
      assert s == [s[0]] + s[1..];
      ProductPositive(s[1..]);
    }
  }

  /** The first `m` elements of `s` and `t` agree. */
  predicate PrefixAgrees(s: seq<real>, t: seq<real>, m: nat)
  {
    m <= |s| && m <= |t| && forall i :: 0 <= i < m ==> s[i] == t[i]
  }

  /** Writing `t[m]` at position `m` extends the agreement by one element. */
  lemma PrefixStep(s: seq<real>, t: seq<real>, m: nat, v: real)
    requires PrefixAgrees(s, t, m) && m < |s| && m < |t| && v == t[m]
    ensures PrefixAgrees(s[m := v], t, m + 1)
  {
  }

  /** Agreement on the whole of two sequences of the same length is equality. */
  lemma PrefixAll(s: seq<real>, t: seq<real>)
    requires |s| == |t| && PrefixAgrees(s, t, |t|)
    ensures s == t
  {
  }

  /** A slice that ends inside the first part of a concatenation. */
  lemma SliceOfFront<T>(a: seq<T>, b: seq<T>, lo: nat, hi: nat)
    requires lo <= hi <= |a|
    ensures (a + b)[lo..hi] == a[lo..hi]
  {
  }

  /** The slice past the first part of a concatenation is the second part. */
  lemma SliceOfBack<T>(a: seq<T>, b: seq<T>, lo: nat, hi: nat)
    requires lo == |a| && hi == |a| + |b|
    ensures (a + b)[lo..hi] == b
  {
  }

  /** A slice of a prefix is a slice of the whole. */
  lemma SliceOfPrefix<T>(a: seq<T>, m: nat, lo: nat, hi: nat)
    requires lo <= hi <= m <= |a|
    ensures a[..m][lo..hi] == a[lo..hi]
  {
  }

  lemma {:induction false} ProductOfTwo(x: nat, y: nat)
    ensures Product([x, y]) == x * y
  {
    assert [x, y][1..] == [y];
    assert [y][1..] == [];
    assert Product([y]) == y * Product([]) == y;
    assert Product([x, y]) == x * Product([y]);
  }

  /** The product of a concatenation is the product of the products. */
  lemma {:induction false} ProductAppend(a: seq<nat>, b: seq<nat>)
    ensures Product(a + b) == Product(a) * Product(b)
    decreases |a|
  {
    if |a| == 0 {
      assert a + b == b;
    } else {
      assert (a + b)[1..] == a[1..] + b;
      ProductAppend(a[1..], b);
      calc {
        Product(a + b);
        a[0] * Product(a[1..] + b);
        a[0] * (Product(a[1..]) * Product(b));
        (a[0] * Product(a[1..])) * Product(b);
      }
    }
  }

  /** An in-bounds coordinate addresses an element inside the buffer. */
  lemma {:induction false} RowMajorBound(c: seq<nat>, s: seq<nat>)
    requires InBounds(c, s)
    ensures RowMajor(c, s) < Product(s)
    decreases |s|
  {
    if |s| > 0 {
      var w := Product(s[1..]);
      RowMajorBound(c[1..], s[1..]);
      BlockIndex(c[0], RowMajor(c[1..], s[1..]), w, s[0]);
    }
  }

  /** Two in-bounds coordinates with the same offset are equal. */
  lemma {:induction false} RowMajorInjective(c1: seq<nat>, c2: seq<nat>, s: seq<nat>)
    requires InBounds(c1, s) && InBounds(c2, s)
    requires RowMajor(c1, s) == RowMajor(c2, s)
    ensures c1 == c2
    decreases |s|
  {
    if |s| > 0 {
      var w := Product(s[1..]);
      var r1 := RowMajor(c1[1..], s[1..]);
      var r2 := RowMajor(c2[1..], s[1..]);
      RowMajorBound(c1[1..], s[1..]);
      RowMajorBound(c2[1..], s[1..]);
      DivModOf(c1[0], r1, w);
      DivModOf(c2[0], r2, w);
      RowMajorInjective(c1[1..], c2[1..], s[1..]);
      assert c1 == [c1[0]] + c1[1..];
      assert c2 == [c2[0]] + c2[1..];
    }
  }

  /** Unranking the offset of an in-bounds coordinate gives that coordinate back. */
  lemma {:induction false} UnrankRowMajor(c: seq<nat>, s: seq<nat>)
    requires 0 !in s && InBounds(c, s)
    ensures RowMajor(c, s) < Product(s)
    ensures Unrank(RowMajor(c, s), s) == c
  {
    RowMajorBound(c, s);
    RowMajorInjective(Unrank(RowMajor(c, s), s), c, s);
  }

  /** Adding one to the last coordinate adds one to the offset. */
  lemma {:induction false} RowMajorBumpLast(c: seq<nat>, s: seq<nat>)
    requires |c| == |s| > 0
    ensures RowMajor(c[|c| - 1 := c[|c| - 1] + 1], s) == RowMajor(c, s) + 1
    decreases |s|
  {
    var c' := c[|c| - 1 := c[|c| - 1] + 1];
    if |s| == 1 {
      assert Product(s[1..]) == 1;
    } else {
      assert c'[1..] == c[1..][|c| - 2 := c[|c| - 1] + 1];
      RowMajorBumpLast(c[1..], s[1..]);
    }
  }

  /**
   * A carry: resetting a coordinate equal to its dimension to zero and adding
   * one to the coordinate before it leaves the offset unchanged.
   */
  lemma {:induction false} RowMajorCarry(c: seq<nat>, s: seq<nat>, i: nat)
    requires |c| == |s| && 0 < i < |s| && c[i] == s[i]
    ensures RowMajor(c[i := 0][i - 1 := c[i - 1] + 1], s) == RowMajor(c, s)
    decreases |s|
  {
    var c' := c[i := 0][i - 1 := c[i - 1] + 1];
    if i == 1 {
      var w := Product(s[2..]);
      assert s[1..][1..] == s[2..];
      assert c[1..][1..] == c[2..] == c'[1..][1..];
      assert RowMajor(c'[1..], s[1..]) == RowMajor(c[2..], s[2..]);
      assert RowMajor(c[1..], s[1..]) == s[1] * w + RowMajor(c[2..], s[2..]);
      assert Product(s[1..]) == s[1] * w;
      MulDistrib(c[0], 1, Product(s[1..]));
    } else {
      assert c'[1..] == c[1..][i - 1 := 0][i - 2 := c[i - 1] + 1];
      RowMajorCarry(c[1..], s[1..], i - 1);
    }
  }

  /** A coordinate whose first entry reaches its dimension lies past the end of the buffer. */
  lemma {:induction false} RowMajorPastEnd(c: seq<nat>, s: seq<nat>)
    requires |c| == |s| > 0 && c[0] >= s[0]
    ensures RowMajor(c, s) >= Product(s)
  {
    MulLeft(s[0], c[0], Product(s[1..]));
  }

  /** Offsets of a split coordinate: the prefix selects a block, the suffix an element of it. */
  lemma {:induction false} RowMajorAppend(c1: seq<nat>, c2: seq<nat>, s1: seq<nat>, s2: seq<nat>)
    requires |c1| == |s1| && |c2| == |s2|
    ensures RowMajor(c1 + c2, s1 + s2) == RowMajor(c1, s1) * Product(s2) + RowMajor(c2, s2)
    decreases |s1|
  {
    if |s1| == 0 {
      assert c1 + c2 == c2 && s1 + s2 == s2;
    } else {
      assert (c1 + c2)[1..] == c1[1..] + c2;
      assert (s1 + s2)[1..] == s1[1..] + s2;
      RowMajorAppend(c1[1..], c2, s1[1..], s2);
      ProductAppend(s1[1..], s2);
      var p := Product(s2);
      var w := Product(s1[1..]);
      var r1 := RowMajor(c1[1..], s1[1..]);
      var r2 := RowMajor(c2, s2);
      assert RowMajor(c1 + c2, s1 + s2) == c1[0] * (w * p) + (r1 * p + r2);
      MulRegroup(c1[0], w, p, r1);
    }
  }
}
