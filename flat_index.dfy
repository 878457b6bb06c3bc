/**
 * Strides ("magnitudes") of a dense row-major grid, the flat offset of a
 * coordinate tuple, and the Cartesian product that drives cube iteration.
 * Shared by both snapshots of the dense engine (pydatacube/pydatacube.py and
 * the older pydatacube.py at the repository root, whose code is identical).
 */
module FlatIndex {
  import opened Common

  /** `cumprod`, as the specification of its loop: cum[k] = vals[k] * cum[k-1]. */
  function CumProd(vals: seq<nat>): (cum: seq<nat>)
    requires |vals| > 0
    ensures |cum| == |vals| && cum[0] == vals[0]
    ensures forall k :: 0 < k < |cum| ==> cum[k] == vals[k] * cum[k - 1]
  {
    if |vals| == 1 then [vals[0]]
    else
      var p := CumProd(vals[..|vals| - 1]);
      p + [vals[|vals| - 1] * p[|p| - 1]]
  }

  /** Each running product is the product of the prefix that ends there. */
  lemma {:induction false} CumProdIsPrefixProduct(vals: seq<nat>, k: nat)
    requires k < |vals|
    ensures CumProd(vals)[k] == Product(vals[..k + 1])
  {
    if k == 0 {
      assert vals[..1][1..] == [];
    } else {
      CumProdIsPrefixProduct(vals, k - 1);
      assert vals[..k + 1] == vals[..k] + [vals[k]];
      ProductSnoc(vals[..k], vals[k]);
    }
  }

  /** The loop of `cumprod`: start from [vals[0]] and append v * cum[-1]. */
  method CumProdLoop(vals: seq<nat>) returns (cum: seq<nat>)
    requires |vals| > 0
    ensures cum == CumProd(vals)
  {
    cum := [vals[0]];
    var i := 1;
    while i < |vals|
      invariant 1 <= i <= |vals|
      invariant cum == CumProd(vals[..i])
    {
      assert vals[..i + 1][..i] == vals[..i];
      cum := cum + [vals[i] * cum[|cum| - 1]];
      i := i + 1;
    }
    assert vals[..|vals|] == vals;
  }

  function Reverse<T>(s: seq<T>): (r: seq<T>)
    ensures |r| == |s|
    ensures forall i :: 0 <= i < |s| ==> r[i] == s[|s| - 1 - i]
  {
    seq(|s|, i requires 0 <= i < |s| => s[|s| - 1 - i])
  }

  /** Python's `sizes[1:]`, which is empty for an empty list. */
  function Tail<T>(s: seq<T>): seq<T>
  {
    if s == [] then [] else s[1..]
  }

  /**
   * `dimension_magnitudes(sizes) = cumprod((sizes[1:] + [1])[::-1])[::-1]`.
   * There is one magnitude per dimension (and a lone 1 for no dimensions);
   * the last is 1 and each earlier one is the next size times the next magnitude.
   */
  function Magnitudes(sizes: seq<nat>): (mags: seq<nat>)
    ensures |mags| == if |sizes| == 0 then 1 else |sizes|
    ensures mags[|mags| - 1] == 1
    ensures forall i :: 0 <= i < |sizes| - 1 ==> mags[i] == sizes[i + 1] * mags[i + 1]
  {
    MagnitudeSteps(sizes);
    Reverse(CumProd(Reverse(Tail(sizes) + [1])))
  }

  /** The strides read back from the running products taken from the right. */
  lemma MagnitudeSteps(sizes: seq<nat>)
    ensures var mags := Reverse(CumProd(Reverse(Tail(sizes) + [1])));
      && mags[|mags| - 1] == 1
      && forall i :: 0 <= i < |sizes| - 1 ==> mags[i] == sizes[i + 1] * mags[i + 1]
  {
    var shifted := Tail(sizes) + [1];
    assert |shifted| == if sizes == [] then 1 else |sizes|;
    assert forall i :: 0 <= i < |sizes| - 1 ==> shifted[i] == sizes[i + 1];
    RightProductSteps(shifted);
  }

  /** Running products taken from the right: each is its element times the next one. */
  lemma RightProductSteps(x: seq<nat>)
    requires |x| > 0
    ensures var m := Reverse(CumProd(Reverse(x)));
      && |m| == |x| && m[|x| - 1] == x[|x| - 1]
      && forall i :: 0 <= i < |x| - 1 ==> m[i] == x[i] * m[i + 1]
  {
    var v := Reverse(x);
    var c := CumProd(v);
    var m := Reverse(c);
    var n := |x|;
    forall i | 0 <= i < n - 1
      ensures m[i] == x[i] * m[i + 1]
    {
      var k := n - 1 - i;
      assert m[i] == c[k] && m[i + 1] == c[k - 1] && v[k] == x[i];
    }
  }

  /** Each magnitude is the product of all sizes to its right. */
  lemma {:induction false} MagnitudeIsSuffixProduct(sizes: seq<nat>, i: nat)
    requires i < |sizes|
    ensures Magnitudes(sizes)[i] == Product(sizes[i + 1..])
    decreases |sizes| - i
  {
    if i == |sizes| - 1 {
      assert sizes[i + 1..] == [];
    } else {
      MagnitudeIsSuffixProduct(sizes, i + 1);
      assert sizes[i + 1..][1..] == sizes[i + 2..];
    }
  }

  /** `_flatindex`: `sum(i*m for i, m in zip(indices, magnitudes))`; zip stops at the shorter. */
  function Flat(indices: seq<nat>, mags: seq<nat>): nat
  {
    if |indices| == 0 || |mags| == 0 then 0
    else indices[0] * mags[0] + Flat(indices[1..], mags[1..])
  }

  /** A coordinate tuple of the full grid: one in-range index per dimension. */
  predicate InRange(c: seq<nat>, sizes: seq<nat>)
  {
    |c| == |sizes| && forall i :: 0 <= i < |c| ==> c[i] < sizes[i]
  }

  /** Reference definition of the row-major offset, by the first coordinate. */
  function Offset(c: seq<nat>, sizes: seq<nat>): nat
    requires |c| == |sizes|
  {
    if c == [] then 0 else c[0] * Product(sizes[1..]) + Offset(c[1..], sizes[1..])
  }

  lemma {:induction false} FlatWithSuffixProducts(c: seq<nat>, sizes: seq<nat>, mags: seq<nat>)
    requires |c| == |sizes| <= |mags|
    requires forall i :: 0 <= i < |sizes| ==> mags[i] == Product(sizes[i + 1..])
    ensures Flat(c, mags) == Offset(c, sizes)
  {
    if c != [] {
      assert mags[0] == Product(sizes[1..]);
      forall i | 0 <= i < |sizes| - 1
        ensures mags[1..][i] == Product(sizes[1..][i + 1..])
      {
        assert sizes[1..][i + 1..] == sizes[i + 2..];
      }
      FlatWithSuffixProducts(c[1..], sizes[1..], mags[1..]);
    }
  }

  /** The magnitudes `dimension_magnitudes` computes give the row-major offset. */
  lemma FlatIsOffset(c: seq<nat>, sizes: seq<nat>)
    requires |c| == |sizes|
    ensures Flat(c, Magnitudes(sizes)) == Offset(c, sizes)
  {
    forall i | 0 <= i < |sizes| ensures Magnitudes(sizes)[i] == Product(sizes[i + 1..]) {
      MagnitudeIsSuffixProduct(sizes, i);
    }
    FlatWithSuffixProducts(c, sizes, Magnitudes(sizes));
  }

  lemma MulLeMono(a: nat, b: nat, k: nat)
    requires a <= b
    ensures a * k <= b * k
  {
  }

  lemma {:induction false} OffsetBound(c: seq<nat>, sizes: seq<nat>)
    requires InRange(c, sizes)
    ensures Offset(c, sizes) < Product(sizes)
  {
    if c != [] {
      var p := Product(sizes[1..]);
      OffsetBound(c[1..], sizes[1..]);
      MulLeMono(c[0] + 1, sizes[0], p);
      assert c[0] * p + p == (c[0] + 1) * p;
    }
  }

  lemma DivModOf(q: nat, r: nat, p: nat)
    requires r < p
    ensures (q * p + r) / p == q && (q * p + r) % p == r
  {
    var a := q * p + r;
    var q', r' := a / p, a % p;
    assert a == q' * p + r';
    if q' > q {
      MulLeMono(q + 1, q', p);
    } else if q' < q {
      MulLeMono(q' + 1, q, p);
    }
  }

  /** The coordinate tuple at a row-major offset: its mixed-radix digits. */
  function Unflatten(o: nat, sizes: seq<nat>): (c: seq<nat>)
    requires o < Product(sizes)
    ensures InRange(c, sizes)
    ensures Offset(c, sizes) == o
  {
    if sizes == [] then []
    else
      var p := Product(sizes[1..]);
      assert Product(sizes) == sizes[0] * p;
      LeadingDigit(o, sizes[0], p);
      var rest := Unflatten(o % p, sizes[1..]);
      PrependDigit(o / p, o % p, rest, sizes);
      [o / p] + rest
  }

  /** Prepending an in-range leading digit `q` to a tuple at offset `r` adds `q` times the inner product. */
  lemma PrependDigit(q: nat, r: nat, rest: seq<nat>, sizes: seq<nat>)
    requires sizes != [] && q < sizes[0] && InRange(rest, sizes[1..]) && Offset(rest, sizes[1..]) == r
    ensures InRange([q] + rest, sizes) && Offset([q] + rest, sizes) == q * Product(sizes[1..]) + r
  {
    var c := [q] + rest;
    assert c[1..] == rest;
    assert forall i :: 1 <= i < |c| ==> c[i] == rest[i - 1];
  }

  /** The leading mixed-radix digit of an offset below s0 * p, and the remainder below p. */
  lemma LeadingDigit(o: nat, s0: nat, p: nat)
    requires o < s0 * p
    ensures p > 0 && o / p < s0 && o % p < p && (o / p) * p + o % p == o
  {
    var q := o / p;
    if q >= s0 { MulLeMono(s0, q, p); }
  }

  lemma {:induction false} UnflattenOffset(c: seq<nat>, sizes: seq<nat>)
    requires InRange(c, sizes)
    ensures Offset(c, sizes) < Product(sizes)
    ensures Unflatten(Offset(c, sizes), sizes) == c
  {
    OffsetBound(c, sizes);
    if c != [] {
      var p := Product(sizes[1..]);
      OffsetBound(c[1..], sizes[1..]);
      DivModOf(c[0], Offset(c[1..], sizes[1..]), p);
      UnflattenOffset(c[1..], sizes[1..]);
    }
  }

  /** Every in-range tuple lands inside the payload: 0 <= flat index < product(sizes). */
  lemma FlatIndexBound(c: seq<nat>, sizes: seq<nat>)
    requires InRange(c, sizes)
    ensures Flat(c, Magnitudes(sizes)) < Product(sizes)
  {
    FlatIsOffset(c, sizes);
    OffsetBound(c, sizes);
  }

  /** Distinct in-range tuples get distinct flat offsets. */
  lemma FlatIndexInjective(c1: seq<nat>, c2: seq<nat>, sizes: seq<nat>)
    requires InRange(c1, sizes) && InRange(c2, sizes)
    requires Flat(c1, Magnitudes(sizes)) == Flat(c2, Magnitudes(sizes))
    ensures c1 == c2
  {
    FlatIsOffset(c1, sizes);
    FlatIsOffset(c2, sizes);
    UnflattenOffset(c1, sizes);
    UnflattenOffset(c2, sizes);
  }

  /** Every offset of the payload is reached by exactly the tuple Unflatten gives. */
  lemma FlatIndexOnto(o: nat, sizes: seq<nat>)
    requires o < Product(sizes)
    ensures InRange(Unflatten(o, sizes), sizes)
    ensures Flat(Unflatten(o, sizes), Magnitudes(sizes)) == o
  {
    FlatIsOffset(Unflatten(o, sizes), sizes);
  }

  // ---------------------------------------------------------------------
  // itertools.product
  // ---------------------------------------------------------------------

  function Lengths<T>(rs: seq<seq<T>>): (ls: seq<nat>)
    ensures |ls| == |rs| && forall i :: 0 <= i < |rs| ==> ls[i] == |rs[i]|
  {
    seq(|rs|, i requires 0 <= i < |rs| => |rs[i]|)
  }

  /** Every x of xs in front of every tail, x outermost. */
  function Prefixed<T>(xs: seq<T>, tails: seq<seq<T>>): (r: seq<seq<T>>)
    ensures |r| == |xs| * |tails|
  {
    if xs == [] then []
    else seq(|tails|, j requires 0 <= j < |tails| => [xs[0]] + tails[j]) + Prefixed(xs[1..], tails)
  }

  lemma MulPositive(a: nat, b: nat)
    requires a * b > 0
    ensures a > 0 && b > 0
  {
  }

  lemma ShiftDiv(k: nat, n: nat)
    requires 0 < n <= k
    ensures k / n == (k - n) / n + 1 && k % n == (k - n) % n
  {
    var q, r := (k - n) / n, (k - n) % n;
    assert k - n == q * n + r;
    assert k == (q + 1) * n + r;
    DivModOf(q + 1, r, n);
  }

  lemma {:induction false} PrefixedAt<T>(xs: seq<T>, tails: seq<seq<T>>, k: nat)
    requires k < |xs| * |tails|
    ensures |tails| > 0 && k / |tails| < |xs|
    ensures Prefixed(xs, tails)[k] == [xs[k / |tails|]] + tails[k % |tails|]
  {
    var n := |tails|;
    MulPositive(|xs|, n);
    var head := seq(n, j requires 0 <= j < n => [xs[0]] + tails[j]);
    var rest := Prefixed(xs[1..], tails);
    assert Prefixed(xs, tails) == head + rest;
    if k < n {
      DivModOf(0, k, n);
      assert Prefixed(xs, tails)[k] == head[k];
    } else {
      assert Prefixed(xs, tails)[k] == rest[k - n];
      var m := |xs| - 1;
      assert m * n == |xs| * n - n;
      PrefixedAt(xs[1..], tails, k - n);
      ShiftDiv(k, n);
    }
  }

  /**
   * `itertools.product(*rs)`: all tuples taking one element of each list,
   * in row-major order (the last list varies fastest).
   */
  function Cartesian<T>(rs: seq<seq<T>>): (r: seq<seq<T>>)
    ensures |r| == Product(Lengths(rs))
  {
    if rs == [] then [[]]
    else
      assert Lengths(rs)[1..] == Lengths(rs[1..]);
      Prefixed(rs[0], Cartesian(rs[1..]))
  }

  /**
   * The k-th tuple of the product takes from list i the element whose position
   * is the i-th mixed-radix digit of k: row-major order, last dimension fastest.
   */
  lemma {:induction false} CartesianAt<T>(rs: seq<seq<T>>, k: nat)
    requires k < Product(Lengths(rs))
    ensures |Cartesian(rs)[k]| == |rs|
    ensures forall i :: 0 <= i < |rs| ==> Cartesian(rs)[k][i] == rs[i][Unflatten(k, Lengths(rs))[i]]
  {
    if rs != [] {
      var tails := Cartesian(rs[1..]);
      assert Lengths(rs)[1..] == Lengths(rs[1..]);
      var p := Product(Lengths(rs[1..]));
      PrefixedAt(rs[0], tails, k);
      var u := Unflatten(k, Lengths(rs));
      assert u[0] == k / p;
      assert u[1..] == Unflatten(k % p, Lengths(rs[1..]));
      CartesianAt(rs[1..], k % p);
      forall i | 0 <= i < |rs|
        ensures Cartesian(rs)[k][i] == rs[i][u[i]]
      {
        if i > 0 {
          assert Cartesian(rs)[k][i] == tails[k % p][i - 1];
        }
      }
    }
  }

  /** `map(range, sizes)`: the unfiltered index list of every dimension. */
  function Ranges(sizes: seq<nat>): (rs: seq<seq<nat>>)
    ensures |rs| == |sizes| && forall i :: 0 <= i < |sizes| ==> rs[i] == Range(sizes[i])
  {
    seq(|sizes|, i requires 0 <= i < |sizes| => Range(sizes[i]))
  }

  /**
   * Iterating the unfiltered grid enumerates every coordinate tuple exactly
   * once: the k-th tuple is the one whose flat index is k, and every in-range
   * tuple c occurs, at position flat(c).
   */
  lemma GridEnumeration(sizes: seq<nat>)
    ensures |Cartesian(Ranges(sizes))| == Product(sizes)
    ensures forall k :: 0 <= k < Product(sizes) ==>
      Cartesian(Ranges(sizes))[k] == Unflatten(k, sizes) &&
      Flat(Cartesian(Ranges(sizes))[k], Magnitudes(sizes)) == k
    ensures forall c :: InRange(c, sizes) ==>
      Flat(c, Magnitudes(sizes)) < Product(sizes) &&
      Cartesian(Ranges(sizes))[Flat(c, Magnitudes(sizes))] == c
  {
    var rs := Ranges(sizes);
    assert Lengths(rs) == sizes;
    forall k | 0 <= k < Product(sizes)
      ensures Cartesian(rs)[k] == Unflatten(k, sizes)
      ensures Flat(Cartesian(rs)[k], Magnitudes(sizes)) == k
    {
      CartesianAt(rs, k);
      FlatIndexOnto(k, sizes);
    }
    forall c | InRange(c, sizes)
      ensures Flat(c, Magnitudes(sizes)) < Product(sizes)
      ensures Cartesian(rs)[Flat(c, Magnitudes(sizes))] == c
    {
      FlatIsOffset(c, sizes);
      UnflattenOffset(c, sizes);
      var k := Offset(c, sizes);
      CartesianAt(rs, k);
    }
  }
}
