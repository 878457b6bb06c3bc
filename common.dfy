/** Value types, the error taxonomy and sequence helpers shared by every module. */
module Common {

  datatype Option<T> = None | Some(value: T)

  /** The exceptions the modelled Python code raises, by kind. */
  datatype Error =
    | KeyError(key: string)              // a dict lookup of a missing key
    | IntKeyError(index: int)            // a dict lookup of an int key (dict keys here are strings)
    | IndexError                         // a list index out of range
    | InvalidIdentifier(name: string)    // sql.InvalidIdentifier
    | ValueError(message: string)
    | ConversionError                    // jsonstat.ConversionError
    | JsonstatException                  // jsonstat.JsonstatException
    | TypeError                          // an operation applied to a value of the wrong type

  datatype Result<T> = Ok(value: T) | Err(error: Error) {
    predicate IsFailure() { Err? }
    function PropagateFailure<U>(): Result<U>
      requires Err?
    {
      Err(error)
    }
    function Extract(): T
      requires Ok?
    {
      value
    }
  }

  /** Python's `s[i]`, negative positions counting from the end. */
  function PyIndex<T>(s: seq<T>, i: int): (r: Result<T>)
    ensures r.Ok? <==> -|s| <= i < |s|
    ensures 0 <= i < |s| ==> r == Ok(s[i])
    ensures -|s| <= i < 0 ==> r == Ok(s[|s| + i])
  {
    if 0 <= i < |s| then Ok(s[i])
    else if -|s| <= i < 0 then Ok(s[|s| + i])
    else Err(IndexError)
  }

  /** A payload scalar, or a category label as a row yields it. */
  datatype Value = VStr(str: string) | VNum(num: int) | VNull

  function Product(s: seq<nat>): nat
  {
    if s == [] then 1 else s[0] * Product(s[1..])
  }

  lemma {:induction false} ProductSnoc(s: seq<nat>, x: nat)
    ensures Product(s + [x]) == Product(s) * x
  {
    if s != [] {
      assert (s + [x])[1..] == s[1..] + [x];
      ProductSnoc(s[1..], x);
    }
  }

  function Min(a: nat, b: nat): nat
  {
    if a < b then a else b
  }

  /** Python's `range(n)`. */
  function Range(n: nat): (r: seq<nat>)
    ensures |r| == n
    ensures forall i :: 0 <= i < n ==> r[i] == i
  {
    seq(n, i requires 0 <= i < n => i)
  }

  /** The first components of a list of pairs: the keys of an ordered dict's items. */
  function Firsts<A, B>(pairs: seq<(A, B)>): (r: seq<A>)
    ensures |r| == |pairs| && forall k :: 0 <= k < |pairs| ==> r[k] == pairs[k].0
  {
    seq(|pairs|, k requires 0 <= k < |pairs| => pairs[k].0)
  }

  /** `d[key] = v` on a dict kept as its items: a present key keeps its position and takes the new value. */
  function Assign<V>(items: seq<(string, V)>, key: string, v: V): (r: seq<(string, V)>)
    ensures Firsts(r) == if key in Firsts(items) then Firsts(items) else Firsts(items) + [key]
  {
    if key in Firsts(items) then seq(|items|, k requires 0 <= k < |items| => if items[k].0 == key then (key, v) else items[k])
    else items + [(key, v)]
  }

  /** The second components of a list of pairs. */
  function Seconds<A, B>(pairs: seq<(A, B)>): (r: seq<B>)
    ensures |r| == |pairs| && forall k :: 0 <= k < |pairs| ==> r[k] == pairs[k].1
  {
    seq(|pairs|, k requires 0 <= k < |pairs| => pairs[k].1)
  }

  /** Python's `sep.join(parts)`. */
  function Join(parts: seq<string>, sep: string): string
  {
    if |parts| == 0 then ""
    else if |parts| == 1 then parts[0]
    else parts[0] + sep + Join(parts[1..], sep)
  }

  /** Concatenation of a list of lists, in order. */
  function Concat<T>(ss: seq<seq<T>>): seq<T>
  {
    if ss == [] then [] else ss[0] + Concat(ss[1..])
  }

  lemma {:induction false} ConcatSnoc<T>(ss: seq<seq<T>>, s: seq<T>)
    ensures Concat(ss + [s]) == Concat(ss) + s
  {
    if ss != [] {
      assert (ss + [s])[1..] == ss[1..] + [s];
      ConcatSnoc(ss[1..], s);
    }
  }

  /** The values of the first `n` results in order, or the error of the first that failed. */
  function Collect<T>(rs: seq<Result<T>>, n: nat): (r: Result<seq<T>>)
    requires n <= |rs|
    ensures r.Ok? ==> |r.value| == n
    ensures r.Ok? <==> forall i :: 0 <= i < n ==> rs[i].Ok?
    ensures r.Ok? ==> forall i :: 0 <= i < n ==> r.value[i] == rs[i].value
  {
    if n == 0 then Ok([])
    else
      var pre :- Collect(rs, n - 1);
      var x :- rs[n - 1];
      assert forall i :: 0 <= i < n - 1 ==> (pre + [x])[i] == pre[i];
      Ok(pre + [x])
  }

  /** A failed `Collect` fails with the error of its first failed result. */
  lemma {:induction false} CollectFirstError<T>(rs: seq<Result<T>>, n: nat)
    requires n <= |rs|
    ensures Collect(rs, n).Err? ==>
      exists i :: (0 <= i < n && rs[i].Err? && (forall j :: 0 <= j < i ==> rs[j].Ok?) &&
        Collect(rs, n).error == rs[i].error)
  {
    if n > 0 && Collect(rs, n).Err? {
      var pre := Collect(rs, n - 1);
      if pre.Err? {
        assert Collect(rs, n).error == pre.error;
        CollectFirstError(rs, n - 1);
        var i :| 0 <= i < n - 1 && rs[i].Err? && (forall j :: 0 <= j < i ==> rs[j].Ok?) && pre.error == rs[i].error;
        assert 0 <= i < n;
      } else {
        assert rs[n - 1].Err? && Collect(rs, n).error == rs[n - 1].error;
        assert forall j :: 0 <= j < n - 1 ==> rs[j].Ok?;
      }
    }
  }

  /** Once result `i` fails after `i` successes, every longer `Collect` fails with its error. */
  lemma {:induction false} CollectFail<T>(rs: seq<Result<T>>, i: nat, n: nat)
    requires i < n <= |rs|
    requires Collect(rs, i).Ok? && rs[i].Err?
    ensures Collect(rs, n) == Err(rs[i].error)
    decreases n
  {
    if n - 1 > i {
      CollectFail(rs, i, n - 1);
    }
  }

  predicate Distinct<T(==)>(s: seq<T>)
  {
    forall i, j :: 0 <= i < j < |s| ==> s[i] != s[j]
  }

  /**
   * The position a Python dict comprehension `{s[i]: i for i ...}` keeps for
   * key x: the last one, since later entries overwrite earlier ones.
   */
  function LastIndexOf<T(==)>(s: seq<T>, x: T): (r: Option<nat>)
    ensures r.None? <==> x !in s
    ensures r.Some? ==> r.value < |s| && s[r.value] == x
    ensures r.Some? ==> forall j :: r.value < j < |s| ==> s[j] != x
  {
    if s == [] then None
    else if s[|s| - 1] == x then Some(|s| - 1)
    else LastIndexOf(s[..|s| - 1], x)
  }

  lemma LastIndexOfDistinct<T>(s: seq<T>, i: nat)
    requires Distinct(s) && i < |s|
    ensures LastIndexOf(s, s[i]) == Some(i)
  {
  }
}
