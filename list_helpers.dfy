/** The generic array helpers of the game (`flatMap`, `not`, `elem`,
    `except`) and the array built-ins the engine relies on (`map`,
    `filter`, `findIndex`, `some`), over sequences. */
module ListHelpers {

  /** `Array.prototype.map`. */
  function Map<T, U>(f: T -> U, a: seq<T>): (r: seq<U>)
    ensures |r| == |a|
    ensures forall i :: 0 <= i < |a| ==> r[i] == f(a[i])
  {
    seq(|a|, i requires 0 <= i < |a| => f(a[i]))
  }

  /** `Array.prototype.filter`: the elements satisfying `p`, in order. */
  function Filter<T(!new)>(p: T -> bool, a: seq<T>): (r: seq<T>)
    ensures |r| <= |a|
    ensures forall x :: x in r <==> x in a && p(x)
    decreases |a|
  {
    if |a| == 0 then []
    else if p(a[0]) then [a[0]] + Filter(p, a[1..])
    else Filter(p, a[1..])
  }

  /** `Array.prototype.findIndex`: the first index satisfying `p`, or -1. */
  function FindIndex<T>(p: T -> bool, a: seq<T>): (k: int)
    ensures -1 <= k < |a|
    ensures 0 <= k ==> p(a[k]) && forall j :: 0 <= j < k ==> !p(a[j])
    ensures k < 0 ==> forall j :: 0 <= j < |a| ==> !p(a[j])
    decreases |a|
  {
    if |a| == 0 then -1
    else if p(a[0]) then 0
    else var k := FindIndex(p, a[1..]); if k < 0 then -1 else k + 1
  }

  /** `Array.prototype.some`: it holds exactly when `findIndex` finds an
      element. */
  predicate Any<T>(p: T -> bool, a: seq<T>)
  {
    exists i :: 0 <= i < |a| && p(a[i])
  }

  /** A filter is non-empty exactly when some element qualifies, and its
      first element is the first qualifying one; this is what
      `a.filter(p).length > 0` and `[x] = a.filter(p)` rely on. */
  lemma {:induction false} FilterFirst<T(!new)>(p: T -> bool, a: seq<T>)
    ensures |Filter(p, a)| > 0 <==> Any(p, a)
    ensures |Filter(p, a)| > 0 <==> FindIndex(p, a) >= 0
    ensures |Filter(p, a)| > 0 ==> Filter(p, a)[0] == a[FindIndex(p, a)]
    decreases |a|
  {
    if |a| > 0 {
      if !p(a[0]) {
        FilterFirst(p, a[1..]);
        if Any(p, a) {
          var i :| 0 <= i < |a| && p(a[i]);
          assert 0 <= i - 1 < |a[1..]| && p(a[1..][i - 1]);
        }
        if Any(p, a[1..]) {
          var i :| 0 <= i < |a[1..]| && p(a[1..][i]);
          assert p(a[i + 1]);
        }
      }
    }
  }

  /** Filtering a concatenation filters each part, in order. */
  lemma {:induction false} FilterConcat<T(!new)>(p: T -> bool, a: seq<T>, b: seq<T>)
    ensures Filter(p, a + b) == Filter(p, a) + Filter(p, b)
    decreases |a|
  {
    if |a| > 0 {
      assert (a + b)[0] == a[0];
      assert (a + b)[1..] == a[1..] + b;
      FilterConcat(p, a[1..], b);
    } else {
      assert a + b == b;
    }
  }

  /** Filtering one element keeps it exactly when it qualifies. */
  lemma FilterSingleton<T(!new)>(p: T -> bool, x: T)
    ensures Filter(p, [x]) == if p(x) then [x] else []
  {
    assert [x][1..] == [];
  }

  /** The first qualifying element of a concatenation comes from its first
      part when that part has one, and from the second part otherwise. */
  lemma FilterFirstOfConcat<T(!new)>(p: T -> bool, a: seq<T>, b: seq<T>)
    ensures |Filter(p, a)| > 0 ==> |Filter(p, a + b)| > 0 && Filter(p, a + b)[0] == Filter(p, a)[0]
    ensures |Filter(p, a)| == 0 ==> Filter(p, a + b) == Filter(p, b)
  {
    FilterConcat(p, a, b);
  }

  /** `flatMap(a, f)`: the concatenation of `f` applied to every element. */
  function FlatMap<T, U(!new)>(a: seq<T>, f: T -> seq<U>): (r: seq<U>)
    ensures forall y :: y in r <==> exists i :: 0 <= i < |a| && y in f(a[i])
    decreases |a|
  {
    if |a| == 0 then [] else
      var rest := FlatMap(a[1..], f);
      assert forall y :: y in rest <==> exists i :: 1 <= i < |a| && y in f(a[i]) by {
        forall y ensures y in rest <==> exists i :: 1 <= i < |a| && y in f(a[i]) {
          if y in rest {
            var i :| 0 <= i < |a[1..]| && y in f(a[1..][i]);
            assert y in f(a[i + 1]);
          }
        }
      }
      f(a[0]) + rest
  }

  /** `flatMap` of a concatenation is the concatenation of the parts'
      `flatMap`s: the results come in the order of `a`, repeats included. */
  lemma {:induction false} FlatMapConcat<T, U(!new)>(a: seq<T>, b: seq<T>, f: T -> seq<U>)
    ensures FlatMap(a + b, f) == FlatMap(a, f) + FlatMap(b, f)
    decreases |a|
  {
    if |a| > 0 {
      assert (a + b)[0] == a[0];
      assert (a + b)[1..] == a[1..] + b;
      FlatMapConcat(a[1..], b, f);
    } else {
      assert a + b == b;
    }
  }

  /** `flatMap` of one element is that element's image. */
  lemma FlatMapSingleton<T, U(!new)>(x: T, f: T -> seq<U>)
    ensures FlatMap([x], f) == f(x)
  {
    assert [x][1..] == [];
  }

  /** `not(f)`: the pointwise negation of a predicate. */
  function Not<T(!new)>(f: T -> bool): (g: T -> bool)
    ensures forall x :: g(x) == !f(x)
  {
    x => !f(x)
  }

  /** `elem(eq)(a)(e)`: `a.findIndex(eq(e)) >= 0`, that is, some element of
      `a` is equal to `e` under `eq`. */
  function Elem<T>(eq: T -> T -> bool, a: seq<T>, e: T): (r: bool)
    ensures r <==> exists i :: 0 <= i < |a| && eq(e)(a[i])
  {
    FindIndex(eq(e), a) >= 0
  }

  /** `except(eq)(a)(b)`: the elements of `a` that are not in `b` under
      `eq`, in their order in `a`. */
  function Except<T(!new)>(eq: T -> T -> bool, a: seq<T>, b: seq<T>): (r: seq<T>)
    ensures |r| <= |a|
    ensures forall x :: x in r <==> x in a && !Elem(eq, b, x)
  {
    Filter(Not(x => Elem(eq, b, x)), a)
  }

  /** `except` keeps the order of `a`: it distributes over concatenation,
      and keeps or drops each element on its own. */
  lemma ExceptConcat<T(!new)>(eq: T -> T -> bool, a1: seq<T>, a2: seq<T>, b: seq<T>)
    ensures Except(eq, a1 + a2, b) == Except(eq, a1, b) + Except(eq, a2, b)
  {
    FilterConcat(Not(x => Elem(eq, b, x)), a1, a2);
  }

  lemma ExceptSingleton<T(!new)>(eq: T -> T -> bool, x: T, b: seq<T>)
    ensures Except(eq, [x], b) == if Elem(eq, b, x) then [] else [x]
  {
    FilterSingleton(Not(y => Elem(eq, b, y)), x);
  }
}
