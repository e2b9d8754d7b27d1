/** Python's ordering of strings, which compares code point by code point, and
    `sorted(list(s))` of a set of strings. */
module Sorting {

  /** `a < b` for Python strings: at the first position where they differ `a` has the
      smaller character, or `a` is a proper prefix of `b`. */
  predicate Below(a: string, b: string)
    decreases |a|
  {
    b != [] && (a == [] || a[0] < b[0] || (a[0] == b[0] && Below(a[1..], b[1..])))
  }

  lemma {:induction false} BelowIrreflexive(a: string)
    ensures !Below(a, a)
  {
    if a != [] {
      BelowIrreflexive(a[1..]);
    }
  }

  lemma {:induction false} BelowTransitive(a: string, b: string, c: string)
    requires Below(a, b) && Below(b, c)
    ensures Below(a, c)
    decreases |a|
  {
    if a != [] && a[0] == b[0] && b[0] == c[0] {
      BelowTransitive(a[1..], b[1..], c[1..]);
    }
  }

  lemma {:induction false} BelowTotal(a: string, b: string)
    requires a != b
    ensures Below(a, b) || Below(b, a)
    decreases |a|
  {
    if a != [] && b != [] && a[0] == b[0] {
      assert a == [a[0]] + a[1..] && b == [b[0]] + b[1..];
      BelowTotal(a[1..], b[1..]);
    }
  }

  predicate StrictlySorted(xs: seq<string>) {
    forall i, j :: 0 <= i < j < |xs| ==> Below(xs[i], xs[j])
  }

  /** `xs` is what `sorted(list(s))` returns for the set `s`: every element of `s` exactly
      once, in ascending order. */
  predicate SortedListOf(xs: seq<string>, s: set<string>) {
    StrictlySorted(xs) && (forall x | x in xs :: x in s) && (forall x | x in s :: x in xs)
  }

  /** Inserts `x` at its place in an ascending list that does not hold it yet. */
  function Insert(xs: seq<string>, x: string): (r: seq<string>)
    requires StrictlySorted(xs) && x !in xs
    ensures StrictlySorted(r)
    ensures forall y :: y in r <==> y in xs || y == x
  {
    if xs == [] then [x]
    else if Below(x, xs[0]) then
      assert forall j :: 0 < j < |xs| ==> Below(x, xs[j]) by {
        forall j | 0 < j < |xs| {
          BelowTransitive(x, xs[0], xs[j]);
        }
      }
      [x] + xs
    else
      BelowTotal(x, xs[0]);
      var t := Insert(xs[1..], x);
      assert forall k :: 0 <= k < |t| ==> Below(xs[0], t[k]) by {
        forall k | 0 <= k < |t|
          ensures Below(xs[0], t[k])
        {
          assert t[k] in t;
          if t[k] != x {
            var j :| 0 <= j < |xs[1..]| && xs[1..][j] == t[k];
            assert xs[j + 1] == t[k];
          }
        }
      }
      assert forall y :: y in xs <==> y == xs[0] || y in xs[1..];
      [xs[0]] + t
  }

  /** The sorted list of a set, as a specification: each set has exactly one (see
      SortedListUnique). */
  ghost function SortedOf(s: set<string>): (r: seq<string>)
    ensures SortedListOf(r, s)
    decreases |s|
  {
    if s == {} then []
    else
      var x :| x in s;
      Insert(SortedOf(s - {x}), x)
  }

  /** `sorted(list(s))`: the elements of a set of strings in ascending order. */
  method SortSet(s: set<string>) returns (xs: seq<string>)
    ensures SortedListOf(xs, s)
  {
    xs := [];
    var rest := s;
    while rest != {}
      invariant rest <= s
      invariant StrictlySorted(xs)
      invariant forall y :: y in xs <==> y in s && y !in rest
      decreases rest
    {
      var x :| x in rest;
      xs := Insert(xs, x);
      rest := rest - {x};
    }
  }

  /** A set has exactly one sorted list, so the list is fixed by the set alone. */
  lemma {:induction false} SortedListUnique(xs: seq<string>, ys: seq<string>, s: set<string>)
    requires SortedListOf(xs, s) && SortedListOf(ys, s)
    ensures xs == ys
    decreases |xs|
  {
    assert xs != [] ==> xs[0] in ys;
    assert ys != [] ==> ys[0] in xs;
    if xs != [] && ys != [] {
      if xs[0] != ys[0] {
        assert ys[0] in xs && xs[0] in ys;
        var i :| 0 <= i < |xs| && xs[i] == ys[0];
        var j :| 0 <= j < |ys| && ys[j] == xs[0];
        BelowTransitive(xs[0], ys[0], xs[0]);
        BelowIrreflexive(xs[0]);
      }
      var m := xs[0];
      forall k | 0 < k < |xs| ensures xs[k] != m {
        BelowIrreflexive(m);
      }
      forall k | 0 < k < |ys| ensures ys[k] != m {
        BelowIrreflexive(m);
      }
      assert forall y :: y in xs[1..] <==> y in s - {m};
      assert forall y :: y in ys[1..] <==> y in s - {m};
      SortedListUnique(xs[1..], ys[1..], s - {m});
    }
  }
}
