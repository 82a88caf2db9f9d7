/** Alphabetical order of identifiers, in which the supervisor starts and lists activities. */
module Ordering {
  import opened Graphs

  /** `a` comes before `b` in a dictionary, or is `b`. */
  predicate Below(a: Id, b: Id) {
    a == [] || (b != [] && (a[0] < b[0] || (a[0] == b[0] && Below(a[1..], b[1..]))))
  }

  lemma {:induction false} BelowIsTotal(a: Id, b: Id)
    ensures Below(a, b) || Below(b, a)
  {
    if a != [] && b != [] && a[0] == b[0] {
      BelowIsTotal(a[1..], b[1..]);
    }
  }

  lemma {:induction false} BelowIsTransitive(a: Id, b: Id, c: Id)
    requires Below(a, b) && Below(b, c)
    ensures Below(a, c)
  {
    if a != [] && a[0] == b[0] == c[0] {
      BelowIsTransitive(a[1..], b[1..], c[1..]);
    }
  }

  lemma {:induction false} BelowIsAntisymmetric(a: Id, b: Id)
    requires Below(a, b) && Below(b, a)
    ensures a == b
  {
    if a != [] {
      BelowIsAntisymmetric(a[1..], b[1..]);
      assert a == [a[0]] + a[1..] && b == [b[0]] + b[1..];
    }
  }

  /** Every identifier comes after all those before it in the list. */
  predicate Alphabetical(s: seq<Id>) {
    forall i :: 0 <= i < |s| ==> AboveAll(s[..i], s[i])
  }

  predicate AboveAll(s: seq<Id>, x: Id) {
    forall y <- s :: Below(y, x)
  }

  lemma AlphabeticalSnoc(s: seq<Id>, x: Id)
    ensures Alphabetical(s + [x]) <==> Alphabetical(s) && AboveAll(s, x)
  {
    hide AboveAll;
    var t := s + [x];
    assert t[..|s|] == s;
    forall i | 0 <= i < |s| ensures t[..i] == s[..i] && t[i] == s[i] {
    }
    if Alphabetical(t) {
      forall i | 0 <= i < |s| ensures AboveAll(s[..i], s[i]) {
        assert AboveAll(t[..i], t[i]);
      }
      assert AboveAll(t[..|s|], t[|s|]);
    }
  }

  /** `x` entered into an alphabetical list at its place. */
  function Insert(s: seq<Id>, x: Id): (r: seq<Id>)
    ensures |r| == |s| + 1 && forall y :: y in r <==> y in s || y == x
  {
    if s == [] || Below(s[|s| - 1], x) then s + [x]
    else Insert(s[..|s| - 1], x) + [s[|s| - 1]]
  }

  lemma {:induction false} InsertKeepsOrder(s: seq<Id>, x: Id)
    requires Alphabetical(s)
    ensures Alphabetical(Insert(s, x))
  {
    if s == [] {
      AlphabeticalSnoc([], x);
    } else {
      var n := |s| - 1;
      assert s == s[..n] + [s[n]];
      AlphabeticalSnoc(s[..n], s[n]);
      if Below(s[n], x) {
        forall y <- s ensures Below(y, x) {
          if y in s[..n] {
            BelowIsTransitive(y, s[n], x);
          }
        }
        AlphabeticalSnoc(s, x);
      } else {
        InsertKeepsOrder(s[..n], x);
        BelowIsTotal(s[n], x);
        AlphabeticalSnoc(Insert(s[..n], x), s[n]);
      }
    }
  }

  method SortIds(s: seq<Id>) returns (sorted: seq<Id>)
    ensures Alphabetical(sorted) && |sorted| == |s| && forall x :: x in sorted <==> x in s
    ensures Distinct(s) ==> Distinct(sorted)
  {
    sorted := [];
    for i := 0 to |s|
      invariant Alphabetical(sorted) && |sorted| == i && forall x :: x in sorted <==> x in s[..i]
    {
      assert s[..i + 1] == s[..i] + [s[i]];
      InsertKeepsOrder(sorted, s[i]);
      sorted := Insert(sorted, s[i]);
    }
    assert s[..|s|] == s;
    if Distinct(s) {
      DistinctSize(s);
      assert ToSet(sorted) == ToSet(s);
      SizeMeansDistinct(sorted);
    }
  }

  /** There is only one way to list a set alphabetically. */
  lemma {:induction false} AlphabeticalIsUnique(s: seq<Id>, t: seq<Id>)
    requires Alphabetical(s) && Alphabetical(t) && Distinct(s) && Distinct(t)
    requires forall x :: x in s <==> x in t
    ensures s == t
  {
    DistinctSize(s);
    DistinctSize(t);
    assert ToSet(s) == ToSet(t);
    if s != [] {
      var n := |s| - 1;
      SameLast(s, t);
      assert s == s[..n] + [s[n]] && t == t[..n] + [t[n]];
      AlphabeticalSnoc(s[..n], s[n]);
      AlphabeticalSnoc(t[..n], t[n]);
      DistinctSnoc(s[..n], s[n]);
      DistinctSnoc(t[..n], t[n]);
      hide *;
      forall x ensures x in s[..n] <==> x in t[..n] {
        assert x in s <==> x in s[..n] || x == s[n];
        assert x in t <==> x in t[..n] || x == t[n];
      }
      AlphabeticalIsUnique(s[..n], t[..n]);
    }
  }

  lemma SameLast(s: seq<Id>, t: seq<Id>)
    requires Alphabetical(s) && Alphabetical(t) && |s| == |t| > 0 && forall x :: x in s <==> x in t
    ensures s[|s| - 1] == t[|t| - 1]
  {
    var n := |s| - 1;
    assert s == s[..n] + [s[n]] && t == t[..n] + [t[n]];
    assert AboveAll(s[..n], s[n]) && AboveAll(t[..n], t[n]);
    assert s[n] in t && t[n] in s;
    if s[n] != t[n] {
      assert t[n] in s[..n] && s[n] in t[..n];
      BelowIsAntisymmetric(s[n], t[n]);
    }
  }
}
