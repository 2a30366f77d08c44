/** The order in which sort.Strings arranges names, and the sort itself. */
module Ordering {

  /** Lexicographic comparison of strings, character by character. */
  predicate Leq(a: string, b: string)
  {
    if a == [] then true
    else if b == [] then false
    else if a[0] != b[0] then a[0] < b[0]
    else Leq(a[1..], b[1..])
  }

  predicate Less(a: string, b: string)
  {
    a != b && Leq(a, b)
  }

  lemma {:induction false} LeqReflexive(a: string)
    ensures Leq(a, a)
  {
    if a != [] {
      LeqReflexive(a[1..]);
    }
  }

  lemma {:induction false} LeqTotal(a: string, b: string)
    ensures Leq(a, b) || Leq(b, a)
  {
    if a != [] && b != [] && a[0] == b[0] {
      LeqTotal(a[1..], b[1..]);
    }
  }

  lemma {:induction false} LeqAntisymmetric(a: string, b: string)
    requires Leq(a, b) && Leq(b, a)
    ensures a == b
  {
    if a != [] && b != [] {
      LeqAntisymmetric(a[1..], b[1..]);
      assert a == [a[0]] + a[1..] && b == [b[0]] + b[1..];
    }
  }

  lemma {:induction false} LeqTransitive(a: string, b: string, c: string)
    requires Leq(a, b) && Leq(b, c)
    ensures Leq(a, c)
  {
    if a != [] && b != [] && c != [] && a[0] == b[0] == c[0] {
      LeqTransitive(a[1..], b[1..], c[1..]);
    }
  }

  predicate Sorted(s: seq<string>)
  {
    forall i, j :: 0 <= i < j < |s| ==> Leq(s[i], s[j])
  }

  /** Strictly increasing: sorted and free of duplicates. */
  predicate Increasing(s: seq<string>)
  {
    forall i, j :: 0 <= i < j < |s| ==> Less(s[i], s[j])
  }

  function Insert(x: string, s: seq<string>): seq<string>
  {
    if s == [] || Leq(x, s[0]) then [x] + s else [s[0]] + Insert(x, s[1..])
  }

  lemma {:induction false} InsertAdds(x: string, s: seq<string>)
    ensures multiset(Insert(x, s)) == multiset(s) + multiset{x}
    ensures forall y :: y in Insert(x, s) <==> y == x || y in s
  {
    if s != [] && !Leq(x, s[0]) {
      InsertAdds(x, s[1..]);
      assert s == [s[0]] + s[1..];
    }
  }

  lemma {:induction false} InsertSorted(x: string, s: seq<string>)
    requires Sorted(s)
    ensures Sorted(Insert(x, s))
  {
    if s == [] {
    } else if Leq(x, s[0]) {
      forall k | 0 <= k < |s| ensures Leq(x, s[k]) {
        if k > 0 { LeqTransitive(x, s[0], s[k]); }
      }
    } else {
      InsertSorted(x, s[1..]);
      InsertAdds(x, s[1..]);
      LeqTotal(x, s[0]);
      var rest := Insert(x, s[1..]);
      forall k | 0 <= k < |rest| ensures Leq(s[0], rest[k]) {
        assert rest[k] == x || rest[k] in s[1..];
      }
    }
  }

  /** sort.Strings. */
  function Sort(s: seq<string>): (r: seq<string>)
    ensures Sorted(r)
    ensures multiset(r) == multiset(s)
  {
    if s == [] then []
    else
      var rest := Sort(s[1..]);
      assert s == [s[0]] + s[1..];
      InsertSorted(s[0], rest);
      InsertAdds(s[0], rest);
      Insert(s[0], rest)
  }

  lemma SortKeeps(s: seq<string>)
    ensures |Sort(s)| == |s|
    ensures forall x :: x in Sort(s) <==> x in s
  {
    assert |multiset(Sort(s))| == |multiset(s)|;
    forall x ensures x in Sort(s) <==> x in s {
      assert x in multiset(Sort(s)) <==> x in multiset(s);
    }
  }

  /** Names without repetition. */
  predicate Distinct<T(==)>(s: seq<T>)
  {
    forall i, j :: 0 <= i < j < |s| ==> s[i] != s[j]
  }

  lemma {:induction false} DistinctMultiset<T>(s: seq<T>)
    ensures Distinct(s) <==> forall x :: x in s ==> multiset(s)[x] == 1
  {
    if s != [] {
      var rest := s[1..];
      DistinctMultiset(rest);
      assert s == [s[0]] + rest;
      if Distinct(s) {
        assert forall i, j :: 0 <= i < j < |rest| ==> rest[i] == s[i + 1] && rest[j] == s[j + 1];
        assert s[0] !in rest;
      }
      if forall x :: x in s ==> multiset(s)[x] == 1 {
        assert s[0] !in rest by {
          assert multiset(s)[s[0]] == 1 + multiset(rest)[s[0]];
        }
        forall x | x in rest ensures multiset(rest)[x] == 1 {
          assert multiset(s)[x] == 1;
        }
        assert Distinct(rest);
        forall i, j | 0 <= i < j < |s| ensures s[i] != s[j] {
          assert s[j] == rest[j - 1];
          if i > 0 { assert s[i] == rest[i - 1]; }
        }
      }
    }
  }

  lemma SortDistinct(s: seq<string>)
    requires Distinct(s)
    ensures Increasing(Sort(s))
  {
    SortKeeps(s);
    DistinctMultiset(s);
    DistinctMultiset(Sort(s));
    assert Distinct(Sort(s));
  }
}
