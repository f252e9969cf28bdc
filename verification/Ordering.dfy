/** The order Python's `sorted` uses on strings (code point by code point, a
    proper prefix first), and the ascending tuples it produces. */
module Ordering {

  predicate Le(a: string, b: string) {
    a == "" || (b != "" && (a[0] < b[0] || (a[0] == b[0] && Le(a[1..], b[1..]))))
  }

  lemma {:induction false} LeTotal(a: string, b: string)
    ensures Le(a, b) || Le(b, a)
  {
    if a != "" && b != "" && a[0] == b[0] {
      LeTotal(a[1..], b[1..]);
    }
  }

  lemma {:induction false} LeAntisymmetric(a: string, b: string)
    requires Le(a, b) && Le(b, a)
    ensures a == b
  {
    if a != "" {
      LeAntisymmetric(a[1..], b[1..]);
      assert a == [a[0]] + a[1..] && b == [b[0]] + b[1..];
    }
  }

  lemma {:induction false} LeTransitive(a: string, b: string, c: string)
    requires Le(a, b) && Le(b, c)
    ensures Le(a, c)
  {
    if a != "" && a[0] == b[0] && b[0] == c[0] {
      LeTransitive(a[1..], b[1..], c[1..]);
    }
  }

  predicate Ascending(s: seq<string>) {
    forall i, j :: 0 <= i < j < |s| ==> Le(s[i], s[j])
  }

  predicate NoDuplicates<T(==)>(s: seq<T>) {
    forall i, j :: 0 <= i < j < |s| ==> s[i] != s[j]
  }

  function Elements<T>(s: seq<T>): set<T> {
    set x | x in s
  }

  function Insert(x: string, s: seq<string>): (r: seq<string>)
    ensures multiset(r) == multiset(s) + multiset{x}
  {
    if s == [] then [x]
    else if Le(x, s[0]) then [x] + s
    else
      assert s == [s[0]] + s[1..];
      [s[0]] + Insert(x, s[1..])
  }

  lemma {:induction false} InsertAscending(x: string, s: seq<string>)
    requires Ascending(s)
    ensures Ascending(Insert(x, s))
  {
    if s != [] {
      if Le(x, s[0]) {
        forall j | 0 <= j < |s| ensures Le(x, s[j]) { if j > 0 { LeTransitive(x, s[0], s[j]); } }
      } else {
        LeTotal(x, s[0]);
        var rest := Insert(x, s[1..]);
        InsertAscending(x, s[1..]);
        forall j | 0 <= j < |rest| ensures Le(s[0], rest[j]) {
          assert rest[j] in multiset(rest);
          assert rest[j] == x || rest[j] in multiset(s[1..]);
        }
      }
    }
  }

  /** `sorted(s)`. */
  function Sorted(s: seq<string>): (r: seq<string>)
    ensures multiset(r) == multiset(s)
    ensures |r| == |s|
    ensures Elements(r) == Elements(s)
  {
    if s == [] then []
    else
      assert s == [s[0]] + s[1..];
      var r := Insert(s[0], Sorted(s[1..]));
      SameMultisetFacts(r, s);
      r
  }

  lemma SameMultisetFacts(r: seq<string>, s: seq<string>)
    requires multiset(r) == multiset(s)
    ensures |r| == |s| && Elements(r) == Elements(s)
  {
    assert |multiset(r)| == |r| && |multiset(s)| == |s|;
    forall x ensures x in Elements(r) <==> x in Elements(s) {
      assert x in r <==> x in multiset(r);
      assert x in s <==> x in multiset(s);
    }
  }

  lemma {:induction false} SortedAscending(s: seq<string>)
    ensures Ascending(Sorted(s))
  {
    if s != [] {
      SortedAscending(s[1..]);
      InsertAscending(s[0], Sorted(s[1..]));
    }
  }

  /** A sorted list is determined by its multiset, so `sorted` forgets the order
      of its argument. */
  lemma {:induction false} AscendingUnique(a: seq<string>, b: seq<string>)
    requires Ascending(a) && Ascending(b) && multiset(a) == multiset(b)
    ensures a == b
  {
    SameMultisetFacts(a, b);
    if a != [] {
      HeadIsLeast(a, b[0]);
      HeadIsLeast(b, a[0]);
      LeAntisymmetric(a[0], b[0]);
      HeadTail(a);
      HeadTail(b);
      AscendingUnique(a[1..], b[1..]);
    }
  }

  lemma HeadIsLeast(a: seq<string>, x: string)
    requires Ascending(a) && x in multiset(a)
    ensures a != [] && Le(a[0], x)
  {
    var j :| 0 <= j < |a| && a[j] == x;
    LeReflexive(a[0]);
  }

  lemma HeadTail(a: seq<string>)
    requires a != []
    ensures a == [a[0]] + a[1..] && multiset(a[1..]) == multiset(a) - multiset{a[0]}
  {
    assert a == [a[0]] + a[1..];
  }

  lemma LeReflexive(a: string)
    ensures Le(a, a)
  {
    LeTotal(a, a);
  }

  /** Without duplicates the multiset is the set. */
  lemma NoDuplicatesMultiset(s: seq<string>)
    requires NoDuplicates(s)
    ensures multiset(s) == multiset(Elements(s))
  {
    forall x ensures multiset(s)[x] == multiset(Elements(s))[x] {
      NoDuplicatesCount(s, x);
    }
  }

  lemma {:induction false} NoDuplicatesCount(s: seq<string>, x: string)
    requires NoDuplicates(s)
    ensures multiset(s)[x] == if x in s then 1 else 0
  {
    if s != [] {
      assert s == [s[0]] + s[1..];
      NoDuplicatesCount(s[1..], x);
    }
  }

  lemma {:induction false} CountsNoDuplicates(s: seq<string>)
    requires forall x :: multiset(s)[x] <= 1
    ensures NoDuplicates(s)
  {
    if s != [] {
      HeadTail(s);
      assert s[0] !in multiset(s[1..]);
      CountsNoDuplicates(s[1..]);
      forall i, j | 0 <= i < j < |s| ensures s[i] != s[j] {
        assert s[j] == s[1..][j - 1];
        assert s[j] in multiset(s[1..]);
        if i > 0 { assert s[i] == s[1..][i - 1]; }
      }
    }
  }

  lemma SortedNoDuplicates(s: seq<string>)
    requires NoDuplicates(s)
    ensures NoDuplicates(Sorted(s))
  {
    forall x ensures multiset(Sorted(s))[x] <= 1 { NoDuplicatesCount(s, x); }
    CountsNoDuplicates(Sorted(s));
  }

  /** Two duplicate-free listings of one set sort to the same tuple. */
  lemma SortedDependsOnSetOnly(a: seq<string>, b: seq<string>)
    requires NoDuplicates(a) && NoDuplicates(b) && Elements(a) == Elements(b)
    ensures Sorted(a) == Sorted(b)
  {
    NoDuplicatesMultiset(a);
    NoDuplicatesMultiset(b);
    SortedAscending(a);
    SortedAscending(b);
    AscendingUnique(Sorted(a), Sorted(b));
  }

  /** Some duplicate-free listing of a set. */
  ghost function Listing(s: set<string>): (r: seq<string>)
    ensures NoDuplicates(r) && Elements(r) == s
  {
    if s == {} then []
    else
      var x :| x in s;
      var rest := Listing(s - {x});
      assert x !in rest;
      var r := [x] + rest;
      assert Elements(r) == {x} + Elements(rest);
      r
  }

  /** `tuple(sorted(s))` of a set: ascending, each element once. */
  ghost function Tuple(s: set<string>): (r: seq<string>)
    ensures Elements(r) == s
    ensures NoDuplicates(r) && Ascending(r)
  {
    SortedNoDuplicates(Listing(s));
    SortedAscending(Listing(s));
    Sorted(Listing(s))
  }

  /** Iterating a set (in any order) and sorting gives that tuple. */
  method TupleOf(s: set<string>) returns (r: seq<string>)
    ensures r == Tuple(s)
  {
    var rest := s;
    var items: seq<string> := [];
    while rest != {}
      invariant NoDuplicates(items)
      invariant Elements(items) + rest == s
      invariant Elements(items) !! rest
      decreases rest
    {
      var x :| x in rest;
      rest := rest - {x};
      assert x !in Elements(items);
      assert Elements(items + [x]) == Elements(items) + {x};
      items := items + [x];
    }
    SortedDependsOnSetOnly(items, Listing(s));
    r := Sorted(items);
  }
}
