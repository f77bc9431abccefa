/** Byte-wise string order and sorting, as `sort.Strings`, `sort.Slice` and `ORDER BY` use them. */
module Ordering {

  /** Lexicographic order on strings. */
  predicate Less(a: string, b: string) {
    b != [] && (a == [] || a[0] < b[0] || (a[0] == b[0] && Less(a[1..], b[1..])))
  }

  lemma {:induction false} LessIrreflexive(a: string)
    ensures !Less(a, a)
  {
    if a != [] { LessIrreflexive(a[1..]); }
  }

  lemma {:induction false} LessTransitive(a: string, b: string, c: string)
    requires Less(a, b) && Less(b, c)
    ensures Less(a, c)
  {
    if a != [] && a[0] == b[0] == c[0] { LessTransitive(a[1..], b[1..], c[1..]); }
  }

  lemma {:induction false} LessTotal(a: string, b: string)
    ensures a == b || Less(a, b) || Less(b, a)
  {
    if a != [] && b != [] && a[0] == b[0] {
      LessTotal(a[1..], b[1..]);
      assert a == [a[0]] + a[1..] && b == [b[0]] + b[1..];
    }
  }

  lemma LessAsymmetric(a: string, b: string)
    ensures !(Less(a, b) && Less(b, a))
  {
    if Less(a, b) && Less(b, a) { LessTransitive(a, b, a); LessIrreflexive(a); }
  }

  lemma LessIsStrictTotal(s: seq<string>)
    ensures StrictTotalOn(Less, s)
  {
    forall x, y | x in s && y in s
      ensures !(Less(x, y) && Less(y, x))
      ensures x == y || Less(x, y) || Less(y, x)
    {
      LessTotal(x, y);
      if Less(x, y) && Less(y, x) { LessTransitive(x, y, x); LessIrreflexive(x); }
    }
    forall x, y, z | x in s && y in s && z in s && Less(x, y)
      ensures Less(x, z) || Less(z, y)
    {
      LessTotal(x, z);
      if Less(z, x) { LessTransitive(z, x, y); }
    }
  }

  /** `less` is a strict weak order on the elements of `s`: what `sort.Slice` demands of its comparator. */
  ghost predicate StrictWeakOn<T(!new)>(less: (T, T) -> bool, s: seq<T>) {
    && (forall x, y | x in s && y in s :: !(less(x, y) && less(y, x)))
    && (forall x, y, z | x in s && y in s && z in s && less(x, y) :: less(x, z) || less(z, y))
  }

  /** ... and moreover no two distinct elements tie, so the sorted order is unique. */
  ghost predicate StrictTotalOn<T(!new)>(less: (T, T) -> bool, s: seq<T>) {
    && StrictWeakOn(less, s)
    && (forall x, y | x in s && y in s :: x == y || less(x, y) || less(y, x))
  }

  /** No later element must come before an earlier one. */
  ghost predicate SortedBy<T(!new)>(s: seq<T>, less: (T, T) -> bool) {
    forall i, j | 0 <= i < j < |s| :: !less(s[j], s[i])
  }

  ghost predicate NoDuplicates<T>(s: seq<T>) {
    forall i, j | 0 <= i < j < |s| :: s[i] != s[j]
  }

  function Insert<T>(x: T, s: seq<T>, less: (T, T) -> bool): (r: seq<T>)
    ensures multiset(r) == multiset(s) + multiset{x}
  {
    if s == [] then [x]
    else if less(s[0], x) then
      assert s == [s[0]] + s[1..];
      [s[0]] + Insert(x, s[1..], less)
    else [x] + s
  }

  /** A sort by comparator; ties end up in some order, as with `sort.Slice`. */
  function Sort<T>(s: seq<T>, less: (T, T) -> bool): (r: seq<T>)
    ensures multiset(r) == multiset(s)
    ensures |r| == |s|
  {
    if s == [] then []
    else
      assert s == [s[0]] + s[1..];
      var r := Insert(s[0], Sort(s[1..], less), less);
      assert |multiset(r)| == |multiset(s)|;
      r
  }

  lemma SameElements<T>(a: seq<T>, b: seq<T>)
    requires multiset(a) == multiset(b)
    ensures forall x :: x in a <==> x in b
  {
    forall x ensures x in a <==> x in b {
      assert x in multiset(a) <==> x in multiset(b);
    }
  }

  lemma SortedCons<T(!new)>(x: T, s: seq<T>, less: (T, T) -> bool)
    requires SortedBy(s, less)
    requires forall y | y in s :: !less(y, x)
    ensures SortedBy([x] + s, less)
  {
    var r := [x] + s;
    forall i, j | 0 <= i < j < |r| ensures !less(r[j], r[i]) {
      assert r[j] == s[j - 1];
      if i > 0 { assert r[i] == s[i - 1]; }
    }
  }

  /** In a sorted non-empty sequence nothing precedes the head. */
  lemma HeadIsLeast<T(!new)>(s: seq<T>, less: (T, T) -> bool)
    requires s != [] && SortedBy(s, less) && StrictWeakOn(less, s)
    ensures forall y | y in s :: !less(y, s[0])
  {
    forall y | y in s ensures !less(y, s[0]) {
      var k :| 0 <= k < |s| && s[k] == y;
    }
  }

  lemma {:induction false} InsertSorted<T(!new)>(x: T, s: seq<T>, less: (T, T) -> bool)
    requires SortedBy(s, less)
    requires StrictWeakOn(less, [x] + s)
    ensures SortedBy(Insert(x, s, less), less)
  {
    if s != [] {
      var all := [x] + s;
      assert x == all[0] && forall y :: y in s ==> y in all;
      HeadIsLeast(s, less);
      if less(s[0], x) {
        var rest := s[1..];
        assert s == [s[0]] + rest;
        InsertSorted(x, rest, less);
        SameElements(Insert(x, rest, less), [x] + rest);
        SortedCons(s[0], Insert(x, rest, less), less);
      } else {
        SortedCons(x, s, less);
      }
    }
  }

  /** Sorting sorts whenever the comparator is a strict weak order on what is sorted. */
  lemma {:induction false} SortSorts<T(!new)>(s: seq<T>, less: (T, T) -> bool)
    requires StrictWeakOn(less, s)
    ensures SortedBy(Sort(s, less), less)
  {
    if s != [] {
      SortSorts(s[1..], less);
      SameElements(Sort(s[1..], less), s[1..]);
      InsertSorted(s[0], Sort(s[1..], less), less);
    }
  }

  /** The head of a sorted sequence is its least element, so without ties it is determined. */
  lemma SameHead<T(!new)>(a: seq<T>, b: seq<T>, less: (T, T) -> bool)
    requires a != [] && b != [] && multiset(a) == multiset(b)
    requires SortedBy(a, less) && SortedBy(b, less) && StrictTotalOn(less, a)
    ensures a[0] == b[0]
  {
    SameElements(a, b);
    assert b[0] in a && a[0] in b;
    var i :| 0 <= i < |a| && a[i] == b[0];
    var j :| 0 <= j < |b| && b[j] == a[0];
  }

  lemma TailMultiset<T>(s: seq<T>)
    requires s != []
    ensures multiset(s[1..]) == multiset(s) - multiset{s[0]}
  {
    assert s == [s[0]] + s[1..];
  }

  lemma TailsPermute<T>(a: seq<T>, b: seq<T>)
    requires a != [] && b != [] && multiset(a) == multiset(b) && a[0] == b[0]
    ensures multiset(a[1..]) == multiset(b[1..])
  {
    TailMultiset(a);
    TailMultiset(b);
  }

  lemma SameLength<T>(a: seq<T>, b: seq<T>)
    requires multiset(a) == multiset(b)
    ensures |a| == |b|
  {
    assert |a| == |multiset(a)| == |multiset(b)| == |b|;
  }

  /** Without ties, every algorithm that sorts the same elements returns the same sequence. */
  lemma {:induction false} SortedUnique<T(!new)>(a: seq<T>, b: seq<T>, less: (T, T) -> bool)
    requires multiset(a) == multiset(b)
    requires SortedBy(a, less) && SortedBy(b, less)
    requires StrictTotalOn(less, a)
    ensures a == b
  {
    SameLength(a, b);
    if a != [] {
      SameHead(a, b, less);
      TailsPermute(a, b);
      SortedUnique(a[1..], b[1..], less);
      assert a == [a[0]] + a[1..] && b == [b[0]] + b[1..];
    }
  }

  /** Two enumerations of one set without repetition are permutations of each other. */
  lemma {:induction false} EnumerationsPermute<T>(a: seq<T>, b: seq<T>)
    requires NoDuplicates(a) && NoDuplicates(b)
    requires forall x :: x in a <==> x in b
    ensures multiset(a) == multiset(b)
  {
    forall x ensures multiset(a)[x] == multiset(b)[x] {
      OccursOnce(a, x);
      OccursOnce(b, x);
    }
  }

  lemma {:induction false} OccursOnce<T>(s: seq<T>, x: T)
    requires NoDuplicates(s)
    ensures multiset(s)[x] == if x in s then 1 else 0
  {
    if s != [] {
      assert s == [s[0]] + s[1..];
      OccursOnce(s[1..], x);
    }
  }

  lemma PermutationKeepsDistinct<T>(a: seq<T>, b: seq<T>)
    requires multiset(a) == multiset(b) && NoDuplicates(a)
    ensures NoDuplicates(b)
  {
    forall i, j | 0 <= i < j < |b| ensures b[i] != b[j] {
      OccursOnce(a, b[i]);
      assert b == b[..j] + b[j..];
      assert multiset(b)[b[i]] == multiset(b[..j])[b[i]] + multiset(b[j..])[b[i]];
      assert b[i] in b[..j] && b[j] in b[j..];
    }
  }

  /** Some enumeration of a finite set, standing for the unspecified iteration order of a Go map. */
  ghost function Enumerate<T(!new)>(s: set<T>): (r: seq<T>)
    ensures forall x :: x in r <==> x in s
    ensures NoDuplicates(r)
    ensures |r| == |s|
  {
    if s == {} then []
    else
      var x :| x in s;
      [x] + Enumerate(s - {x})
  }

  /** The sorted enumeration of a set: what a query `ORDER BY` a total order returns. */
  ghost function Listing<T(!new)>(s: set<T>, less: (T, T) -> bool): (r: seq<T>)
    ensures |r| == |s|
    ensures forall x :: x in r <==> x in s
  {
    SameElements(Sort(Enumerate(s), less), Enumerate(s));
    Sort(Enumerate(s), less)
  }

  /** Whatever order the rows were collected in, sorting them gives the listing. */
  lemma SortIsListing<T(!new)>(rows: seq<T>, s: set<T>, less: (T, T) -> bool)
    requires NoDuplicates(rows)
    requires forall x :: x in rows <==> x in s
    requires StrictTotalOn(less, rows)
    ensures Sort(rows, less) == Listing(s, less)
  {
    EnumerationsPermute(rows, Enumerate(s));
    SortSorts(rows, less);
    SortSorts(Enumerate(s), less);
    SameElements(Sort(rows, less), rows);
    SortedUnique(Sort(rows, less), Listing(s, less), less);
  }

  /** Collects the keys of a map in some order and sorts them, as `entries` does before it recurses. */
  method SortedKeys(s: set<string>) returns (keys: seq<string>)
    ensures NoDuplicates(keys) && SortedBy(keys, Less)
    ensures forall k :: k in keys <==> k in s
  {
    var rest, collected := s, [];
    while rest != {}
      invariant rest <= s && NoDuplicates(collected)
      invariant forall k :: k in collected <==> k in s && k !in rest
    {
      var k :| k in rest;
      rest := rest - {k};
      collected := collected + [k];
    }
    LessIsStrictTotal(collected);
    SortSorts(collected, Less);
    keys := Sort(collected, Less);
    SameElements(keys, collected);
    PermutationKeepsDistinct(collected, keys);
  }

  function Reversed<T>(s: seq<T>): (r: seq<T>)
    ensures |r| == |s| && forall i | 0 <= i < |s| :: r[i] == s[|s| - 1 - i]
  {
    seq(|s|, i requires 0 <= i < |s| => s[|s| - 1 - i])
  }

  lemma {:induction false} ReversedMultiset<T>(s: seq<T>)
    ensures multiset(Reversed(s)) == multiset(s)
  {
    if s != [] {
      ReversedMultiset(s[1..]);
      assert Reversed(s) == Reversed(s[1..]) + [s[0]];
      assert s == [s[0]] + s[1..];
    }
  }

  lemma {:induction false} SubsetSize<T>(a: set<T>, b: set<T>)
    requires a <= b
    ensures |a| <= |b|
  {
    if a != {} {
      var x :| x in a;
      SubsetSize(a - {x}, b - {x});
    }
  }

  /** `a` is a proper prefix of `b`, or smaller at the first place where they differ. */
  predicate LessFrom(a: string, b: string, i: nat) {
    i <= |a| && i < |b| && a[..i] == b[..i] && (i == |a| || a[i] < b[i])
  }

  lemma {:induction false} LessIsLexicographic(a: string, b: string)
    ensures Less(a, b) <==> exists i: nat :: LessFrom(a, b, i)
  {
    if a != [] && b != [] && a[0] == b[0] {
      LessIsLexicographic(a[1..], b[1..]);
      if Less(a, b) {
        var i: nat :| LessFrom(a[1..], b[1..], i);
        assert a[..i + 1] == [a[0]] + a[1..][..i] && b[..i + 1] == [b[0]] + b[1..][..i];
        assert LessFrom(a, b, i + 1);
      }
      if i: nat :| LessFrom(a, b, i) {
        assert i > 0;
        assert a[1..][..i - 1] == a[..i][1..] && b[1..][..i - 1] == b[..i][1..];
        assert LessFrom(a[1..], b[1..], i - 1);
      }
    } else if b != [] && (a == [] || a[0] < b[0]) {
      assert LessFrom(a, b, 0);
    } else {
      forall i: nat ensures !LessFrom(a, b, i) {
        if 0 < i <= |a| && i < |b| { assert a[..i][0] == a[0] && b[..i][0] == b[0]; }
      }
    }
  }
}
