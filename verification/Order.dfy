/** The orders Python sorts by: code-point order on names and digests, and stable sort by a number. */
module Order {
  import opened Bytes

  // ------------------------------------------------------------------ lexicographic order

  /** Python's `<` on `str` and `bytes`, given their code points or bytes. */
  predicate Less(a: seq<int>, b: seq<int>) {
    b != [] && (a == [] || a[0] < b[0] || (a[0] == b[0] && Less(a[1..], b[1..])))
  }

  lemma {:induction false} LessIrreflexive(a: seq<int>)
    ensures !Less(a, a)
  {
    if a != [] { LessIrreflexive(a[1..]); }
  }

  lemma {:induction false} LessTransitive(a: seq<int>, b: seq<int>, c: seq<int>)
    requires Less(a, b) && Less(b, c)
    ensures Less(a, c)
  {
    if a != [] && a[0] == b[0] == c[0] { LessTransitive(a[1..], b[1..], c[1..]); }
  }

  lemma {:induction false} LessTotal(a: seq<int>, b: seq<int>)
    ensures Less(a, b) || a == b || Less(b, a)
  {
    if a != [] && b != [] && a[0] == b[0] {
      LessTotal(a[1..], b[1..]);
      if a[1..] == b[1..] { assert a == [a[0]] + a[1..] == b; }
    }
  }

  // ------------------------------------------------------------------ sorting a set by code points

  /** The order of `a` and `b` under their code points. */
  predicate Before<T>(a: T, b: T, code: T -> seq<int>) {
    Less(code(a), code(b))
  }

  ghost predicate Injective<T(!new)>(code: T -> seq<int>) {
    forall a, b :: code(a) == code(b) ==> a == b
  }

  predicate IsFirst<T(==)>(x: T, s: set<T>, code: T -> seq<int>) {
    x in s && forall y :: y in s && y != x ==> Before(x, y, code)
  }

  lemma {:induction false} FirstExists<T(!new)>(s: set<T>, code: T -> seq<int>)
    requires s != {} && Injective(code)
    ensures exists x :: IsFirst(x, s, code)
    decreases |s|
  {
    var x :| x in s;
    if s == {x} {
      assert IsFirst(x, s, code);
    } else {
      FirstExists(s - {x}, code);
      var y :| IsFirst(y, s - {x}, code);
      LessTotal(code(x), code(y));
      if Before(x, y, code) {
        forall z | z in s && z != x
          ensures Before(x, z, code)
        {
          assert z in s - {x};
          if z != y { LessTransitive(code(x), code(y), code(z)); }
        }
        assert IsFirst(x, s, code);
      } else {
        assert IsFirst(y, s, code);
      }
    }
  }

  lemma {:induction false} FirstUnique<T(!new)>(x: T, y: T, s: set<T>, code: T -> seq<int>)
    requires IsFirst(x, s, code) && IsFirst(y, s, code)
    ensures x == y
  {
    if x != y {
      LessTransitive(code(x), code(y), code(x));
      LessIrreflexive(code(x));
    }
  }

  function First<T(!new)>(s: set<T>, code: T -> seq<int>): (x: T)
    requires s != {} && Injective(code)
    ensures IsFirst(x, s, code)
  {
    FirstExists(s, code);
    assert forall x, y :: IsFirst(x, s, code) && IsFirst(y, s, code) ==> x == y by {
      forall x, y | IsFirst(x, s, code) && IsFirst(y, s, code)
        ensures x == y
      { FirstUnique(x, y, s, code); }
    }
    var x :| x in s && IsFirst(x, s, code);
    x
  }

  /** `sorted(s)`: every element once, strictly increasing. */
  function SortedSet<T(!new)>(s: set<T>, code: T -> seq<int>): (r: seq<T>)
    requires Injective(code)
    ensures forall x :: x in r <==> x in s
    ensures forall i, j :: 0 <= i < j < |r| ==> Before(r[i], r[j], code)
    decreases |s|
  {
    if s == {} then []
    else
      var x := First(s, code);
      [x] + SortedSet(s - {x}, code)
  }

  function Codes(s: string): (c: seq<int>)
    ensures |c| == |s|
  {
    seq(|s|, i requires 0 <= i < |s| => s[i] as int)
  }

  lemma {:induction false} CodesInjective()
    ensures Injective(Codes)
  {
    forall s: string, t: string | Codes(s) == Codes(t)
      ensures s == t
    {
      forall i | 0 <= i < |s|
        ensures s[i] == t[i]
      {
        assert Codes(s)[i] == Codes(t)[i];
      }
    }
  }

  function Raw(b: bytes): seq<int> { b }

  /** `sorted(names)` of file names. */
  function SortedNames(names: set<string>): (s: seq<string>)
    ensures forall x :: x in s <==> x in names
    ensures forall i, j :: 0 <= i < j < |s| ==> s[i] != s[j]
  {
    CodesInjective();
    var s := SortedSet(names, Codes);
    assert forall i, j :: 0 <= i < j < |s| ==> s[i] != s[j] by {
      forall i, j | 0 <= i < j < |s|
        ensures s[i] != s[j]
      { LessIrreflexive(Codes(s[i])); assert Before(s[i], s[j], Codes); }
    }
    s
  }

  /** `sorted(digests)` */
  function SortedDigests(digests: set<bytes>): (s: seq<bytes>)
    ensures forall x :: x in s <==> x in digests
    ensures forall i, j :: 0 <= i < j < |s| ==> Less(s[i], s[j])
  {
    var s := SortedSet(digests, Raw);
    assert forall i, j :: 0 <= i < j < |s| ==> Less(s[i], s[j]) by {
      forall i, j | 0 <= i < j < |s|
        ensures Less(s[i], s[j])
      { assert Before(s[i], s[j], Raw); }
    }
    s
  }

  // ------------------------------------------------------------------ stable sort by a number

  function Insert<T>(x: T, s: seq<T>, key: T -> int): seq<T> {
    if s == [] || key(x) <= key(s[0]) then [x] + s else [s[0]] + Insert(x, s[1..], key)
  }

  /** `sorted(s, key=key)`: equal keys keep their order. */
  function StableSort<T>(s: seq<T>, key: T -> int): seq<T> {
    if s == [] then [] else Insert(s[0], StableSort(s[1..], key), key)
  }

  ghost predicate SortedBy<T>(s: seq<T>, key: T -> int) {
    forall i, j :: 0 <= i < j < |s| ==> key(s[i]) <= key(s[j])
  }

  lemma {:induction false} InsertCounts<T>(x: T, s: seq<T>, key: T -> int)
    ensures multiset(Insert(x, s, key)) == multiset(s) + multiset{x}
  {
    if s != [] && key(x) > key(s[0]) {
      InsertCounts(x, s[1..], key);
      assert s == [s[0]] + s[1..];
    }
  }

  lemma {:induction false} InsertMembers<T(!new)>(x: T, s: seq<T>, key: T -> int)
    ensures forall y :: y in Insert(x, s, key) <==> y == x || y in s
  {
    if s != [] && key(x) > key(s[0]) {
      InsertMembers(x, s[1..], key);
      assert s == [s[0]] + s[1..];
    }
  }

  lemma {:induction false} InsertSorts<T(!new)>(x: T, s: seq<T>, key: T -> int)
    requires SortedBy(s, key)
    ensures SortedBy(Insert(x, s, key), key)
  {
    if s != [] && key(x) > key(s[0]) {
      InsertSorts(x, s[1..], key);
      InsertMembers(x, s[1..], key);
      var rest := Insert(x, s[1..], key);
      forall j | 0 <= j < |rest|
        ensures key(s[0]) <= key(rest[j])
      {
        assert rest[j] in rest;
      }
    } else {
      assert Insert(x, s, key)[1..] == s;
    }
  }

  lemma {:induction false} InsertFacts<T(!new)>(x: T, s: seq<T>, key: T -> int)
    requires SortedBy(s, key)
    ensures SortedBy(Insert(x, s, key), key)
    ensures multiset(Insert(x, s, key)) == multiset(s) + multiset{x}
    ensures forall y :: y in Insert(x, s, key) <==> y == x || y in s
  {
    InsertSorts(x, s, key);
    InsertCounts(x, s, key);
    InsertMembers(x, s, key);
  }

  lemma {:induction false} SortFacts<T(!new)>(s: seq<T>, key: T -> int)
    ensures SortedBy(StableSort(s, key), key)
    ensures multiset(StableSort(s, key)) == multiset(s)
    ensures forall y :: y in StableSort(s, key) <==> y in s
  {
    if s != [] {
      SortFacts(s[1..], key);
      InsertFacts(s[0], StableSort(s[1..], key), key);
      assert s == [s[0]] + s[1..];
    }
  }

  /** Sorting a sorted sequence changes nothing. */
  lemma {:induction false} SortSorted<T>(s: seq<T>, key: T -> int)
    requires SortedBy(s, key)
    ensures StableSort(s, key) == s
  {
    if s != [] {
      SortSorted(s[1..], key);
      assert s == [s[0]] + s[1..];
    }
  }

  function Filter<T(!new)>(s: seq<T>, p: T -> bool): (r: seq<T>)
    ensures forall x :: x in r <==> x in s && p(x)
    ensures |r| <= |s|
  {
    if s == [] then []
    else if p(s[0]) then [s[0]] + Filter(s[1..], p)
    else Filter(s[1..], p)
  }

  lemma {:induction false} FilterAll<T(!new)>(s: seq<T>, p: T -> bool)
    requires forall x :: x in s ==> p(x)
    ensures Filter(s, p) == s
  {
    if s != [] {
      FilterAll(s[1..], p);
      assert s == [s[0]] + s[1..];
    }
  }
}
