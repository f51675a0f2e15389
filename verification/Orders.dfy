/** Sorting and compacting, as slices.Sort and slices.Compact promise them, and
    the orders they are used with. */
module Orders {
  ghost predicate TotalOrder<T(!new)>(le: (T, T) -> bool) {
    && (forall a, b :: le(a, b) || le(b, a))
    && (forall a, b :: le(a, b) && le(b, a) ==> a == b)
    && (forall a, b, c :: le(a, b) && le(b, c) ==> le(a, c))
  }

  ghost predicate SortedBy<T(!new)>(s: seq<T>, le: (T, T) -> bool) {
    forall i, j :: 0 <= i < j < |s| ==> le(s[i], s[j])
  }

  predicate Distinct<T(==)>(s: seq<T>) {
    forall i, j :: 0 <= i < j < |s| ==> s[i] != s[j]
  }

  function Min(a: int, b: int): int { if a < b then a else b }

  /** slices.Index: the first position of x, or the length. */
  function IndexOf<T(==)>(s: seq<T>, x: T): (i: nat)
    ensures i <= |s|
    ensures x !in s[..i]
    ensures i < |s| ==> s[i] == x
  {
    if s == [] || s[0] == x then 0
    else
      var i := IndexOf(s[1..], x);
      assert s[..i + 1] == [s[0]] + s[1..][..i];
      i + 1
  }

  lemma Associative<T>(a: seq<T>, b: seq<T>, c: seq<T>)
    ensures (a + b) + c == a + (b + c)
  {
  }

  function Insert<T>(x: T, s: seq<T>, le: (T, T) -> bool): seq<T> {
    if s == [] || le(x, s[0]) then [x] + s else [s[0]] + Insert(x, s[1..], le)
  }

  function Sort<T>(s: seq<T>, le: (T, T) -> bool): seq<T> {
    if s == [] then [] else Insert(s[0], Sort(s[1..], le), le)
  }

  lemma {:induction false} InsertKeeps<T>(x: T, s: seq<T>, le: (T, T) -> bool)
    ensures multiset(Insert(x, s, le)) == multiset(s) + multiset{x}
  {
    if s == [] || le(x, s[0]) {
    } else {
      InsertKeeps(x, s[1..], le);
      assert s == [s[0]] + s[1..];
    }
  }

  lemma {:induction false} InsertSorted<T(!new)>(x: T, s: seq<T>, le: (T, T) -> bool)
    requires TotalOrder(le) && SortedBy(s, le)
    ensures SortedBy(Insert(x, s, le), le)
  {
    if s == [] || le(x, s[0]) {
      assert forall j :: 0 <= j < |s| ==> le(x, s[j]);
    } else {
      var r := Insert(x, s[1..], le);
      InsertSorted(x, s[1..], le);
      InsertKeeps(x, s[1..], le);
      forall j | 0 <= j < |r| ensures le(s[0], r[j]) {
        assert r[j] in multiset(r);
        assert r[j] == x || r[j] in s[1..];
      }
    }
  }

  lemma {:induction false} SortKeeps<T>(s: seq<T>, le: (T, T) -> bool)
    ensures multiset(Sort(s, le)) == multiset(s)
  {
    if s != [] {
      SortKeeps(s[1..], le);
      InsertKeeps(s[0], Sort(s[1..], le), le);
      assert s == [s[0]] + s[1..];
    }
  }

  lemma {:induction false} SortSorts<T(!new)>(s: seq<T>, le: (T, T) -> bool)
    requires TotalOrder(le)
    ensures SortedBy(Sort(s, le), le)
  {
    if s != [] {
      SortSorts(s[1..], le);
      InsertSorted(s[0], Sort(s[1..], le), le);
    }
  }

  lemma SameElements<T>(a: seq<T>, b: seq<T>)
    requires multiset(a) == multiset(b)
    ensures |a| == |b|
    ensures forall x :: x in a <==> x in b
  {
    assert |multiset(a)| == |multiset(b)|;
    forall x ensures x in a <==> x in b {
      assert x in multiset(a) <==> x in multiset(b);
    }
  }

  lemma SameLeast<T(!new)>(a: seq<T>, b: seq<T>, le: (T, T) -> bool)
    requires TotalOrder(le) && SortedBy(a, le) && SortedBy(b, le) && a != [] && b != []
    requires forall x :: x in a <==> x in b
    ensures a[0] == b[0]
  {
    assert a[0] in b && b[0] in a;
    var i :| 0 <= i < |b| && b[i] == a[0];
    var j :| 0 <= j < |a| && a[j] == b[0];
    assert i > 0 ==> le(b[0], b[i]);
    assert j > 0 ==> le(a[0], a[j]);
  }

  /** A multiset has one sorted listing. */
  lemma {:induction false} SortedUnique<T(!new)>(a: seq<T>, b: seq<T>, le: (T, T) -> bool)
    requires TotalOrder(le) && SortedBy(a, le) && SortedBy(b, le) && multiset(a) == multiset(b)
    ensures a == b
  {
    hide TotalOrder, SortedBy;
    SameElements(a, b);
    if a != [] {
      SameLeast(a, b, le);
      Tail(a, le);
      Tail(b, le);
      SortedUnique(a[1..], b[1..], le);
      SameHeadAndTail(a, b);
    }
  }

  lemma SameHeadAndTail<T>(a: seq<T>, b: seq<T>)
    requires a != [] && b != [] && a[0] == b[0] && a[1..] == b[1..]
    ensures a == b
  {
    assert a == [a[0]] + a[1..] && b == [b[0]] + b[1..];
  }

  lemma Tail<T(!new)>(s: seq<T>, le: (T, T) -> bool)
    requires SortedBy(s, le) && s != []
    ensures SortedBy(s[1..], le) && multiset(s[1..]) == multiset(s) - multiset{s[0]}
  {
    assert s == [s[0]] + s[1..];
  }

  /** Sorting forgets the order it was given, and nothing else. */
  lemma SortDecidesPermutation<T(!new)>(a: seq<T>, b: seq<T>, le: (T, T) -> bool)
    requires TotalOrder(le)
    ensures Sort(a, le) == Sort(b, le) <==> multiset(a) == multiset(b)
  {
    SortKeeps(a, le);
    SortKeeps(b, le);
    SortSorts(a, le);
    SortSorts(b, le);
    if multiset(a) == multiset(b) { SortedUnique(Sort(a, le), Sort(b, le), le); }
  }

  // ---- applying a function to each element ----

  ghost function Mapped<T, U>(f: T -> U, s: seq<T>): seq<U> {
    seq(|s|, i requires 0 <= i < |s| => f(s[i]))
  }

  lemma MappedJoin<T, U>(f: T -> U, a: seq<T>, b: seq<T>)
    ensures Mapped(f, a + b) == Mapped(f, a) + Mapped(f, b)
  {
  }

  /** s without its j-th element. */
  function Without<T>(s: seq<T>, j: nat): seq<T>
    requires j < |s|
  {
    s[..j] + s[j + 1..]
  }

  lemma WithoutOne<T>(s: seq<T>, j: nat)
    requires j < |s|
    ensures multiset(s) == multiset(Without(s, j)) + multiset{s[j]} && multiset(Without(s, j)) == multiset(s) - multiset{s[j]}
  {
    assert s == s[..j] + [s[j]] + s[j + 1..];
  }

  lemma MappedWithout<T, U>(f: T -> U, s: seq<T>, j: nat)
    requires j < |s|
    ensures multiset(Mapped(f, s)) == multiset(Mapped(f, Without(s, j))) + multiset{f(s[j])}
  {
    var m := Mapped(f, s);
    WithoutOne(m, j);
    assert Mapped(f, Without(s, j)) == Without(m, j);
  }

  lemma {:induction false} MappedPermutes<T, U>(f: T -> U, a: seq<T>, b: seq<T>)
    requires multiset(a) == multiset(b)
    ensures multiset(Mapped(f, a)) == multiset(Mapped(f, b))
    decreases |a|
  {
    SameElements(a, b);
    if a != [] {
      var x := a[0];
      assert x in b;
      var j :| 0 <= j < |b| && b[j] == x;
      WithoutOne(a, 0);
      WithoutOne(b, j);
      MappedPermutes(f, Without(a, 0), Without(b, j));
      MappedWithout(f, a, 0);
      MappedWithout(f, b, j);
    }
  }

  /** A listing without repetition has as many elements as its set. */
  lemma {:induction false} DistinctCount<T>(s: seq<T>)
    requires Distinct(s)
    ensures |s| == |set x | x in s|
  {
    if s != [] {
      var rest := s[1..];
      DistinctCount(rest);
      assert (set x | x in s) == {s[0]} + set x | x in rest;
    }
  }

  lemma DistinctMultiset<T>(s: seq<T>)
    ensures Distinct(s) <==> forall x :: x in s ==> multiset(s)[x] == 1
  {
    if Distinct(s) {
      forall x | x in s ensures multiset(s)[x] == 1 { OccursOnce(s, x); }
    }
    if !Distinct(s) {
      var i, j :| 0 <= i < j < |s| && s[i] == s[j];
      assert s == s[..j] + [s[j]] + s[j + 1..];
      assert s[i] == s[..j][i];
      assert s[j] in multiset(s[..j]);
      assert multiset(s)[s[j]] >= 2;
    }
  }

  lemma OccursOnce<T>(s: seq<T>, x: T)
    requires Distinct(s) && x in s
    ensures multiset(s)[x] == 1
  {
    var i :| 0 <= i < |s| && s[i] == x;
    assert s == s[..i] + [x] + s[i + 1..];
    assert x !in s[..i] && x !in s[i + 1..];
    assert x !in multiset(s[..i]) && x !in multiset(s[i + 1..]);
  }

  lemma SortDistinct<T>(s: seq<T>, le: (T, T) -> bool)
    requires Distinct(s)
    ensures Distinct(Sort(s, le))
  {
    SortKeeps(s, le);
    DistinctMultiset(s);
    SameElements(Sort(s, le), s);
    DistinctMultiset(Sort(s, le));
  }

  // ---- listings of a set, as a map's iteration gives them ----

  ghost predicate Lists<T(!new)>(l: seq<T>, s: set<T>) { Distinct(l) && forall x :: x in l <==> x in s }

  lemma ListsAppend<T(!new)>(l: seq<T>, s: set<T>, x: T)
    requires Lists(l, s) && x !in s
    ensures Lists(l + [x], s + {x})
  {
  }

  lemma ListsJoin<T(!new)>(a: seq<T>, b: seq<T>, s: set<T>, t: set<T>)
    requires Lists(a, s) && Lists(b, t) && s !! t
    ensures Lists(a + b, s + t)
  {
    forall i, j | 0 <= i < j < |a + b| ensures (a + b)[i] != (a + b)[j] {
      if i < |a| <= j { assert a[i] in s && b[j - |a|] in t; }
    }
  }

  /** The keys of a map in the order a range loop happens to visit them. */
  method Enumerate<T(==, !new)>(s: set<T>) returns (l: seq<T>)
    ensures Lists(l, s)
  {
    l := [];
    var todo := s;
    while todo != {}
      invariant todo <= s && Lists(l, s - todo)
      decreases |todo|
    {
      var x :| x in todo;
      ListsAppend(l, s - todo, x);
      l := l + [x];
      assert s - (todo - {x}) == (s - todo) + {x};
      todo := todo - {x};
    }
    assert s - todo == s;
  }

  /** The elements of l that are in s, in l's order. */
  ghost function Keep<T>(l: seq<T>, s: set<T>): seq<T> {
    if l == [] then []
    else Keep(l[..|l| - 1], s) + if l[|l| - 1] in s then [l[|l| - 1]] else []
  }

  lemma KeepNext<T>(l: seq<T>, i: nat, s: set<T>)
    requires i < |l|
    ensures Keep(l[..i + 1], s) == Keep(l[..i], s) + if l[i] in s then [l[i]] else []
  {
    assert l[..i + 1][..i] == l[..i];
  }

  lemma {:induction false} KeepLists<T(!new)>(l: seq<T>, s: set<T>)
    requires Distinct(l)
    ensures Distinct(Keep(l, s)) && forall x :: x in Keep(l, s) <==> x in l && x in s
  {
    if l != [] {
      KeepLists(l[..|l| - 1], s);
      assert l == l[..|l| - 1] + [l[|l| - 1]];
    }
  }

  lemma KeepListing<T(!new)>(l: seq<T>, t: set<T>, s: set<T>)
    requires Lists(l, t)
    ensures Lists(Keep(l, s), t * s)
  {
    KeepLists(l, s);
  }

  ghost function Elems<T>(l: seq<T>): set<T> { set x | x in l }

  lemma ElemsNext<T>(l: seq<T>, i: nat)
    requires i < |l|
    ensures Elems(l[..i + 1]) == Elems(l[..i]) + {l[i]}
  {
    assert l[..i + 1] == l[..i] + [l[i]];
  }

  // ---- the sorted listing of a set ----

  ghost predicate IsListing<T(!new)>(l: seq<T>, s: set<T>, le: (T, T) -> bool) {
    SortedBy(l, le) && Lists(l, s)
  }

  lemma {:induction false} SomeListing<T(!new)>(s: set<T>) returns (l: seq<T>)
    ensures Lists(l, s)
  {
    if s == {} {
      l := [];
    } else {
      var x :| x in s;
      var t := SomeListing(s - {x});
      l := [x] + t;
    }
  }

  lemma SortLists<T(!new)>(l: seq<T>, s: set<T>, le: (T, T) -> bool)
    requires TotalOrder(le) && Lists(l, s)
    ensures IsListing(Sort(l, le), s, le) && |Sort(l, le)| == |s|
  {
    SortSorts(l, le);
    SortKeeps(l, le);
    SortDistinct(l, le);
    SameElements(Sort(l, le), l);
    DistinctCount(l);
    assert s == set x | x in l;
  }

  /** Everything in s, in order, once. */
  ghost function Listing<T(!new)>(s: set<T>, le: (T, T) -> bool): (l: seq<T>)
    requires TotalOrder(le)
    ensures IsListing(l, s, le)
  {
    ListingExists(s, le);
    var l :| IsListing(l, s, le);
    l
  }

  lemma ListingExists<T(!new)>(s: set<T>, le: (T, T) -> bool)
    requires TotalOrder(le)
    ensures exists l :: IsListing(l, s, le)
  {
    var l := SomeListing(s);
    SortLists(l, s, le);
  }

  lemma ListingUnique<T(!new)>(a: seq<T>, b: seq<T>, s: set<T>, le: (T, T) -> bool)
    requires TotalOrder(le) && IsListing(a, s, le) && IsListing(b, s, le)
    ensures a == b && |a| == |s|
  {
    DistinctMultiset(a);
    DistinctMultiset(b);
    forall x ensures multiset(a)[x] == multiset(b)[x] {
      assert x in a <==> x in b;
      assert x !in a ==> x !in multiset(a) && x !in multiset(b);
    }
    assert multiset(a) == multiset(b);
    SortedUnique(a, b, le);
    DistinctCount(a);
    assert s == set x | x in a;
  }

  /** Listing a set all of whose elements precede another's, then the other. */
  lemma ListingJoin<T(!new)>(a: set<T>, b: set<T>, le: (T, T) -> bool)
    requires TotalOrder(le) && forall x, y :: x in a && y in b ==> le(x, y) && x != y
    ensures Listing(a + b, le) == Listing(a, le) + Listing(b, le)
  {
    var l, m := Listing(a, le), Listing(b, le);
    forall i, j | 0 <= i < j < |l + m| ensures le((l + m)[i], (l + m)[j]) && (l + m)[i] != (l + m)[j] {
      if i < |l| <= j { assert l[i] in a && m[j - |l|] in b; }
    }
    ListingUnique(Listing(a + b, le), l + m, a + b, le);
  }

  // ---- slices.Compact ----

  function Compact<T(==)>(s: seq<T>): seq<T> {
    if |s| <= 1 then s
    else if s[0] == s[1] then Compact(s[1..]) else [s[0]] + Compact(s[1..])
  }

  lemma {:induction false} CompactKeeps<T>(s: seq<T>)
    ensures forall x :: x in Compact(s) <==> x in s
    ensures s != [] ==> Compact(s) != [] && Compact(s)[0] == s[0]
  {
    if |s| > 1 {
      CompactKeeps(s[1..]);
      assert s == [s[0]] + s[1..];
    }
  }

  lemma {:induction false} CompactSorted<T(!new)>(s: seq<T>, le: (T, T) -> bool)
    requires TotalOrder(le) && SortedBy(s, le)
    ensures SortedBy(Compact(s), le) && Distinct(Compact(s))
  {
    if |s| > 1 {
      var r := Compact(s[1..]);
      CompactSorted(s[1..], le);
      CompactKeeps(s[1..]);
      if s[0] != s[1] {
        forall j | 0 <= j < |r| ensures le(s[0], r[j]) && r[j] != s[0] {
          assert r[j] in s[1..];
          var k :| 0 <= k < |s[1..]| && s[1..][k] == r[j];
          assert s[k + 1] == r[j] && le(s[0], s[1]);
          assert k > 0 ==> le(s[1], s[k + 1]);
        }
      }
    }
  }

  // ---- the orders ----

  predicate IntLe(a: int, b: int) { a <= b }

  lemma IntOrder()
    ensures TotalOrder(IntLe)
  {
  }

  /** Go's string order: lexicographic, a prefix first. */
  predicate StringLe(a: string, b: string) {
    a == "" || (b != "" && (a[0] < b[0] || (a[0] == b[0] && StringLe(a[1..], b[1..]))))
  }

  lemma {:induction false} StringLeTotal(a: string, b: string)
    ensures StringLe(a, b) || StringLe(b, a)
  {
    if a != "" && b != "" && a[0] == b[0] { StringLeTotal(a[1..], b[1..]); }
  }

  lemma {:induction false} StringLeAntisymmetric(a: string, b: string)
    requires StringLe(a, b) && StringLe(b, a)
    ensures a == b
  {
    if a != "" && b != "" {
      StringLeAntisymmetric(a[1..], b[1..]);
      assert a == [a[0]] + a[1..] && b == [b[0]] + b[1..];
    }
  }

  lemma {:induction false} StringLeTransitive(a: string, b: string, c: string)
    requires StringLe(a, b) && StringLe(b, c)
    ensures StringLe(a, c)
  {
    if a != "" && b[0] == a[0] && c[0] == b[0] { StringLeTransitive(a[1..], b[1..], c[1..]); }
  }

  lemma StringOrder()
    ensures TotalOrder(StringLe)
  {
    forall a, b ensures StringLe(a, b) || StringLe(b, a) { StringLeTotal(a, b); }
    forall a, b | StringLe(a, b) && StringLe(b, a) ensures a == b { StringLeAntisymmetric(a, b); }
    forall a, b, c | StringLe(a, b) && StringLe(b, c) ensures StringLe(a, c) { StringLeTransitive(a, b, c); }
  }
}
