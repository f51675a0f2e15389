/** The hash input of spec.configValues (configValuesHash and canonicalJSONValue
    in internal/planner/config_overlay.go): it depends only on the entries as a
    multiset, with numbers compared by value and objects by content. */
module ConfigHash {
  import opened Options
  import opened Orders
  import opened JsonNumber

  /** A decoded JSON value with numbers of type N. Objects have no key order. */
  datatype Json<N> =
    | Null
    | Bool(flag: bool)
    | Text(text: string)
    | Num(number: N)
    | Array(items: seq<Json<N>>)
    | Object(members: map<string, Json<N>>)

  predicate ValidJson(j: Json<Number>) {
    match j
    case Num(n) => Valid(n)
    case Array(s) => forall i :: 0 <= i < |s| ==> ValidJson(s[i])
    case Object(m) => forall k :: k in m ==> ValidJson(m[k])
    case _ => true
  }

  /** canonicalJSONValue: every number in its canonical spelling. */
  function CanonicalValue(j: Json<Number>): Json<string> {
    match j
    case Null => Null
    case Bool(b) => Bool(b)
    case Text(s) => Text(s)
    case Num(n) => Num(Canonical(Show(n)))
    case Array(s) => Array(seq(|s|, i requires 0 <= i < |s| => CanonicalValue(s[i])))
    case Object(m) => Object(map k | k in m :: CanonicalValue(m[k]))
  }

  /** The same value, numbers compared as decimals. */
  predicate SameJson(a: Json<Number>, b: Json<Number>)
    requires ValidJson(a) && ValidJson(b)
  {
    match (a, b)
    case (Null, Null) => true
    case (Bool(x), Bool(y)) => x == y
    case (Text(x), Text(y)) => x == y
    case (Num(x), Num(y)) => SameValue(ValueOf(x), ValueOf(y))
    case (Array(s), Array(t)) => |s| == |t| && forall i :: 0 <= i < |s| ==> SameJson(s[i], t[i])
    case (Object(m), Object(n)) => m.Keys == n.Keys && forall k :: k in m ==> SameJson(m[k], n[k])
    case _ => false
  }

  lemma {:induction false} CanonicalArray(s: seq<Json<Number>>, t: seq<Json<Number>>)
    requires forall i :: 0 <= i < |s| && i < |t| ==> (CanonicalValue(s[i]) == CanonicalValue(t[i])) == Agree(s[i], t[i])
    ensures CanonicalValue(Array(s)) == CanonicalValue(Array(t)) <==> |s| == |t| && forall i :: 0 <= i < |s| ==> Agree(s[i], t[i])
  {
    var a, b := CanonicalValue(Array(s)).items, CanonicalValue(Array(t)).items;
    if a == b {
      assert |a| == |b|;
      assert forall i :: 0 <= i < |s| ==> a[i] == CanonicalValue(s[i]) && b[i] == CanonicalValue(t[i]);
    }
  }

  predicate Agree(a: Json<Number>, b: Json<Number>) { ValidJson(a) && ValidJson(b) && SameJson(a, b) }

  lemma {:induction false} CanonicalObject(m: map<string, Json<Number>>, n: map<string, Json<Number>>)
    requires forall k :: k in m && k in n ==> (CanonicalValue(m[k]) == CanonicalValue(n[k])) == Agree(m[k], n[k])
    ensures CanonicalValue(Object(m)) == CanonicalValue(Object(n)) <==> m.Keys == n.Keys && forall k :: k in m ==> k in n && Agree(m[k], n[k])
  {
    var a, b := CanonicalValue(Object(m)).members, CanonicalValue(Object(n)).members;
    assert a.Keys == m.Keys && b.Keys == n.Keys;
    if a == b {
      assert forall k :: k in m ==> a[k] == CanonicalValue(m[k]) && b[k] == CanonicalValue(n[k]);
    }
  }

  /** Canonical forms are equal exactly for values equal up to numeric spelling. */
  lemma {:induction false} CanonicalDecidesJson(a: Json<Number>, b: Json<Number>)
    requires ValidJson(a) && ValidJson(b)
    ensures CanonicalValue(a) == CanonicalValue(b) <==> SameJson(a, b)
    decreases a
  {
    match (a, b)
    case (Num(x), Num(y)) => CanonicalDecidesValue(x, y);
    case (Array(s), Array(t)) =>
      forall i | 0 <= i < |s| && i < |t| ensures (CanonicalValue(s[i]) == CanonicalValue(t[i])) == Agree(s[i], t[i]) {
        CanonicalDecidesJson(s[i], t[i]);
      }
      CanonicalArray(s, t);
    case (Object(m), Object(n)) =>
      forall k | k in m && k in n ensures (CanonicalValue(m[k]) == CanonicalValue(n[k])) == Agree(m[k], n[k]) {
        CanonicalDecidesJson(m[k], n[k]);
      }
      CanonicalObject(m, n);
    case _ =>
  }

  // ---- the hash input ----

  /** An entry whose value is None does not decode. */
  datatype Entry = Entry(file: string, key: string, value: Option<Json<Number>>)

  datatype Tuple = Tuple(file: string, key: string, value: Json<string>)

  function TupleOf(e: Entry): Tuple
    requires e.value.Some?
  {
    Tuple(e.file, e.key, CanonicalValue(e.value.value))
  }

  predicate ValidEntry(e: Entry) { e.value.Some? && ValidJson(e.value.value) }

  /** The same file, key and value. */
  predicate SameEntry(a: Entry, b: Entry)
    requires ValidEntry(a) && ValidEntry(b)
  {
    a.file == b.file && a.key == b.key && SameJson(a.value.value, b.value.value)
  }

  ghost predicate Injective(marshal: Tuple -> string) {
    forall x, y :: marshal(x) == marshal(y) ==> x == y
  }

  function Marshalled(marshal: Tuple -> string, e: Entry): string {
    if e.value.Some? then marshal(TupleOf(e)) else ""
  }

  /** What is hashed: the marshalled tuples, sorted. */
  ghost function HashInput(marshal: Tuple -> string, entries: seq<Entry>): Option<seq<string>> {
    if forall i :: 0 <= i < |entries| ==> entries[i].value.Some?
    then Some(Sort(Mapped((e: Entry) => Marshalled(marshal, e), entries), StringLe)) else None
  }

  method ConfigValuesHash(marshal: Tuple -> string, entries: seq<Entry>) returns (r: Option<seq<string>>)
    ensures r == HashInput(marshal, entries)
  {
    var tuples := [];
    for i := 0 to |entries|
      invariant forall k :: 0 <= k < i ==> entries[k].value.Some?
      invariant tuples == Mapped((e: Entry) => Marshalled(marshal, e), entries[..i])
    {
      if entries[i].value.None? { return None; }
      MappedJoin((e: Entry) => Marshalled(marshal, e), entries[..i], [entries[i]]);
      assert entries[..i + 1] == entries[..i] + [entries[i]];
      tuples := tuples + [marshal(TupleOf(entries[i]))];
    }
    assert entries[..|entries|] == entries;
    r := Some(Sort(tuples, StringLe));
  }

  // ---- what it decides ----

  /** a and b pair off, each entry with one that is the same. */
  ghost predicate PairOff(a: seq<Entry>, b: seq<Entry>)
    requires (forall i :: 0 <= i < |a| ==> ValidEntry(a[i])) && forall i :: 0 <= i < |b| ==> ValidEntry(b[i])
    decreases |a|
  {
    if a == [] then b == []
    else exists j :: 0 <= j < |b| && SameEntry(a[0], b[j]) && PairOff(a[1..], Without(b, j))
  }

  lemma MarshalDecides(marshal: Tuple -> string, a: Entry, b: Entry)
    requires Injective(marshal) && ValidEntry(a) && ValidEntry(b)
    ensures Marshalled(marshal, a) == Marshalled(marshal, b) <==> SameEntry(a, b)
  {
    CanonicalDecidesJson(a.value.value, b.value.value);
  }

  lemma {:induction false} PairingIsPermutation(marshal: Tuple -> string, a: seq<Entry>, b: seq<Entry>)
    requires Injective(marshal)
    requires (forall i :: 0 <= i < |a| ==> ValidEntry(a[i])) && forall i :: 0 <= i < |b| ==> ValidEntry(b[i])
    ensures var f := (e: Entry) => Marshalled(marshal, e);
            PairOff(a, b) <==> multiset(Mapped(f, a)) == multiset(Mapped(f, b))
    decreases |a|
  {
    var f := (e: Entry) => Marshalled(marshal, e);
    if a == [] {
      assert Mapped(f, a) == [];
      if multiset(Mapped(f, a)) == multiset(Mapped(f, b)) { SameElements(Mapped(f, a), Mapped(f, b)); }
    } else {
      assert Without(a, 0) == a[1..];
      MappedWithout(f, a, 0);
      forall j | 0 <= j < |b|
        ensures multiset(Mapped(f, b)) == multiset(Mapped(f, Without(b, j))) + multiset{f(b[j])}
        ensures SameEntry(a[0], b[j]) <==> f(a[0]) == f(b[j])
        ensures PairOff(a[1..], Without(b, j)) <==> multiset(Mapped(f, a[1..])) == multiset(Mapped(f, Without(b, j)))
      {
        MappedWithout(f, b, j);
        MarshalDecides(marshal, a[0], b[j]);
        PairingIsPermutation(marshal, a[1..], Without(b, j));
      }
      if multiset(Mapped(f, a)) == multiset(Mapped(f, b)) { FindPartner(f, a, b); }
    }
  }

  lemma FindPartner(f: Entry -> string, a: seq<Entry>, b: seq<Entry>)
    requires a != [] && multiset(Mapped(f, a)) == multiset(Mapped(f, b))
    ensures exists j :: 0 <= j < |b| && f(b[j]) == f(a[0]) && multiset(Mapped(f, a[1..])) == multiset(Mapped(f, Without(b, j)))
  {
    SameElements(Mapped(f, a), Mapped(f, b));
    assert Mapped(f, a)[0] in Mapped(f, b);
    var j :| 0 <= j < |b| && f(b[j]) == f(a[0]);
    assert Without(a, 0) == a[1..];
    MappedWithout(f, a, 0);
    MappedWithout(f, b, j);
    var x := multiset{f(a[0])};
    assert multiset(Mapped(f, a[1..])) == multiset(Mapped(f, a)) - x;
    assert multiset(Mapped(f, Without(b, j))) == multiset(Mapped(f, b)) - x;
  }

  /** Two lists give the same hash input exactly when they are permutations of
      each other up to numeric spelling and object key order. */
  lemma SameHashInput(marshal: Tuple -> string, a: seq<Entry>, b: seq<Entry>)
    requires Injective(marshal)
    requires (forall i :: 0 <= i < |a| ==> ValidEntry(a[i])) && forall i :: 0 <= i < |b| ==> ValidEntry(b[i])
    ensures HashInput(marshal, a) == HashInput(marshal, b) <==> PairOff(a, b)
  {
    var f := (e: Entry) => Marshalled(marshal, e);
    PairingIsPermutation(marshal, a, b);
    StringOrder();
    SortDecidesPermutation(Mapped(f, a), Mapped(f, b), StringLe);
  }
}
