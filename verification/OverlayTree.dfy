/** Config trees and their merge: tables combine, anything else at the same
    place is a conflict. The merge is a partial commutative monoid, so an overlay
    does not depend on the order of its entries. */
module OverlayTree {
  import opened Options
  import opened Orders

  /** A TOML value: a table, or anything a merge never looks into. */
  datatype Tree<L> = Leaf(value: L) | Table(entries: Entries<L>)

  type Entries<L> = map<string, Tree<L>>

  /** The names both sides have must be tables on both sides, all the way down. */
  ghost predicate Fits<L>(a: Entries<L>, b: Entries<L>)
    decreases Table(a)
  {
    forall k :: k in a && k in b ==> a[k].Table? && b[k].Table? && Fits(a[k].entries, b[k].entries)
  }

  function Joined<L>(a: Entries<L>, b: Entries<L>): Entries<L>
    decreases Table(a)
  {
    map k | k in a.Keys + b.Keys ::
      if k !in b then a[k]
      else if k !in a then b[k]
      else if a[k].Table? && b[k].Table? then Table(Joined(a[k].entries, b[k].entries))
      else a[k]
  }

  /** What Fits asks of one name. */
  ghost predicate FitsAt<L>(a: Entries<L>, b: Entries<L>, k: string) {
    k in a && k in b ==> a[k].Table? && b[k].Table? && Fits(a[k].entries, b[k].entries)
  }

  /** What Joined holds at one name of b. */
  function JoinedAt<L>(a: Entries<L>, b: Entries<L>, k: string): Tree<L>
    requires k in b
  {
    if k !in a then b[k]
    else if a[k].Table? && b[k].Table? then Table(Joined(a[k].entries, b[k].entries))
    else a[k]
  }

  /** The names done so far are merged into a. */
  ghost predicate MergedNames<L>(a: Entries<L>, b: Entries<L>, done: set<string>, into: Entries<L>) {
    && done <= b.Keys && into.Keys == a.Keys + done
    && (forall k :: k in a && k !in done ==> into[k] == a[k])
    && (forall k :: k in done ==> FitsAt(a, b, k) && into[k] == JoinedAt(a, b, k))
  }

  lemma MergeName<L>(a: Entries<L>, b: Entries<L>, done: set<string>, into: Entries<L>, name: string)
    requires MergedNames(a, b, done, into) && name in b && name !in done && FitsAt(a, b, name)
    ensures (name in into <==> name in a) && (name in a ==> into[name] == a[name])
    ensures MergedNames(a, b, done + {name}, into[name := JoinedAt(a, b, name)])
  {
    hide Fits, Joined;
  }

  /** The merge, name by name. */
  lemma JoinedByName<L>(a: Entries<L>, b: Entries<L>, into: Entries<L>)
    requires MergedNames(a, b, b.Keys, into)
    ensures Fits(a, b) && into == Joined(a, b)
  {
  }

  /** None is a conflict. */
  ghost function Merge<L>(a: Entries<L>, b: Entries<L>): Option<Entries<L>> {
    if Fits(a, b) then Some(Joined(a, b)) else None
  }

  ghost function MergeAny<L>(a: Option<Entries<L>>, b: Option<Entries<L>>): Option<Entries<L>> {
    if a.Some? && b.Some? then Merge(a.value, b.value) else None
  }

  // ---- the laws ----

  lemma {:induction false} FitsSymmetric<L>(a: Entries<L>, b: Entries<L>)
    requires Fits(a, b)
    ensures Fits(b, a)
    decreases Table(a)
  {
    forall k | k in b && k in a ensures b[k].Table? && a[k].Table? && Fits(b[k].entries, a[k].entries) {
      FitsSymmetric(a[k].entries, b[k].entries);
    }
  }

  lemma {:induction false} JoinedCommutes<L>(a: Entries<L>, b: Entries<L>)
    requires Fits(a, b)
    ensures Joined(a, b) == Joined(b, a)
    decreases Table(a)
  {
    forall k | k in a && k in b ensures Joined(a[k].entries, b[k].entries) == Joined(b[k].entries, a[k].entries) {
      JoinedCommutes(a[k].entries, b[k].entries);
    }
  }

  lemma MergeCommutes<L>(a: Entries<L>, b: Entries<L>)
    ensures Merge(a, b) == Merge(b, a)
  {
    if Fits(a, b) {
      FitsSymmetric(a, b);
      JoinedCommutes(a, b);
    } else if Fits(b, a) {
      FitsSymmetric(b, a);
    }
  }

  /** c fits the join of a and b exactly when it fits both. */
  lemma {:induction false} FitsJoined<L>(a: Entries<L>, b: Entries<L>, c: Entries<L>)
    requires Fits(a, b)
    ensures Fits(Joined(a, b), c) <==> Fits(a, c) && Fits(b, c)
    decreases Table(a)
  {
    var ab := Joined(a, b);
    forall k | k in a && k in b && k in c && c[k].Table?
      ensures Fits(ab[k].entries, c[k].entries) <==> Fits(a[k].entries, c[k].entries) && Fits(b[k].entries, c[k].entries)
    {
      FitsJoined(a[k].entries, b[k].entries, c[k].entries);
    }
    if Fits(ab, c) {
      assert forall k :: k in a && k in c ==> k in ab && a[k].Table? && c[k].Table? && Fits(a[k].entries, c[k].entries);
      assert forall k :: k in b && k in c ==> k in ab && b[k].Table? && c[k].Table? && Fits(b[k].entries, c[k].entries);
    }
  }

  lemma {:induction false} JoinedAssociates<L>(a: Entries<L>, b: Entries<L>, c: Entries<L>)
    requires Fits(a, b) && Fits(a, c) && Fits(b, c)
    ensures Joined(Joined(a, b), c) == Joined(a, Joined(b, c))
    decreases Table(a)
  {
    forall k | k in a && k in b && k in c
      ensures Joined(Joined(a[k].entries, b[k].entries), c[k].entries) == Joined(a[k].entries, Joined(b[k].entries, c[k].entries))
    {
      JoinedAssociates(a[k].entries, b[k].entries, c[k].entries);
    }
  }

  lemma MergeAssociates<L>(a: Option<Entries<L>>, b: Option<Entries<L>>, c: Option<Entries<L>>)
    ensures MergeAny(MergeAny(a, b), c) == MergeAny(a, MergeAny(b, c))
  {
    if a.Some? && b.Some? && c.Some? {
      var x, y, z := a.value, b.value, c.value;
      if Fits(x, y) { FitsJoined(x, y, z); }
      if Fits(y, z) {
        FitsJoined(y, z, x);
        MergeCommutes(Joined(y, z), x);
        MergeCommutes(y, x);
        MergeCommutes(z, x);
      }
      if Fits(x, y) && Fits(x, z) && Fits(y, z) { JoinedAssociates(x, y, z); }
    }
  }

  lemma MergeAnyCommutes<L>(a: Option<Entries<L>>, b: Option<Entries<L>>)
    ensures MergeAny(a, b) == MergeAny(b, a)
  {
    if a.Some? && b.Some? { MergeCommutes(a.value, b.value); }
  }

  lemma MergeNothing<L>(a: Entries<L>)
    ensures Merge(map[], a) == Some(a) && Merge(a, map[]) == Some(a)
  {
    assert Joined(map[], a) == a;
    assert Joined(a, map[]) == a;
  }

  // ---- leaves ----

  /** The leaf at a path, if there is one. */
  function LeafAt<L>(t: Entries<L>, path: seq<string>): Option<L>
    decreases |path|
  {
    if path == [] || path[0] !in t then None
    else match t[path[0]]
      case Leaf(v) => if |path| == 1 then Some(v) else None
      case Table(e) => LeafAt(e, path[1..])
  }

  /** A merge has the leaves of both sides and no others, and no leaf is on both. */
  lemma {:induction false} MergedLeaves<L>(a: Entries<L>, b: Entries<L>, path: seq<string>)
    requires Fits(a, b)
    ensures LeafAt(Joined(a, b), path) == if LeafAt(a, path).Some? then LeafAt(a, path) else LeafAt(b, path)
    ensures LeafAt(a, path).None? || LeafAt(b, path).None?
    decreases |path|
  {
    if path != [] && path[0] in a && path[0] in b {
      MergedLeaves(a[path[0]].entries, b[path[0]].entries, path[1..]);
    }
  }

  // ---- nodes ----

  /** The node at a path, leaf or table. */
  function NodeAt<L>(t: Entries<L>, path: seq<string>): Option<Tree<L>>
    decreases |path|
  {
    if path == [] || path[0] !in t then None
    else if |path| == 1 then Some(t[path[0]])
    else match t[path[0]]
      case Leaf(_) => None
      case Table(e) => NodeAt(e, path[1..])
  }

  /** At each path a merge holds the node of the one side that has it, or the merge of both sides' tables. */
  lemma {:induction false} MergedNodes<L>(a: Entries<L>, b: Entries<L>, path: seq<string>)
    requires Fits(a, b)
    ensures var x, y := NodeAt(a, path), NodeAt(b, path);
            if x.None? then NodeAt(Joined(a, b), path) == y
            else if y.None? then NodeAt(Joined(a, b), path) == x
            else && x.value.Table? && y.value.Table? && Fits(x.value.entries, y.value.entries)
                 && NodeAt(Joined(a, b), path) == Some(Table(Joined(x.value.entries, y.value.entries)))
    decreases |path|
  {
    if |path| > 1 && path[0] in a && path[0] in b {
      MergedNodes(a[path[0]].entries, b[path[0]].entries, path[1..]);
    }
  }

  /** All of small is in big, where it was. */
  ghost predicate Contains<L>(big: Entries<L>, small: Entries<L>)
    decreases Table(small)
  {
    forall k :: k in small ==>
      k in big && (big[k] == small[k] || (big[k].Table? && small[k].Table? && Contains(big[k].entries, small[k].entries)))
  }

  lemma {:induction false} JoinedContains<L>(a: Entries<L>, b: Entries<L>)
    requires Fits(a, b)
    ensures Contains(Joined(a, b), a)
    decreases Table(a)
  {
    forall k | k in a && k in b ensures Contains(Joined(a[k].entries, b[k].entries), a[k].entries) {
      JoinedContains(a[k].entries, b[k].entries);
    }
  }

  /** u has only tables, and only ones t has as well. */
  ghost predicate AddsNothing<L>(u: Entries<L>, t: Entries<L>)
    decreases Table(u)
  {
    forall k :: k in u ==> u[k].Table? && k in t && t[k].Table? && AddsNothing(u[k].entries, t[k].entries)
  }

  /** Merging u leaves t as it is exactly when u adds nothing. */
  lemma {:induction false} MergeKeepsIff<L>(t: Entries<L>, u: Entries<L>)
    requires Fits(t, u)
    ensures Joined(t, u) == t <==> AddsNothing(u, t)
    decreases Table(t)
  {
    forall k | k in t && k in u ensures Joined(t[k].entries, u[k].entries) == t[k].entries <==> AddsNothing(u[k].entries, t[k].entries) {
      MergeKeepsIff(t[k].entries, u[k].entries);
    }
    if Joined(t, u) == t {
      forall k | k in u ensures k in t && AddsNothing(u[k].entries, t[k].entries) {
        assert k in Joined(t, u);
      }
    }
    if AddsNothing(u, t) {
      assert forall k :: k in u ==> k in t;
      assert Joined(t, u).Keys == t.Keys;
    }
  }

  lemma {:induction false} JoinedAddsNothing<L>(u: Entries<L>, v: Entries<L>, t: Entries<L>)
    requires Fits(u, v)
    ensures AddsNothing(Joined(u, v), t) <==> AddsNothing(u, t) && AddsNothing(v, t)
    decreases Table(u)
  {
    var uv := Joined(u, v);
    forall k | k in u && k in v && k in t && t[k].Table?
      ensures AddsNothing(uv[k].entries, t[k].entries) <==> AddsNothing(u[k].entries, t[k].entries) && AddsNothing(v[k].entries, t[k].entries)
    {
      JoinedAddsNothing(u[k].entries, v[k].entries, t[k].entries);
    }
    if AddsNothing(uv, t) {
      forall k | k in u ensures u[k].Table? && k in t && t[k].Table? && AddsNothing(u[k].entries, t[k].entries) { assert k in uv; }
      forall k | k in v ensures v[k].Table? && k in t && t[k].Table? && AddsNothing(v[k].entries, t[k].entries) { assert k in uv; }
    }
  }

  // ---- any number of patches ----

  ghost function MergeAll<L>(patches: seq<Option<Entries<L>>>): Option<Entries<L>> {
    if patches == [] then Some(map[])
    else MergeAny(MergeAll(patches[..|patches| - 1]), patches[|patches| - 1])
  }

  /** One patch may be taken out of its place and merged last. */
  lemma {:induction false} MergeLast<L>(patches: seq<Option<Entries<L>>>, j: nat)
    requires j < |patches|
    ensures MergeAll(patches) == MergeAny(MergeAll(Without(patches, j)), patches[j])
    decreases |patches|
  {
    hide MergeAny;
    var n := |patches| - 1;
    var init, last := patches[..n], patches[n];
    if j == n {
      assert Without(patches, j) == init;
    } else {
      var x, rest := patches[j], Without(init, j);
      MergeLast(init, j);
      var without := Without(patches, j);
      assert without[..|without| - 1] == rest && without[|without| - 1] == last;
      MergeAssociates(MergeAll(rest), x, last);
      MergeAnyCommutes(x, last);
      MergeAssociates(MergeAll(rest), last, x);
    }
  }

  /** Every order of the patches gives the same tree, or every one fails. */
  lemma {:induction false} OrderDoesNotShow<L>(a: seq<Option<Entries<L>>>, b: seq<Option<Entries<L>>>)
    requires multiset(a) == multiset(b)
    ensures MergeAll(a) == MergeAll(b)
    decreases |a|
  {
    assert |multiset(a)| == |multiset(b)|;
    if a != [] {
      var n := |a| - 1;
      var x := a[n];
      assert a == a[..n] + [x];
      assert x in multiset(b);
      var j :| 0 <= j < |b| && b[j] == x;
      WithoutOne(a, n);
      WithoutOne(b, j);
      assert Without(a, n) == a[..n];
      OrderDoesNotShow(a[..n], Without(b, j));
      MergeLast(b, j);
    }
  }

  /** A leaf of the whole is the leaf of exactly one patch. */
  ghost predicate SoleLeaf<L>(patches: seq<Option<Entries<L>>>, path: seq<string>, leaf: Option<L>) {
    if leaf.None? then forall i :: 0 <= i < |patches| ==> patches[i].Some? && LeafAt(patches[i].value, path).None?
    else exists i :: 0 <= i < |patches| && patches[i].Some? && LeafAt(patches[i].value, path) == leaf
                     && forall j :: 0 <= j < |patches| && j != i ==> patches[j].Some? && LeafAt(patches[j].value, path).None?
  }

  /** On success every path reads back as the one patch that has a leaf there,
      or as none: nothing is lost, added, overwritten or supplied twice. */
  lemma {:induction false} LeavesComeFromOnePatch<L>(patches: seq<Option<Entries<L>>>, path: seq<string>)
    requires MergeAll(patches).Some?
    ensures SoleLeaf(patches, path, LeafAt(MergeAll(patches).value, path))
    decreases |patches|
  {
    if patches != [] {
      var n := |patches| - 1;
      var init, last := patches[..n], patches[n];
      LeavesComeFromOnePatch(init, path);
      var t := MergeAll(init).value;
      MergedLeaves(t, last.value, path);
      assert forall i :: 0 <= i < n ==> init[i] == patches[i];
      if LeafAt(t, path).Some? {
        var i :| 0 <= i < n && init[i].Some? && LeafAt(init[i].value, path) == LeafAt(t, path)
                 && forall j :: 0 <= j < n && j != i ==> init[j].Some? && LeafAt(init[j].value, path).None?;
        assert patches[i] == init[i];
      } else if LeafAt(last.value, path).Some? {
        assert patches[n] == last;
      }
    }
  }

  // ---- a node of the whole ----

  /** A patch whose node at the path leaves the tree t there as it is. */
  ghost predicate Spares<L>(patch: Option<Entries<L>>, path: seq<string>, t: Tree<L>) {
    patch.Some? &&
    match NodeAt(patch.value, path)
    case None => true
    case Some(u) => t.Table? && u.Table? && AddsNothing(u.entries, t.entries)
  }

  /** A merge of patches spares a tree exactly when each of them does. */
  lemma {:induction false} AllSpare<L>(patches: seq<Option<Entries<L>>>, path: seq<string>, t: Tree<L>)
    requires MergeAll(patches).Some?
    ensures Spares(MergeAll(patches), path, t) <==> forall j :: 0 <= j < |patches| ==> Spares(patches[j], path, t)
    decreases |patches|
  {
    if patches != [] {
      var n := |patches| - 1;
      var init, last := patches[..n], patches[n];
      AllSpare(init, path, t);
      SpareJoin(MergeAll(init).value, last.value, path, t);
      assert forall j :: 0 <= j < n ==> init[j] == patches[j];
      assert (forall j :: 0 <= j < |patches| ==> Spares(patches[j], path, t)) <==>
             (forall j :: 0 <= j < n ==> Spares(init[j], path, t)) && Spares(last, path, t);
    }
  }

  lemma SpareJoin<L>(a: Entries<L>, b: Entries<L>, path: seq<string>, t: Tree<L>)
    requires Fits(a, b)
    ensures Spares(Some(Joined(a, b)), path, t) <==> Spares(Some(a), path, t) && Spares(Some(b), path, t)
  {
    MergedNodes(a, b, path);
    if t.Table? && NodeAt(a, path).Some? && NodeAt(b, path).Some? {
      JoinedAddsNothing(NodeAt(a, path).value.entries, NodeAt(b, path).value.entries, t.entries);
    }
  }

  /** On success the node that one patch puts at a path stays exactly as it is if
      and only if every other patch spares it; it is always there, inside a table
      that may have grown. */
  lemma NodeOfOnePatch<L>(patches: seq<Option<Entries<L>>>, i: nat, path: seq<string>)
    requires MergeAll(patches).Some? && i < |patches| && patches[i].Some? && NodeAt(patches[i].value, path).Some?
    ensures var t, node := NodeAt(patches[i].value, path).value, NodeAt(MergeAll(patches).value, path);
            && (node == Some(t) <==> forall j :: 0 <= j < |patches| && j != i ==> Spares(patches[j], path, t))
            && node.Some? && (t.Leaf? ==> node == Some(t))
            && (t.Table? ==> node.value.Table? && Contains(node.value.entries, t.entries))
  {
    var t, rest := NodeAt(patches[i].value, path).value, Without(patches, i);
    MergeLast(patches, i);
    var others := MergeAll(rest).value;
    AllSpare(rest, path, t);
    MergeCommutes(others, patches[i].value);
    MergedNodes(patches[i].value, others, path);
    if NodeAt(others, path).Some? {
      MergeKeepsIff(t.entries, NodeAt(others, path).value.entries);
      JoinedContains(t.entries, NodeAt(others, path).value.entries);
    } else if t.Table? {
      ContainsItself(t.entries);
    }
    OthersAre(patches, i, path, t);
  }

  lemma ContainsItself<L>(t: Entries<L>)
    ensures Contains(t, t)
  {
  }

  lemma OthersAre<L>(patches: seq<Option<Entries<L>>>, i: nat, path: seq<string>, t: Tree<L>)
    requires i < |patches|
    ensures (forall j :: 0 <= j < |patches| && j != i ==> Spares(patches[j], path, t)) <==>
            (forall j :: 0 <= j < |Without(patches, i)| ==> Spares(Without(patches, i)[j], path, t))
  {
    var rest := Without(patches, i);
    assert forall j :: 0 <= j < i ==> rest[j] == patches[j];
    assert forall j :: i < j < |patches| ==> patches[j] == rest[j - 1];
    assert forall j :: i <= j < |rest| ==> rest[j] == patches[j + 1];
  }

  // ---- when a merge succeeds ----

  /** A tree fits a merge of patches exactly when it fits each of them. */
  lemma {:induction false} FitsAll<L>(patches: seq<Option<Entries<L>>>, c: Entries<L>)
    requires MergeAll(patches).Some?
    ensures Fits(MergeAll(patches).value, c) <==> forall j :: 0 <= j < |patches| ==> patches[j].Some? && Fits(patches[j].value, c)
    decreases |patches|
  {
    if patches != [] {
      var n := |patches| - 1;
      var init, last := patches[..n], patches[n];
      FitsAll(init, c);
      FitsJoined(MergeAll(init).value, last.value, c);
      assert forall j :: 0 <= j < n ==> patches[j] == init[j];
    }
  }

  /** Patches merge exactly when each is one and every two of them fit. */
  lemma {:induction false} MergesIff<L>(patches: seq<Option<Entries<L>>>)
    ensures MergeAll(patches).Some? <==>
            && (forall j :: 0 <= j < |patches| ==> patches[j].Some?)
            && forall i, j :: 0 <= i < j < |patches| ==> Fits(patches[i].value, patches[j].value)
    decreases |patches|
  {
    if patches != [] {
      hide Fits, Merge;
      var n := |patches| - 1;
      var init, last := patches[..n], patches[n];
      MergesIff(init);
      assert forall j :: 0 <= j < n ==> patches[j] == init[j];
      if MergeAll(init).Some? && last.Some? { FitsAll(init, last.value); }
      assert MergeAll(patches).Some? <==> MergeAll(init).Some? && last.Some? && Fits(MergeAll(init).value, last.value) by { MergeLastSome(patches); }
    }
  }

  lemma MergeLastSome<L>(patches: seq<Option<Entries<L>>>)
    requires patches != []
    ensures var init, last := patches[..|patches| - 1], patches[|patches| - 1];
            MergeAll(patches).Some? <==> MergeAll(init).Some? && last.Some? && Fits(MergeAll(init).value, last.value)
  {
  }

  /** Two trees clash when both have a node at some path and not both are tables there. */
  ghost predicate ClashAt<L>(a: Entries<L>, b: Entries<L>, path: seq<string>) {
    && NodeAt(a, path).Some? && NodeAt(b, path).Some?
    && !(NodeAt(a, path).value.Table? && NodeAt(b, path).value.Table?)
  }

  lemma {:induction false} ClashMeansMisfit<L>(a: Entries<L>, b: Entries<L>, path: seq<string>)
    requires ClashAt(a, b, path)
    ensures !Fits(a, b)
    decreases |path|
  {
    if |path| > 1 { ClashMeansMisfit(a[path[0]].entries, b[path[0]].entries, path[1..]); }
  }
}
