/** The drift-roll budget (internal/planner/drift_budget.go): how many nodes of a
    namespace may roll their pod at once, and what a node without a slot renders. */
module DriftBudget {
  import opened Options
  import opened NodeTypes
  import opened Reconcile
  import opened Orders

  // ---- pinning ----

  /** nodepoolFor's refusal: a requested pool must be selectable or the one in use. */
  predicate NodePoolRefused(s: Spec, st: Status, p: Platform) {
    s.nodePool != "" && s.nodePool !in p.selectableNodepools && s.nodePool != st.currentNodePool
  }

  /** Once a rollout was observed the pinned copy has no template drift and is
      never refused; before that it drifts exactly because nothing was observed. */
  lemma PinningIsSound(n: Node, liveSeid: string, liveSidecar: string)
    ensures PinnedToRunning(n, liveSeid, liveSidecar).None? <==> n.status.currentImage == "" && liveSeid == ""
    ensures PinnedToRunning(n, liveSeid, liveSidecar).Some? ==>
              var pinned := PinnedToRunning(n, liveSeid, liveSidecar).value;
              && (PodTemplateDrifted(pinned, n.status, n.platform) <==> n.status.currentImage == "")
              && (n.status.currentImage != "" ==> !NodePoolRefused(pinned, n.status, n.platform))
              && (n.status.currentImage == "" ==> pinned.nodePool == n.spec.nodePool)
              && pinned.(image := n.spec.image, sidecarImage := n.spec.sidecarImage, isolation := n.spec.isolation, nodePool := n.spec.nodePool) == n.spec
  {
  }

  /** A spec its own pool refuses still renders while it waits, if a rollout was observed. */
  lemma PinningRescues(n: Node, inp: Inputs)
    requires RenderMayPin(n) && !inp.renderSlotFree && n.status.currentImage != ""
    ensures !NodePoolRefused(DriftRender(n, inp), n.status, n.platform)
    ensures !PodTemplateDrifted(DriftRender(n, inp), n.status, n.platform)
  {
    PinningIsSound(n, inp.liveSeidImage, inp.liveSidecarImage);
  }

  // ---- the slots ----

  /** What the budget reads of one listed SeiNode. */
  datatype Listed = Listed(name: string, running: bool, paused: bool, updating: bool, drifted: bool)

  predicate Counted(m: Listed) { m.running && !m.paused }

  predicate Rolling(m: Listed) { Counted(m) && m.updating }

  predicate Queued(m: Listed) { Counted(m) && !m.updating && m.drifted }

  /** Names identify the objects of a namespace. */
  predicate UniqueNames(list: seq<Listed>) {
    forall i, j :: 0 <= i < j < |list| ==> list[i].name != list[j].name
  }

  function NamesOf(list: seq<Listed>): set<string> { set m | m in list :: m.name }

  function CountedNames(list: seq<Listed>): set<string> { set m | m in list && Counted(m) :: m.name }

  function RollingNames(list: seq<Listed>): set<string> { set m | m in list && Rolling(m) :: m.name }

  function QueuedNames(list: seq<Listed>): set<string> { set m | m in list && Queued(m) :: m.name }

  function SlotsFor(count: nat, percent: nat): nat {
    if count * percent / 100 > 1 then count * percent / 100 else 1
  }

  function Slots(list: seq<Listed>, percent: nat): nat { SlotsFor(|CountedNames(list)|, percent) }

  /** The largest whole number of nodes within the percentage, but at least one. */
  lemma SlotsAre(count: nat, percent: nat)
    ensures var slots := SlotsFor(count, percent);
            && slots >= 1 && count * percent < (slots + 1) * 100
            && (slots > 1 ==> slots * 100 <= count * percent)
            && (percent <= 100 ==> slots <= if count == 0 then 1 else count)
  {
    var q := count * percent / 100;
    assert q * 100 <= count * percent < (q + 1) * 100;
    if percent <= 100 { assert count * percent <= count * 100; }
  }

  /** Names of s strictly before x. */
  function Before(s: set<string>, x: string): set<string> { set y | y in s && StringLe(y, x) && y != x }

  /** How many nodes hold a slot before x: rolling nodes first, then queued ones, each by name. */
  function Ahead(list: seq<Listed>, x: string): nat {
    var rolling, queued := RollingNames(list), QueuedNames(list);
    if x in rolling then |Before(rolling, x)|
    else if x in queued then |rolling| + |Before(queued, x)|
    else |rolling| + |queued|
  }

  predicate Admits(list: seq<Listed>, percent: nat, x: string) { Ahead(list, x) < Slots(list, percent) }

  // ---- DriftSlot ----

  /** In a sorted listing without repetition, x stands after exactly the names before it. */
  lemma SortedRank(s: seq<string>, names: set<string>, i: nat)
    requires SortedBy(s, StringLe) && Distinct(s) && i < |s|
    requires forall x :: x in s <==> x in names
    ensures |Before(names, s[i])| == i
  {
    StringOrder();
    DistinctCount(s[..i]);
    assert Before(names, s[i]) == set x | x in s[..i] by {
      forall y | y in Before(names, s[i]) ensures y in s[..i] {
        var k :| 0 <= k < |s| && s[k] == y;
        assert !(i < k);
      }
    }
  }

  lemma ClassesDisjoint(list: seq<Listed>)
    requires UniqueNames(list)
    ensures RollingNames(list) !! QueuedNames(list)
  {
    forall x | x in RollingNames(list) ensures x !in QueuedNames(list) {
      var m :| m in list && Rolling(m) && m.name == x;
      assert forall k :: k in list && k.name == x ==> k == m;
    }
  }

  /** The queue for slots: rolling nodes, then queued ones, each in name order. */
  ghost predicate SlotOrder(order: seq<string>, list: seq<Listed>) {
    var r := |RollingNames(list)|;
    && |order| == r + |QueuedNames(list)| && Distinct(order)
    && SortedBy(order[..r], StringLe) && SortedBy(order[r..], StringLe)
    && (forall x :: x in order[..r] <==> x in RollingNames(list))
    && (forall x :: x in order[r..] <==> x in QueuedNames(list))
  }

  /** A node's place in the queue is the number of nodes ahead of it. */
  lemma PlaceInOrder(order: seq<string>, list: seq<Listed>, i: nat)
    requires UniqueNames(list) && SlotOrder(order, list) && i < |order|
    ensures Ahead(list, order[i]) == i
  {
    ClassesDisjoint(list);
    var r := |RollingNames(list)|;
    if i < r {
      assert order[i] == order[..r][i];
      SortedRank(order[..r], RollingNames(list), i);
    } else {
      assert order[i] == order[r..][i - r];
      SortedRank(order[r..], QueuedNames(list), i - r);
    }
  }

  lemma JoinedOrder(a: seq<string>, b: seq<string>, list: seq<Listed>)
    requires IsListing(a, RollingNames(list), StringLe) && |a| == |RollingNames(list)|
    requires IsListing(b, QueuedNames(list), StringLe) && |b| == |QueuedNames(list)|
    requires RollingNames(list) !! QueuedNames(list)
    ensures SlotOrder(a + b, list)
  {
    var order := a + b;
    assert order[..|a|] == a && order[|a|..] == b;
    assert Distinct(order) by {
      forall i, j | 0 <= i < j < |order| ensures order[i] != order[j] {
        if i < |a| <= j { assert a[i] in RollingNames(list) && b[j - |a|] in QueuedNames(list); }
      }
    }
  }

  lemma OrderFromParts(u: seq<string>, w: seq<string>, list: seq<Listed>)
    requires UniqueNames(list)
    requires Lists(u, RollingNames(list)) && Lists(w, QueuedNames(list))
    ensures SlotOrder(Sort(u, StringLe) + Sort(w, StringLe), list)
  {
    StringOrder();
    SortLists(u, RollingNames(list), StringLe);
    SortLists(w, QueuedNames(list), StringLe);
    ClassesDisjoint(list);
    JoinedOrder(Sort(u, StringLe), Sort(w, StringLe), list);
  }

  /** The three sets after one more listed node. */
  lemma ListGrows(list: seq<Listed>, i: nat)
    requires UniqueNames(list) && i < |list|
    ensures var m, a, b := list[i], list[..i], list[..i + 1];
            && m.name !in NamesOf(a) && UniqueNames(b)
            && CountedNames(b) == CountedNames(a) + (if Counted(m) then {m.name} else {})
            && RollingNames(b) == RollingNames(a) + (if Rolling(m) then {m.name} else {})
            && QueuedNames(b) == QueuedNames(a) + (if Queued(m) then {m.name} else {})
            && CountedNames(a) <= NamesOf(a) && RollingNames(a) <= NamesOf(a) && QueuedNames(a) <= NamesOf(a)
  {
    assert list[..i + 1] == list[..i] + [list[i]];
  }

  /** The loop's three accumulators after the first i listed nodes. */
  ghost predicate Classified(list: seq<Listed>, running: nat, updating: seq<string>, waiting: seq<string>) {
    running == |CountedNames(list)| && Lists(updating, RollingNames(list)) && Lists(waiting, QueuedNames(list))
  }

  lemma ClassifyNext(list: seq<Listed>, i: nat, running: nat, updating: seq<string>, waiting: seq<string>)
    requires UniqueNames(list) && i < |list| && Classified(list[..i], running, updating, waiting)
    ensures var m := list[i];
            Classified(list[..i + 1],
                       if Counted(m) then running + 1 else running,
                       if Rolling(m) then updating + [m.name] else updating,
                       if Queued(m) then waiting + [m.name] else waiting)
  {
    hide CountedNames, RollingNames, QueuedNames, NamesOf, UniqueNames, Lists;
    ListGrows(list, i);
    if Rolling(list[i]) { ListsAppend(updating, RollingNames(list[..i]), list[i].name); }
    if Queued(list[i]) { ListsAppend(waiting, QueuedNames(list[..i]), list[i].name); }
  }

  /** DriftSlot's loop over the namespace. */
  method Classify(list: seq<Listed>) returns (running: nat, updating: seq<string>, waiting: seq<string>)
    requires UniqueNames(list)
    ensures Classified(list, running, updating, waiting)
  {
    running, updating, waiting := 0, [], [];
    for i := 0 to |list|
      invariant Classified(list[..i], running, updating, waiting)
    {
      ClassifyNext(list, i, running, updating, waiting);
      if list[i].running && !list[i].paused {
        running := running + 1;
        if list[i].updating {
          updating := updating + [list[i].name];
        } else if list[i].drifted {
          waiting := waiting + [list[i].name];
        }
      }
    }
    assert list[..|list|] == list;
  }

  /** None is a failed list call; otherwise whether the node may start now, and
      the holders that the message names. */
  method DriftSlot(percent: int, listing: Option<seq<Listed>>, name: string) returns (free: Option<bool>, holders: seq<string>)
    requires listing.Some? ==> UniqueNames(listing.value)
    ensures percent <= 0 ==> free == Some(true)
    ensures percent > 0 && listing.None? ==> free.None?
    ensures percent > 0 && listing.Some? ==> free == Some(Admits(listing.value, percent, name))
    ensures free == Some(false) ==> listing.Some? && forall x :: x in holders <==> x in AdmittedNames(listing.value, percent)
  {
    if percent <= 0 { return Some(true), []; }
    if listing.None? { return None, []; }
    var list := listing.value;
    var running, updating, waiting := Classify(list);
    var slots := SlotsFor(running, percent);
    var order := Sort(updating, StringLe) + Sort(waiting, StringLe);
    OrderFromParts(updating, waiting, list);
    PlaceByIndex(order, list, name);
    var at := IndexOf(order, name);
    free := Some(at < slots);
    holders := order[..Min(slots, |order|)];
    HoldersAreAdmitted(order, list, percent);
  }

  lemma PlaceByIndex(order: seq<string>, list: seq<Listed>, x: string)
    requires UniqueNames(list) && SlotOrder(order, list)
    ensures Ahead(list, x) == IndexOf(order, x)
  {
    MembersOfOrder(order, list);
    if IndexOf(order, x) < |order| { PlaceInOrder(order, list, IndexOf(order, x)); }
  }

  lemma MembersOfOrder(order: seq<string>, list: seq<Listed>)
    requires SlotOrder(order, list)
    ensures forall x :: x in order <==> x in RollingNames(list) + QueuedNames(list)
  {
    var r := |RollingNames(list)|;
    assert order == order[..r] + order[r..];
  }

  // ---- what the budget promises ----

  function AdmittedNames(list: seq<Listed>, percent: nat): set<string> {
    set x | x in RollingNames(list) + QueuedNames(list) && Admits(list, percent, x)
  }

  lemma HoldersAreAdmitted(order: seq<string>, list: seq<Listed>, percent: nat)
    requires UniqueNames(list) && SlotOrder(order, list)
    ensures forall x :: x in order[..Min(Slots(list, percent), |order|)] <==> x in AdmittedNames(list, percent)
  {
    hide SlotsFor, CountedNames, RollingNames, QueuedNames, UniqueNames, Ahead;
    var k := Min(Slots(list, percent), |order|);
    MembersOfOrder(order, list);
    forall i | 0 <= i < |order| ensures Ahead(list, order[i]) == i { PlaceInOrder(order, list, i); }
    forall x | x in AdmittedNames(list, percent) ensures x in order[..k] {
      var i :| 0 <= i < |order| && order[i] == x;
      assert i < k;
    }
  }

  /** On one snapshot exactly min(slots, rolling + queued) nodes are admitted. */
  lemma ExactlySlotsAdmitted(list: seq<Listed>, percent: nat)
    requires UniqueNames(list)
    ensures var wanting := |RollingNames(list)| + |QueuedNames(list)|;
            |AdmittedNames(list, percent)| == Min(Slots(list, percent), wanting)
  {
    var u := SomeListing(RollingNames(list));
    var w := SomeListing(QueuedNames(list));
    OrderFromParts(u, w, list);
    var order := Sort(u, StringLe) + Sort(w, StringLe);
    var k := Min(Slots(list, percent), |order|);
    HoldersAreAdmitted(order, list, percent);
    DistinctCount(order[..k]);
    assert AdmittedNames(list, percent) == set x | x in order[..k];
  }

  /** A free slot is never withheld from the first queued node. */
  lemma FirstQueuedIsServed(list: seq<Listed>, percent: nat, x: string)
    requires UniqueNames(list) && x in QueuedNames(list)
    requires forall y :: y in QueuedNames(list) ==> StringLe(x, y)
    ensures Admits(list, percent, x) <==> |RollingNames(list)| < Slots(list, percent)
  {
    ClassesDisjoint(list);
    StringOrder();
    assert Before(QueuedNames(list), x) == {};
  }

  // ---- changes of one listed node ----

  /** Where the node named x is listed, or the length. */
  function Position(list: seq<Listed>, x: string): (i: nat)
    ensures i <= |list| && (i < |list| ==> list[i].name == x)
    ensures i == |list| ==> x !in NamesOf(list)
  {
    if list == [] || list[0].name == x then 0
    else
      var i := Position(list[1..], x);
      assert list == [list[0]] + list[1..];
      i + 1
  }

  /** s with x in it or not. */
  function With(s: set<string>, x: string, there: bool): set<string> { if there then s + {x} else s - {x} }

  lemma WithCount(s: set<string>, x: string, there: bool)
    ensures |With(s, x, there)| == |s| - One(x in s) + One(there)
  {
    if x in s { assert s == (s - {x}) + {x}; } else { assert s - {x} == s; }
    if x in s && there { assert s + {x} == s; }
  }

  /** A node changes under its name: only its own membership in the sets does. */
  lemma SetsAfterPut(list: seq<Listed>, i: nat, m: Listed)
    requires UniqueNames(list) && i < |list| && m.name == list[i].name
    ensures UniqueNames(list[i := m])
    ensures CountedNames(list[i := m]) == With(CountedNames(list), m.name, Counted(m))
    ensures RollingNames(list[i := m]) == With(RollingNames(list), m.name, Rolling(m))
  {
    var t := list[i := m];
    forall y ensures y in CountedNames(t) <==> y in With(CountedNames(list), m.name, Counted(m)) {
      SetAfterPut(list, i, m, y, Counted(m));
    }
    forall y ensures y in RollingNames(t) <==> y in With(RollingNames(list), m.name, Rolling(m)) {
      SetAfterPut(list, i, m, y, Rolling(m));
    }
  }

  lemma SetAfterPut(list: seq<Listed>, i: nat, m: Listed, y: string, there: bool)
    requires UniqueNames(list) && i < |list| && m.name == list[i].name
    ensures there == Counted(m) ==> (y in CountedNames(list[i := m]) <==> if y == m.name then there else y in CountedNames(list))
    ensures there == Rolling(m) ==> (y in RollingNames(list[i := m]) <==> if y == m.name then there else y in RollingNames(list))
  {
    var t := list[i := m];
    assert t[i] in t;
    forall k | 0 <= k < |list| && k != i ensures t[k] == list[k] && t[k] in t && list[k] in list && list[k].name != m.name {
    }
    assert forall x :: x in t ==> x == m || (x in list && x.name != m.name);
    assert forall x :: x in list && x.name != m.name ==> x in t;
  }

  lemma SetsAfterDrop(list: seq<Listed>, i: nat)
    requires UniqueNames(list) && i < |list|
    ensures UniqueNames(Without(list, i))
    ensures CountedNames(Without(list, i)) == CountedNames(list) - {list[i].name}
    ensures RollingNames(Without(list, i)) == RollingNames(list) - {list[i].name}
  {
    var t := Without(list, i);
    assert forall k :: 0 <= k < |t| ==> t[k] == list[if k < i then k else k + 1];
    assert forall x :: x in list && x.name != list[i].name ==> x in t by {
      forall x | x in list && x.name != list[i].name ensures x in t {
        var k :| 0 <= k < |list| && list[k] == x;
        assert x == t[if k < i then k else k - 1];
      }
    }
    assert forall x :: x in t ==> x in list && x.name != list[i].name;
  }

  lemma SetsAfterEntry(list: seq<Listed>, m: Listed)
    requires UniqueNames(list) && m.name !in NamesOf(list) && !Counted(m)
    ensures UniqueNames(list + [m]) && CountedNames(list + [m]) == CountedNames(list) && RollingNames(list + [m]) == RollingNames(list)
  {
    assert forall k :: 0 <= k < |list| ==> list[k] in list && list[k].name in NamesOf(list);
  }

  lemma BeforeGrows(s: set<string>, x: string, y: string)
    requires StringLe(y, x) && y in s
    ensures |Before(s, y)| <= |Before(s, x)| && (y != x ==> |Before(s, y)| < |Before(s, x)|) && |Before(s, x)| <= |s|
  {
    StringOrder();
    assert Before(s, y) <= Before(s, x);
    Smaller(Before(s, y), Before(s, x));
    Smaller(Before(s, x), s);
    if y != x {
      assert y in Before(s, x) && y !in Before(s, y);
      Smaller(Before(s, y) + {y}, Before(s, x));
    }
  }

  lemma Smaller(a: set<string>, b: set<string>)
    requires a <= b
    ensures |a| <= |b|
  {
    assert b == a + (b - a);
  }

  /** Who is admitted before whom: rolling nodes before waiting ones, each by name,
      and a node that is neither only when all of those leave a slot. */
  lemma AdmittedInOrder(list: seq<Listed>, percent: nat, x: string, y: string)
    requires UniqueNames(list) && Admits(list, percent, x)
    ensures x in RollingNames(list) && y in RollingNames(list) && StringLe(y, x) ==> Admits(list, percent, y)
    ensures x in QueuedNames(list) && y in QueuedNames(list) && StringLe(y, x) ==> Admits(list, percent, y)
    ensures x in QueuedNames(list) && y in RollingNames(list) ==> Admits(list, percent, y)
    ensures x !in RollingNames(list) + QueuedNames(list) ==> |RollingNames(list)| + |QueuedNames(list)| < Slots(list, percent)
  {
    hide RollingNames, QueuedNames, SlotsFor;
    var rolling, queued := RollingNames(list), QueuedNames(list);
    StringOrder();
    ClassesDisjoint(list);
    if y in rolling && x in rolling && StringLe(y, x) { BeforeGrows(rolling, x, y); }
    if y in queued && x in queued && StringLe(y, x) { BeforeGrows(queued, x, y); }
    if y in rolling { BeforeGrows(rolling, y, y); }
  }

  // ---- every run of a namespace ----

  /** Sequential reconciles and what happens around them. A drift start asks for
      a slot; a config update marks its node updating without asking
      (internal/planner/config_update.go). Updates end or are deferred, drift
      comes and goes, nodes are created and deleted, start running and are paused. */
  datatype Roll =
    | DriftStart(name: string)
    | ConfigStart(name: string)
    | Stop(name: string)
    | Drift(name: string, drifted: bool)
    | Count(name: string, running: bool, paused: bool)
    | Enter(name: string)
    | Leave(name: string)

  /** The named node after the move; Enter and Leave have none. */
  function Moved(m: Listed, r: Roll): Listed {
    match r
    case DriftStart(_) => m.(updating := true)
    case ConfigStart(_) => m.(updating := true)
    case Stop(_) => m.(updating := false)
    case Drift(_, d) => m.(drifted := d)
    case Count(_, running, paused) => m.(running := running, paused := paused)
    case _ => m
  }

  function Changed(list: seq<Listed>, r: Roll): seq<Listed> {
    var i := Position(list, r.name);
    if r.Enter? then (if i < |list| then list else list + [Listed(r.name, false, false, false, false)])
    else if i == |list| then list
    else if r.Leave? then Without(list, i)
    else list[i := Moved(list[i], r)]
  }

  predicate ShowsDrift(list: seq<Listed>, x: string) {
    var i := Position(list, x);
    i < |list| && list[i].drifted
  }

  /** Only a Running unpaused node starts an update. A drift start needs its slot;
      a config update is what a node without template drift gets. */
  predicate MayRoll(list: seq<Listed>, percent: nat, r: Roll) {
    && (r.DriftStart? ==> r.name in CountedNames(list) && Admits(list, percent, r.name))
    && (r.ConfigStart? ==> r.name in CountedNames(list) && !ShowsDrift(list, r.name))
  }

  predicate Within(list: seq<Listed>, percent: nat) { |RollingNames(list)| <= Slots(list, percent) }

  /** Whether the move's node counts, or rolls, afterwards. */
  predicate WillCount(list: seq<Listed>, r: Roll) {
    var i := Position(list, r.name);
    i < |list| && !r.Leave? && Counted(Moved(list[i], r))
  }

  predicate WillRoll(list: seq<Listed>, r: Roll) {
    var i := Position(list, r.name);
    i < |list| && !r.Leave? && Rolling(Moved(list[i], r))
  }

  lemma NotListed(list: seq<Listed>, x: string)
    requires Position(list, x) == |list|
    ensures x !in CountedNames(list) && x !in RollingNames(list)
  {
  }

  lemma SetsAfter(list: seq<Listed>, r: Roll)
    requires UniqueNames(list)
    ensures UniqueNames(Changed(list, r))
    ensures CountedNames(Changed(list, r)) == With(CountedNames(list), r.name, WillCount(list, r))
    ensures RollingNames(Changed(list, r)) == With(RollingNames(list), r.name, WillRoll(list, r))
  {
    var i := Position(list, r.name);
    if i == |list| {
      NotListed(list, r.name);
      if r.Enter? { SetsAfterEntry(list, Listed(r.name, false, false, false, false)); }
    } else if r.Leave? {
      SetsAfterDrop(list, i);
    } else {
      SetsAfterPut(list, i, Moved(list[i], r));
      if r.Enter? { assert list[i := list[i]] == list; }
    }
  }

  /** How many count and roll after a move. */
  lemma CountsAfter(list: seq<Listed>, r: Roll)
    requires UniqueNames(list)
    ensures |CountedNames(Changed(list, r))| == |CountedNames(list)| - One(r.name in CountedNames(list)) + One(WillCount(list, r))
    ensures |RollingNames(Changed(list, r))| == |RollingNames(list)| - One(r.name in RollingNames(list)) + One(WillRoll(list, r))
  {
    SetsAfter(list, r);
    WithCount(CountedNames(list), r.name, WillCount(list, r));
    WithCount(RollingNames(list), r.name, WillRoll(list, r));
  }

  /** A node's own flags, read off the sets. */
  lemma FlagsOf(list: seq<Listed>, i: nat)
    requires UniqueNames(list) && i < |list|
    ensures list[i].name in CountedNames(list) <==> Counted(list[i])
    ensures list[i].name in RollingNames(list) <==> Rolling(list[i])
  {
    SetsAfterPut(list, i, list[i]);
    assert list[i := list[i]] == list;
  }

  /** A granted drift start leaves no more than the slots rolling, if and only if
      the node was not already rolling or the slots were not overfilled before. */
  lemma GrantedStartFits(list: seq<Listed>, percent: nat, x: string)
    requires UniqueNames(list) && x in CountedNames(list) && Admits(list, percent, x)
    ensures Within(Changed(list, DriftStart(x)), percent) <==> x !in RollingNames(list) || Within(list, percent)
  {
    var i := Position(list, x);
    assert i < |list| by { if i == |list| { NotListed(list, x); } }
    FlagsOf(list, i);
    CountsAfter(list, DriftStart(x));
  }

  /** What a move needs so that no more nodes roll than there are slots: a config
      update an unused slot, a node that stops or starts counting enough slots
      for those then rolling. The other moves need nothing. */
  predicate Room(list: seq<Listed>, percent: nat, r: Roll) {
    var rolling, counted := |RollingNames(list)|, |CountedNames(list)|;
    match r
    case ConfigStart(x) => x in RollingNames(list) || rolling < Slots(list, percent)
    case Leave(x) => rolling - One(x in RollingNames(list)) <= SlotsFor(counted - One(x in CountedNames(list)), percent)
    case Count(x, _, _) =>
      rolling - One(x in RollingNames(list)) + One(WillRoll(list, r))
        <= SlotsFor(counted - One(x in CountedNames(list)) + One(WillCount(list, r)), percent)
    case _ => true
  }

  /** From within the slots, a permitted move stays within exactly when it has room. */
  lemma MoveFitsIff(list: seq<Listed>, percent: nat, r: Roll)
    requires percent > 0 && UniqueNames(list) && Within(list, percent) && MayRoll(list, percent, r)
    ensures Within(Changed(list, r), percent) <==> Room(list, percent, r)
  {
    hide SlotsFor, CountedNames, RollingNames, UniqueNames, Admits, Position;
    CountsAfter(list, r);
    var i := Position(list, r.name);
    if i < |list| { FlagsOf(list, i); } else { NotListed(list, r.name); }
    if r.DriftStart? { GrantedStartFits(list, percent, r.name); }
  }

  function AfterRolls(list: seq<Listed>, rolls: seq<Roll>): seq<Listed> {
    if rolls == [] then list else Changed(AfterRolls(list, rolls[..|rolls| - 1]), rolls[|rolls| - 1])
  }

  predicate Permitted(list: seq<Listed>, percent: nat, rolls: seq<Roll>) {
    rolls == [] ||
    (Permitted(list, percent, rolls[..|rolls| - 1])
     && MayRoll(AfterRolls(list, rolls[..|rolls| - 1]), percent, rolls[|rolls| - 1]))
  }

  /** At no point of the run do more nodes roll than there are slots. */
  predicate AlwaysWithin(list: seq<Listed>, percent: nat, rolls: seq<Roll>) {
    Within(AfterRolls(list, rolls), percent) && (rolls == [] || AlwaysWithin(list, percent, rolls[..|rolls| - 1]))
  }

  /** Every move of the run meets its room. */
  predicate RoomThroughout(list: seq<Listed>, percent: nat, rolls: seq<Roll>) {
    rolls == [] ||
    (RoomThroughout(list, percent, rolls[..|rolls| - 1])
     && Room(AfterRolls(list, rolls[..|rolls| - 1]), percent, rolls[|rolls| - 1]))
  }

  lemma {:induction false} RunsKeepNamesUnique(list: seq<Listed>, rolls: seq<Roll>)
    requires UniqueNames(list)
    ensures UniqueNames(AfterRolls(list, rolls))
    decreases |rolls|
  {
    if rolls != [] {
      RunsKeepNamesUnique(list, rolls[..|rolls| - 1]);
      SetsAfter(AfterRolls(list, rolls[..|rolls| - 1]), rolls[|rolls| - 1]);
    }
  }

  /** In every run from within the slots: they are never overfilled if and only
      if every config update and every change of the counted nodes has room. */
  lemma {:induction false} SlotsHoldIff(list: seq<Listed>, percent: nat, rolls: seq<Roll>)
    requires percent > 0 && UniqueNames(list) && Within(list, percent) && Permitted(list, percent, rolls)
    ensures AlwaysWithin(list, percent, rolls) <==> RoomThroughout(list, percent, rolls)
    decreases |rolls|
  {
    if rolls != [] {
      var init := rolls[..|rolls| - 1];
      SlotsHoldIff(list, percent, init);
      RunsKeepNamesUnique(list, init);
      if AlwaysWithin(list, percent, init) { MoveFitsIff(AfterRolls(list, init), percent, rolls[|rolls| - 1]); }
    }
  }

  /** Drift starts alone, with updates ending and drift coming and going, never overfill them. */
  lemma {:induction false} DriftStartsNeverOverfill(list: seq<Listed>, percent: nat, rolls: seq<Roll>)
    requires percent > 0 && UniqueNames(list) && Within(list, percent) && Permitted(list, percent, rolls)
    requires forall i :: 0 <= i < |rolls| ==> rolls[i].DriftStart? || rolls[i].Stop? || rolls[i].Drift? || rolls[i].Enter?
    ensures AlwaysWithin(list, percent, rolls)
    decreases |rolls|
  {
    SlotsHoldIff(list, percent, rolls);
    if rolls != [] {
      DriftStartsNeverOverfill(list, percent, rolls[..|rolls| - 1]);
      SlotsHoldIff(list, percent, rolls[..|rolls| - 1]);
    }
  }

  /** Two Running nodes with edited configValues and one slot: both config updates
      start, and a template drift of the first is then granted a start as well. */
  lemma ConfigUpdatesOverfill()
    ensures var list := [Listed("a", true, false, false, false), Listed("b", true, false, false, false)];
            var rolls := [ConfigStart("a"), ConfigStart("b"), Drift("a", true)];
            var after := AfterRolls(list, rolls);
            && UniqueNames(list) && Within(list, 10) && Permitted(list, 10, rolls) && CountedNames(after) == CountedNames(list)
            && |RollingNames(after)| == 2 && Slots(after, 10) == 1
            && Admits(after, 10, "a") && !Within(Changed(after, DriftStart("a")), 10)
  {
    hide Changed, AfterRolls, Permitted, Admits, CountedNames, RollingNames, UniqueNames;
    var a, b := Listed("a", true, false, false, false), Listed("b", true, false, false, false);
    var a2, b2 := a.(updating := true), b.(updating := true);
    var a3 := a2.(drifted := true);
    ThreeRolls([a, b], 10, ConfigStart("a"), ConfigStart("b"), Drift("a", true));
    ChangeOfTwo(a, b, ConfigStart("a"));
    ChangeOfTwo(a2, b, ConfigStart("b"));
    ChangeOfTwo(a2, b2, Drift("a", true));
    ChangeOfTwo(a3, b2, DriftStart("a"));
    PairSets(a, b);
    PairSets(a2, b);
    PairSets(a3, b2);
    FirstOfTwoAdmitted([a3, b2]);
    assert RollingNames([a, b]) == {} && RollingNames([a3, b2]) == {"a", "b"};
  }

  lemma ThreeRolls(list: seq<Listed>, percent: nat, r: Roll, s: Roll, t: Roll)
    ensures AfterRolls(list, [r, s, t]) == Changed(Changed(Changed(list, r), s), t)
    ensures Permitted(list, percent, [r, s, t]) <==>
            MayRoll(list, percent, r) && MayRoll(Changed(list, r), percent, s) && MayRoll(Changed(Changed(list, r), s), percent, t)
  {
    hide Changed, MayRoll;
    var rolls := [r, s, t];
    assert rolls[..2] == [r, s] && [r, s][..1] == [r] && [r][..0] == [];
    assert AfterRolls(list, [r]) == Changed(list, r);
    assert AfterRolls(list, [r, s]) == Changed(AfterRolls(list, [r]), s);
    assert Permitted(list, percent, [r]) <==> MayRoll(list, percent, r);
    assert Permitted(list, percent, [r, s]) <==> Permitted(list, percent, [r]) && MayRoll(AfterRolls(list, [r]), percent, s);
  }

  lemma ChangeOfTwo(a: Listed, b: Listed, r: Roll)
    requires a.name == "a" && b.name == "b" && !r.Enter? && !r.Leave? && (r.name == "a" || r.name == "b")
    ensures Changed([a, b], r) == if r.name == "a" then [Moved(a, r), b] else [a, Moved(b, r)]
    ensures ShowsDrift([a, b], r.name) == if r.name == "a" then a.drifted else b.drifted
  {
    var list := [a, b];
    assert list[1..] == [b] && Position([b], "b") == 0;
    assert Position(list, r.name) == if r.name == "a" then 0 else 1;
  }

  lemma PairSets(a: Listed, b: Listed)
    requires a.name == "a" && b.name == "b" && Counted(a) && Counted(b)
    ensures UniqueNames([a, b]) && CountedNames([a, b]) == {"a", "b"}
    ensures RollingNames([a, b]) == (if a.updating then {"a"} else {}) + (if b.updating then {"b"} else {})
  {
    var list := [a, b];
    assert list[0] in list && list[1] in list;
    assert forall x :: x in list <==> x == a || x == b;
  }

  lemma FirstOfTwoAdmitted(list: seq<Listed>)
    requires RollingNames(list) == {"a", "b"}
    ensures Admits(list, 10, "a")
  {
    assert !StringLe("b", "a");
    assert Before(RollingNames(list), "a") == {};
  }
}
