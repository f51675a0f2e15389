/** Streaming equals batch: polls of rows in height order, compared and pruned as
    they arrive, accumulate exactly what one join of the whole streams finds. */
module StreamingJoin {
  import opened Orders
  import opened Comparator
  import opened ComparatorProperties

  datatype Entry = Entry(height: int, row: Row)

  /** The rows one poll reads from each side. */
  datatype Poll = Poll(migrating: seq<Entry>, reserve: seq<Entry>)

  /** A pair and what its comparisons have found so far. */
  datatype Totals = Totals(pair: Pair, compared: nat, mismatches: seq<Mismatch>, migratingGaps: nat, reserveGaps: nat)

  const START: Totals := Totals(Pair(map[], map[], 0, 0), 0, [], 0, 0)

  ghost function AddAll(s: Pair, side: Side, rows: seq<Entry>): Pair {
    if rows == [] then s
    else
      var e := rows[|rows| - 1];
      AfterAdd(AddAll(s, side, rows[..|rows| - 1]), side, e.height, e.row)
  }

  /** One comparison, added to what was found before. */
  ghost function Collect(t: Totals, s: Pair): Totals {
    var f := Found(s);
    Totals(AfterCompare(s), t.compared + f.compared, t.mismatches + f.mismatches,
           t.migratingGaps + f.migratingGaps, t.reserveGaps + f.reserveGaps)
  }

  ghost function AfterPoll(t: Totals, p: Poll): Totals {
    Collect(t, AddAll(AddAll(t.pair, Migrating, p.migrating), Reserve, p.reserve))
  }

  ghost function AfterPolls(polls: seq<Poll>): Totals {
    if polls == [] then START else AfterPoll(AfterPolls(polls[..|polls| - 1]), polls[|polls| - 1])
  }

  // ---- the whole streams ----

  function Received(m: Rows, rows: seq<Entry>): Rows {
    if rows == [] then m else Received(m, rows[..|rows| - 1])[rows[|rows| - 1].height := rows[|rows| - 1].row]
  }

  function Stream(polls: seq<Poll>, side: Side): Rows {
    if polls == [] then map[]
    else
      var p := polls[|polls| - 1];
      Received(Stream(polls[..|polls| - 1], side), if side == Migrating then p.migrating else p.reserve)
  }

  /** Rows in height order that continue a stream m. */
  predicate Continues(m: Rows, rows: seq<Entry>) {
    && (forall i, j :: 0 <= i < j < |rows| ==> rows[i].height < rows[j].height)
    && (forall i :: 0 <= i < |rows| ==> rows[i].height >= 1 && forall h :: h in m ==> h < rows[i].height)
  }

  /** Each side's heights increase through all polls, and no poll overfills a buffer. */
  ghost predicate InOrder(polls: seq<Poll>) {
    polls == [] ||
    var earlier, p := polls[..|polls| - 1], polls[|polls| - 1];
    && InOrder(earlier)
    && Continues(Stream(earlier, Migrating), p.migrating) && Continues(Stream(earlier, Reserve), p.reserve)
    && |AfterPolls(earlier).pair.migrating| + |p.migrating| <= MAX_BUFFERED_ROWS
    && |AfterPolls(earlier).pair.reserve| + |p.reserve| <= MAX_BUFFERED_ROWS
  }

  // ---- the batch join ----

  function Between(keys: set<int>, lo: int, hi: int): set<int> { set h | h in keys && lo < h < hi }

  /** The join of two complete streams. Gaps are the one-sided heights strictly
      between the first and the last common one; rows above it are left over. */
  ghost function Batch(m: Rows, r: Rows): Totals {
    var hs := Heights(m.Keys * r.Keys);
    var first, last := FirstOf(0, hs), LastOf(0, hs);
    Totals(Pair(Above(m, last), Above(r, last), first, last), |hs|, Report(m, r, hs),
           |Between(r.Keys - m.Keys, first, last)|, |Between(m.Keys - r.Keys, first, last)|)
  }

  // ---- adding rows ----

  /** m2 extends m by heights above all of m's. */
  predicate Later(m: Rows, m2: Rows) {
    && (forall h :: h in m ==> h in m2 && m2[h] == m[h])
    && (forall h, k :: h in m2 && h !in m && k in m ==> k < h)
    && (forall h :: h in m2 ==> h >= 1)
  }

  lemma {:induction false} ReceivedLater(m: Rows, rows: seq<Entry>)
    requires Continues(m, rows) && forall h :: h in m ==> h >= 1
    ensures Later(m, Received(m, rows))
    ensures forall h :: h in Received(m, rows) <==> h in m || exists i :: 0 <= i < |rows| && rows[i].height == h
    ensures |Received(m, rows)| == |m| + |rows|
  {
    if rows != [] {
      var init, e := rows[..|rows| - 1], rows[|rows| - 1];
      assert rows == init + [e];
      ReceivedLater(m, init);
      assert e.height !in Received(m, init);
      assert Received(m, rows).Keys == Received(m, init).Keys + {e.height};
    }
  }

  /** Without overflow, new rows simply join the buffer. */
  lemma {:induction false} AddAllReceives(s: Pair, side: Side, rows: seq<Entry>)
    requires forall i :: 0 <= i < |rows| ==> rows[i].height > s.last
    requires |s.Buffer(side)| + |rows| <= MAX_BUFFERED_ROWS
    ensures AddAll(s, side, rows) == s.WithBuffer(side, Received(s.Buffer(side), rows))
    ensures |Received(s.Buffer(side), rows)| <= |s.Buffer(side)| + |rows|
  {
    if rows != [] {
      var init, e := rows[..|rows| - 1], rows[|rows| - 1];
      assert forall i :: 0 <= i < |init| ==> init[i] == rows[i];
      AddAllReceives(s, side, init);
      var b := Received(s.Buffer(side), init);
      assert b[e.height := e.row].Keys == b.Keys + {e.height};
      assert |b[e.height := e.row]| <= |b| + 1;
    }
  }

  /** Receiving above the compared part commutes with cutting it off. */
  lemma {:induction false} AboveReceived(m: Rows, rows: seq<Entry>, last: int)
    requires forall i :: 0 <= i < |rows| ==> rows[i].height > last
    ensures Received(Above(m, last), rows) == Above(Received(m, rows), last)
  {
    if rows != [] {
      var init := rows[..|rows| - 1];
      assert forall i :: 0 <= i < |init| ==> init[i] == rows[i];
      AboveReceived(m, init, last);
    }
  }

  // ---- comparing the next part ----

  /** The heights that become common are all above the last compared one. */
  lemma NewlyCommon(m: Rows, r: Rows, m2: Rows, r2: Rows)
    requires Later(m, m2) && Later(r, r2)
    ensures var c, c2 := m.Keys * r.Keys, m2.Keys * r2.Keys;
            var last := LastOf(0, Heights(c));
            var d := Above(m2, last).Keys * Above(r2, last).Keys;
            && c2 == c + d && (forall h :: h in c ==> 1 <= h <= last) && (c != {} ==> last in c) && (c == {} ==> last == 0)
  {
    var c, c2 := m.Keys * r.Keys, m2.Keys * r2.Keys;
    HeightsIncrease(c);
    var last := LastOf(0, Heights(c));
    assert forall h :: h in c ==> h in m2 && h >= 1;
    forall h | h in c2 - c ensures h > last {
      assert h !in m || h !in r;
      if c != {} { assert last in m && last in r; }
    }
  }

  lemma NextHeights(c: set<int>, d: set<int>, last: int)
    requires (forall h :: h in c ==> h <= last) && forall h :: h in d ==> h > last
    ensures Heights(c + d) == Heights(c) + Heights(d)
  {
    IntOrder();
    ListingJoin(c, d, IntLe);
  }

  lemma {:induction false} FirstOfJoin(first: int, a: seq<int>, b: seq<int>)
    ensures FirstOf(first, a + b) == FirstOf(FirstOf(first, a), b)
    decreases |b|
  {
    if b == [] {
      assert a + b == a;
    } else {
      FirstOfJoin(first, a, b[..|b| - 1]);
      assert (a + b)[..|a + b| - 1] == a + b[..|b| - 1];
    }
  }

  lemma {:induction false} ReportJoin(m: Rows, r: Rows, a: seq<int>, b: seq<int>)
    requires forall h :: h in a || h in b ==> h in m && h in r
    ensures Report(m, r, a + b) == Report(m, r, a) + Report(m, r, b)
    decreases |b|
  {
    if b == [] {
      assert a + b == a;
    } else {
      hide SortedNames, DifferingNames;
      var h := b[|b| - 1];
      ReportJoin(m, r, a, b[..|b| - 1]);
      assert (a + b)[..|a + b| - 1] == a + b[..|b| - 1];
      Associative(Report(m, r, a), Report(m, r, b[..|b| - 1]), if m[h] == r[h] then [] else [Mismatch(h, SortedNames(DifferingNames(m[h], r[h])))]);
    }
  }

  lemma {:induction false} ReportAgrees(m: Rows, r: Rows, m2: Rows, r2: Rows, hs: seq<int>)
    requires forall h :: h in hs ==> h in m && h in r && h in m2 && h in r2 && m[h] == m2[h] && r[h] == r2[h]
    ensures Report(m, r, hs) == Report(m2, r2, hs)
    decreases |hs|
  {
    if hs != [] { ReportAgrees(m, r, m2, r2, hs[..|hs| - 1]); }
  }

  lemma NextReport(m: Rows, r: Rows, m2: Rows, r2: Rows, hs: seq<int>, ds: seq<int>, last: int)
    requires Later(m, m2) && Later(r, r2)
    requires forall h :: h in hs ==> h in m && h in r
    requires forall h :: h in ds ==> h in m2 && h in r2 && h > last
    ensures Report(m2, r2, hs + ds) == Report(m, r, hs) + Report(Above(m2, last), Above(r2, last), ds)
  {
    ReportJoin(m2, r2, hs, ds);
    ReportAgrees(m, r, m2, r2, hs);
    ReportAgrees(Above(m2, last), Above(r2, last), m2, r2, ds);
  }

  /** What is left above the new last height. */
  lemma NextBuffer(m2: Rows, d: set<int>, last: int, last2: int)
    requires last <= last2 && forall h :: h in d ==> h <= last2
    ensures Above(Above(m2, last) - d, last2) == Above(m2, last2)
  {
  }

  /** The last compared height of c and of c + d. */
  lemma NextLast(c: set<int>, d: set<int>, last: int)
    requires last == LastOf(0, Heights(c)) && (c != {} ==> last in c) && (c == {} ==> last == 0)
    requires (forall h :: h in c ==> 1 <= h <= last) && forall h :: h in d ==> h > last
    ensures var last2 := LastOf(last, Heights(d));
            && last2 == LastOf(0, Heights(c + d)) && last <= last2
            && (forall h :: h in d ==> h <= last2) && (d != {} ==> last2 in d) && (d == {} ==> last2 == last)
  {
    NextHeights(c, d, last);
    HeightsIncrease(d);
  }

  lemma NextFirst(c: set<int>, d: set<int>, last: int)
    requires (forall h :: h in c ==> 1 <= h <= last) && (forall h :: h in d ==> h > last) && last >= 0
    ensures var first := FirstOf(0, Heights(c));
            var first2 := FirstOf(first, Heights(d));
            && first2 == FirstOf(0, Heights(c + d))
            && (c != {} ==> first2 == first && first in c) && (c == {} ==> first == 0)
            && (c == {} && d != {} ==> first2 in d) && (c == {} && d == {} ==> first2 == 0)
  {
    NextHeights(c, d, last);
    FirstOfJoin(0, Heights(c), Heights(d));
    HeightsIncrease(c);
    HeightsIncrease(d);
    FirstOfSet(c);
    FirstOfSet(d);
    if c != {} { FirstOfSticks(FirstOf(0, Heights(c)), Heights(d)); }
  }

  lemma {:induction false} FirstOfSticks(first: int, hs: seq<int>)
    requires first != 0
    ensures FirstOf(first, hs) == first
    decreases |hs|
  {
    if hs != [] { FirstOfSticks(first, hs[..|hs| - 1]); }
  }

  lemma FirstOfSet(c: set<int>)
    requires forall h :: h in c ==> h >= 1
    ensures c == {} ==> FirstOf(0, Heights(c)) == 0
    ensures c != {} ==> Heights(c) != [] && FirstOf(0, Heights(c)) == Heights(c)[0] && Heights(c)[0] in c
  {
    HeightsIncrease(c);
    var hs := Heights(c);
    if c != {} {
      assert hs == [hs[0]] + hs[1..];
      FirstOfJoin(0, [hs[0]], hs[1..]);
      FirstOfSticks(hs[0], hs[1..]);
    }
  }

  /** One side's heights up to last, and the next part of its common heights. */
  predicate Boundary(a: Rows, b: Rows, first: int, last: int, d: set<int>, first2: int, last2: int) {
    && 0 <= first2 && 0 <= last <= last2 && (d != {} ==> last2 in d) && (d == {} ==> last2 == last)
    && if a.Keys * b.Keys == {} then first == last == 0 && (d == {} ==> first2 == 0)
       else last in a && last in b && first2 == first
  }

  lemma GapSplits(a: Rows, b: Rows, a2: Rows, b2: Rows, d: set<int>, first: int, last: int, first2: int, last2: int, h: int)
    requires Later(a, a2) && Later(b, b2) && Boundary(a, b, first, last, d, first2, last2)
    requires forall k :: k in d <==> k in a2 && k in b2 && k > last
    ensures h in b2 && h !in a2 && first2 < h < last2 <==>
            (h in b && h !in a && first < h < last) || (h in b2 && h > last && h !in d && first2 < h <= last2)
    ensures !((h in b && h !in a && first < h < last) && (h in b2 && h > last && h !in d && first2 < h <= last2))
  {
  }

  /** The one-sided heights of b, before and after the next part. */
  lemma NextGaps(a: Rows, b: Rows, a2: Rows, b2: Rows, d: set<int>, first: int, last: int, first2: int, last2: int)
    requires Later(a, a2) && Later(b, b2) && Boundary(a, b, first, last, d, first2, last2)
    requires forall k :: k in d <==> k in a2 && k in b2 && k > last
    ensures |Between(b2.Keys - a2.Keys, first2, last2)| ==
            |Between(b.Keys - a.Keys, first, last)| + |Skipped((Above(b2, last) - d).Keys, first2, last2)|
  {
    var all, was, more := Between(b2.Keys - a2.Keys, first2, last2), Between(b.Keys - a.Keys, first, last), Skipped((Above(b2, last) - d).Keys, first2, last2);
    forall h ensures (h in all <==> h in was || h in more) && !(h in was && h in more) {
      GapSplits(a, b, a2, b2, d, first, last, first2, last2, h);
    }
    assert all == was + more && was !! more;
  }

  /** The heights compared before, and those a comparison finds next. */
  ghost predicate Parts(m: Rows, r: Rows, m2: Rows, r2: Rows, s: Pair) {
    var c, d := m.Keys * r.Keys, Common(s);
    && m2.Keys * r2.Keys == c + d
    && (forall h :: h in c ==> 1 <= h <= s.last) && (forall h :: h in d ==> h > s.last)
    && (c != {} ==> s.last in c) && (c == {} ==> s.last == 0)
    && (forall k :: k in d <==> k in m2 && k in r2 && k > s.last)
  }

  lemma NextParts(m: Rows, r: Rows, m2: Rows, r2: Rows, s: Pair)
    requires Later(m, m2) && Later(r, r2) && s == NextInput(m, r, m2, r2)
    ensures Parts(m, r, m2, r2, s)
  {
    hide Later, Above, Heights, LastOf, FirstOf, Report, Between;
    NewlyCommon(m, r, m2, r2);
    CommonAbove(m2, r2, s.last);
  }

  lemma CommonAbove(m: Rows, r: Rows, h: int)
    ensures forall k :: k in Above(m, h).Keys * Above(r, h).Keys <==> k in m && k in r && k > h
  {
  }

  lemma NextEnds(m: Rows, r: Rows, m2: Rows, r2: Rows, s: Pair)
    requires s == NextInput(m, r, m2, r2) && Parts(m, r, m2, r2, s)
    ensures var t, hs := AfterCompare(s), Heights(m2.Keys * r2.Keys);
            && hs == Heights(m.Keys * r.Keys) + Heights(Common(s))
            && t.first == FirstOf(0, hs) && t.last == LastOf(0, hs)
            && forall h :: h in Common(s) ==> h <= t.last
  {
    var c, d := m.Keys * r.Keys, Common(s);
    NextHeights(c, d, s.last);
    NextLast(c, d, s.last);
    NextFirst(c, d, s.last);
  }

  lemma NextBoundary(m: Rows, r: Rows, m2: Rows, r2: Rows, s: Pair)
    requires s == NextInput(m, r, m2, r2) && Parts(m, r, m2, r2, s)
    ensures var t := AfterCompare(s); Boundary(m, r, s.first, s.last, Common(s), t.first, t.last)
  {
    var c, d := m.Keys * r.Keys, Common(s);
    NextLast(c, d, s.last);
    NextFirst(c, d, s.last);
  }

  /** The pair a comparison meets: compared up to m and r, filled up to m2 and r2. */
  ghost function NextInput(m: Rows, r: Rows, m2: Rows, r2: Rows): Pair {
    var s := Batch(m, r).pair;
    s.(migrating := Above(m2, s.last), reserve := Above(r2, s.last))
  }

  lemma EndsAbove(m: Rows, r: Rows, m2: Rows, r2: Rows, s: Pair)
    requires s == NextInput(m, r, m2, r2) && Parts(m, r, m2, r2, s)
    ensures s.last <= AfterCompare(s).last
  {
    hide Later, Report, Between, Above;
    NextLast(m.Keys * r.Keys, Common(s), s.last);
  }

  lemma NextPair(m: Rows, r: Rows, m2: Rows, r2: Rows, s: Pair)
    requires Later(m, m2) && Later(r, r2) && s == NextInput(m, r, m2, r2)
    ensures AfterCompare(s) == Batch(m2, r2).pair
  {
    hide Later, Report, Between, Heights, FirstOf, LastOf, Above, Parts;
    NextParts(m, r, m2, r2, s);
    NextEnds(m, r, m2, r2, s);
    EndsAbove(m, r, m2, r2, s);
    var t := AfterCompare(s);
    NextBuffer(m2, Common(s), s.last, t.last);
    NextBuffer(r2, Common(s), s.last, t.last);
  }

  lemma NextMismatches(m: Rows, r: Rows, m2: Rows, r2: Rows, s: Pair)
    requires Later(m, m2) && Later(r, r2) && s == NextInput(m, r, m2, r2)
    ensures Batch(m2, r2).compared == Batch(m, r).compared + Found(s).compared
    ensures Batch(m2, r2).mismatches == Batch(m, r).mismatches + Found(s).mismatches
  {
    NextParts(m, r, m2, r2, s);
    NextEnds(m, r, m2, r2, s);
    NextReport(m, r, m2, r2, Heights(m.Keys * r.Keys), Heights(Common(s)), s.last);
  }

  lemma NextGapCounts(m: Rows, r: Rows, m2: Rows, r2: Rows, s: Pair)
    requires Later(m, m2) && Later(r, r2) && s == NextInput(m, r, m2, r2)
    requires Parts(m, r, m2, r2, s)
    requires AfterCompare(s).first == Batch(m2, r2).pair.first && AfterCompare(s).last == Batch(m2, r2).pair.last
    ensures Batch(m2, r2).migratingGaps == Batch(m, r).migratingGaps + Found(s).migratingGaps
    ensures Batch(m2, r2).reserveGaps == Batch(m, r).reserveGaps + Found(s).reserveGaps
  {
    var d, t := Common(s), AfterCompare(s);
    NextBoundary(m, r, m2, r2, s);
    NextGaps(m, r, m2, r2, d, s.first, s.last, t.first, t.last);
    BoundarySwaps(m, r, s.first, s.last, d, t.first, t.last);
    NextGaps(r, m, r2, m2, d, s.first, s.last, t.first, t.last);
  }

  lemma BoundarySwaps(a: Rows, b: Rows, first: int, last: int, d: set<int>, first2: int, last2: int)
    requires Boundary(a, b, first, last, d, first2, last2)
    ensures Boundary(b, a, first, last, d, first2, last2)
  {
    assert a.Keys * b.Keys == b.Keys * a.Keys;
  }

  lemma NextGapTotals(m: Rows, r: Rows, m2: Rows, r2: Rows, s: Pair)
    requires Later(m, m2) && Later(r, r2) && s == NextInput(m, r, m2, r2)
    ensures Batch(m2, r2).migratingGaps == Batch(m, r).migratingGaps + Found(s).migratingGaps
    ensures Batch(m2, r2).reserveGaps == Batch(m, r).reserveGaps + Found(s).reserveGaps
  {
    NextParts(m, r, m2, r2, s);
    NextPair(m, r, m2, r2, s);
    NextGapCounts(m, r, m2, r2, s);
  }

  lemma CollectIs(t: Totals, s: Pair, u: Totals)
    requires AfterCompare(s) == u.pair && u.compared == t.compared + Found(s).compared
    requires u.mismatches == t.mismatches + Found(s).mismatches
    requires u.migratingGaps == t.migratingGaps + Found(s).migratingGaps
    requires u.reserveGaps == t.reserveGaps + Found(s).reserveGaps
    ensures Collect(t, s) == u
  {
  }

  /** One more comparison takes the batch join of m and r to that of m2 and r2. */
  lemma CollectNext(m: Rows, r: Rows, m2: Rows, r2: Rows, s: Pair)
    requires Later(m, m2) && Later(r, r2) && s == NextInput(m, r, m2, r2)
    ensures Collect(Batch(m, r), s) == Batch(m2, r2)
  {
    NextPair(m, r, m2, r2, s);
    NextMismatches(m, r, m2, r2, s);
    NextGapTotals(m, r, m2, r2, s);
    CollectIs(Batch(m, r), s, Batch(m2, r2));
  }

  lemma {:induction false} StreamStep(polls: seq<Poll>)
    requires polls != []
    ensures var earlier, p := polls[..|polls| - 1], polls[|polls| - 1];
            && Stream(polls, Migrating) == Received(Stream(earlier, Migrating), p.migrating)
            && Stream(polls, Reserve) == Received(Stream(earlier, Reserve), p.reserve)
            && AfterPolls(polls) == AfterPoll(AfterPolls(earlier), p)
  {
  }

  lemma NextInputIs(m: Rows, r: Rows, p: Poll)
    requires (forall h :: h in m ==> h >= 1) && (forall h :: h in r ==> h >= 1)
    requires Continues(m, p.migrating) && Continues(r, p.reserve)
    requires |Batch(m, r).pair.migrating| + |p.migrating| <= MAX_BUFFERED_ROWS
    requires |Batch(m, r).pair.reserve| + |p.reserve| <= MAX_BUFFERED_ROWS
    ensures AddAll(AddAll(Batch(m, r).pair, Migrating, p.migrating), Reserve, p.reserve)
         == NextInput(m, r, Received(m, p.migrating), Received(r, p.reserve))
  {
    var s := Batch(m, r).pair;
    HeightsIncrease(m.Keys * r.Keys);
    AddAllReceives(s, Migrating, p.migrating);
    var s1 := AddAll(s, Migrating, p.migrating);
    AddAllReceives(s1, Reserve, p.reserve);
    AboveReceived(m, p.migrating, s.last);
    AboveReceived(r, p.reserve, s.last);
  }

  /** Streaming equals batch, for every split of two height-ordered streams into polls. */
  lemma {:induction false} StreamingIsBatch(polls: seq<Poll>)
    requires InOrder(polls)
    ensures AfterPolls(polls) == Batch(Stream(polls, Migrating), Stream(polls, Reserve))
    ensures forall h :: h in Stream(polls, Migrating) || h in Stream(polls, Reserve) ==> h >= 1
    decreases |polls|
  {
    if polls == [] {
      BatchOfNothing();
    } else {
      var earlier, p := polls[..|polls| - 1], polls[|polls| - 1];
      StreamingIsBatch(earlier);
      var m, r := Stream(earlier, Migrating), Stream(earlier, Reserve);
      ReceivedLater(m, p.migrating);
      ReceivedLater(r, p.reserve);
      var m2, r2 := Received(m, p.migrating), Received(r, p.reserve);
      NextInputIs(m, r, p);
      CollectNext(m, r, m2, r2, NextInput(m, r, m2, r2));
      StreamStep(polls);
    }
  }

  lemma BatchOfNothing()
    ensures Batch(map[], map[]) == START
  {
    var m: Rows := map[];
    assert m.Keys * m.Keys == {};
    HeightsIncrease({});
    assert Above(m, 0) == map[];
    assert Between(m.Keys - m.Keys, 0, 0) == {};
  }

  /** The split into polls never shows in what was found. */
  lemma SplitDoesNotShow(a: seq<Poll>, b: seq<Poll>)
    requires InOrder(a) && InOrder(b)
    requires Stream(a, Migrating) == Stream(b, Migrating) && Stream(a, Reserve) == Stream(b, Reserve)
    ensures AfterPolls(a) == AfterPolls(b)
  {
    StreamingIsBatch(a);
    StreamingIsBatch(b);
  }

  // ---- what the batch join means ----

  predicate Reported(ms: seq<Mismatch>, h: int) { exists i :: 0 <= i < |ms| && ms[i].height == h }

  lemma {:induction false} ReportComplete(m: Rows, r: Rows, hs: seq<int>, h: int)
    requires forall h :: h in hs ==> h in m && h in r
    ensures Reported(Report(m, r, hs), h) <==> h in hs && m[h] != r[h]
    decreases |hs|
  {
    if hs != [] {
      var init, top := hs[..|hs| - 1], hs[|hs| - 1];
      assert hs == init + [top];
      ReportComplete(m, r, init, h);
      var ms, all := Report(m, r, init), Report(m, r, hs);
      if Reported(ms, h) { var i :| 0 <= i < |ms| && ms[i].height == h; assert all[i].height == h; }
      if h == top && m[top] != r[top] { assert all[|ms|].height == h; }
    }
  }

  predicate InHeightOrder(ms: seq<Mismatch>) { forall i, j :: 0 <= i < j < |ms| ==> ms[i].height < ms[j].height }

  lemma {:induction false} ReportOrdered(m: Rows, r: Rows, hs: seq<int>)
    requires Increasing(hs) && forall h :: h in hs ==> h in m && h in r
    ensures InHeightOrder(Report(m, r, hs)) && forall x :: x in Report(m, r, hs) ==> x.height in hs
    decreases |hs|
  {
    if hs != [] {
      var init, top := hs[..|hs| - 1], hs[|hs| - 1];
      assert forall h :: h in init ==> h in hs && h < top;
      ReportOrdered(m, r, init);
      var ms := Report(m, r, init);
      assert forall i :: 0 <= i < |ms| ==> ms[i] in ms && ms[i].height < top;
    }
  }

  lemma {:induction false} ReportColumns(m: Rows, r: Rows, hs: seq<int>, x: Mismatch)
    requires forall h :: h in hs ==> h in m && h in r
    requires x in Report(m, r, hs)
    ensures x.height in hs && x.columns == SortedNames(DifferingNames(m[x.height], r[x.height]))
    decreases |hs|
  {
    var init := hs[..|hs| - 1];
    if x in Report(m, r, init) { ReportColumns(m, r, init, x); }
  }

  /** A mismatch list that reports exactly the common heights with different
      rows, in order, each with its differing columns. */
  ghost predicate ReportsDivergence(ms: seq<Mismatch>, m: Rows, r: Rows) {
    && (forall h :: Reported(ms, h) <==> h in m && h in r && m[h] != r[h])
    && InHeightOrder(ms)
    && (forall x :: x in ms && x.height in m && x.height in r ==>
          x.columns == SortedNames(DifferingNames(m[x.height], r[x.height])))
  }

  lemma BatchReports(m: Rows, r: Rows)
    ensures ReportsDivergence(Batch(m, r).mismatches, m, r)
  {
    var hs := Heights(m.Keys * r.Keys);
    HeightsIncrease(m.Keys * r.Keys);
    ReportOrdered(m, r, hs);
    forall h ensures Reported(Report(m, r, hs), h) <==> h in m && h in r && m[h] != r[h] {
      ReportComplete(m, r, hs, h);
    }
    forall x | x in Report(m, r, hs) && x.height in m && x.height in r
      ensures x.columns == SortedNames(DifferingNames(m[x.height], r[x.height]))
    {
      ReportColumns(m, r, hs, x);
    }
  }

  /** Over any height-ordered run, whatever the split into polls. */
  lemma EveryDivergenceIsReported(polls: seq<Poll>)
    requires InOrder(polls)
    ensures ReportsDivergence(AfterPolls(polls).mismatches, Stream(polls, Migrating), Stream(polls, Reserve))
  {
    StreamingIsBatch(polls);
    BatchReports(Stream(polls, Migrating), Stream(polls, Reserve));
  }
}
