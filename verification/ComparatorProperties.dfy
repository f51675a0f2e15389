/** What the comparator keeps in any order of rows, repeats and evictions: the
    buffers stay bounded and ahead of what was compared, and a height from 1 up
    is compared at most once. */
module ComparatorProperties {
  import opened Orders
  import opened Comparator

  // ---- eviction ----

  /** In a listing of heights the first k are k lower ones. */
  lemma LowestK(s: set<int>, k: nat)
    requires k <= |Heights(s)|
    ensures var low := Elems(Heights(s)[..k]);
            low <= s && |low| == k && forall h, j :: h in low && j in s - low ==> h < j
  {
    var hs := Heights(s);
    DistinctCount(hs[..k]);
    forall h, j | h in Elems(hs[..k]) && j in s - Elems(hs[..k]) ensures h < j {
      var a :| 0 <= a < k && hs[a] == h;
      assert j in hs;
      var b :| 0 <= b < |hs| && hs[b] == j;
      assert !(b < k) by { assert j !in hs[..k]; }
      assert IntLe(hs[a], hs[b]);
    }
  }

  lemma RemovedCount(rows: Rows, low: set<int>)
    requires low <= rows.Keys
    ensures |rows - low| == |rows| - |low| && (rows - low).Keys == rows.Keys - low
  {
    assert (rows - low).Keys == rows.Keys - low;
    assert rows.Keys == (rows.Keys - low) + low;
  }

  /** Eviction removes exactly n rows, or all, and only lower heights than it keeps. */
  lemma EvictionKeepsHighest(rows: Rows, n: nat)
    ensures Evicted(rows, n).Keys <= rows.Keys && forall h :: h in Evicted(rows, n) ==> Evicted(rows, n)[h] == rows[h]
    ensures forall h, k :: h in rows.Keys - Evicted(rows, n).Keys && k in Evicted(rows, n) ==> h < k
    ensures |Evicted(rows, n)| == |rows| - Min(n, |rows|)
  {
    HeightsAre(rows.Keys);
    LowestK(rows.Keys, Min(n, |rows|));
    RemovedCount(rows, Elems(Heights(rows.Keys)[..Min(n, |rows|)]));
  }

  lemma CappedFits(rows: Rows)
    ensures |Capped(rows)| <= MAX_BUFFERED_ROWS && Capped(rows).Keys <= rows.Keys
  {
    hide Evicted, Capped;
    CappedIs(rows);
  }

  /** Up to 10,000 rows stay as they are; beyond that exactly the highest 9,000 do. */
  lemma CappedIs(rows: Rows)
    ensures var kept := Capped(rows);
            if |rows| <= 10_000 then kept == rows
            else && |kept| == 9_000 && kept.Keys <= rows.Keys && (forall h :: h in kept ==> kept[h] == rows[h])
                 && forall h, k :: h in rows.Keys - kept.Keys && k in kept ==> h < k
  {
    hide Evicted;
    if |rows| > 10_000 { EvictionKeepsHighest(rows, |rows| - 10_000 + 1_000); }
  }

  lemma HighestIsKept(rows: Rows, kept: Rows, h: int)
    requires h in rows && (forall k :: k in rows ==> k <= h) && |kept| > 0 && kept.Keys <= rows.Keys
    requires forall x, k :: x in rows.Keys - kept.Keys && k in kept ==> x < k
    ensures h in kept
  {
    HeightsAre(kept.Keys);
    HeightsIncrease(kept.Keys);
    var k := Heights(kept.Keys)[0];
    assert k in rows.Keys && h in rows.Keys;
    assert h in rows.Keys - kept.Keys ==> h < k;
  }

  /** What an add does. A height at or below the last compared one changes nothing.
      Otherwise the row is buffered on its side; while that holds at most 10,000 rows
      all of them stay, and beyond that exactly the highest 9,000, the new row among
      them if none is higher. */
  lemma AddIs(s: Pair, side: Side, height: int, row: Row)
    ensures var t := AfterAdd(s, side, height, row);
            var all, kept := s.Buffer(side)[height := row], t.Buffer(side);
            if s.last > 0 && height <= s.last then t == s
            else && t == s.WithBuffer(side, kept)
                 && if |all| <= 10_000 then kept == all
                    else && |kept| == 9_000 && kept.Keys <= all.Keys && (forall h :: h in kept ==> kept[h] == all[h])
                         && (forall h, k :: h in all.Keys - kept.Keys && k in kept ==> h < k)
                         && ((forall h :: h in s.Buffer(side) ==> h <= height) ==> height in kept && kept[height] == row)
  {
    hide Capped;
    var all := s.Buffer(side)[height := row];
    CappedIs(all);
    if |all| > 10_000 && forall h :: h in s.Buffer(side) ==> h <= height {
      HighestIsKept(all, Capped(all), height);
    }
  }

  // ---- any order of rows, repeats and evictions ----

  datatype Op = Deliver(side: Side, height: int, row: Row) | CompareNow

  /** A pair and every height it compared, in the order it compared them. */
  datatype Trace = Trace(pair: Pair, compared: seq<int>)

  ghost function Step(t: Trace, op: Op): Trace {
    match op
    case Deliver(side, h, row) => t.(pair := AfterAdd(t.pair, side, h, row))
    case CompareNow => Trace(AfterCompare(t.pair), t.compared + Heights(Common(t.pair)))
  }

  ghost function Steps(ops: seq<Op>): Trace {
    if ops == [] then Trace(Pair(map[], map[], 0, 0), []) else Step(Steps(ops[..|ops| - 1]), ops[|ops| - 1])
  }

  predicate Increasing(hs: seq<int>) { forall i, j :: 0 <= i < j < |hs| ==> hs[i] < hs[j] }

  /** Every buffered height is still to be compared. */
  predicate Ahead(rows: Rows, last: int) { forall h :: h in rows ==> h > last }

  predicate TraceOk(t: Trace) {
    && Increasing(t.compared) && t.pair.last == LastOf(0, t.compared) && t.pair.last >= 0
    && Ahead(t.pair.migrating, t.pair.last) && Ahead(t.pair.reserve, t.pair.last)
    && |t.pair.migrating| <= MAX_BUFFERED_ROWS && |t.pair.reserve| <= MAX_BUFFERED_ROWS
  }

  lemma HeightsIncrease(s: set<int>)
    ensures Increasing(Heights(s)) && forall h :: h in Heights(s) <==> h in s
    ensures s == {} <==> Heights(s) == []
    ensures s != {} ==> Heights(s)[0] in s && Heights(s)[|Heights(s)| - 1] in s
    ensures forall h :: h in s ==> Heights(s) != [] && Heights(s)[0] <= h <= Heights(s)[|Heights(s)| - 1]
  {
    var hs := Heights(s);
    forall i, j | 0 <= i < j < |hs| ensures hs[i] < hs[j] { assert IntLe(hs[i], hs[j]); }
    forall h | h in s ensures hs != [] && hs[0] <= h <= hs[|hs| - 1] {
      assert h in hs;
      var i :| 0 <= i < |hs| && hs[i] == h;
      assert i > 0 ==> hs[0] < hs[i];
      assert i < |hs| - 1 ==> hs[i] < hs[|hs| - 1];
    }
    if s != {} {
      var h :| h in s;
      assert h in hs;
      assert hs[0] in hs && hs[|hs| - 1] in hs;
    }
    if hs != [] { assert hs[0] in hs; }
  }

  lemma AddKeeps(t: Trace, side: Side, h: int, row: Row)
    requires TraceOk(t) && h >= 1
    ensures TraceOk(Step(t, Deliver(side, h, row)))
  {
    CappedFits(t.pair.Buffer(side)[h := row]);
    var rows := t.pair.Buffer(side)[h := row];
    if !(t.pair.last > 0 && h <= t.pair.last) {
      assert Ahead(rows, t.pair.last);
      assert Ahead(Capped(rows), t.pair.last);
    }
  }

  lemma AboveFits(rows: Rows, h: int)
    ensures |Above(rows, h)| <= |rows|
  {
    assert Above(rows, h).Keys <= rows.Keys;
    assert rows.Keys == Above(rows, h).Keys + (rows.Keys - Above(rows, h).Keys);
  }

  lemma RemovalFits(rows: Rows, gone: set<int>)
    ensures |rows - gone| <= |rows|
  {
    assert rows.Keys == (rows - gone).Keys + (rows.Keys * gone);
  }

  lemma IncreasingJoin(a: seq<int>, b: seq<int>)
    requires Increasing(a) && Increasing(b) && forall h :: h in b ==> h > LastOf(0, a)
    ensures Increasing(a + b)
  {
    forall i, j | 0 <= i < j < |a + b| ensures (a + b)[i] < (a + b)[j] {
      if i < |a| <= j { assert a[i] <= LastOf(0, a) && b[j - |a|] in b; }
    }
  }

  lemma CompareKeeps(t: Trace)
    requires TraceOk(t)
    ensures TraceOk(Step(t, CompareNow))
    ensures Common(Step(t, CompareNow).pair) == {}
  {
    var c, hs := Common(t.pair), Heights(Common(t.pair));
    HeightsIncrease(c);
    assert forall h :: h in hs ==> h > t.pair.last;
    assert hs != [] ==> hs[|hs| - 1] in hs;
    var last := LastOf(t.pair.last, hs);
    AboveFits(t.pair.migrating - c, last);
    AboveFits(t.pair.reserve - c, last);
    RemovalFits(t.pair.migrating, c);
    RemovalFits(t.pair.reserve, c);
    IncreasingJoin(t.compared, hs);
  }

  /** In every run of deliveries and comparisons, in any order, with repeats and
      evictions: each height is compared at most once, in increasing order; both
      buffers hold only heights above the last compared one, and at most 10,000;
      and a comparison leaves no height in both. */
  lemma {:induction false} ComparedAtMostOnce(ops: seq<Op>)
    requires forall i :: 0 <= i < |ops| && ops[i].Deliver? ==> ops[i].height >= 1
    ensures TraceOk(Steps(ops))
    ensures ops != [] && ops[|ops| - 1].CompareNow? ==> Common(Steps(ops).pair) == {}
    decreases |ops|
  {
    if ops != [] {
      ComparedAtMostOnce(ops[..|ops| - 1]);
      var t := Steps(ops[..|ops| - 1]);
      match ops[|ops| - 1]
      case Deliver(side, h, row) => AddKeeps(t, side, h, row);
      case CompareNow => CompareKeeps(t);
    }
  }

  // ---- which heights can be compared twice ----

  /** Both sides deliver h and are compared, from a pair that compared nothing above zero. */
  lemma NonPositiveOnce(h: int, row: Row, first: int, last: int)
    requires h <= 0 && last <= 0 && (first == 0 || first == h)
    ensures var both := Pair(map[h := row], map[h := row], first, last);
            && AfterAdd(AfterAdd(Pair(map[], map[], first, last), Migrating, h, row), Reserve, h, row) == both
            && Heights(Common(both)) == [h] && AfterCompare(both) == Pair(map[], map[], h, h)
  {
    var both := Pair(map[h := row], map[h := row], first, last);
    assert Common(both) == {h};
    HeightsAre({h});
    HeightsIncrease({h});
    assert |Heights({h})| == 1 && Heights({h})[0] in Heights({h});
    assert Above(both.migrating - {h}, h) == map[];
    assert [h][..0] == [];
    assert FirstOf(first, [h]) == h;
  }

  /** No height at or below zero is told from "none yet": each is compared again when delivered again. */
  lemma NonPositiveIsComparedTwice(h: int, row: Row)
    requires h <= 0
    ensures var ops := [Deliver(Migrating, h, row), Deliver(Reserve, h, row), CompareNow];
            Steps(ops + ops).compared == [h, h]
  {
    hide AfterAdd, AfterCompare, Common, Heights;
    var ops := [Deliver(Migrating, h, row), Deliver(Reserve, h, row), CompareNow];
    StepsThree(ops, []);
    assert [] + ops == ops;
    NonPositiveOnce(h, row, 0, 0);
    assert Steps(ops) == Trace(Pair(map[], map[], h, h), [h]);
    StepsThree(ops, ops);
    NonPositiveOnce(h, row, h, h);
    assert Steps(ops + ops) == Trace(Pair(map[], map[], h, h), [h] + [h]);
  }

  predicate Twice(hs: seq<int>, h: int) { exists i, j :: 0 <= i < j < |hs| && hs[i] == h && hs[j] == h }

  predicate PositivesIncrease(hs: seq<int>) {
    forall i, j :: 0 <= i < j < |hs| && hs[i] > 0 && hs[j] > 0 ==> hs[i] < hs[j]
  }

  /** What any run keeps, heights at or below zero included. */
  predicate PositivesOk(t: Trace) {
    && PositivesIncrease(t.compared)
    && (forall x :: x in t.compared && x > 0 ==> x <= t.pair.last)
    && (t.pair.last > 0 ==> Ahead(t.pair.migrating, t.pair.last) && Ahead(t.pair.reserve, t.pair.last))
  }

  lemma PositivesAdd(t: Trace, side: Side, h: int, row: Row)
    requires PositivesOk(t)
    ensures PositivesOk(Step(t, Deliver(side, h, row)))
  {
    CappedFits(t.pair.Buffer(side)[h := row]);
  }

  lemma PositivesCompare(t: Trace)
    requires PositivesOk(t)
    ensures PositivesOk(Step(t, CompareNow))
  {
    var c, hs := Common(t.pair), Heights(Common(t.pair));
    HeightsIncrease(c);
    var last := LastOf(t.pair.last, hs);
    assert forall h :: h in hs ==> h <= last;
    assert forall h :: h in hs && t.pair.last > 0 ==> h > t.pair.last;
    PositivesJoin(t.compared, hs, t.pair.last);
    forall x | x in t.compared + hs && x > 0 ensures x <= last {
      if x in t.compared && hs != [] { assert hs[|hs| - 1] in hs; }
    }
  }

  lemma PositivesJoin(a: seq<int>, b: seq<int>, last: int)
    requires PositivesIncrease(a) && Increasing(b)
    requires (forall x :: x in a && x > 0 ==> x <= last) && forall x :: x in b && last > 0 ==> x > last
    ensures PositivesIncrease(a + b)
  {
    forall i, j | 0 <= i < j < |a + b| && (a + b)[i] > 0 && (a + b)[j] > 0 ensures (a + b)[i] < (a + b)[j] {
      if i < |a| <= j { assert a[i] in a && b[j - |a|] in b; }
    }
  }

  lemma {:induction false} PositivesInEveryRun(ops: seq<Op>)
    ensures PositivesOk(Steps(ops))
    decreases |ops|
  {
    if ops != [] {
      PositivesInEveryRun(ops[..|ops| - 1]);
      var t := Steps(ops[..|ops| - 1]);
      match ops[|ops| - 1]
      case Deliver(side, h, row) => PositivesAdd(t, side, h, row);
      case CompareNow => PositivesCompare(t);
    }
  }

  /** A height can be compared twice, in some run over any heights, exactly when it is not positive. */
  lemma TwiceIffNotPositive(h: int)
    ensures (exists ops :: Twice(Steps(ops).compared, h)) <==> h <= 0
  {
    if h <= 0 {
      var row: Row := map[];
      var ops := [Deliver(Migrating, h, row), Deliver(Reserve, h, row), CompareNow];
      NonPositiveIsComparedTwice(h, row);
      var hs := Steps(ops + ops).compared;
      assert hs[0] == h && hs[1] == h;
      assert Twice(hs, h);
    } else {
      forall ops ensures !Twice(Steps(ops).compared, h) { PositivesInEveryRun(ops); }
    }
  }

  lemma StepsThree(ops: seq<Op>, before: seq<Op>)
    requires |ops| == 3
    ensures Steps(before + ops) == Step(Step(Step(Steps(before), ops[0]), ops[1]), ops[2])
  {
    var n := |before|;
    var all := before + ops;
    assert all[..n + 2] == before + ops[..2] && all[..n + 2][..n + 1] == before + ops[..1] && all[..n + 2][..n + 1][..n] == before;
    assert all[|all| - 1] == ops[2] && all[..n + 2][n + 1] == ops[1] && all[..n + 2][..n + 1][n] == ops[0];
    assert Steps(all[..n + 2][..n + 1]) == Step(Steps(before), ops[0]);
    assert Steps(all[..n + 2]) == Step(Steps(all[..n + 2][..n + 1]), ops[1]);
  }
}
