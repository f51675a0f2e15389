/** The pair comparator (internal/hashlogcompare/compare.go): two streams of rows
    are joined by height, compared once both sides have a height, and pruned. */
module Comparator {
  import opened Orders

  type Row = map<string, string>
  type Rows = map<int, Row>

  const MAX_BUFFERED_ROWS: nat := 10_000
  const EVICT_BATCH_ROWS: nat := 1_000

  datatype Side = Migrating | Reserve

  datatype Mismatch = Mismatch(height: int, columns: seq<string>)

  datatype CompareResult = CompareResult(compared: nat, mismatches: seq<Mismatch>, migratingGaps: nat, reserveGaps: nat)

  /** The value of a pairState. */
  datatype Pair = Pair(migrating: Rows, reserve: Rows, first: int, last: int)
  {
    function Buffer(side: Side): Rows { if side == Migrating then migrating else reserve }

    function WithBuffer(side: Side, rows: Rows): Pair {
      if side == Migrating then this.(migrating := rows) else this.(reserve := rows)
    }
  }

  // ---- differing columns ----

  predicate ColumnDiffers(a: Row, b: Row, name: string) {
    (name in a && (name !in b || a[name] != b[name])) || (name in b && name !in a)
  }

  function DifferingNames(a: Row, b: Row): set<string> {
    set name | name in a.Keys + b.Keys && ColumnDiffers(a, b, name)
  }

  lemma DifferingNone(a: Row, b: Row)
    ensures DifferingNames(a, b) == {} <==> a == b
  {
    if DifferingNames(a, b) == {} {
      forall name ensures name in a <==> name in b { assert name !in DifferingNames(a, b); }
      forall name | name in a ensures a[name] == b[name] { assert name !in DifferingNames(a, b); }
    }
  }

  ghost function SortedNames(s: set<string>): seq<string> {
    StringOrder();
    Listing(s, StringLe)
  }

  lemma ColumnsListed(ka: seq<string>, kb: seq<string>, a: Row, b: Row)
    requires Lists(ka, a.Keys) && Lists(kb, b.Keys)
    ensures var d := DifferingNames(a, b); Lists(Keep(ka, d) + Keep(kb, d - a.Keys), d)
  {
    var d := DifferingNames(a, b);
    KeepListing(ka, a.Keys, d);
    KeepListing(kb, b.Keys, d - a.Keys);
    ListsJoin(Keep(ka, d), Keep(kb, d - a.Keys), a.Keys * d, b.Keys * (d - a.Keys));
    assert a.Keys * d + b.Keys * (d - a.Keys) == d;
  }

  lemma SortGives(l: seq<string>, s: set<string>)
    requires Lists(l, s)
    ensures Sort(l, StringLe) == SortedNames(s) && (Sort(l, StringLe) == [] <==> s == {})
  {
    StringOrder();
    SortLists(l, s, StringLe);
    ListingUnique(Sort(l, StringLe), SortedNames(s), s, StringLe);
  }

  /** Columns of a that b lacks or has with another value. */
  method ChangedColumns(a: Row, b: Row) returns (cols: seq<string>, ghost keys: seq<string>)
    ensures Lists(keys, a.Keys) && cols == Keep(keys, DifferingNames(a, b))
  {
    cols := [];
    ghost var d := DifferingNames(a, b);
    var ks := Enumerate(a.Keys);
    for i := 0 to |ks|
      invariant cols == Keep(ks[..i], d)
    {
      KeepNext(ks, i, d);
      assert ks[i] in a.Keys;
      if ks[i] !in b || b[ks[i]] != a[ks[i]] { cols := cols + [ks[i]]; }
    }
    keys := ks;
    assert ks[..|ks|] == ks;
  }

  /** Columns of b that a lacks. */
  method AddedColumns(a: Row, b: Row) returns (cols: seq<string>, ghost keys: seq<string>)
    ensures Lists(keys, b.Keys) && cols == Keep(keys, DifferingNames(a, b) - a.Keys)
  {
    cols := [];
    ghost var d := DifferingNames(a, b) - a.Keys;
    var ks := Enumerate(b.Keys);
    for i := 0 to |ks|
      invariant cols == Keep(ks[..i], d)
    {
      KeepNext(ks, i, d);
      assert ks[i] in b.Keys;
      if ks[i] !in a { cols := cols + [ks[i]]; }
    }
    keys := ks;
    assert ks[..|ks|] == ks;
  }

  /** The names the rows disagree on, sorted; map order does not show. */
  method DifferingColumns(a: Row, b: Row) returns (cols: seq<string>)
    ensures cols == SortedNames(DifferingNames(a, b))
    ensures cols == [] <==> a == b
  {
    var changed, ka := ChangedColumns(a, b);
    var added, kb := AddedColumns(a, b);
    ColumnsListed(ka, kb, a, b);
    SortGives(changed + added, DifferingNames(a, b));
    DifferingNone(a, b);
    cols := Sort(changed + added, StringLe);
  }

  // ---- the specification ----

  function Common(s: Pair): set<int> { s.migrating.Keys * s.reserve.Keys }

  function Above(rows: Rows, h: int): Rows { map k | k in rows && k > h :: rows[k] }

  function Skipped(keys: set<int>, first: int, last: int): set<int> { set h | h in keys && first < h <= last }

  ghost function Heights(s: set<int>): seq<int> {
    IntOrder();
    Listing(s, IntLe)
  }

  /** firstCompared, whose zero value means none yet. */
  function FirstOf(first: int, hs: seq<int>): int {
    if hs == [] then first
    else var f := FirstOf(first, hs[..|hs| - 1]); if f == 0 then hs[|hs| - 1] else f
  }

  function LastOf(last: int, hs: seq<int>): int { if hs == [] then last else hs[|hs| - 1] }

  /** The mismatches at the given heights, in their order. */
  ghost function Report(m: Rows, r: Rows, hs: seq<int>): seq<Mismatch>
    requires forall h :: h in hs ==> h in m && h in r
  {
    if hs == [] then []
    else
      var h := hs[|hs| - 1];
      assert forall x :: x in hs[..|hs| - 1] ==> x in hs;
      Report(m, r, hs[..|hs| - 1]) + if m[h] == r[h] then [] else [Mismatch(h, SortedNames(DifferingNames(m[h], r[h])))]
  }

  ghost function AfterCompare(s: Pair): Pair {
    var hs := Heights(Common(s));
    var last := LastOf(s.last, hs);
    Pair(Above(s.migrating - Common(s), last), Above(s.reserve - Common(s), last), FirstOf(s.first, hs), last)
  }

  ghost function Found(s: Pair): CompareResult {
    var t, hs := AfterCompare(s), Heights(Common(s));
    CompareResult(|hs|, Report(s.migrating, s.reserve, hs),
                  |Skipped((s.reserve - Common(s)).Keys, t.first, t.last)|,
                  |Skipped((s.migrating - Common(s)).Keys, t.first, t.last)|)
  }

  /** rows without its n lowest heights. */
  ghost function Evicted(rows: Rows, n: nat): Rows {
    var hs := Heights(rows.Keys);
    rows - Elems(hs[..Min(n, |hs|)])
  }

  ghost function Capped(rows: Rows): Rows {
    if |rows| > MAX_BUFFERED_ROWS then Evicted(rows, |rows| - MAX_BUFFERED_ROWS + EVICT_BATCH_ROWS) else rows
  }

  ghost function AfterAdd(s: Pair, side: Side, height: int, row: Row): Pair {
    if s.last > 0 && height <= s.last then s
    else s.WithBuffer(side, Capped(s.Buffer(side)[height := row]))
  }

  // ---- the object ----

  method SortedKeys(keys: set<int>) returns (heights: seq<int>)
    ensures heights == Heights(keys)
  {
    heights := Enumerate(keys);
    SortGivesHeights(heights, keys);
    heights := Sort(heights, IntLe);
  }

  lemma SortGivesHeights(l: seq<int>, s: set<int>)
    requires Lists(l, s)
    ensures Sort(l, IntLe) == Heights(s) && |Heights(s)| == |s|
  {
    IntOrder();
    SortLists(l, s, IntLe);
    ListingUnique(Sort(l, IntLe), Heights(s), s, IntLe);
  }

  lemma DropNext(rows: Rows, hs: seq<int>, i: nat)
    requires i < |hs|
    ensures rows - Elems(hs[..i + 1]) == (rows - Elems(hs[..i])) - {hs[i]}
  {
    ElemsNext(hs, i);
  }

  lemma DropKept(rows: Rows, keys: seq<int>, i: nat, low: set<int>)
    requires i < |keys|
    ensures rows - Elems(Keep(keys[..i + 1], low)) ==
            if keys[i] in low then (rows - Elems(Keep(keys[..i], low))) - {keys[i]} else rows - Elems(Keep(keys[..i], low))
  {
    KeepNext(keys, i, low);
    if keys[i] in low {
      assert Elems(Keep(keys[..i], low) + [keys[i]]) == Elems(Keep(keys[..i], low)) + {keys[i]};
    }
  }

  /** One more height compared. */
  function MatchOne(s: Pair, h: int): Pair {
    Pair(s.migrating - {h}, s.reserve - {h}, if s.first == 0 then h else s.first, h)
  }

  ghost function Matched(s: Pair, hs: seq<int>): Pair {
    Pair(s.migrating - Elems(hs), s.reserve - Elems(hs), FirstOf(s.first, hs), LastOf(s.last, hs))
  }

  lemma MatchNext(s: Pair, hs: seq<int>, i: nat)
    requires i < |hs|
    ensures Matched(s, hs[..i + 1]) == MatchOne(Matched(s, hs[..i]), hs[i])
  {
    DropNext(s.migrating, hs, i);
    DropNext(s.reserve, hs, i);
    assert hs[..i + 1][..i] == hs[..i];
  }

  lemma ReportNext(m: Rows, r: Rows, hs: seq<int>, i: nat)
    requires i < |hs| && forall h :: h in hs ==> h in m && h in r
    ensures forall h :: h in hs[..i + 1] ==> h in hs
    ensures Report(m, r, hs[..i + 1]) == Report(m, r, hs[..i])
              + if m[hs[i]] == r[hs[i]] then [] else [Mismatch(hs[i], SortedNames(DifferingNames(m[hs[i]], r[hs[i]])))]
  {
    assert hs[..i + 1][..i] == hs[..i];
  }

  /** Drops the n lowest heights. */
  method EvictOldest(rows: Rows, n: nat) returns (kept: Rows)
    ensures kept == Evicted(rows, n)
  {
    kept := rows;
    var heights := SortedKeys(rows.Keys);
    for i := 0 to Min(n, |heights|)
      invariant kept == rows - Elems(heights[..i])
    {
      DropNext(rows, heights, i);
      kept := kept - {heights[i]};
    }
  }

  method Cap(rows: Rows) returns (kept: Rows)
    ensures kept == Capped(rows)
  {
    kept := rows;
    if |rows| > MAX_BUFFERED_ROWS { kept := EvictOldest(rows, |rows| - MAX_BUFFERED_ROWS + EVICT_BATCH_ROWS); }
  }

  class PairState {
    var migrating: Rows
    var reserve: Rows
    var firstCompared: int
    var lastCompared: int

    constructor ()
      ensures View() == Pair(map[], map[], 0, 0)
    {
      migrating, reserve, firstCompared, lastCompared := map[], map[], 0, 0;
    }

    ghost function View(): Pair
      reads this
    {
      Pair(migrating, reserve, firstCompared, lastCompared)
    }

    function Buffer(side: Side): (rows: Rows)
      reads this
      ensures rows == View().Buffer(side)
    {
      if side == Migrating then migrating else reserve
    }

    method SetBuffer(side: Side, rows: Rows)
      modifies this`migrating, this`reserve
      ensures View() == old(View()).WithBuffer(side, rows)
    {
      if side == Migrating { migrating := rows; } else { reserve := rows; }
    }

    /** Rows at or below the last compared height are refused. */
    method Add(side: Side, height: int, row: Row)
      modifies this`migrating, this`reserve
      ensures View() == AfterAdd(old(View()), side, height, row)
    {
      if lastCompared > 0 && height <= lastCompared { return; }
      var rows := Buffer(side)[height := row];
      var kept := Cap(rows);
      SetBuffer(side, kept);
    }

    /** Every common height is compared, in order; then rows the other side can
        no longer supply are dropped. */
    method Compare() returns (res: CompareResult)
      modifies this
      ensures View() == AfterCompare(old(View()))
      ensures res == Found(old(View()))
    {
      var heights := CommonHeights();
      HeightsAre(Common(View()));
      var mismatches := MatchHeights(heights);
      var reserveGaps := Prune(Migrating);
      var migratingGaps := Prune(Reserve);
      res := CompareResult(|heights|, mismatches, migratingGaps, reserveGaps);
    }

    method CommonHeights() returns (heights: seq<int>)
      ensures heights == Heights(Common(View()))
    {
      heights := [];
      var keys := Enumerate(migrating.Keys);
      for i := 0 to |keys|
        invariant heights == Keep(keys[..i], reserve.Keys)
      {
        KeepNext(keys, i, reserve.Keys);
        if keys[i] in reserve { heights := heights + [keys[i]]; }
      }
      assert keys[..|keys|] == keys;
      KeepListing(keys, migrating.Keys, reserve.Keys);
      SortGivesHeights(heights, Common(View()));
      heights := Sort(heights, IntLe);
    }

    method MatchHeights(heights: seq<int>) returns (mismatches: seq<Mismatch>)
      requires Distinct(heights) && forall h :: h in heights ==> h in migrating && h in reserve
      modifies this
      ensures mismatches == Report(old(migrating), old(reserve), heights)
      ensures View() == Matched(old(View()), heights)
    {
      mismatches := [];
      for i := 0 to |heights|
        invariant View() == Matched(old(View()), heights[..i])
        invariant mismatches == Report(old(migrating), old(reserve), heights[..i])
      {
        var h := heights[i];
        MatchNext(old(View()), heights, i);
        ReportNext(old(migrating), old(reserve), heights, i);
        assert h !in heights[..i];
        var cols := DifferingColumns(migrating[h], reserve[h]);
        if |cols| > 0 { mismatches := mismatches + [Mismatch(h, cols)]; }
        migrating := migrating - {h};
        reserve := reserve - {h};
        if firstCompared == 0 { firstCompared := h; }
        lastCompared := h;
      }
      assert heights[..|heights|] == heights;
    }

    /** Drops rows at or below the last compared height and counts those the
        other side skipped after comparison started. */
    method Prune(side: Side) returns (gaps: nat)
      modifies this`migrating, this`reserve
      ensures View() == old(View()).WithBuffer(side, Above(old(View()).Buffer(side), lastCompared))
      ensures gaps == |Skipped(old(View()).Buffer(side).Keys, firstCompared, lastCompared)|
    {
      gaps := 0;
      var rows := Buffer(side);
      var keys := Enumerate(rows.Keys);
      ghost var skipped, low := Skipped(rows.Keys, firstCompared, lastCompared), rows.Keys - Above(rows, lastCompared).Keys;
      for i := 0 to |keys|
        invariant View() == old(View()).WithBuffer(side, rows - Elems(Keep(keys[..i], low)))
        invariant gaps == |Keep(keys[..i], skipped)|
      {
        var h := keys[i];
        DropKept(rows, keys, i, low);
        KeepNext(keys, i, skipped);
        assert h in rows.Keys;
        if h <= lastCompared {
          if h > firstCompared { gaps := gaps + 1; }
          SetBuffer(side, Buffer(side) - {h});
        }
      }
      assert keys[..|keys|] == keys;
      PruneTotals(rows, keys, low, skipped, firstCompared, lastCompared);
    }
  }

  lemma PruneTotals(rows: Rows, keys: seq<int>, low: set<int>, skipped: set<int>, first: int, last: int)
    requires Lists(keys, rows.Keys) && low == rows.Keys - Above(rows, last).Keys && skipped == Skipped(rows.Keys, first, last)
    ensures rows - Elems(Keep(keys, low)) == Above(rows, last)
    ensures |Keep(keys, skipped)| == |skipped|
  {
    KeepListing(keys, rows.Keys, low);
    KeepListing(keys, rows.Keys, skipped);
    assert rows.Keys * skipped == skipped;
    DistinctCount(Keep(keys, skipped));
    assert Elems(Keep(keys, skipped)) == skipped;
  }

  lemma HeightsAre(s: set<int>)
    ensures |Heights(s)| == |s| && Elems(Heights(s)) == s
  {
    IntOrder();
    ListingUnique(Heights(s), Heights(s), s, IntLe);
  }
}
