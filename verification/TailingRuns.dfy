/** Two runs of a reader that lose rows, step by step. */
module TailingRuns {
  import opened Options
  import opened HashLog
  import opened Tailing
  import opened HashLogReader

  const TITLE: seq<Byte> := [104]
  const HEAD: seq<Byte> := [104, NEWLINE]

  // ---- a file passed over ----

  const ROW: seq<Byte> := [114, NEWLINE]

  /** One sealed file; then two files are open at once; then the first of them is sealed. */
  const FIRST: Log := [LogFile(FileName(0, true), HEAD)]
  const OPENED: Log := FIRST + [LogFile(FileName(1, false), HEAD + ROW), LogFile(FileName(2, false), HEAD)]
  const SEALED: Log := FIRST + [LogFile(FileName(1, true), HEAD + ROW), LogFile(FileName(2, false), HEAD)]

  /** The listing a reader moves on by is caught between the last two. */
  const CAUGHT: seq<Moment> := [Moment(FIRST, false, {}), Moment(OPENED, false, {}), Moment(SEALED, false, {})]
  const SCHEDULE: seq<Moment> := [Moment(FIRST, false, {}), Moment(FIRST, false, {}), Moment(FIRST, false, {})] + CAUGHT

  lemma HeadIs()
    ensures HasHeader(HEAD) && HeaderEnd(HEAD) == 2 == |HEAD| && HEAD[..1] == TITLE
  {
    NextNewlineIs(HEAD, 0, 1);
  }

  lemma RowIs()
    ensures var b := HEAD + ROW; HasHeader(b) && HeaderEnd(b) == 2 && b[..1] == TITLE && Lines(b[2..]) == [ROW] && !Torn(b)
  {
    var b := HEAD + ROW;
    NextNewlineIs(b, 0, 1);
    assert b[2..] == ROW;
    NextNewlineIs(ROW, 0, 1);
    assert ROW[..2] == ROW && ROW[2..] == [];
  }

  lemma LogsGrow()
    ensures WellFormed(FIRST) && WellFormed(OPENED) && WellFormed(SEALED)
    ensures Extends(FIRST, FIRST) && Extends(FIRST, OPENED) && Extends(OPENED, SEALED)
  {
    HeadIs();
    RowIs();
  }

  lemma ScheduleRuns(n: nat)
    requires n <= 3
    ensures LogAfter(FIRST, SCHEDULE, n) == FIRST && SCHEDULE[3..] == CAUGHT
    ensures Later(Later(Later(SCHEDULE))) == CAUGHT && LogAfter(FIRST, CAUGHT, 3) == SEALED
    ensures Sight(Ticked(FIRST, CAUGHT), GoneNext({}, CAUGHT), Later(CAUGHT), 0) == Seen(OPENED, SEALED, {}, 0, false)
  {
    LogsGrow();
    assert SCHEDULE[1..][1..][1..] == CAUGHT;
    assert Later(CAUGHT) == CAUGHT[1..];
    assert Ticked(OPENED, CAUGHT[1..][1..]) == SEALED;
    assert LogAfter(FIRST, CAUGHT, 3) == LogAfter(FIRST, CAUGHT[1..], 2) == LogAfter(OPENED, CAUGHT[1..][1..], 1) == SEALED;
  }

  lemma NoneFails(b: seq<Moment>)
    ensures !SomeFailed(SCHEDULE, b) && !SomeFailed(CAUGHT, b) && Keeps(SCHEDULE)
  {
  }

  lemma PassesOne()
    ensures SkippedBy(Seen(OPENED, SEALED, {}, 0, false)) == {1}
  {
    LogsGrow();
    var x := Seen(OPENED, SEALED, {}, 0, false);
    assert NextListed(OPENED, SEALED, {}, 2) == 2 && NextListed(OPENED, SEALED, {}, 1) == 2;
    assert Strictly(0, 2) == {1};
  }

  /** A reader in the only file, sealed and holding nothing but its header, is at its end. */
  lemma AtEndOfFirst(r: Reader, dir: Log, stat: Log, gone: set<nat>)
    requires r.Valid() && r.started && r.src.log == FIRST && r.NearTip(dir, stat, gone) && r.Accurate()
    ensures r.AtEnd() && r.mark.pos == 0 && r.mark.scope == Scope(0, 2, {})
  {
    HeadIs();
  }

  lemma RowOfOneCounts(ps: Parser, s: Scope)
    requires ps.header(TITLE).Some? && s.at == 0
    ensures FileLines(ps, SEALED, s, 1) != []
  {
    RowIs();
    var b := SEALED[1].content;
    assert Begin(SEALED, s, 1) == Some(2);
    assert b[2..|b|] == b[2..];
  }

  lemma SealedIsReadable(ps: Parser, s: Scope)
    requires ps.header(TITLE).Some? && s.at == 0 && s.offset == 2
    ensures Orderly(ps, SEALED, {}, s) && Bounded(SEALED, s) && OneOpen(SEALED)
  {
    HeadIs();
    RowIs();
  }

  /** What the reader has moved on by keeps the row of file 1 out of its scope for good. */
  lemma Unrecovered(r: Reader)
    requires r.Valid() && r.started && r.src.log == SEALED && r.ps.header(TITLE).Some? && Whole(r.mark.scope) == Scope(0, 2, {})
    requires r.mark.seen != [] && r.mark.seen[0] == Seen(OPENED, SEALED, {}, 0, false)
    ensures 1 in r.mark.scope.skipped && !ReadWhole(r.ps, SEALED, r.mark)
    ensures Orderly(r.ps, SEALED, {}, r.mark.scope) && Bounded(SEALED, r.mark.scope)
  {
    PassesOne();
    SkippedStay(r.mark.seen, 0);
    RowOfOneCounts(r.ps, r.mark.scope);
    SealedIsReadable(r.ps, r.mark.scope);
    if ReadWhole(r.ps, SEALED, r.mark) {
      WholeIsHarmless(r.ps, SEALED, {}, r.View(), r.mark);
      assert false;
    }
  }

  lemma FirstStarts(ps: Parser, log: Log, b: seq<Moment>)
    requires ps.header(TITLE).Some? && Looked(FIRST, SCHEDULE, log, b) && |b| >= 3
    ensures log == FIRST && !SomeFailed(SCHEDULE, b) && Startable(ps, FIRST, {})
  {
    ScheduleRuns(|SCHEDULE| - |b|);
    HeadIs();
    NoneFails(b);
  }

  lemma EndsSealed(log: Log, b: seq<Moment>)
    requires Looked(FIRST, CAUGHT, log, b) && b == []
    ensures log == SEALED
  {
    ScheduleRuns(0);
  }

  /** Start and first read of a poll over the schedule. */
  method LosingStart(ps: Parser) returns (r: Reader)
    requires ps.header(TITLE).Some?
    ensures fresh(r) && fresh(r.src) && r.ps == ps && r.Valid() && r.started && r.Keeping() && Looked(FIRST, CAUGHT, r.src.log, r.src.script)
    ensures Whole(r.mark.scope) == Scope(0, 2, {}) && r.mark.seen != [] && r.mark.seen[0] == Seen(OPENED, SEALED, {}, 0, false)
  {
    hide ExactMark, TipStart, Looked, SomeFailed, Startable, Successive, AllOneOpen, Reader.NearTip, Ticked, Keeps;
    LogsGrow();
    NoneFails([]);
    var src := new Source(FIRST, SCHEDULE);
    r := new Reader(src, ps);
    var e, dir, stat, gone := r.StartReading();
    FirstStarts(ps, r.src.log, r.src.script);
    ScheduleRuns(0);
    AtEndOfFirst(r, dir, stat, gone);
    var rows, invalid, err, delta := r.ReadFiles();
    NoneFails(r.src.script);
  }

  /** A reader that asks for the next file while two are open, the first of them
      just being sealed, moves past it. However often it polls, the row in that
      file is never read, though the log ends up with only its last file open. */
  method LosingRun(ps: Parser, polls: nat) returns (r: Reader)
    requires ps.header(TITLE).Some?
    ensures fresh(r) && fresh(r.src) && r.ps == ps && r.Valid() && r.started && r.src.log == SEALED && r.src.script == []
    ensures 1 in r.mark.scope.skipped && !ReadWhole(ps, SEALED, r.mark)
    ensures Orderly(ps, SEALED, {}, r.mark.scope) && Bounded(SEALED, r.mark.scope)
  {
    hide ExactMark, TipStart, LogAfter, SomeFailed, Successive, AllOneOpen, Keeps, Orderly, Bounded, ReadWhole;
    r := LosingStart(ps);
    for i := 0 to 3 + polls
      invariant fresh(r) && fresh(r.src) && r.ps == ps && r.Valid() && r.started && r.Keeping() && Looked(FIRST, CAUGHT, r.src.log, r.src.script)
      invariant Whole(r.mark.scope) == Scope(0, 2, {}) && r.mark.seen != [] && r.mark.seen[0] == Seen(OPENED, SEALED, {}, 0, false)
      invariant r.src.script == [] || |r.src.script| + i <= 3
    {
      ghost var log, script := r.src.log, r.src.script;
      var rows, invalid, err, delta := r.PollOnce();
      LookedOn(FIRST, CAUGHT, log, script, r.src.log, r.src.script);
    }
    EndsSealed(r.src.log, r.src.script);
    Unrecovered(r);
  }

  // ---- a first file sealed without a boundary ----

  const LONG: nat := 20000

  /** A header, a row, and a long unfinished one. */
  function Unfinished(): (b: seq<Byte>)
    ensures |b| == 4 + LONG
  {
    HEAD + ROW + seq(LONG, _ => 120)
  }

  function Written(sealed: bool): Log { [LogFile(FileName(0, sealed), Unfinished())] }

  function Sealing(): (a: seq<Moment>)
    ensures |a| == 4
  {
    ThreeThen(Written(false), Written(true))
  }

  function ThreeThen(x: Log, z: Log): seq<Moment> {
    [Moment(x, false, {}), Moment(x, false, {}), Moment(x, false, {}), Moment(z, false, {})]
  }

  lemma ThreeThenRuns(x: Log, z: Log, n: nat)
    requires n <= 4 && WellFormed(x) && WellFormed(z) && Extends(x, x) && Extends(x, z)
    ensures LogAfter(x, ThreeThen(x, z), n) == if n == 4 then z else x
    ensures |Later(Later(Later(ThreeThen(x, z))))| == 1
  {
    hide WellFormed, Extends;
    var a := ThreeThen(x, z);
    var b, c, d := a[1..], a[1..][1..], a[1..][1..][1..];
    assert b[0].next == x && c[0].next == x && d[0].next == z && |d| == 1;
    if n > 0 { assert LogAfter(x, a, n) == LogAfter(x, b, n - 1); }
    if n > 1 { assert LogAfter(x, b, n - 1) == LogAfter(x, c, n - 2); }
    if n > 2 { assert LogAfter(x, c, n - 2) == LogAfter(x, d, n - 3); }
    if n > 3 { assert LogAfter(x, d, 1) == LogAfter(z, d[1..], 0); }
  }

  lemma NoneOfThemFails(x: Log, z: Log, b: seq<Moment>)
    ensures !SomeFailed(ThreeThen(x, z), b) && Keeps(ThreeThen(x, z))
  {
  }

  lemma UnfinishedIs(offset: nat)
    requires 4 <= offset < |Unfinished()|
    ensures var b := Unfinished();
            && HasHeader(b) && HeaderEnd(b) == 2 && b[..1] == TITLE && NextNewline(b, offset) == |b|
            && WellFormed(Written(false)) && WellFormed(Written(true))
            && Extends(Written(false), Written(false)) && Extends(Written(false), Written(true))
  {
    var b := Unfinished();
    NextNewlineIs(b, 0, 1);
    NextNewlineIs(b, offset, |b|);
  }

  lemma SealingRuns(log: Log, b: seq<Moment>)
    requires Looked(Written(false), Sealing(), log, b)
    ensures |b| >= 1 ==> log == Written(false)
    ensures b == [] ==> log == Written(true)
    ensures !SomeFailed(Sealing(), b)
  {
    UnfinishedIs(4);
    hide WellFormed, Extends, Unfinished, SomeFailed, LogAfter, ThreeThen;
    ThreeThenRuns(Written(false), Written(true), 4 - |b|);
    NoneOfThemFails(Written(false), Written(true), b);
  }

  lemma StartsInLongRow(r: Reader, dir: Log, stat: Log, gone: set<nat>)
    requires r.Valid() && r.started && r.src.log == Written(false) && r.NearTip(dir, stat, gone)
    requires Extends(Written(false), dir) && Extends(dir, stat) && Extends(stat, Written(false))
    ensures r.mark.scope.at == 0 && 4 <= r.mark.scope.offset < |Unfinished()|
  {
    UnfinishedIs(4);
    hide Exact, TipStart, Unfinished, NextNewline, Listing;
    NothingMoved(Written(false), dir, stat, gone);
  }

  lemma IsStuck(r: Reader, s: Scope)
    requires r.Valid() && r.started && r.src.log == Written(true) && r.ps.header(TITLE).Some?
    requires Whole(r.mark.scope) == s && s.at == 0 && 4 <= s.offset < |Unfinished()|
    ensures Orderly(r.ps, Written(true), {}, r.mark.scope) && !Bounded(Written(true), r.mark.scope) && !ReadWhole(r.ps, Written(true), r.mark)
  {
    hide ReadWhole, Exact, TipStart, Unfinished, NextNewline;
    UnfinishedIs(s.offset);
    UnboundedIsStuck(r.ps, Written(true), {}, r.View(), r.mark);
  }

  lemma SealingKeeps()
    ensures Keeps(Sealing())
  {
    NoneOfThemFails(Written(false), Written(true), []);
  }

  lemma SealingStarts(ps: Parser, log: Log, b: seq<Moment>)
    requires ps.header(TITLE).Some? && Looked(Written(false), Sealing(), log, b) && |b| >= 1
    ensures log == Written(false) && !SomeFailed(Sealing(), b) && Startable(ps, Written(false), {})
    ensures b == Later(Later(Later(Sealing()))) ==> |b| == 1
  {
    SealingRuns(log, b);
    UnfinishedIs(4);
    hide Unfinished, LogAfter, SomeFailed, ThreeThen, Looked, WellFormed, Extends, Later;
    ThreeThenRuns(Written(false), Written(true), 0);
  }

  method StuckStart(ps: Parser) returns (r: Reader)
    requires ps.header(TITLE).Some?
    ensures fresh(r) && fresh(r.src) && r.ps == ps && r.Valid() && r.started && r.Keeping() && |r.src.script| == 1
    ensures Looked(Written(false), Sealing(), r.src.log, r.src.script)
    ensures r.mark.scope.at == 0 && 4 <= r.mark.scope.offset < |Unfinished()|
  {
    hide ExactMark, TipStart, Looked, SomeFailed, Unfinished, Reader.NearTip, Sealing, Startable, Keeps;
    UnfinishedIs(4);
    SealingKeeps();
    var src := new Source(Written(false), Sealing());
    r := new Reader(src, ps);
    var e, dir, stat, gone := r.StartReading();
    SealingStarts(ps, r.src.log, r.src.script);
    StartsInLongRow(r, dir, stat, gone);
  }

  /** A reader that starts inside a row longer than the backtrack and sees the
      file sealed before that row ends waits in it, however often it polls. */
  method StuckRun(ps: Parser, polls: nat) returns (r: Reader)
    requires ps.header(TITLE).Some?
    ensures fresh(r) && fresh(r.src) && r.ps == ps && r.Valid() && r.started && r.src.log == Written(true) && r.src.script == []
    ensures Orderly(ps, Written(true), {}, r.mark.scope) && !Bounded(Written(true), r.mark.scope) && !ReadWhole(ps, Written(true), r.mark)
  {
    hide ExactMark, TipStart, Looked, SomeFailed, Successive, AllOneOpen, Keeps, Orderly, Bounded, ReadWhole, Unfinished, Sealing;
    r := StuckStart(ps);
    ghost var s := Whole(r.mark.scope);
    for i := 0 to 1 + polls
      invariant fresh(r) && fresh(r.src) && r.ps == ps && r.Valid() && r.started && r.Keeping() && Looked(Written(false), Sealing(), r.src.log, r.src.script)
      invariant Whole(r.mark.scope) == s && (r.src.script == [] || |r.src.script| + i <= 1)
    {
      ghost var log, script := r.src.log, r.src.script;
      var rows, invalid, err, delta := r.PollOnce();
      LookedOn(Written(false), Sealing(), log, script, r.src.log, r.src.script);
    }
    SealingRuns(r.src.log, r.src.script);
    IsStuck(r, s);
  }
}
