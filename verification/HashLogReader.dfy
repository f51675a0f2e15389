/** The tailing reader (internal/hashlogcompare/reader.go). Between any two calls
    to the source the log may grow, be sealed, gain or lose files, or the call may fail. */
module HashLogReader {
  import opened Options
  import Orders
  import opened HashLog
  import opened Tailing

  const TIP_BACKTRACK_BYTES: nat := 16384
  const MAX_READS_PER_POLL: nat := 16
  const MAX_HEADER_BYTES: nat := 65536

  datatype Error = NoError | Unavailable | HeaderError | CoverageGap | TornRow

  function Max(a: int, b: int): int { if a < b then b else a }

  // ---- parsing ----

  function ParsedRows(ps: Parser, lines: seq<Line>): seq<HashRow> {
    if lines == [] then []
    else
      var l := lines[|lines| - 1];
      var r := ps.row(l.header, l.text);
      ParsedRows(ps, lines[..|lines| - 1]) + if r.Some? then [r.value] else []
  }

  function InvalidLines(ps: Parser, lines: seq<Line>): nat {
    if lines == [] then 0
    else
      var l := lines[|lines| - 1];
      InvalidLines(ps, lines[..|lines| - 1]) + if ps.row(l.header, l.text).Some? then 0 else 1
  }

  /** Every consumed line is either parsed or counted as invalid. */
  lemma {:induction false} EveryLineAccounted(ps: Parser, lines: seq<Line>)
    ensures |ParsedRows(ps, lines)| + InvalidLines(ps, lines) == |lines|
    decreases |lines|
  {
    if lines != [] { EveryLineAccounted(ps, lines[..|lines| - 1]); }
  }

  lemma {:induction false} ParsingJoins(ps: Parser, a: seq<Line>, b: seq<Line>)
    ensures ParsedRows(ps, a + b) == ParsedRows(ps, a) + ParsedRows(ps, b)
    ensures InvalidLines(ps, a + b) == InvalidLines(ps, a) + InvalidLines(ps, b)
    decreases |b|
  {
    if b == [] {
      assert a + b == a;
    } else {
      ParsingJoins(ps, a, b[..|b| - 1]);
      assert (a + b)[..|a + b| - 1] == a + b[..|b| - 1];
    }
  }

  lemma {:induction false} TaggedNext(file: nat, h: Header, texts: seq<seq<Byte>>, i: nat)
    requires i < |texts|
    ensures Tagged(file, h, texts[..i + 1]) == Tagged(file, h, texts[..i]) + [Line(file, h, texts[i])]
  {
    assert texts[..i + 1] == texts[..i] + [texts[i]];
    TaggedJoin(file, h, texts[..i], [texts[i]]);
  }

  lemma ParsingNext(ps: Parser, lines: seq<Line>, l: Line)
    ensures ParsedRows(ps, lines + [l]) == ParsedRows(ps, lines) + if ps.row(l.header, l.text).Some? then [ps.row(l.header, l.text).value] else []
    ensures InvalidLines(ps, lines + [l]) == InvalidLines(ps, lines) + if ps.row(l.header, l.text).Some? then 0 else 1
  {
    assert (lines + [l])[..|lines|] == lines;
  }

  method ParseRows(ps: Parser, header: Header, data: seq<Byte>, ghost file: nat) returns (rows: seq<HashRow>, invalid: nat)
    ensures rows == ParsedRows(ps, Tagged(file, header, Lines(data)))
    ensures invalid == InvalidLines(ps, Tagged(file, header, Lines(data)))
  {
    rows, invalid := [], 0;
    var texts := Lines(data);
    for i := 0 to |texts|
      invariant rows == ParsedRows(ps, Tagged(file, header, texts[..i]))
      invariant invalid == InvalidLines(ps, Tagged(file, header, texts[..i]))
    {
      TaggedNext(file, header, texts, i);
      ParsingNext(ps, Tagged(file, header, texts[..i]), Line(file, header, texts[i]));
      var r := ps.row(header, texts[i]);
      if r.None? { invalid := invalid + 1; } else { rows := rows + [r.value]; }
    }
    assert texts[..|texts|] == texts;
  }

  // ---- following files ----

  /** What a listing says about a file that could not be read under its name. */
  datatype Follow = SameName | Renamed | Gone | MovedOn | NothingNewer

  function FirstAt(files: seq<LogFile>, index: nat): (k: nat)
    ensures k <= |files| && (k < |files| ==> files[k].name.index == index)
  {
    if files == [] then 0 else if files[0].name.index == index then 0 else FirstAt(files[1..], index) + 1
  }

  function FirstAfter(files: seq<LogFile>, index: nat): (k: nat)
    ensures k <= |files| && (k < |files| ==> files[k].name.index > index)
  {
    if files == [] then 0 else if files[0].name.index > index then 0 else FirstAfter(files[1..], index) + 1
  }

  /** The first listed file of an index. */
  predicate IsFirst(files: seq<LogFile>, index: nat, i: int) {
    0 <= i < |files| && files[i].name.index == index && forall j :: 0 <= j < i ==> files[j].name.index != index
  }

  /** The first listed file of a higher index. */
  predicate IsNext(files: seq<LogFile>, index: nat, i: int) {
    0 <= i < |files| && files[i].name.index > index && forall j :: 0 <= j < i ==> files[j].name.index <= index
  }

  lemma {:induction false} FirstAtIs(files: seq<LogFile>, index: nat)
    ensures forall i :: IsFirst(files, index, i) <==> i == FirstAt(files, index) < |files|
  {
    if files != [] {
      var rest := files[1..];
      FirstAtIs(rest, index);
      forall i ensures IsFirst(files, index, i) <==> i == FirstAt(files, index) < |files| {
        assert files[0].name.index != index ==> (IsFirst(files, index, i) <==> IsFirst(rest, index, i - 1));
      }
    }
  }

  lemma {:induction false} FirstAfterIs(files: seq<LogFile>, index: nat)
    ensures forall i :: IsNext(files, index, i) <==> i == FirstAfter(files, index) < |files|
  {
    if files != [] {
      var rest := files[1..];
      FirstAfterIs(rest, index);
      forall i ensures IsNext(files, index, i) <==> i == FirstAfter(files, index) < |files| {
        assert files[0].name.index <= index ==> (IsNext(files, index, i) <==> IsNext(rest, index, i - 1));
      }
    }
  }

  /** A file nothing has been read of. */
  function AtTop(n: FileName): Cursor { Cursor(n.index, n, n.sealed, 0, None, false) }

  function MovedAfter(c: Cursor, files: seq<LogFile>): Cursor {
    var k := FirstAfter(files, c.index);
    if k == |files| then c else AtTop(files[k].name)
  }

  function Followed(c: Cursor, files: seq<LogFile>): (Cursor, Follow) {
    var k := FirstAt(files, c.index);
    if k < |files| then
      if files[k].name == c.name then (c, SameName)
      else (c.(name := files[k].name, sealed := files[k].name.sealed), Renamed)
    else if c.offset > 0 then (c, Gone)
    else (MovedAfter(c, files), if FirstAfter(files, c.index) < |files| then MovedOn else NothingNewer)
  }

  /** The cursor has passed everything in its file. */
  predicate Passed(b: seq<Byte>, c: Cursor) { c.header.Some? && !c.skipPartial && c.offset == |b| }

  /** A name that can be read is the cursor's file; one that cannot was renamed. */
  lemma ByName(ps: Parser, log: Log, s: Scope, c: Cursor, pos: nat, consumed: seq<Line>, torn: seq<nat>)
    requires Exact(ps, log, s, c, pos, consumed, torn)
    ensures Exists(log, c.name) <==> log[pos].name == c.name
    ensures Exists(log, c.name) ==> ContentOf(log, c.name) == log[pos].content
    ensures !Exists(log, c.name) ==> !c.sealed && log[pos].name.sealed
  {
    if Exists(log, c.name) {
      var i :| 0 <= i < |log| && log[i].name == c.name;
      assert i == pos;
    }
    ContentAt(log, pos);
  }

  /** A listing in which a reader looked for the file after position pos: the
      directory read, the lookups, what was removed by then, and whether the file
      at pos was given up unread. */
  datatype Seen = Seen(dir: Log, stat: Log, gone: set<nat>, pos: nat, unread: bool)

  /** What a reader counts, the log position of its file, everything it has
      consumed and reported so far, and the listings it moved on by. */
  datatype Mark = Mark(scope: Scope, pos: nat, consumed: seq<Line>, torn: seq<nat>, seen: seq<Seen>)

  const FRESH: Mark := Mark(Scope(0, 0, {}), 0, [], [], [])

  /** Moved on by a listing. */
  ghost function Departed(m: Mark, x: Seen): Mark
    requires Listable(x)
  {
    m.(scope := Onto(m.scope, x), pos := Landing(x), seen := m.seen + [x])
  }

  predicate ExactMark(ps: Parser, log: Log, c: Cursor, m: Mark) {
    Exact(ps, log, m.scope, c, m.pos, m.consumed, m.torn)
  }

  // ---- what a listing shows ----

  /** The first position from p on that a listing shows, or the directory's length. */
  function NextListed(dir: Log, stat: Log, gone: set<nat>, p: nat): (q: nat)
    requires p <= |dir| <= |stat|
    ensures p <= q <= |dir|
    decreases |dir| - p
  {
    if p == |dir| || Shows(dir[p], stat[p], gone) then p else NextListed(dir, stat, gone, p + 1)
  }

  lemma {:induction false} NextListedIs(dir: Log, stat: Log, gone: set<nat>, p: nat)
    requires p <= |dir| <= |stat|
    ensures var q := NextListed(dir, stat, gone, p);
            (q < |dir| ==> Shows(dir[q], stat[q], gone)) && forall i :: p <= i < q ==> !Shows(dir[i], stat[i], gone)
    decreases |dir| - p
  {
    if p < |dir| && !Shows(dir[p], stat[p], gone) { NextListedIs(dir, stat, gone, p + 1); }
  }

  lemma {:induction false} NextListedShifts(dir: Log, stat: Log, gone: set<nat>, p: nat)
    requires p < |dir| <= |stat|
    ensures NextListed(dir, stat, gone, p + 1) == NextListed(dir[1..], stat[1..], gone, p) + 1
    decreases |dir| - p
  {
    if p + 1 < |dir| && !Shows(dir[p + 1], stat[p + 1], gone) { NextListedShifts(dir, stat, gone, p + 1); }
  }

  lemma PastFirst(f: LogFile, rest: seq<LogFile>, index: nat)
    ensures FirstAfter([f] + rest, index) == if f.name.index > index then 0 else FirstAfter(rest, index) + 1
    ensures FirstAt([f] + rest, index) == if f.name.index == index then 0 else FirstAt(rest, index) + 1
  {
    assert ([f] + rest)[1..] == rest;
  }

  lemma ListingFirst(dir: Log, stat: Log, gone: set<nat>)
    requires 0 < |dir| <= |stat|
    ensures Listing(dir, stat, gone) ==
            if Shows(dir[0], stat[0], gone) then [stat[0]] + Listing(dir[1..], stat[1..], gone) else Listing(dir[1..], stat[1..], gone)
  {
  }

  /** Looking for an index above those before position p finds the next listed file. */
  lemma {:induction false} NextInListing(dir: Log, stat: Log, gone: set<nat>, index: nat, p: nat)
    requires p <= |dir| <= |stat|
    requires forall i :: 0 <= i < |dir| ==> (stat[i].name.index > index <==> i >= p)
    ensures var files, q := Listing(dir, stat, gone), NextListed(dir, stat, gone, p);
            var k := FirstAfter(files, index);
            (k < |files| <==> q < |dir|) && (k < |files| ==> files[k] == stat[q])
    decreases |dir|
  {
    hide Listing, FirstAfter, NextListed, Shows;
    if dir == [] {
      ListingOfNone(stat, gone, index);
    } else {
      var d, t := dir[1..], stat[1..];
      ListingFirst(dir, stat, gone);
      PastFirst(stat[0], Listing(d, t, gone), index);
      NextListedHere(dir, stat, gone, p);
      if p > 0 {
        NextListedShifts(dir, stat, gone, p - 1);
        NextInListing(d, t, gone, index, p - 1);
      } else if !Shows(dir[0], stat[0], gone) {
        NextListedShifts(dir, stat, gone, 0);
        NextInListing(d, t, gone, index, 0);
      }
    }
  }

  lemma ListingOfNone(stat: Log, gone: set<nat>, index: nat)
    ensures Listing([], stat, gone) == [] && NextListed([], stat, gone, 0) == 0 && FirstAfter([], index) == 0
  {
  }

  lemma NextListedHere(dir: Log, stat: Log, gone: set<nat>, p: nat)
    requires p <= |dir| <= |stat|
    ensures NextListed(dir, stat, gone, p) == if p == |dir| || Shows(dir[p], stat[p], gone) then p else NextListed(dir, stat, gone, p + 1)
  {
  }

  /** A file is found in a listing if and only if it is still there under its name. */
  lemma {:induction false} SameInListing(dir: Log, stat: Log, gone: set<nat>, pos: nat)
    requires pos < |dir| <= |stat|
    requires forall i :: 0 <= i < |dir| && i != pos ==> stat[i].name.index != stat[pos].name.index
    ensures var files := Listing(dir, stat, gone);
            var k := FirstAt(files, stat[pos].name.index);
            if Shows(dir[pos], stat[pos], gone) then k < |files| && files[k] == stat[pos] else k == |files|
    decreases |dir|
  {
    hide Listing, FirstAt, Shows;
    var rest := Listing(dir[1..], stat[1..], gone);
    ListingFirst(dir, stat, gone);
    PastFirst(stat[0], rest, stat[pos].name.index);
    if pos > 0 { SameInListing(dir[1..], stat[1..], gone, pos - 1); } else { NoneInListing(dir[1..], stat[1..], gone, stat[0].name.index); }
  }

  lemma {:induction false} NoneInListing(dir: Log, stat: Log, gone: set<nat>, index: nat)
    requires |dir| <= |stat| && forall i :: 0 <= i < |dir| ==> stat[i].name.index != index
    ensures FirstAt(Listing(dir, stat, gone), index) == |Listing(dir, stat, gone)|
    decreases |dir|
  {
    if dir != [] {
      hide Listing, FirstAt, Shows;
      ListingFirst(dir, stat, gone);
      PastFirst(stat[0], Listing(dir[1..], stat[1..], gone), index);
      NoneInListing(dir[1..], stat[1..], gone, index);
    } else {
      assert Listing(dir, stat, gone) == [];
    }
  }

  /** Every file of a listing has a position in the log, and was not removed. */
  lemma {:induction false} PlaceOfListed(dir: Log, stat: Log, gone: set<nat>, j: nat) returns (k: nat)
    requires |dir| <= |stat| && j < |Listing(dir, stat, gone)|
    ensures k < |dir| && stat[k] == Listing(dir, stat, gone)[j] && stat[k].name.index !in gone
    decreases |dir|
  {
    if Shows(dir[0], stat[0], gone) {
      if j == 0 { return 0; }
      k := PlaceOfListed(dir[1..], stat[1..], gone, j - 1);
    } else {
      k := PlaceOfListed(dir[1..], stat[1..], gone, j);
    }
    k := k + 1;
  }

  // ---- files a listing passes over ----

  predicate Listable(x: Seen) {
    WellFormed(x.dir) && WellFormed(x.stat) && Extends(x.dir, x.stat) && x.pos < |x.dir|
  }

  function Landing(x: Seen): nat
    requires Listable(x)
  {
    NextListed(x.dir, x.stat, x.gone, x.pos + 1)
  }

  /** The positions between the file asked from and the file found, and the file
      asked from itself if it was given up unread. */
  function SkippedBy(x: Seen): set<nat> {
    if Listable(x) && Landing(x) < |x.dir| then Strictly(x.pos, Landing(x)) + if x.unread then {x.pos} else {} else {}
  }

  function SkippedOf(seen: seq<Seen>): set<nat> {
    if seen == [] then {} else SkippedOf(seen[..|seen| - 1]) + SkippedBy(seen[|seen| - 1])
  }

  /** The scope after moving on by a listing. */
  function Onto(s: Scope, x: Seen): Scope
    requires Listable(x)
  {
    if x.unread then Abandoning(s, x.pos, Landing(x)) else Skipping(s, x.pos, Landing(x))
  }

  /** A listing of a log that stays shows no later file only if none is left. */
  lemma NothingListed(s: Scope, x: Seen)
    requires Listable(x)
    ensures x.pos < Landing(x) <= |x.dir| <= |x.stat| && Whole(Onto(s, x)) == Whole(s)
    ensures x.dir == x.stat && Landing(x) == |x.dir| ==> NoneAfter(x.stat, x.gone, x.pos)
  {
    NextListedIs(x.dir, x.stat, x.gone, x.pos + 1);
    if x.dir == x.stat && Landing(x) == |x.dir| {
      forall j | x.pos < j < |x.stat| ensures x.stat[j].name.index in x.gone { assert !Shows(x.dir[j], x.stat[j], x.gone); }
    }
  }

  lemma NextIsOneOpen(log: Log, gone: set<nat>, script: seq<Moment>, seen: seq<Seen>, x: Seen)
    requires x.dir == Ticked(log, script) && x.gone == GoneNext(GoneNext(gone, script), Later(script)) && (x.unread ==> x.gone != {})
    ensures Successive(log, script) && gone == {} && Keeps(script) && AllOneOpen(seen) ==> AllOneOpen(seen + [x])
  {
    if Keeps(script) {
      KeepsLater(gone, script);
      KeepsLater(GoneNext(gone, script), Later(script));
    }
  }

  /** The listing that the next two looks give. */
  function Sight(log: Log, gone: set<nat>, script: seq<Moment>, pos: nat): Seen {
    Seen(Ticked(log, script), Ticked(Ticked(log, script), Later(script)), GoneNext(GoneNext(gone, script), Later(script)), pos, false)
  }

  /** A finished file's listing passes a file over if and only if the next file was
      removed, or was open at the directory read and sealed at its lookup, and a
      later file was listed. */
  lemma PassesOverIff(x: Seen)
    requires Listable(x) && !x.unread
    ensures SkippedBy(x) != {} <==>
            && x.pos + 1 < |x.dir|
            && (x.stat[x.pos + 1].name.index in x.gone || (!x.dir[x.pos + 1].name.sealed && x.stat[x.pos + 1].name.sealed))
            && exists j :: x.pos + 1 < j < |x.dir| && Shows(x.dir[j], x.stat[j], x.gone)
  {
    var p := Landing(x);
    NextListedIs(x.dir, x.stat, x.gone, x.pos + 1);
    assert x.pos + 1 in Strictly(x.pos, p) <==> x.pos + 1 < p;
    if p < |x.dir| { assert Shows(x.dir[p], x.stat[p], x.gone); }
  }

  /** With only the last file open at the directory read and none removed, none is. */
  lemma OneOpenPassesNothing(x: Seen)
    requires OneOpen(x.dir) && x.gone == {} && !x.unread
    ensures SkippedBy(x) == {}
  {
    if Listable(x) { PassesOverIff(x); }
  }

  predicate AllOneOpen(seen: seq<Seen>) {
    forall i :: 0 <= i < |seen| ==> OneOpen(seen[i].dir) && seen[i].gone == {} && !seen[i].unread
  }

  lemma {:induction false} OneOpenSkipsNothing(seen: seq<Seen>)
    requires AllOneOpen(seen)
    ensures SkippedOf(seen) == {}
  {
    if seen != [] {
      OneOpenSkipsNothing(seen[..|seen| - 1]);
      OneOpenPassesNothing(seen[|seen| - 1]);
    }
  }

  lemma {:induction false} SkippedStay(seen: seq<Seen>, i: nat)
    requires i < |seen|
    ensures SkippedBy(seen[i]) <= SkippedOf(seen)
  {
    if i < |seen| - 1 { SkippedStay(seen[..|seen| - 1], i); }
  }

  lemma MovedIs(x: Seen, c: Cursor)
    requires Listable(x) && c.index == x.stat[x.pos].name.index
    ensures var files, p := Listing(x.dir, x.stat, x.gone), Landing(x);
            && (FirstAfter(files, c.index) < |files| <==> p < |x.dir|)
            && (p == |x.dir| ==> MovedAfter(c, files) == c)
            && (p < |x.dir| ==> x.stat[p].name.index !in x.gone
                                && MovedAfter(c, files) == AtTop(x.stat[p].name))
  {
    hide Listing, FirstAfter;
    NextListedIs(x.dir, x.stat, x.gone, x.pos + 1);
    NextInListing(x.dir, x.stat, x.gone, c.index, x.pos + 1);
  }

  /** A reader at the end of a sealed file enters the first later file listed, or
      stays if none is. Everything up to the file it leaves is consumed. */
  lemma MovesExactly(ps: Parser, log: Log, c: Cursor, m: Mark, x: Seen)
    requires ExactMark(ps, log, c, m) && c.sealed && Passed(log[m.pos].content, c)
    requires Listable(x) && x.stat == log && x.pos == m.pos && !x.unread
    ensures m.consumed == LinesBefore(ps, log, m.scope, m.pos + 1) && Begin(log, m.scope, m.pos).Some?
    ensures var files, p := Listing(x.dir, log, x.gone), Landing(x);
            && (FirstAfter(files, c.index) < |files| <==> p < |x.dir|)
            && (p == |x.dir| ==> MovedAfter(c, files) == c)
            && (p < |x.dir| ==> ExactMark(ps, log, MovedAfter(c, files), m.(scope := Onto(m.scope, x), pos := p))
                                && MovedAfter(c, files).name == log[p].name && log[p].name.index !in x.gone)
  {
    hide LinesBefore, TornBefore, Here, Listing, LinesIn, FirstAfter;
    MovedIs(x, c);
    ExactMove(ps, log, m.scope, c, m.pos, m.consumed, m.torn, Landing(x));
  }

  /** A reader of a removed file of which it has read nothing enters the first later
      file listed, or waits if none is. */
  lemma AbandonsExactly(ps: Parser, log: Log, c: Cursor, m: Mark, x: Seen)
    requires ExactMark(ps, log, c, m) && c.offset == 0
    requires Listable(x) && x.stat == log && x.pos == m.pos && x.unread
    ensures var files, p := Listing(x.dir, log, x.gone), Landing(x);
            && (FirstAfter(files, c.index) < |files| <==> p < |x.dir|)
            && (p == |x.dir| ==> MovedAfter(c, files) == c)
            && (p < |x.dir| ==> ExactMark(ps, log, MovedAfter(c, files), m.(scope := Onto(m.scope, x), pos := p))
                                && MovedAfter(c, files).name == log[p].name && log[p].name.index !in x.gone && m.pos > m.scope.at)
  {
    hide LinesBefore, TornBefore, Here, Listing, LinesIn, FirstAfter;
    MovedIs(x, c);
    UnreadHasNoHeader(ps, log, c, m);
    if Landing(x) < |x.dir| { ExactAbandon(ps, log, m.scope, c, m.pos, m.consumed, m.torn, Landing(x)); }
  }

  lemma UnreadHasNoHeader(ps: Parser, log: Log, c: Cursor, m: Mark)
    requires ExactMark(ps, log, c, m) && c.offset == 0
    ensures c.header.None? && m.pos > m.scope.at
  {
  }

  /** What a listing made after the file could not be read says of it: a file that
      was only sealed is followed; a removed one is a gap if anything of it was
      read, and otherwise moved past. */
  lemma FollowsExactly(ps: Parser, log: Log, c: Cursor, m: Mark, dir: Log, gone: set<nat>)
    requires ExactMark(ps, log, c, m) && m.pos < |dir| && WellFormed(dir) && Extends(dir, log)
    requires c.index in gone || (!c.sealed && dir[m.pos].name.sealed)
    ensures var f := Followed(c, Listing(dir, log, gone));
            if c.index !in gone then f.1 == Renamed && f.0.name == log[m.pos].name && ExactMark(ps, log, f.0, m)
            else if c.offset > 0 then f == (c, Gone)
            else f == (MovedAfter(c, Listing(dir, log, gone)), if FirstAfter(Listing(dir, log, gone), c.index) < |Listing(dir, log, gone)| then MovedOn else NothingNewer)
  {
    hide Listing, FirstAfter;
    SameInListing(dir, log, gone, m.pos);
    if c.index !in gone { ExactRename(ps, log, m.scope, c, m.pos, m.consumed, m.torn); }
  }

  // ---- when a log is read through ----

  /** Every stretch as long as the backtrack holds a line end. */
  predicate ShortRows(b: seq<Byte>)
    requires HasHeader(b)
  {
    forall i :: HeaderEnd(b) <= i <= |b| - TIP_BACKTRACK_BYTES ==> NextNewline(b, i) < i + TIP_BACKTRACK_BYTES
  }

  /** A fresh reader counts from the header, or from at least the backtrack
      before the end, and leaves its first file only past a line boundary. */
  predicate TipStart(log: Log, m: Mark) {
    && m.scope.at < |log| && HasHeader(log[m.scope.at].content)
    && (m.scope.offset == HeaderEnd(log[m.scope.at].content)
        || m.scope.offset + TIP_BACKTRACK_BYTES <= |log[m.scope.at].content|)
    && (m.pos > m.scope.at ==> Begin(log, m.scope, m.scope.at).Some?) && m.scope.skipped == SkippedOf(m.seen)
  }

  lemma TipStartGrows(a: Log, b: Log, m: Mark)
    requires TipStart(a, m) && Extends(a, b)
    ensures TipStart(b, m)
  {
    PrefixNewline(a[m.scope.at].content, b[m.scope.at].content, 0);
    if m.pos > m.scope.at { PrefixOrigin(a[m.scope.at].content, b[m.scope.at].content, m.scope.offset); }
  }

  /** No file after position i is left. */
  predicate NoneAfter(log: Log, gone: set<nat>, i: nat) { forall j :: i < j < |log| ==> log[j].name.index in gone }

  /** Of the files left only the last is open, and every header parses. */
  predicate Orderly(ps: Parser, log: Log, gone: set<nat>, s: Scope) {
    forall i :: s.at <= i < |log| && log[i].name.index !in gone ==>
      && (log[i].name.sealed || NoneAfter(log, gone, i))
      && (HasHeader(log[i].content) ==> FileHeader(ps, log[i].content).Some?)
  }

  /** The first file was not sealed before a line ended after the start. */
  predicate Bounded(log: Log, s: Scope) {
    s.at < |log| ==> Begin(log, s, s.at).Some? || !log[s.at].name.sealed
  }

  predicate Readable(ps: Parser, log: Log, gone: set<nat>, s: Scope) { Orderly(ps, log, gone, s) && Bounded(log, s) }

  /** The reader's file was removed before anything of it was read. */
  predicate Unread(gone: set<nat>, c: Cursor) { c.index in gone && c.offset == 0 }

  /** Besides the files passed over, a reader has given up those beyond its own, and
      its own if that is removed and unread. */
  function GivenUp(log: Log, gone: set<nat>, c: Cursor, m: Mark): Scope {
    m.scope.(skipped := m.scope.skipped + Strictly(m.pos, |log|) + if Unread(gone, c) then {m.pos} else {})
  }

  /** No file beyond the reader's is left; every complete line of the files not given
      up is consumed and every torn tail reported, once and in order. */
  predicate ReadThrough(ps: Parser, log: Log, gone: set<nat>, c: Cursor, m: Mark) {
    var s := GivenUp(log, gone, c, m);
    NoneAfter(log, gone, m.pos) && m.consumed == LinesBefore(ps, log, s, |log|) && m.torn == AllTorn(log, s)
  }

  lemma GivenUpIs(ps: Parser, log: Log, gone: set<nat>, c: Cursor, m: Mark)
    requires ExactMark(ps, log, c, m)
    ensures var s, q := GivenUp(log, gone, c, m), if Unread(gone, c) then m.pos else m.pos + 1;
            LinesBefore(ps, log, s, |log|) == LinesBefore(ps, log, m.scope, q) && AllTorn(log, s) == Joined(SealedTornParts(log, m.scope), q)
  {
    hide LinesBefore, TornBefore, Within, Here, Joined, SealedTornParts;
    PartsPast(ps, log, m.scope, GivenUp(log, gone, c, m), if Unread(gone, c) then m.pos else m.pos + 1, |log|);
  }

  lemma GivenUpBounds(ps: Parser, log: Log, gone: set<nat>, c: Cursor, m: Mark)
    requires ExactMark(ps, log, c, m)
    ensures var s := GivenUp(log, gone, c, m); m.consumed <= LinesBefore(ps, log, s, |log|) && m.torn <= AllTorn(log, s)
    ensures Unread(gone, c) && NoneAfter(log, gone, m.pos) ==> ReadThrough(ps, log, gone, c, m)
  {
    hide LinesBefore, Joined, SealedTornParts, AllTorn;
    GivenUpIs(ps, log, gone, c, m);
    UpToOwn(ps, log, m.scope, c, m.pos, m.consumed, m.torn);
    if Unread(gone, c) { UnreadHasNoHeader(ps, log, c, m); }
  }

  /** The same of the whole log, files passed over included. */
  predicate ReadWhole(ps: Parser, log: Log, m: Mark) {
    m.consumed == LinesBefore(ps, log, Whole(m.scope), |log|) && m.torn == AllTorn(log, Whole(m.scope))
  }

  /** A prefix is the longer whole only if the shorter whole is, too. */
  lemma Squeezed<T>(a: seq<T>, b: seq<T>, c: seq<T>)
    requires a <= b && |b| <= |c| && a == c
    ensures b == c
  {
    assert b[..|a|] == a;
  }

  /** Nothing is recovered from a file that was passed over. */
  lemma WholeIsHarmless(ps: Parser, log: Log, gone: set<nat>, c: Cursor, m: Mark)
    requires ExactMark(ps, log, c, m) && ReadWhole(ps, log, m)
    ensures Harmless(ps, log, GivenUp(log, gone, c, m))
  {
    hide Exact, Harmless, LinesBefore, AllTorn;
    var s := GivenUp(log, gone, c, m);
    GivenUpBounds(ps, log, gone, c, m);
    ScopeIsShorter(ps, log, s);
    Squeezed(m.consumed, LinesBefore(ps, log, s, |log|), LinesBefore(ps, log, Whole(s), |log|));
    Squeezed(m.torn, AllTorn(log, s), AllTorn(log, Whole(s)));
    WholeIff(ps, log, s);
  }

  /** With rows shorter than the backtrack a fresh reader finds its first line
      boundary in the bytes already written, so a seal never leaves it waiting. */
  lemma ShortRowsGiveABoundary(b: seq<Byte>, offset: nat)
    requires HasHeader(b) && ShortRows(b)
    requires offset == HeaderEnd(b) || (HeaderEnd(b) <= offset && offset + TIP_BACKTRACK_BYTES <= |b|)
    ensures Origin(b, offset).Some? && offset <= Origin(b, offset).value <= Max(HeaderEnd(b), offset + TIP_BACKTRACK_BYTES)
  {
    if offset > HeaderEnd(b) { assert NextNewline(b, offset) < offset + TIP_BACKTRACK_BYTES; }
  }

  lemma ShortRowsAreBounded(log: Log, m: Mark)
    requires TipStart(log, m) && HeaderEnd(log[m.scope.at].content) <= m.scope.offset && ShortRows(log[m.scope.at].content)
    ensures Bounded(log, m.scope)
  {
    ShortRowsGiveABoundary(log[m.scope.at].content, m.scope.offset);
  }

  /** A first file sealed without a boundary is never left, and its torn tail never reported. */
  lemma UnboundedIsStuck(ps: Parser, log: Log, gone: set<nat>, c: Cursor, m: Mark)
    requires ExactMark(ps, log, c, m) && TipStart(log, m) && !Bounded(log, m.scope)
    ensures m.pos == m.scope.at && m.torn == [] && !ReadThrough(ps, log, gone, c, m) && !ReadWhole(ps, log, m)
  {
    hide LinesBefore, LinesIn, Here, WellFormed;
    var b, s := log[m.scope.at].content, m.scope;
    assert s.offset < |b| && NextNewline(b, s.offset) == |b|;
    NoNewlineIsTorn(b, s.offset);
    JoinedNothing(TornParts(log, s), s.at);
    FirstTornCounts(log, GivenUp(log, gone, c, m));
    FirstTornCounts(log, Whole(s));
  }

  lemma NoNewlineIsTorn(b: seq<Byte>, offset: nat)
    requires offset < |b| && NextNewline(b, offset) == |b|
    ensures Torn(b)
  {
    NextNewlineFinds(b, offset);
  }

  lemma FirstTornCounts(log: Log, s: Scope)
    requires s.at < |log| && s.at !in s.skipped && log[s.at].name.sealed && Torn(log[s.at].content)
    ensures AllTorn(log, s) != []
  {
    var parts := SealedTornParts(log, s);
    JoinedGrow(parts, s.at + 1, |log|);
    assert Joined(parts, s.at + 1) == Joined(parts, s.at) + [log[s.at].name.index];
  }

  /** Every counted file has a first boundary. */
  lemma EveryFileBegins(ps: Parser, log: Log, c: Cursor, m: Mark)
    requires ExactMark(ps, log, c, m) && Bounded(log, m.scope) && log[m.pos].name.sealed
    ensures Begin(log, m.scope, m.pos).Some?
  {
  }

  /** Caught up in an open file, or at the end of the last one left. */
  lemma Finished(ps: Parser, log: Log, gone: set<nat>, c: Cursor, m: Mark)
    requires ExactMark(ps, log, c, m) && Orderly(ps, log, gone, m.scope) && c.index !in gone
    requires m.consumed == LinesBefore(ps, log, m.scope, m.pos + 1)
    requires !log[m.pos].name.sealed
             || (NoneAfter(log, gone, m.pos) && c.header.Some? && !c.skipPartial && c.offset == |log[m.pos].content|)
    ensures ReadThrough(ps, log, gone, c, m)
  {
    GivenUpIs(ps, log, gone, c, m);
    AllTailsReported(ps, log, m.scope, c, m.pos, m.consumed, m.torn);
  }

  /** What was read through stays so while the log stays. */
  lemma StaysReadThrough(ps: Parser, log: Log, gone: set<nat>, c: Cursor, m: Mark, d: Cursor, n: Mark)
    requires ExactMark(ps, log, c, m) && ReadThrough(ps, log, gone, c, m) && ExactMark(ps, log, d, n) && m.consumed <= n.consumed && m.torn <= n.torn
    requires if n.pos == m.pos then n.scope == m.scope else n.pos > m.pos && d.index !in gone
    requires (c.index in gone ==> c.offset == 0) && (d.index in gone ==> d.offset == 0)
    ensures ReadThrough(ps, log, gone, d, n)
  {
    hide LinesBefore, TornBefore, AllTorn, Within, Here;
    assert n.pos == m.pos;
    GivenUpBounds(ps, log, gone, d, n);
  }

  /** Passes a cursor still has to make over a log that stays: a move for every
      file after its own, a rename, a torn tail. */
  function Left(log: Log, c: Cursor, pos: nat): nat
    requires pos < |log|
  {
    2 * (|log| - 1 - pos) + One(c.name != log[pos].name) + One(!Passed(log[pos].content, c))
  }

  lemma RenameLeavesLess(log: Log, c: Cursor, d: Cursor, pos: nat)
    requires pos < |log| && c.name != log[pos].name && d == c.(name := log[pos].name, sealed := d.sealed)
    ensures Left(log, d, pos) < Left(log, c, pos)
  {
  }

  lemma MoveLeavesLess(log: Log, c: Cursor, d: Cursor, pos: nat, p: nat)
    requires pos < p < |log| && d.name == log[p].name
    ensures Left(log, d, p) < Left(log, c, pos)
  {
  }

  lemma TailLeavesLess(log: Log, c: Cursor, d: Cursor, pos: nat)
    requires pos < |log| && !Passed(log[pos].content, c) && Passed(log[pos].content, d) && d.name == log[pos].name
    ensures Left(log, d, pos) < Left(log, c, pos)
  {
  }

  /** The first bytes of a file show a header that parses. */
  predicate HeadReads(ps: Parser, b: seq<Byte>) {
    HasHeader(b) && HeaderEnd(b) <= MAX_HEADER_BYTES && FileHeader(ps, b).Some?
  }

  /** They show a header that does not parse, or none is to come. */
  predicate HeadFails(ps: Parser, b: seq<Byte>) {
    if HasHeader(b) && HeaderEnd(b) <= MAX_HEADER_BYTES then FileHeader(ps, b).None? else |b| >= MAX_HEADER_BYTES
  }

  lemma HeadShows(ps: Parser, b: seq<Byte>)
    ensures var head := UpTo(b, MAX_HEADER_BYTES);
            var nl := NextNewline(head, 0);
            && (HeadReads(ps, b) <==> nl < |head| && ps.header(head[..nl]).Some?)
            && (HeadFails(ps, b) <==> if nl < |head| then ps.header(head[..nl]).None? else |head| >= MAX_HEADER_BYTES)
  {
    var head := UpTo(b, MAX_HEADER_BYTES);
    var nl := NextNewline(head, 0);
    assert head <= b;
    if nl < |head| {
      PrefixNewline(head, b, 0);
      assert b[..nl] == head[..nl];
    } else {
      NextNewlineFinds(head, 0);
      NextNewlineFinds(b, 0);
      assert forall k :: 0 <= k < |head| ==> b[k] == head[k];
    }
  }

  class Reader {
    const src: Source
    const ps: Parser
    var started: bool
    var index: nat
    var name: FileName
    var sealed: bool
    var offset: nat
    var header: Option<Header>
    var skipPartial: bool

    ghost var mark: Mark

    /** The lines consumed before the gaps reported so far. */
    ghost var past: seq<Line>

    ghost function View(): Cursor
      reads this
    {
      Cursor(index, name, sealed, offset, header, skipPartial)
    }

    /** Every line consumed so far. */
    ghost function Total(): seq<Line>
      reads this
    {
      past + mark.consumed
    }

    ghost predicate Valid()
      reads this, src
    {
      && WellFormed(src.log)
      && if started then ExactMark(ps, src.log, View(), mark) && TipStart(src.log, mark) else mark == FRESH
    }

    constructor (src: Source, ps: Parser)
      requires WellFormed(src.log)
      ensures Valid() && !started && this.src == src && this.ps == ps && past == []
    {
      this.src, this.ps := src, ps;
      started, index, name, sealed, offset, header, skipPartial := false, 0, FileName(0, false), false, 0, None, false;
      mark, past := FRESH, [];
    }

    method Place(c: Cursor)
      modifies `index, `name, `sealed, `offset, `header, `skipPartial
      ensures View() == c
    {
      index, name, sealed, offset, header, skipPartial := c.index, c.name, c.sealed, c.offset, c.header, c.skipPartial;
    }

    /** moveAfter: on to the first listed file of higher index. */
    method MoveAfter(files: seq<LogFile>) returns (moved: bool)
      modifies `index, `name, `sealed, `offset, `header, `skipPartial
      ensures View() == MovedAfter(old(View()), files)
      ensures moved <==> FirstAfter(files, old(index)) < |files|
      ensures forall i :: IsNext(files, old(index), i) ==> moved && View() == AtTop(files[i].name)
      ensures (forall i :: !IsNext(files, old(index), i)) ==> !moved && View() == old(View())
    {
      FirstAfterIs(files, index);
      for i := 0 to |files|
        invariant View() == old(View()) && FirstAfter(files, index) >= i
      {
        if files[i].name.index > index {
          AtMostFirst(files, index, i);
          assert IsNext(files, index, i);
          Place(AtTop(files[i].name));
          return true;
        }
      }
      return false;
    }

    /** handleMissing on a listing: follow a rename, report a file that went
        away while it was read, or move past one that never received a row. */
    method FollowMissing(files: seq<LogFile>) returns (f: Follow)
      modifies this
      ensures (View(), f) == Followed(old(View()), files)
      ensures started == (old(started) && f != Gone)
      ensures mark == old(mark) && past == old(past)
      ensures forall i :: IsFirst(files, old(index), i) ==>
                if files[i].name == old(name) then f == SameName && View() == old(View())
                else f == Renamed && View() == old(View()).(name := files[i].name, sealed := files[i].name.sealed)
      ensures (forall i :: !IsFirst(files, old(index), i)) && old(offset) > 0 ==> f == Gone && !started && View() == old(View())
      ensures (forall i :: !IsFirst(files, old(index), i)) && old(offset) == 0 ==>
                && started == old(started)
                && (forall i :: IsNext(files, old(index), i) ==> f == MovedOn && View() == AtTop(files[i].name))
                && ((forall i :: !IsNext(files, old(index), i)) ==> f == NothingNewer && View() == old(View()))
    {
      FirstAtIs(files, index);
      for i := 0 to |files|
        invariant View() == old(View()) && started == old(started) && FirstAt(files, index) >= i
        invariant mark == old(mark) && past == old(past)
      {
        if files[i].name.index == index {
          AtMostFirstAt(files, index, i);
          assert IsFirst(files, index, i);
          if files[i].name == name { return SameName; }
          name, sealed := files[i].name, files[i].name.sealed;
          return Renamed;
        }
      }
      if offset > 0 {
        started := false;
        return Gone;
      }
      var moved := MoveAfter(files);
      return if moved then MovedOn else NothingNewer;
    }

    // ---- between two calls the log may have grown ----

    /** Nothing was consumed, reported or moved. */
    twostate predicate Stood()
      reads this, src
    {
      started == old(started) && mark == old(mark) && past == old(past) && View() == old(View())
    }

    /** Calls may have been made, and the log is what their moments made it. */
    twostate predicate Between()
      reads src
    {
      && Looked(old(src.log), old(src.script), src.log, src.script) && |src.script| <= |old(src.script)|
      && (old(src.script) == [] ==> src.log == old(src.log) && src.gone == old(src.gone) && !SomeFailed(old(src.script), src.script))
      && old(src.gone) <= src.gone && (old(Keeping()) ==> Keeping())
    }

    /** No file is removed, now or later. */
    ghost predicate Keeping()
      reads src
    {
      src.gone == {} && Keeps(src.script)
    }

    /** At least one call was made. */
    twostate predicate Called()
      reads src
    {
      Between() && (old(src.script) != [] ==> |src.script| < |old(src.script)|)
    }

    /** One of them failed. */
    twostate predicate Lost()
      reads src
    {
      SomeFailed(old(src.script), src.script)
    }

    /** Listings were added to those moved on by; if the schedule removes none and opens
        a file only when the one before is sealed, each has only its last file open. */
    twostate predicate Sighted()
      reads this, src
    {
      && (started ==> old(mark).seen <= mark.seen)
      && (old(Successive(src.log, src.script)) && old(Keeping()) && AllOneOpen(old(mark).seen) ==> AllOneOpen(mark.seen))
    }

    /** The same start; the scope changes only by moving on. */
    twostate predicate Onward()
      reads this, src
    {
      && Sighted() && Whole(mark.scope) == Whole(old(mark).scope) && past == old(past)
      && mark.pos >= old(mark).pos && (mark.pos == old(mark).pos ==> mark.scope == old(mark).scope)
    }

    /** Every complete line up to the current file's end was consumed. */
    ghost predicate CaughtUp()
      reads this, src
    {
      mark.pos < |src.log| && mark.consumed == LinesBefore(ps, src.log, mark.scope, mark.pos + 1)
    }

    method ListFiles() returns (r: ListAnswer, ghost dir: Log)
      requires Valid()
      modifies src
      ensures Valid() && Stood() && Called() && WellFormed(dir) && Extends(old(src.log), dir) && Extends(dir, src.log)
      ensures dir == Ticked(old(src.log), old(src.script)) && |src.script| + 2 >= |old(src.script)| && (old(src.script) == [] ==> dir == src.log)
      ensures if Lost() then r == ListFailed
              else && r == Listed(Listing(dir, src.log, src.gone)) && src.log == Ticked(dir, Later(old(src.script)))
                   && src.gone == GoneNext(GoneNext(old(src.gone), old(src.script)), Later(old(src.script)))
                   && src.script == Later(Later(old(src.script)))
    {
      ghost var script := src.script;
      if Keeping() {
        KeepsLater(src.gone, script);
        KeepsLater(GoneNext(src.gone, script), Later(script));
      }
      r, dir := src.List();
      Grown(old(src.log), dir);
      Grown(dir, src.log);
      OneLook(old(src.log), script);
      OneLook(dir, Later(script));
      if !Fails(script) { LookedOn(old(src.log), script, dir, Later(script), src.log, src.script); }
    }

    /** Growth keeps a reader valid. */
    lemma Grown(log: Log, next: Log)
      requires WellFormed(log) && WellFormed(next) && Extends(log, next)
      requires if started then ExactMark(ps, log, View(), mark) && TipStart(log, mark) else mark == FRESH
      ensures if started then ExactMark(ps, next, View(), mark) && TipStart(next, mark) else mark == FRESH
    {
      if started {
        ExactGrows(ps, log, next, mark.scope, View(), mark.pos, mark.consumed, mark.torn);
        TipStartGrows(log, next, mark);
      }
    }

    method ReadOn() returns (r: ReadAnswer)
      requires Valid() && started
      modifies src
      ensures Valid() && Stood() && Extends(old(src.log), src.log) && Called()
      ensures src.log == Ticked(old(src.log), old(src.script)) && src.script == Later(old(src.script))
      ensures src.gone == GoneNext(old(src.gone), old(src.script))
      ensures Lost() <==> r == ReadFailed
      ensures r.Data? ==> Accurate() && Found(src.log, src.gone, name) && index !in src.gone && r.bytes == src.log[mark.pos].content[offset..]
      ensures r.NotFound? ==> !Found(src.log, src.gone, name) && Missing()
      ensures old(AtEnd()) ==> AtEnd() && offset > 0
    {
      if Keeping() { KeepsLater(src.gone, src.script); }
      r := src.ReadFile(name, offset);
      Grown(old(src.log), src.log);
      OneLook(old(src.log), old(src.script));
      ByName(ps, src.log, mark.scope, View(), mark.pos, mark.consumed, mark.torn);
      SealedStays(ps, old(src.log), src.log, View(), mark);
      if old(AtEnd()) { EndIsRead(); }
    }

    /** The current file was removed, or sealed under another name. */
    ghost predicate Missing()
      reads this, src
    {
      mark.pos < |src.log| && (index in src.gone || (!sealed && src.log[mark.pos].name.sealed))
    }

    /** The next listing, made from a file nothing was read of. */
    twostate function Given(): Seen
      reads this, src
    {
      Sight(old(src.log), old(src.gone), old(src.script), old(mark).pos).(unread := true)
    }

    /** handleMissing once the files are listed. */
    method FollowListed(files: seq<LogFile>, ghost x: Seen) returns (more: bool, err: Error)
      requires Valid() && started && Listable(x) && x.stat == src.log && x.pos == mark.pos && x.unread && files == Listing(x.dir, x.stat, x.gone)
      requires index in x.gone || (!sealed && x.dir[mark.pos].name.sealed)
      modifies this
      ensures Valid() && Total() == old(Total()) && (more ==> err == NoError && Accurate() && index !in x.gone)
      ensures old(index) !in x.gone ==>
                && more && started && mark == old(mark) && past == old(past)
                && name != old(name) && View() == old(View()).(name := name, sealed := sealed)
      ensures old(index) in x.gone && old(offset) > 0 ==>
                err == CoverageGap && !more && !started && View() == old(View())
      ensures old(index) in x.gone && old(offset) == 0 ==>
                && err == NoError && started && past == old(past) && (more <==> Landing(x) < |x.dir|)
                && if more then mark == Departed(old(mark), x) else mark == old(mark) && View() == old(View())
    {
      hide Listing, LinesBefore, TornBefore, Within, Here, WellFormed, FirstAt, FirstAfter, MovedAfter, IsFirst, IsNext, Landing;
      ghost var c, m := View(), mark;
      FollowsExactly(ps, src.log, c, m, x.dir, x.gone);
      var f := FollowMissing(files);
      more, err := f == Renamed || f == MovedOn, if f == Gone then CoverageGap else NoError;
      if f == Gone {
        mark, past := FRESH, past + mark.consumed;
      } else if f != Renamed {
        AbandonsExactly(ps, src.log, c, m, x);
        assert (m.seen + [x])[..|m.seen|] == m.seen;
        if more { mark := Departed(m, x); }
      }
    }

    /** A file found missing is listed, if at all, under another name. */
    lemma MissStays(log: Log, dir: Log)
      requires WellFormed(dir) && WellFormed(src.log) && Extends(log, dir) && Extends(dir, src.log) && mark.pos < |log|
      ensures forall gone :: Listable(Seen(dir, src.log, gone, mark.pos, true))
      ensures log[mark.pos].name.sealed ==> dir[mark.pos].name.sealed
    {
    }

    /** handleMissing: the current file is not there under the name we know. If it
        was only sealed it is followed; if it was removed that is a gap exactly when
        something of it was read. */
    method HandleMissing() returns (more: bool, err: Error)
      requires Valid() && started && Missing()
      modifies this, src
      ensures Valid() && Called() && (more ==> err == NoError && Accurate() && index !in src.gone)
      ensures Total() == old(Total()) && (started ==> Onward() && mark.consumed == old(mark).consumed && mark.torn == old(mark).torn)
      ensures Lost() ==> Stood() && !more && err == Unavailable
      ensures !Lost() && old(index) !in src.gone ==>
                more && started && mark == old(mark) && name != old(name) && View() == old(View()).(name := name, sealed := sealed)
      ensures !Lost() && old(index) in src.gone && old(offset) > 0 ==>
                err == CoverageGap && !more && !started && View() == old(View())
      ensures !Lost() && old(index) in src.gone && old(offset) == 0 ==>
                && err == NoError && started && Listable(Given()) && (more <==> Landing(Given()) < |Given().dir|)
                && (if more then mark == Departed(old(mark), Given()) && mark.pos > old(mark).pos else Stood())
                && (old(src.script) == [] && !more ==> NoneAfter(src.log, src.gone, mark.pos))
    {
      hide Looked, SomeFailed, Listing, Ticked, Successive, AllOneOpen, Valid, Total, Extends, WellFormed, Keeps, Listable, Landing, Whole;
      ghost var log, gone, script := src.log, src.gone, src.script;
      var l, dir := ListFiles();
      if l.ListFailed? { return false, Unavailable; }
      ghost var x := Seen(dir, src.log, src.gone, mark.pos, true);
      MissStays(log, dir);
      NothingListed(mark.scope, x);
      if index in src.gone { NextIsOneOpen(log, gone, script, mark.seen, x); }
      more, err := FollowListed(l.files, x);
    }

    /** Nothing is left for now: an open file, or the end of a sealed one. */
    ghost predicate Resting()
      reads this, src
    {
      CaughtUp() && (!src.log[mark.pos].name.sealed || AtEnd())
    }

    /** The sealed current file is read to its end. */
    ghost predicate AtEnd()
      reads this, src
    {
      Valid() && started && sealed && Passed(src.log[mark.pos].content, View())
    }

    lemma EndIsRead()
      requires AtEnd()
      ensures offset > 0
    {
      if offset == 0 { UnreadHasNoHeader(ps, src.log, View(), mark); }
    }

    method MoveOn(files: seq<LogFile>, ghost x: Seen) returns (more: bool)
      requires AtEnd() && Listable(x) && x.stat == src.log && x.pos == mark.pos && !x.unread && files == Listing(x.dir, x.stat, x.gone)
      modifies this
      ensures Valid() && started && past == old(past) && (more <==> Landing(x) < |x.dir|)
      ensures mark == if more then Departed(old(mark), x) else old(mark).(seen := old(mark).seen + [x])
      ensures if more then Accurate() && index !in x.gone else AtEnd() && CaughtUp() && View() == old(View())
    {
      hide LinesBefore, TornBefore, Within, Here, WellFormed, Listing, FirstAfter, MovedAfter, IsNext, Landing;
      ghost var c, m := View(), mark;
      MovesExactly(ps, src.log, c, m, x);
      more := MoveAfter(files);
      assert View() == MovedAfter(c, files);
      assert (m.seen + [x])[..|m.seen|] == m.seen;
      mark := if more then Departed(m, x) else mark.(seen := m.seen + [x]);
    }

    /** The next listing's directory read and lookups. */
    twostate predicate Sought()
      reads this, src
    {
      mark.seen == old(mark).seen + [Sight(old(src.log), old(src.gone), old(src.script), old(mark).pos)]
    }

    /** The end of a sealed file stays its end. */
    lemma EndStays(log: Log, dir: Log)
      requires Valid() && started && sealed && ExactMark(ps, log, View(), mark) && Passed(log[mark.pos].content, View())
      requires WellFormed(dir) && Extends(log, dir) && Extends(dir, src.log)
      ensures AtEnd() && forall gone :: Listable(Seen(dir, src.log, gone, mark.pos, false))
    {
    }

    /** nextFile moves on if it can. */
    method NextFile() returns (more: bool, err: Error)
      requires AtEnd()
      modifies this, src
      ensures Valid() && started && mark.consumed == old(mark).consumed && mark.torn == old(mark).torn && Onward()
      ensures Called() && if Lost() then !more && err == Unavailable else err == NoError && Sought()
      ensures if more then Accurate() && index !in src.gone && mark.pos > old(mark).pos else mark.pos == old(mark).pos && index == old(index) && AtEnd() && (err == NoError ==> CaughtUp())
      ensures old(src.script) == [] && !more ==> NoneAfter(src.log, src.gone, mark.pos)
    {
      hide Looked, SomeFailed, Listing, Landing, Listable, Onto, Ticked, CaughtUp, Successive, AllOneOpen, Extends, WellFormed, Keeps, ExactMark, TipStart, Passed, Whole;
      ghost var log, gone, script := src.log, src.gone, src.script;
      var l, dir := ListFiles();
      ghost var x := Seen(dir, src.log, src.gone, mark.pos, false);
      EndStays(log, dir);
      if l.ListFailed? { return false, Unavailable; }
      NothingListed(mark.scope, x);
      NextIsOneOpen(log, gone, script, mark.seen, x);
      more := MoveOn(l.files, x);
      err := NoError;
    }

    // ---- one read ----

    /** data is the current file from the cursor to its end. */
    ghost predicate AtData(data: seq<Byte>)
      reads this, src
    {
      Valid() && started && data == src.log[mark.pos].content[offset..]
    }

    /** The header of a file entered at its beginning. */
    method TakeHeader(data: seq<Byte>) returns (rest: seq<Byte>, ok: bool, err: Error)
      requires AtData(data)
      modifies `header, `offset
      ensures Valid() && err in {NoError, HeaderError}
      ensures if ok then err == NoError && header.Some? && AtData(rest) else View() == old(View()) && header.None?
      ensures !ok ==> var b := src.log[mark.pos].content;
                      if err == NoError then !HasHeader(b) && CaughtUp() else HasHeader(b) && FileHeader(ps, b).None?
      ensures old(header).Some? ==> ok && View() == old(View())
    {
      hide TornBefore, TipStart, LinesBefore, Within, Here, WellFormed;
      rest, ok, err := data, true, NoError;
      if header.None? {
        HeaderIsFirst(ps, src.log, View(), mark);
        var nl := NextNewline(data, 0);
        if nl == |data| { return data, false, NoError; }
        var h := ps.header(data[..nl]);
        if h.None? { return data, false, HeaderError; }
        ExactHeader(ps, src.log, mark.scope, View(), mark.pos, mark.consumed, mark.torn);
        header, offset := h, offset + nl + 1;
        rest := data[nl + 1..];
      }
    }

    /** The rest of the line a fresh reader landed in. */
    method TakePartial(data: seq<Byte>) returns (rest: seq<Byte>, ok: bool)
      requires AtData(data) && header.Some?
      modifies `offset, `skipPartial
      ensures Valid() && (ok ==> !skipPartial && AtData(rest))
      ensures !ok ==> skipPartial && CaughtUp() && Begin(src.log, mark.scope, mark.pos).None?
      ensures !old(skipPartial) ==> ok && View() == old(View())
    {
      hide LinesBefore, TornBefore, Within, Here, WellFormed;
      rest, ok := data, true;
      if skipPartial {
        ExactSkip(ps, src.log, mark.scope, View(), mark.pos, mark.consumed, mark.torn);
        var nl := NextNewline(data, 0);
        if nl == |data| {
          SkippingIsCaughtUp(ps, src.log, View(), mark);
          offset := offset + |data|;
          return data, false;
        }
        offset, skipPartial := offset + nl + 1, false;
        rest := data[nl + 1..];
      }
    }

    /** The complete lines; what is left of data has no newline. */
    method TakeLines(data: seq<Byte>) returns (ghost delta: seq<Line>)
      requires AtData(data) && header.Some? && !skipPartial
      modifies `offset, `mark
      ensures Valid() && mark == old(mark).(consumed := old(mark).consumed + delta)
      ensures offset == old(offset) + CompleteLength(data) && CompleteLength(src.log[mark.pos].content[offset..]) == 0
      ensures delta == LinesIn(src.log[mark.pos], header.value, old(offset), offset)
    {
      hide LinesBefore, TornBefore, Within, Here, LinesIn, WellFormed;
      var n := CompleteLength(data);
      delta := LinesIn(src.log[mark.pos], header.value, offset, offset + n);
      ghost var c, m := View(), mark;
      ConsumesExactly(ps, src.log, c, m, n, delta);
      offset := offset + n;
      mark := mark.(consumed := mark.consumed + delta);
      assert View() == c.(offset := c.offset + n);
    }

    method DropTorn(length: nat)
      requires Valid() && started && header.Some? && !skipPartial && sealed
      requires 0 < length == |src.log[mark.pos].content| - offset && CompleteLength(src.log[mark.pos].content[offset..]) == 0
      modifies `offset, `mark
      ensures Valid() && mark == old(mark).(torn := old(mark).torn + [index]) && AtEnd()
    {
      ExactTorn(ps, src.log, mark.scope, View(), mark.pos, mark.consumed, mark.torn);
      offset := offset + length;
      mark := mark.(torn := mark.torn + [index]);
    }

    /** Complete lines taken and parsed with their file's header. */
    method ReadLines(data: seq<Byte>) returns (rows: seq<HashRow>, invalid: nat, ghost delta: seq<Line>)
      requires AtData(data) && header.Some? && !skipPartial
      modifies `offset, `mark
      ensures Valid() && mark == old(mark).(consumed := old(mark).consumed + delta)
      ensures offset == old(offset) + CompleteLength(data) && CompleteLength(src.log[mark.pos].content[offset..]) == 0
      ensures rows == ParsedRows(ps, delta) && invalid == InvalidLines(ps, delta)
    {
      hide LinesBefore, TornBefore, Within, Here, WellFormed;
      var complete := data[..CompleteLength(data)];
      ghost var f, h := src.log[mark.pos], header.value;
      TextOfLines(f, h, offset, |complete|, data);
      delta := TakeLines(data);
      rows, invalid := ParseRows(ps, header.value, complete, f.name.index);
    }

    /** After the complete lines: stop in an open file, report a torn tail, or move on. */
    method FinishFile(length: nat) returns (more: bool, err: Error)
      requires Valid() && started && header.Some? && !skipPartial && Accurate()
      requires length == |src.log[mark.pos].content| - offset && CompleteLength(src.log[mark.pos].content[offset..]) == 0
      modifies this, src
      ensures Valid() && started && Onward() && mark.consumed == old(mark).consumed
      ensures mark.torn == old(mark).torn + if err == TornRow then [index] else []
      ensures err != CoverageGap && err != HeaderError && (more ==> err == NoError)
      ensures if more then mark.pos > old(mark).pos else mark.pos == old(mark).pos && index == old(index)
      ensures Between() && (err == Unavailable <==> Lost()) && (more ==> Accurate() && index !in src.gone)
      ensures !more && err == NoError ==> Resting()
      ensures err == TornRow ==> src.log == old(src.log) && length > 0 && Accurate() && AtEnd()
      ensures old(src.script) == [] && err == NoError && !more && AtEnd() ==> NoneAfter(src.log, src.gone, mark.pos)
      ensures old(sealed) && length == 0 && !Lost() ==> Sought()
    {
      hide Looked, LinesBefore, TornBefore, Within, Here, WellFormed, TipStart, Ticked;
      NoLooks(src.log, src.script);
      if !sealed {
        ExactReadAll(ps, src.log, mark.scope, View(), mark.pos, mark.consumed, mark.torn);
        return false, NoError;
      }
      if length > 0 {
        DropTorn(length);
        return false, TornRow;
      }
      more, err := NextFile();
    }

    /** Past the header: the rest of a partial line, the complete lines, the end of the file. */
    method TakeBody(body: seq<Byte>) returns (rows: seq<HashRow>, invalid: nat, more: bool, err: Error, ghost delta: seq<Line>)
      requires AtData(body) && header.Some? && Accurate()
      modifies this, src
      ensures Valid() && started && Onward() && mark.consumed == old(mark).consumed + delta
      ensures mark.torn == old(mark).torn + if err == TornRow then [index] else []
      ensures rows == ParsedRows(ps, delta) && invalid == InvalidLines(ps, delta)
      ensures err != CoverageGap && err != HeaderError && (if more then err == NoError && mark.pos > old(mark).pos && Accurate() && index !in src.gone else mark.pos == old(mark).pos && index == old(index))
      ensures Between() && (err == Unavailable <==> Lost())
      ensures !more && err == NoError ==> CaughtUp() && (Begin(src.log, mark.scope, mark.pos).None? || Resting())
      ensures err == TornRow ==> src.log == old(src.log) && mark.pos == old(mark).pos && Accurate() && AtEnd()
                                 && !Passed(src.log[mark.pos].content, old(View()))
      ensures old(src.script) == [] && err == NoError && !more && AtEnd() ==> NoneAfter(src.log, src.gone, mark.pos)
      ensures old(AtEnd()) && !Lost() ==> Sought()
    {
      hide Extends, WellFormed, Looked, TipStart, LinesBefore, TornBefore, Within, Here, Begin, Ticked, Successive, AllOneOpen, Keeps, SomeFailed, Whole;
      NoLooks(src.log, src.script);
      var data, ok := TakePartial(body);
      if !ok { return [], 0, false, NoError, []; }
      rows, invalid, delta := ReadLines(data);
      more, err := FinishFile(|data| - CompleteLength(data));
    }

    /** What was read of the current file. */
    method ReadData(data: seq<Byte>) returns (rows: seq<HashRow>, invalid: nat, more: bool, err: Error, ghost delta: seq<Line>)
      requires AtData(data) && Accurate() && index !in src.gone
      modifies this, src
      ensures Valid() && started && Onward() && mark.consumed == old(mark).consumed + delta
      ensures mark.torn == old(mark).torn + if err == TornRow then [index] else []
      ensures Total() == old(Total()) + delta && rows == ParsedRows(ps, delta) && invalid == InvalidLines(ps, delta)
      ensures err != CoverageGap && (if more then err == NoError && mark.pos > old(mark).pos && Accurate() && index !in src.gone else mark.pos == old(mark).pos && index == old(index))
      ensures Between() && (err == Unavailable <==> Lost()) && (err == HeaderError ==> BadHeader())
      ensures !more && err == NoError ==> CaughtUp()
      ensures Readable(ps, src.log, src.gone, mark.scope) && index !in src.gone ==>
                err != HeaderError && (!more && err == NoError ==> Through() || (AtEnd() && old(src.script) != []))
      ensures old(src.script) == [] && (more || err == TornRow) ==> Passes() < old(Passes())
      ensures old(src.script) == [] && err == NoError && !more && AtEnd() ==> NoneAfter(src.log, src.gone, mark.pos)
      ensures old(AtEnd()) && !Lost() ==> Sought()
    {
      hide Extends, Readable, Through, NoneAfter, Left, Looked, LinesBefore, Passed, Valid, Quiet, BadHeader, CaughtUp, Ticked;
      ghost var c, pos := View(), mark.pos;
      rows, invalid, more, err, delta := TakeData(data);
      Orders.Associative(old(past), old(mark).consumed, delta);
      if more { MoveLeavesLess(src.log, c, View(), pos, mark.pos); }
      if err == TornRow { TailLeavesLess(src.log, c, View(), pos); }
      if Readable(ps, src.log, src.gone, mark.scope) && index !in src.gone {
        NoBadHeader();
        if AtEnd() ==> old(src.script) == [] { Rests(more, err); }
      }
    }

    /** The header if it is due, then the body. */
    method TakeData(data: seq<Byte>) returns (rows: seq<HashRow>, invalid: nat, more: bool, err: Error, ghost delta: seq<Line>)
      requires AtData(data) && Accurate()
      modifies this, src
      ensures Valid() && started && Onward() && mark.consumed == old(mark).consumed + delta
      ensures mark.torn == old(mark).torn + if err == TornRow then [index] else []
      ensures rows == ParsedRows(ps, delta) && invalid == InvalidLines(ps, delta)
      ensures err != CoverageGap && (if more then err == NoError && mark.pos > old(mark).pos && Accurate() && index !in src.gone else mark.pos == old(mark).pos && index == old(index))
      ensures Between() && (err == Unavailable <==> Lost()) && (err == HeaderError ==> BadHeader())
      ensures !more && err == NoError ==> CaughtUp() && Quiet()
      ensures err == TornRow ==> src.log == old(src.log) && mark.pos == old(mark).pos && Accurate() && AtEnd()
                                 && !Passed(src.log[mark.pos].content, old(View()))
      ensures old(src.script) == [] && err == NoError && !more && AtEnd() ==> NoneAfter(src.log, src.gone, mark.pos)
      ensures old(AtEnd()) && !Lost() ==> Sought()
    {
      hide Exact, Extends, WellFormed, Looked, TipStart, LinesBefore, Ticked;
      NoLooks(src.log, src.script);
      var body, ok, e := TakeHeader(data);
      if !ok { return [], 0, false, e, []; }
      rows, invalid, more, err, delta := TakeBody(body);
    }

    /** No complete line and no tail is left in the current file. */
    ghost predicate Quiet()
      reads this, src
    {
      mark.pos < |src.log|
      && (!HasHeader(src.log[mark.pos].content) || Begin(src.log, mark.scope, mark.pos).None? || Resting())
    }

    /** One pass of Poll's loop: read to the end of the current file. It reports a gap
        if and only if no call failed, the file was not there to be read, was removed
        by the time of the listing, and something of it had been read. */
    method ReadOnce() returns (rows: seq<HashRow>, invalid: nat, more: bool, err: Error, ghost delta: seq<Line>)
      requires Valid() && started
      modifies this, src
      ensures Valid() && Called() && (err == Unavailable <==> Lost()) && (started <==> err != CoverageGap)
      ensures err == CoverageGap <==>
              && !Lost() && old(offset) > 0 && old(index) in src.gone
              && !Found(Ticked(old(src.log), old(src.script)), GoneNext(old(src.gone), old(src.script)), old(name))
      ensures Total() == old(Total()) + delta && (err == CoverageGap ==> delta == [] && View() == old(View()))
      ensures old(index) in old(src.gone) && old(offset) > 0 && !Lost() ==> err == CoverageGap
      ensures started ==> Onward() && mark.consumed == old(mark).consumed + delta && mark.torn == old(mark).torn + if err == TornRow then [index] else []
      ensures rows == ParsedRows(ps, delta) && invalid == InvalidLines(ps, delta)
      ensures (more ==> err == NoError && Accurate() && index !in src.gone) && (err == HeaderError ==> BadHeader())
      ensures !more && err == NoError ==> CaughtUp() || (index in src.gone && offset == 0)
      ensures started && Readable(ps, src.log, src.gone, mark.scope) && (index !in src.gone || old(src.script) == []) ==>
                err != HeaderError && (!more && err == NoError ==> Through() || (AtEnd() && old(src.script) != []))
      ensures started && old(src.script) == [] ==> index !in src.gone || offset == 0
      ensures started && old(src.script) == [] && (more || err == TornRow) ==> Passes() < old(Passes())
      ensures started && !more ==> mark.pos == old(mark).pos && index == old(index)
      ensures started && old(src.script) == [] && more ==> mark.pos >= old(mark).pos + if old(Accurate()) then 1 else 0
      ensures started && old(AtEnd()) && !Lost() ==>
                mark.seen == old(mark).seen + [Sight(Ticked(old(src.log), old(src.script)), GoneNext(old(src.gone), old(src.script)), Later(old(src.script)), old(mark).pos)]
    {
      hide Valid, Total, AtEnd, Left, Readable, Through, NoneAfter, CaughtUp, BadHeader, Looked, SomeFailed, Ticked, Keeps, Found, GoneNext, Sight,
           Given, Departed, Listable, Landing, Successive, AllOneOpen, Whole;
      rows, invalid, delta := [], 0, [];
      ghost var c, log, script := View(), src.log, src.script;
      var r := ReadOn();
      ghost var log2, script2 := src.log, src.script;
      SuccessiveThen(log, script, log2, script2);
      if r.NotFound? {
        more, err := HandleMissing();
        LookedOn(log, script, log2, script2, src.log, src.script);
        if started && old(src.script) == [] {
          if old(index) !in src.gone { FewerPasses(c); } else if more { FewerFiles(c, old(mark).pos); } else { WaitsThrough(); }
        }
      } else if r.ReadFailed? {
        more, err := false, Unavailable;
      } else {
        rows, invalid, more, err, delta := ReadData(r.bytes);
        LookedOn(log, script, log2, script2, src.log, src.script);
      }
    }

    /** A pass that ends in quiet has read a readable log through. */
    lemma Rests(more: bool, err: Error)
      requires Valid() && started && Readable(ps, src.log, src.gone, mark.scope) && index !in src.gone
      requires !more && err == NoError ==> CaughtUp() && Quiet() && (AtEnd() ==> NoneAfter(src.log, src.gone, mark.pos))
      ensures !more && err == NoError ==> Through()
    {
      if !more && err == NoError {
        if src.log[mark.pos].name.sealed { EveryFileBegins(ps, src.log, View(), mark); }
        Finished(ps, src.log, src.gone, View(), mark);
      }
    }

    lemma NoBadHeader()
      requires Valid() && started && Readable(ps, src.log, src.gone, mark.scope) && index !in src.gone
      ensures !BadHeader()
    {
    }

    /** The files the reader did not read. */
    ghost function Abandoned(): Scope
      reads this, src
    {
      GivenUp(src.log, src.gone, View(), mark)
    }

    /** The log is read through. */
    ghost predicate Through()
      reads this, src
    {
      ReadThrough(ps, src.log, src.gone, View(), mark)
    }

    /** The current file's header is complete and does not parse. */
    ghost predicate BadHeader()
      reads this, src
    {
      mark.pos < |src.log| && HasHeader(src.log[mark.pos].content) && FileHeader(ps, src.log[mark.pos].content).None?
    }

    lemma LandsOnLeft()
      requires Valid() && started && index !in src.gone
      ensures forall i :: 0 <= i < mark.pos ==> !NoneAfter(src.log, src.gone, i)
    {
      hide Within, LinesBefore, Here, TornBefore;
      assert src.log[mark.pos].name.index == index;
    }

    /** Passes still to make if the log stays. */
    ghost function Passes(): nat
      requires Valid() && started
      reads this, src
    {
      Left(src.log, View(), mark.pos)
    }

    lemma FewerPasses(c: Cursor)
      requires Valid() && started && Accurate() && c.name != name && View() == c.(name := name, sealed := sealed)
      ensures Passes() < Left(src.log, c, mark.pos)
    {
      RenameLeavesLess(src.log, c, View(), mark.pos);
    }

    lemma FewerFiles(c: Cursor, pos: nat)
      requires Valid() && started && Accurate() && pos < mark.pos
      ensures Passes() < Left(src.log, c, pos)
    {
      MoveLeavesLess(src.log, c, View(), pos, mark.pos);
    }

    lemma WaitsThrough()
      requires Valid() && started && Unread(src.gone, View()) && NoneAfter(src.log, src.gone, mark.pos)
      ensures Through()
    {
      GivenUpBounds(ps, src.log, src.gone, View(), mark);
    }

    /** The reader knows its file's present name. */
    ghost predicate Accurate()
      reads this, src
    {
      mark.pos < |src.log| && name == src.log[mark.pos].name
    }

    // ---- starting ----

    /** Begins in the newest file listed, at most the backtrack before its end and never inside its header. */
    ghost predicate NearTip(dir: Log, stat: Log, gone: set<nat>)
      reads this, src
    {
      && started && |dir| <= |stat| && mark.pos < |stat| <= |src.log| && mark == Mark(Scope(mark.pos, offset, {}), mark.pos, [], [], [])
      && Listing(dir, stat, gone) != [] && stat[mark.pos] == Listing(dir, stat, gone)[|Listing(dir, stat, gone)| - 1]
      && index !in src.gone
      && var size := |stat[mark.pos].content|;
         var b := src.log[mark.pos].content;
         HasHeader(b) && (offset == HeaderEnd(b) || offset + TIP_BACKTRACK_BYTES <= |b|) && offset + TIP_BACKTRACK_BYTES >= size
    }

    /** The newest listed file and, a moment later, its first bytes. */
    method FetchHead() returns (head: Option<seq<Byte>>, latest: LogFile, err: Error, ghost dir: Log, ghost stat: Log, ghost gone: set<nat>)
      requires Valid() && !started
      modifies src
      ensures Valid() && WellFormed(stat) && Called() && |src.script| + 3 >= |old(src.script)|
      ensures Extends(old(src.log), dir) && Extends(dir, stat) && Extends(stat, src.log) && old(src.gone) <= gone <= src.gone
      ensures err == if Lost() then Unavailable else NoError
      ensures var files := Listing(dir, stat, gone);
              if head.Some? then
                && files != [] && latest == files[|files| - 1] && Found(src.log, src.gone, latest.name) && !Lost()
                && head.value == UpTo(ContentOf(src.log, latest.name), MAX_HEADER_BYTES) && src.script == Later(Later(Later(old(src.script))))
              else Lost() || files == [] || !Found(src.log, src.gone, files[|files| - 1].name)
    {
      hide Exact, TipStart, ContentOf, UpTo, SomeFailed, Looked, Keeps, Listing, Found, Ticked;
      head, latest, err := None, LogFile(FileName(0, false), []), NoError;
      ghost var log, script := src.log, src.script;
      var l, d := ListFiles();
      dir, stat, gone := d, src.log, src.gone;
      ghost var script2 := src.script;
      if l.ListFailed? {
        err := Unavailable;
      } else if l.files != [] {
        latest := l.files[|l.files| - 1];
        if Keeping() { KeepsLater(src.gone, src.script); }
        var h := src.ReadHead(latest.name, MAX_HEADER_BYTES);
        Grown(stat, src.log);
        OneLook(stat, script2);
        LookedOn(log, script, stat, script2, src.log, src.script);
        ExtendsOn(d, stat, src.log);
        if h.ReadFailed? { err := Unavailable; }
        if h.Data? { head := Some(h.bytes); }
      }
    }

    /** Places the cursor, once the head shows a complete header. */
    method BeginAt(latest: LogFile, head: seq<Byte>, ghost dir: Log, ghost stat: Log, ghost gone: set<nat>) returns (err: Error)
      requires Valid() && !started && WellFormed(stat) && Extends(dir, stat) && Extends(stat, src.log)
      requires Listing(dir, stat, gone) != [] && latest == Listing(dir, stat, gone)[|Listing(dir, stat, gone)| - 1]
      requires Found(src.log, src.gone, latest.name) && head == UpTo(ContentOf(src.log, latest.name), MAX_HEADER_BYTES)
      modifies this
      ensures Valid() && (started ==> NearTip(dir, stat, gone) && Accurate() && err == NoError) && past == old(past)
      ensures mark.consumed == [] && mark.torn == [] && mark.seen == []
      ensures var b := ContentOf(src.log, latest.name);
              (started <==> HeadReads(ps, b)) && err == if HeadFails(ps, b) then HeaderError else NoError
    {
      hide Listing, Exact, ContentOf, HeadReads, HeadFails, WellFormed, UpTo;
      ghost var k := PlaceOfListed(dir, stat, gone, |Listing(dir, stat, gone)| - 1);
      HeadOf(stat, src.log, k);
      HeadShows(ps, src.log[k].content);
      var nl := NextNewline(head, 0);
      if nl == |head| { return if |head| >= MAX_HEADER_BYTES then HeaderError else NoError; }
      var hd := ps.header(head[..nl]);
      if hd.None? { return HeaderError; }
      var at := Max(nl + 1, Max(|latest.content|, |head|) - TIP_BACKTRACK_BYTES);
      StartsExactly(ps, stat, src.log, k, head, hd.value, at);
      started, header, skipPartial := true, hd, at > nl + 1;
      index, name, sealed, offset := latest.name.index, latest.name, latest.name.sealed, at;
      mark := Mark(Scope(k, at, {}), k, [], [], []);
      err := NoError;
    }

    /** Over a log that stays the reader starts exactly when the header of the newest file left can be read, and there. */
    ghost predicate StartsStill(err: Error)
      reads this, src
    {
      var files := Listing(src.log, src.log, src.gone);
      && (started <==> Startable(ps, src.log, src.gone)) && (started ==> NoneAfter(src.log, src.gone, mark.pos))
      && (err == HeaderError <==> files != [] && HeadFails(ps, files[|files| - 1].content))
    }

    lemma StillStart(dir: Log, stat: Log, latest: LogFile, fetched: bool, err: Error)
      requires Valid() && Extends(src.log, dir) && Extends(dir, stat) && Extends(stat, src.log)
      requires var files := Listing(dir, stat, src.gone);
               if fetched then
                 && files != [] && latest == files[|files| - 1] && Exists(src.log, latest.name) && (started ==> NearTip(dir, stat, src.gone))
                 && (started <==> HeadReads(ps, ContentOf(src.log, latest.name)))
                 && err == if HeadFails(ps, ContentOf(src.log, latest.name)) then HeaderError else NoError
               else !started && err == NoError && (files == [] || !Found(src.log, src.gone, files[|files| - 1].name))
      ensures StartsStill(err)
    {
      hide Listing, ContentOf, HeadReads, HeadFails, ExactMark, TipStart;
      NothingMoved(src.log, dir, stat, src.gone);
      if started {
        var k := LastListed(src.log, src.gone);
        assert src.log[mark.pos].name.index == src.log[k].name.index;
      }
    }

    method StartReading() returns (err: Error, ghost dir: Log, ghost stat: Log, ghost gone: set<nat>)
      requires Valid() && !started
      modifies this, src
      ensures Valid() && Called() && |src.script| + 3 >= |old(src.script)|
      ensures mark.consumed == [] && mark.torn == [] && mark.seen == [] && past == old(past)
      ensures Extends(old(src.log), dir) && Extends(dir, stat) && Extends(stat, src.log)
      ensures started ==> err == NoError && NearTip(dir, stat, gone) && index !in src.gone && Accurate() && src.script == Later(Later(Later(old(src.script))))
      ensures err == (if Lost() then Unavailable else if err == HeaderError then HeaderError else NoError)
      ensures src.log == old(src.log) && src.gone == old(src.gone) && !Lost() ==> StartsStill(err)
    {
      assert WellFormed(src.log) && mark == FRESH;
      hide Valid, ContentOf, UpTo, Looked, Extends, SomeFailed, HeadReads, HeadFails, NearTip, Later, Listing, WellFormed, Accurate, Found, Keeps, StartsStill;
      var head, latest, e, d, t, g := FetchHead();
      dir, stat, gone, err := d, t, g, e;
      if head.Some? { err := BeginAt(latest, head.value, dir, stat, gone); }
      if src.log == old(src.log) && src.gone == old(src.gone) && !Lost() {
        assert gone == src.gone;
        StillStart(dir, stat, latest, head.Some?, err);
      }
    }

    // ---- Poll ----

    /** The loop of Poll. A call over a log that stays reads it through or leaves
        fewer passes to make; with at most fifteen files to go and no torn row
        and no bad header it catches up. */
    method ReadFiles() returns (rows: seq<HashRow>, invalid: nat, err: Error, ghost delta: seq<Line>)
      requires Valid() && started
      modifies this, src
      ensures Valid() && Called() && (err == Unavailable <==> Lost()) && (started <==> err != CoverageGap) && Sighted()
      ensures err == CoverageGap ==> index in src.gone && offset > 0
      ensures old(index) in old(src.gone) && old(offset) > 0 && err != Unavailable ==> err == CoverageGap && rows == [] && invalid == 0
      ensures old(src.script) == [] ==> (err == CoverageGap <==> old(index) in src.gone && old(offset) > 0)
      ensures Total() == old(Total()) + delta && rows == ParsedRows(ps, delta) && invalid == InvalidLines(ps, delta)
      ensures started ==> Onward() && mark.consumed == old(mark).consumed + delta && mark.torn == old(mark).torn + if err == TornRow then [index] else []
      ensures err == HeaderError ==> BadHeader()
      ensures started && old(src.script) == [] ==> index !in src.gone || offset == 0
      ensures started && old(src.script) == [] && mark.pos > old(mark).pos ==> index !in src.gone
      ensures old(src.script) == [] && err == NoError && (|src.log| - old(mark).pos < MAX_READS_PER_POLL || NoneAfter(src.log, src.gone, old(mark).pos)) ==>
                CaughtUp() || Unread(src.gone, View())
      ensures started && old(src.script) == [] && Readable(ps, src.log, src.gone, mark.scope) ==> Through() || Passes() < old(Passes())
      ensures started && old(AtEnd()) && !Lost() ==>
                && |mark.seen| > |old(mark).seen|
                && mark.seen[|old(mark).seen|] ==
                   Sight(Ticked(old(src.log), old(src.script)), GoneNext(old(src.gone), old(src.script)), Later(old(src.script)), old(mark).pos)
    {
      hide Valid, Total, Readable, Through, Passes, Looked, SomeFailed, CaughtUp, BadHeader, AtEnd, Ticked, Successive, AllOneOpen, Keeps, Found;
      rows, invalid, err, delta := [], 0, NoError, [];
      ghost var log, script := src.log, src.script;
      NoLooks(log, script);
      for i := 0 to MAX_READS_PER_POLL
        invariant Valid() && started && Onward() && mark.torn == old(mark).torn && err == NoError
        invariant Total() == old(Total()) + delta && mark.consumed == old(mark).consumed + delta && rows == ParsedRows(ps, delta) && invalid == InvalidLines(ps, delta)
        invariant Between() && !Lost() && (i > 0 ==> Called() && index !in src.gone)
        invariant i == 0 ==> AtEnd() == old(AtEnd()) && View() == old(View()) && mark == old(mark) && src.log == log && src.gone == old(src.gone) && src.script == script && delta == []
        invariant i > 0 && old(AtEnd()) ==>
                    && |mark.seen| > |old(mark).seen|
                    && mark.seen[|old(mark).seen|] == Sight(Ticked(log, script), GoneNext(old(src.gone), script), Later(script), old(mark).pos)
        invariant i > 0 ==> !(old(index) in old(src.gone) && old(offset) > 0)
        invariant old(src.script) == [] ==> if i == 0 then Passes() == old(Passes()) else Accurate() && Passes() < old(Passes())
        invariant old(src.script) == [] ==> mark.pos >= old(mark).pos + i - 1
        invariant old(src.script) == [] && NoneAfter(src.log, src.gone, old(mark).pos) ==> i <= 1
      {
        ghost var log2, script2 := src.log, src.script;
        SuccessiveThen(log, script, log2, script2);
        var r, n, more, e, d := ReadOnce();
        LookedOn(log, script, log2, script2, src.log, src.script);
        ParsingJoins(ps, delta, d);
        Orders.Associative(old(Total()), delta, d);
        Orders.Associative(old(mark).consumed, delta, d);
        rows, invalid, err, delta := rows + r, invalid + n, e, delta + d;
        if !more { return; }
        if mark.pos > old(mark).pos { LandsOnLeft(); }
      }
      assert old(src.script) == [] ==> mark.pos < |src.log|;
    }

    /** Complete rows since the last call, with the number of lines that could
        not be parsed. Whatever happened between the calls, what was consumed is
        exactly the counted lines up to the cursor, each parsed or counted once. */
    method PollOnce() returns (rows: seq<HashRow>, invalid: nat, err: Error, ghost delta: seq<Line>)
      requires Valid()
      modifies this, src
      ensures Valid() && Sighted() && (old(started) && started ==> Onward())
      ensures err == CoverageGap ==> !started && index in src.gone && offset > 0
      ensures old(started) ==> (started <==> err != CoverageGap)
      ensures old(started) && old(index) in old(src.gone) && old(offset) > 0 && err != Unavailable ==> err == CoverageGap && rows == [] && invalid == 0
      ensures old(src.script) == [] ==> (err == CoverageGap <==> old(started) && old(index) in src.gone && old(offset) > 0)
      ensures old(Keeping()) ==> err != CoverageGap && past == old(past)
      ensures Total() == old(Total()) + delta && rows == ParsedRows(ps, delta) && invalid == InvalidLines(ps, delta)
      ensures started ==> mark.consumed == old(mark).consumed + delta && mark.torn == old(mark).torn + if err == TornRow then [index] else []
      ensures (old(started) ==> |src.log| - old(mark).pos < MAX_READS_PER_POLL || NoneAfter(src.log, src.gone, old(mark).pos))
              && old(src.script) == [] && err == NoError && started ==>
                CaughtUp() || Unread(src.gone, View())
      ensures Called() && (err == Unavailable <==> Lost()) && (err == HeaderError && old(started) ==> BadHeader())
      ensures old(src.script) == [] && !old(started) ==> (started <==> Startable(ps, src.log, src.gone))
      ensures started && old(src.script) == [] ==> index !in src.gone || offset == 0
      ensures old(started) && started && old(src.script) == [] && mark.pos > old(mark).pos ==> index !in src.gone
      ensures old(started) && started && old(src.script) == [] && Readable(ps, src.log, src.gone, mark.scope) ==> Through() || Passes() < old(Passes())
    {
      hide Exact, WellFormed, Readable, Through, Left, Looked, SomeFailed, TipStart, Startable, AtEnd, Ticked, Successive, AllOneOpen, Keeps;
      rows, invalid, err, delta := [], 0, NoError, [];
      ghost var log, script := src.log, src.script;
      if !started {
        var e, d, t, g := StartReading();
        if !started { return [], 0, e, []; }
      } else {
        NoLooks(log, script);
      }
      ghost var log2, script2 := src.log, src.script;
      SuccessiveThen(log, script, log2, script2);
      rows, invalid, err, delta := ReadFiles();
      LookedOn(log, script, log2, script2, src.log, src.script);
    }
  }

  lemma SuccessiveThen(log: Log, a: seq<Moment>, now: Log, b: seq<Moment>)
    requires Looked(log, a, now, b)
    ensures Successive(log, a) ==> Successive(now, b)
  {
    if Successive(log, a) { SuccessiveOn(log, a, |a| - |b|); }
  }

  lemma SealedStays(ps: Parser, a: Log, b: Log, c: Cursor, m: Mark)
    requires ExactMark(ps, a, c, m) && Extends(a, b)
    ensures c.sealed ==> b[m.pos] == a[m.pos]
  {
  }

  lemma ExtendsOn(a: Log, b: Log, c: Log)
    requires Extends(a, b) && Extends(b, c)
    ensures Extends(a, c)
  {
    forall i | 0 <= i < |a| ensures a[i].content <= c[i].content { PrefixTrans(a[i].content, b[i].content, c[i].content); }
  }

  lemma ExtendsBack(a: Log, b: Log)
    requires Extends(a, b) && Extends(b, a)
    ensures a == b
  {
    forall i | 0 <= i < |a| ensures a[i] == b[i] {
      assert a[i].content == b[i].content;
    }
  }

  /** A log that is the same after a listing stayed the same during it. */
  lemma NothingMoved(log: Log, dir: Log, stat: Log, gone: set<nat>)
    requires WellFormed(log) && Extends(log, dir) && Extends(dir, stat) && Extends(stat, log)
    ensures dir == stat == log
    ensures var files := Listing(log, log, gone);
            files != [] ==> var f := files[|files| - 1]; Found(log, gone, f.name) && ContentOf(log, f.name) == f.content
  {
    ExtendsOn(dir, stat, log);
    ExtendsBack(log, dir);
    ExtendsBack(stat, log);
    if Listing(log, log, gone) != [] {
      var k := LastListed(log, gone);
      ContentAt(log, k);
    }
  }

  /** The last file of a listing is the last one left. */
  lemma {:induction false} LastListed(log: Log, gone: set<nat>) returns (k: nat)
    requires Listing(log, log, gone) != []
    ensures k < |log| && log[k] == Listing(log, log, gone)[|Listing(log, log, gone)| - 1] && log[k].name.index !in gone && NoneAfter(log, gone, k)
    decreases |log|
  {
    ListingFirst(log, log, gone);
    if Listing(log[1..], log[1..], gone) == [] {
      NoneListed(log[1..], gone);
      return 0;
    }
    k := LastListed(log[1..], gone);
    k := k + 1;
  }

  lemma {:induction false} NoneListed(log: Log, gone: set<nat>)
    requires Listing(log, log, gone) == []
    ensures forall i :: 0 <= i < |log| ==> log[i].name.index in gone
    decreases |log|
  {
    if log != [] {
      ListingFirst(log, log, gone);
      NoneListed(log[1..], gone);
    }
  }

  lemma PassesAtMost(log: Log, c: Cursor, pos: nat)
    requires pos < |log|
    ensures Left(log, c, pos) <= 2 * |log|
  {
  }

  /** How far a reader has come after f polls over a log that stays. */
  predicate Settled(ps: Parser, log: Log, gone: set<nat>, c: Cursor, m: Mark, f: nat) {
    && m.pos < |log| && (c.index in gone ==> c.offset == 0)
    && (Readable(ps, log, gone, m.scope) ==> ReadThrough(ps, log, gone, c, m) || Left(log, c, m.pos) + f <= 2 * |log| + 2)
  }

  lemma SameReadable(ps: Parser, log: Log, gone: set<nat>, s: Scope, t: Scope)
    requires Whole(s) == Whole(t)
    ensures Readable(ps, log, gone, s) <==> Readable(ps, log, gone, t)
  {
  }

  /** One more poll. */
  lemma SettlesFurther(ps: Parser, log: Log, gone: set<nat>, c: Cursor, m: Mark, d: Cursor, n: Mark, f: nat)
    requires ExactMark(ps, log, c, m) && ExactMark(ps, log, d, n) && m.consumed <= n.consumed && m.torn <= n.torn
    requires Whole(n.scope) == Whole(m.scope) && if n.pos == m.pos then n.scope == m.scope else n.pos > m.pos && d.index !in gone
    requires (c.index in gone ==> c.offset == 0) && (d.index in gone ==> d.offset == 0)
    requires Readable(ps, log, gone, n.scope) ==> ReadThrough(ps, log, gone, d, n) || Left(log, d, n.pos) < Left(log, c, m.pos)
    requires f > 0 ==> Settled(ps, log, gone, c, m, f)
    ensures Settled(ps, log, gone, d, n, f + 1)
  {
    hide Exact, Readable, ReadThrough;
    assert m.pos < |log| && n.pos < |log| by { ExactPlaces(ps, log, c, m); ExactPlaces(ps, log, d, n); }
    PassesAtMost(log, d, n.pos);
    SameReadable(ps, log, gone, m.scope, n.scope);
    if ReadThrough(ps, log, gone, c, m) { StaysReadThrough(ps, log, gone, c, m, d, n); }
  }

  lemma ExactPlaces(ps: Parser, log: Log, c: Cursor, m: Mark)
    requires ExactMark(ps, log, c, m)
    ensures m.pos < |log|
  {
  }

  /** Of the polls so far, f were made over a log that stays. The first of them may
      have reported a gap; the next starts again. */
  ghost predicate Still(r: Reader, f: nat)
    requires r.Valid()
    reads r, r.src
  {
    f > 0 ==>
      && r.src.script == []
      && if r.started then Settled(r.ps, r.src.log, r.src.gone, r.View(), r.mark, f) else f > 1 ==> !Startable(r.ps, r.src.log, r.src.gone)
  }

  /** Two polls for each file and three more are enough. */
  lemma StillIsThrough(r: Reader, f: nat)
    requires r.Valid() && Still(r, f) && f >= 2 * |r.src.log| + 3
    ensures Startable(r.ps, r.src.log, r.src.gone) ==> r.started
    ensures r.started && Readable(r.ps, r.src.log, r.src.gone, r.mark.scope) ==> r.Through()
    ensures r.started && Orderly(r.ps, r.src.log, r.src.gone, r.mark.scope) ==>
              (ReadWhole(r.ps, r.src.log, r.mark) <==> Bounded(r.src.log, r.mark.scope) && Harmless(r.ps, r.src.log, r.Abandoned()))
  {
    hide Exact, LinesBefore, AllTorn, Bounded, Harmless, Orderly, Startable;
    if r.started && Orderly(r.ps, r.src.log, r.src.gone, r.mark.scope) {
      if !Bounded(r.src.log, r.mark.scope) {
        UnboundedIsStuck(r.ps, r.src.log, r.src.gone, r.View(), r.mark);
      } else {
        WholeIff(r.ps, r.src.log, r.Abandoned());
        if ReadWhole(r.ps, r.src.log, r.mark) { WholeIsHarmless(r.ps, r.src.log, r.src.gone, r.View(), r.mark); }
      }
    }
  }

  /** One poll of a caller's loop. */
  method PollAgain(r: Reader, ghost f: nat) returns (rows: seq<HashRow>, invalid: nat, ghost delta: seq<Line>, ghost g: nat)
    requires r.Valid() && Still(r, f)
    modifies r, r.src
    ensures r.Valid() && r.Sighted() && r.Called() && (old(r.started) && r.started ==> r.Onward()) && Still(r, g)
    ensures r.Total() == old(r.Total()) + delta && rows == ParsedRows(r.ps, delta) && invalid == InvalidLines(r.ps, delta)
    ensures |r.src.script| + 1 + f <= |old(r.src.script)| + g
    ensures old(r.Keeping()) ==> (old(r.started) ==> r.started) && r.past == old(r.past)
  {
    hide Extends, WellFormed, Readable, ReadThrough, SomeFailed, TipStart, Startable, Left, Exact, LinesBefore, Successive, AllOneOpen, Keeps;
    ghost var c, m, was := r.View(), r.mark, r.started;
    g := if r.src.script == [] then f + 1 else f;
    var e;
    rows, invalid, e, delta := r.PollOnce();
    if old(r.src.script) == [] && r.started {
      ExactPlaces(r.ps, r.src.log, r.View(), r.mark);
      PassesAtMost(r.src.log, r.View(), r.mark.pos);
      if was { SettlesFurther(r.ps, r.src.log, r.src.gone, c, m, r.View(), r.mark, f); }
    }
  }

  /** Any number of polls, whatever happens between their calls. Every consumed
      line was returned as a row or counted as invalid, once, and the lines
      consumed since the last gap are a prefix of all lines of the files not passed
      over. Once the schedule is used up and the log stays, two polls for each of its
      files and three more leave no file beyond the reader, with every complete line
      of the files it did not give up consumed and every torn tail reported; and this
      is all of the log if and only if the first file was not sealed before a line
      ended after the start and no file given up holds either. If no file is removed
      there is no gap, and with a schedule that opens a file only when the one before
      is sealed none is passed over. */
  method Tail(r: Reader, polls: nat) returns (rows: seq<HashRow>, invalid: nat)
    requires r.Valid() && !r.started && r.past == []
    modifies r, r.src
    ensures r.Valid() && rows == ParsedRows(r.ps, r.Total()) && |rows| + invalid == |r.Total()|
    ensures r.started ==> r.mark.consumed <= LinesBefore(r.ps, r.src.log, r.mark.scope, |r.src.log|) && r.mark.torn <= AllTorn(r.src.log, r.mark.scope)
    ensures r.started ==> r.mark.scope.skipped == SkippedOf(r.mark.seen)
    ensures old(r.Keeping()) ==> r.Total() == r.mark.consumed
    ensures old(r.Keeping()) && old(Successive(r.src.log, r.src.script)) ==> r.mark.scope.skipped == {}
    ensures polls >= |old(r.src.script)| + 2 * |r.src.log| + 3 && (r.started || Startable(r.ps, r.src.log, r.src.gone)) ==>
              && r.started && (Readable(r.ps, r.src.log, r.src.gone, r.mark.scope) ==> r.Through())
              && (Orderly(r.ps, r.src.log, r.src.gone, r.mark.scope) ==>
                    (ReadWhole(r.ps, r.src.log, r.mark) <==> Bounded(r.src.log, r.mark.scope) && Harmless(r.ps, r.src.log, r.Abandoned())))
  {
    BeginsStill(r);
    hide Reader.Valid, Reader.Total, Reader.Through, Still, Orderly, Bounded, Harmless, ReadWhole, Startable, Successive, Keeps, Looked, AllOneOpen;
    rows, invalid := [], 0;
    ghost var still: nat, log, script := 0, r.src.log, r.src.script;
    NoLooks(log, script);
    for i := 0 to polls
      invariant r.Valid() && rows == ParsedRows(r.ps, r.Total()) && invalid == InvalidLines(r.ps, r.Total()) && Still(r, still)
      invariant i + |r.src.script| <= |old(r.src.script)| + still && (old(r.Keeping()) ==> r.Keeping() && r.past == [])
      invariant Looked(log, script, r.src.log, r.src.script) && (Successive(log, script) && old(r.Keeping()) ==> AllOneOpen(r.mark.seen))
    {
      ghost var before, log2, script2 := r.Total(), r.src.log, r.src.script;
      SuccessiveThen(log, script, log2, script2);
      var more, bad, delta, next := PollAgain(r, still);
      LookedOn(log, script, log2, script2, r.src.log, r.src.script);
      ParsingJoins(r.ps, before, delta);
      rows, invalid, still := rows + more, invalid + bad, next;
    }
    EveryLineAccounted(r.ps, r.Total());
    EndsStill(r);
    if still >= 2 * |r.src.log| + 3 { StillIsThrough(r, still); }
  }

  lemma BeginsStill(r: Reader)
    requires r.Valid() && !r.started && r.past == []
    ensures Still(r, 0) && r.Total() == [] && AllOneOpen(r.mark.seen)
  {
  }

  /** What a reader has consumed, reported and passed over, at any time. */
  lemma EndsStill(r: Reader)
    requires r.Valid()
    ensures r.started ==> r.mark.consumed <= LinesBefore(r.ps, r.src.log, r.mark.scope, |r.src.log|) && r.mark.torn <= AllTorn(r.src.log, r.mark.scope)
    ensures r.started ==> r.mark.scope.skipped == SkippedOf(r.mark.seen)
    ensures AllOneOpen(r.mark.seen) ==> r.mark.scope.skipped == {}
    ensures r.past == [] ==> r.Total() == r.mark.consumed
  {
    hide Exact, LinesBefore, AllTorn, AllOneOpen;
    if AllOneOpen(r.mark.seen) { OneOpenSkipsNothing(r.mark.seen); }
    if r.started {
      ExactIsPrefix(r.ps, r.src.log, r.mark.scope, r.View(), r.mark.pos, r.mark.consumed, r.mark.torn);
      TornIsPrefix(r.ps, r.src.log, r.mark.scope, r.View(), r.mark.pos, r.mark.consumed, r.mark.torn);
    }
  }

  /** The newest file left shows a header that parses. */
  predicate Startable(ps: Parser, log: Log, gone: set<nat>) {
    var files := Listing(log, log, gone);
    files != [] && HeadReads(ps, files[|files| - 1].content)
  }

  /** A file found under its listed name keeps its place. */
  lemma HeadOf(stat: Log, log: Log, k: nat)
    requires k < |stat| && WellFormed(log) && Extends(stat, log) && Exists(log, stat[k].name)
    ensures log[k].name == stat[k].name && ContentOf(log, stat[k].name) == log[k].content
  {
    var i :| 0 <= i < |log| && log[i].name == stat[k].name;
    assert i == k;
    ContentAt(log, i);
  }

  /** A head of a listed file, read a moment later, places an exact cursor. */
  lemma StartsExactly(ps: Parser, stat: Log, log: Log, k: nat, head: seq<Byte>, h: Header, at: nat)
    requires k < |stat| && WellFormed(log) && Extends(stat, log)
    requires var latest := stat[k];
             && Exists(log, latest.name) && head == UpTo(ContentOf(log, latest.name), MAX_HEADER_BYTES)
             && NextNewline(head, 0) < |head| && ps.header(head[..NextNewline(head, 0)]) == Some(h)
             && at == Max(NextNewline(head, 0) + 1, Max(|latest.content|, |head|) - TIP_BACKTRACK_BYTES)
    ensures var latest := stat[k];
            && HasHeader(log[k].content) && HeaderEnd(log[k].content) == NextNewline(head, 0) + 1
            && (at == HeaderEnd(log[k].content) || at + TIP_BACKTRACK_BYTES <= |log[k].content|)
            && ExactMark(ps, log, Cursor(latest.name.index, latest.name, latest.name.sealed, at, Some(h), at > NextNewline(head, 0) + 1),
                         Mark(Scope(k, at, {}), k, [], [], []))
  {
    hide Exact, ContentOf;
    var latest := stat[k];
    var nl := NextNewline(head, 0);
    HeadOf(stat, log, k);
    var b := log[k].content;
    assert head <= b;
    PrefixNewline(head, b, 0);
    assert b[..nl] == head[..nl];
    ExactStart(ps, log, k, Cursor(latest.name.index, latest.name, latest.name.sealed, at, Some(h), at > nl + 1));
  }

  lemma TextOfLines(f: LogFile, h: Header, o: nat, n: nat, data: seq<Byte>)
    requires o <= |f.content| && data == f.content[o..] && n <= |data|
    ensures LinesIn(f, h, o, o + n) == Tagged(f.name.index, h, Lines(data[..n]))
  {
    assert data[..n] == f.content[o..o + n];
  }

  lemma CompleteRest(b: seq<Byte>, o: nat, n: nat)
    requires o <= |b| && n == CompleteLength(b[o..])
    ensures CompleteLength(b[o + n..]) == 0
  {
    CompleteLengthFinds(b[o..]);
    CompleteLengthFinds(b[o + n..]);
    assert b[o + n..] == b[o..][n..];
  }

  lemma ConsumesExactly(ps: Parser, log: Log, c: Cursor, m: Mark, n: nat, delta: seq<Line>)
    requires ExactMark(ps, log, c, m) && c.header.Some? && !c.skipPartial && n == CompleteLength(log[m.pos].content[c.offset..])
    requires delta == LinesIn(log[m.pos], c.header.value, c.offset, c.offset + n)
    ensures ExactMark(ps, log, c.(offset := c.offset + n), m.(consumed := m.consumed + delta))
    ensures CompleteLength(log[m.pos].content[c.offset + n..]) == 0
  {
    hide LinesBefore, TornBefore, Within, Here, WellFormed;
    ExactConsume(ps, log, m.scope, c, m.pos, m.consumed, m.torn, n, delta);
    CompleteRest(log[m.pos].content, c.offset, n);
  }

  lemma HeaderIsFirst(ps: Parser, log: Log, c: Cursor, m: Mark)
    requires ExactMark(ps, log, c, m) && c.header.None?
    ensures c.offset == 0 && log[m.pos].content[c.offset..] == log[m.pos].content
    ensures FileHeader(ps, log[m.pos].content).None? ==> m.consumed == LinesBefore(ps, log, m.scope, m.pos + 1)
  {
  }

  lemma SkippingIsCaughtUp(ps: Parser, log: Log, c: Cursor, m: Mark)
    requires ExactMark(ps, log, c, m) && c.skipPartial && c.header.Some?
    requires var d := log[m.pos].content[c.offset..]; NextNewline(d, 0) == |d|
    ensures m.consumed == LinesBefore(ps, log, m.scope, m.pos + 1) && Begin(log, m.scope, m.pos).None?
  {
    NewlineFrom(log[m.pos].content, m.scope.offset, c.offset);
    assert Begin(log, m.scope, m.pos).None?;
  }

  lemma {:induction false} AtMostFirst(files: seq<LogFile>, index: nat, i: nat)
    requires i < |files| && files[i].name.index > index
    ensures FirstAfter(files, index) <= i
  {
    if i > 0 { AtMostFirst(files[1..], index, i - 1); }
  }

  lemma {:induction false} AtMostFirstAt(files: seq<LogFile>, index: nat, i: nat)
    requires i < |files| && files[i].name.index == index
    ensures FirstAt(files, index) <= i
  {
    if i > 0 { AtMostFirstAt(files[1..], index, i - 1); }
  }
}
