/** What a tailing cursor means: the lines consumed so far are exactly the
    complete non-header lines from the start point up to the cursor, and no
    growth of the log changes that. */
module Tailing {
  import opened Options
  import opened Orders
  import opened HashLog

  type Header = seq<string>

  datatype HashRow = HashRow(height: int, hashes: map<string, string>)

  /** Line parsing is a parameter. */
  datatype Parser = Parser(header: seq<Byte> -> Option<Header>, row: (Header, seq<Byte>) -> Option<HashRow>)

  /** A line with the index and the header of its file. */
  datatype Line = Line(file: nat, header: Header, text: seq<Byte>)

  // ---- the lines of a log ----

  /** What a reader counts: everything from a byte offset in the file at a log
      position on, without the files it passed over. */
  datatype Scope = Scope(at: nat, offset: nat, skipped: set<nat>)

  predicate Counts(s: Scope, i: nat) { s.at <= i && i !in s.skipped }

  /** The scope with nothing passed over. */
  function Whole(s: Scope): Scope { s.(skipped := {}) }

  /** The first line boundary a reader started at offset counts from. */
  function Origin(b: seq<Byte>, offset: nat): (o: Option<nat>)
    ensures o.Some? ==> o.value <= |b|
  {
    if !HasHeader(b) || offset > |b| then None
    else if offset <= HeaderEnd(b) then Some(HeaderEnd(b))
    else if NextNewline(b, offset) < |b| then Some(NextNewline(b, offset) + 1)
    else None
  }

  /** Where the counted lines of file i begin, once that is known. */
  function Begin(log: Log, s: Scope, i: nat): Option<nat>
    requires i < |log|
  {
    Origin(log[i].content, if i == s.at then s.offset else 0)
  }

  function FileHeader(ps: Parser, b: seq<Byte>): Option<Header> {
    if HasHeader(b) then ps.header(b[..HeaderEnd(b) - 1]) else None
  }

  function Tagged(file: nat, header: Header, texts: seq<seq<Byte>>): seq<Line> {
    if texts == [] then [] else [Line(file, header, texts[0])] + Tagged(file, header, texts[1..])
  }

  lemma {:induction false} TaggedJoin(file: nat, header: Header, a: seq<seq<Byte>>, b: seq<seq<Byte>>)
    ensures Tagged(file, header, a + b) == Tagged(file, header, a) + Tagged(file, header, b)
    decreases |a|
  {
    if a == [] {
      assert a + b == b;
    } else {
      TaggedJoin(file, header, a[1..], b);
      assert (a + b)[1..] == a[1..] + b;
    }
  }

  /** The complete lines of f between two offsets. */
  function LinesIn(f: LogFile, h: Header, begin: nat, n: nat): seq<Line>
    requires begin <= n <= |f.content|
  {
    Tagged(f.name.index, h, Lines(f.content[begin..n]))
  }

  /** All complete counted lines of file i. */
  function FileLines(ps: Parser, log: Log, s: Scope, i: nat): seq<Line>
    requires i < |log|
  {
    var f, begin := log[i], Begin(log, s, i);
    if begin.None? || FileHeader(ps, f.content).None? then []
    else LinesIn(f, FileHeader(ps, f.content).value, begin.value, |f.content|)
  }

  /** The first k parts, one after another. */
  function Joined<T>(parts: seq<seq<T>>, k: nat): seq<T>
    requires k <= |parts|
  {
    if k == 0 then [] else Joined(parts, k - 1) + parts[k - 1]
  }

  lemma {:induction false} JoinedGrow<T>(parts: seq<seq<T>>, k: nat, m: nat)
    requires k <= m <= |parts|
    ensures Joined(parts, k) <= Joined(parts, m)
    decreases m
  {
    if k < m { JoinedGrow(parts, k, m - 1); }
  }

  lemma {:induction false} JoinedSame<T>(a: seq<seq<T>>, b: seq<seq<T>>, k: nat)
    requires k <= |a| && k <= |b| && forall i :: 0 <= i < k ==> a[i] == b[i]
    ensures Joined(a, k) == Joined(b, k)
  {
    if k > 0 { JoinedSame(a, b, k - 1); }
  }

  lemma {:induction false} JoinedNothing<T>(parts: seq<seq<T>>, k: nat)
    requires k <= |parts| && forall i :: 0 <= i < k ==> parts[i] == []
    ensures Joined(parts, k) == []
  {
    if k > 0 { JoinedNothing(parts, k - 1); }
  }

  lemma {:induction false} JoinedCount<T>(parts: seq<seq<T>>, k: nat, i: nat, x: T)
    requires k <= |parts| && i < |parts| && forall j :: 0 <= j < k && j != i ==> x !in parts[j]
    ensures multiset(Joined(parts, k))[x] == if i < k then multiset(parts[i])[x] else 0
  {
    if k > 0 {
      JoinedCount(parts, k - 1, i, x);
      assert k - 1 != i ==> x !in multiset(parts[k - 1]);
    }
  }

  function LineParts(ps: Parser, log: Log, s: Scope): seq<seq<Line>> {
    seq(|log|, i requires 0 <= i < |log| => if Counts(s, i) then FileLines(ps, log, s, i) else [])
  }

  function TornParts(log: Log, s: Scope): seq<seq<nat>> {
    seq(|log|, i requires 0 <= i < |log| => if Counts(s, i) && Torn(log[i].content) then [log[i].name.index] else [])
  }

  /** The counted lines of the files before position k, in file order. */
  function LinesBefore(ps: Parser, log: Log, s: Scope, k: nat): seq<Line>
    requires k <= |log|
  {
    Joined(LineParts(ps, log, s), k)
  }

  /** The files before position k whose sealed tail is torn. */
  function TornBefore(log: Log, s: Scope, k: nat): seq<nat>
    requires k <= |log|
  {
    Joined(TornParts(log, s), k)
  }

  // ---- the cursor ----

  datatype Cursor = Cursor(index: nat, name: FileName, sealed: bool, offset: nat, header: Option<Header>, skipPartial: bool)

  /** The cursor stands in the file at position pos, all counted files before it are sealed. */
  predicate Placed(log: Log, s: Scope, c: Cursor, pos: nat) {
    && s.at <= pos < |log| && log[pos].name.index == c.index && c.name == FileName(c.index, c.sealed)
    && (c.sealed ==> log[pos].name.sealed) && c.offset <= |log[pos].content|
    && (forall i :: s.at <= i < pos && i !in s.skipped ==> log[i].name.sealed) && (forall i :: i in s.skipped ==> s.at < i < pos)
    && HasHeader(log[s.at].content) && s.offset <= |log[s.at].content|
    && HeaderEnd(log[s.at].content) <= s.offset
  }

  predicate AtBoundary(b: seq<Byte>, c: Cursor)
    requires c.offset <= |b|
  {
    EndsLine(b[..c.offset]) || (c.sealed && c.offset == |b|)
  }

  /** c stands in the file f: before its header, in the line a fresh reader
      landed in, or after complete lines counted from `begin`. */
  predicate Within(ps: Parser, f: LogFile, begin: Option<nat>, first: bool, s: Scope, c: Cursor)
    requires c.offset <= |f.content|
  {
    match c.header
    case None => !first && c.offset == 0 && !c.skipPartial
    case Some(h) =>
      && FileHeader(ps, f.content) == Some(h)
      && if c.skipPartial then first && HeaderEnd(f.content) < s.offset <= c.offset <= NextNewline(f.content, s.offset)
         else begin.Some? && begin.value <= c.offset && AtBoundary(f.content, c)
  }

  /** The lines consumed from the cursor's own file. */
  function Here(f: LogFile, begin: Option<nat>, c: Cursor): seq<Line> {
    if c.header.None? || c.skipPartial || begin.None? || !(begin.value <= c.offset <= |f.content|) then []
    else LinesIn(f, c.header.value, begin.value, c.offset)
  }

  /** The torn tail reported for it. */
  function TornHere(b: seq<Byte>, c: Cursor): seq<nat> {
    if c.header.Some? && !c.skipPartial && c.offset == |b| && Torn(b) then [c.index] else []
  }

  /** Consumed is everything before the cursor's file, then the part of it before the cursor. */
  predicate Exact(ps: Parser, log: Log, s: Scope, c: Cursor, pos: nat, consumed: seq<Line>, torn: seq<nat>) {
    && WellFormed(log) && Placed(log, s, c, pos)
    && Within(ps, log[pos], Begin(log, s, pos), pos == s.at, s, c)
    && consumed == LinesBefore(ps, log, s, pos) + Here(log[pos], Begin(log, s, pos), c)
    && torn == TornBefore(log, s, pos) + TornHere(log[pos].content, c)
  }

  // ---- growth changes nothing before the cursor ----

  lemma PrefixNewline(a: seq<Byte>, b: seq<Byte>, from: nat)
    requires a <= b && from <= |a| && NextNewline(a, from) < |a|
    ensures NextNewline(b, from) == NextNewline(a, from)
  {
    NextNewlineFinds(a, from);
    NextNewlineIs(b, from, NextNewline(a, from));
  }

  lemma PrefixOrigin(a: seq<Byte>, b: seq<Byte>, offset: nat)
    requires a <= b && Origin(a, offset).Some?
    ensures Origin(b, offset) == Origin(a, offset)
  {
    PrefixNewline(a, b, 0);
    if offset > HeaderEnd(a) { PrefixNewline(a, b, offset); }
  }

  lemma PrefixHeader(ps: Parser, a: seq<Byte>, b: seq<Byte>)
    requires a <= b && HasHeader(a)
    ensures HasHeader(b) && HeaderEnd(b) == HeaderEnd(a) && FileHeader(ps, b) == FileHeader(ps, a)
  {
    PrefixNewline(a, b, 0);
    assert b[..HeaderEnd(a) - 1] == a[..HeaderEnd(a) - 1];
  }

  lemma SealedLinesStay(ps: Parser, a: Log, b: Log, s: Scope, k: nat)
    requires k <= |a| <= |b| && forall i :: s.at <= i < k && i !in s.skipped ==> b[i] == a[i]
    ensures LinesBefore(ps, b, s, k) == LinesBefore(ps, a, s, k)
    ensures TornBefore(b, s, k) == TornBefore(a, s, k)
  {
    JoinedSame(LineParts(ps, b, s), LineParts(ps, a, s), k);
    JoinedSame(TornParts(b, s), TornParts(a, s), k);
  }

  lemma PlacedGrows(a: Log, b: Log, s: Scope, c: Cursor, pos: nat)
    requires Extends(a, b) && Placed(a, s, c, pos)
    ensures Placed(b, s, c, pos)
  {
    PrefixNewline(a[s.at].content, b[s.at].content, 0);
  }

  lemma WithinGrows(ps: Parser, f: LogFile, g: LogFile, first: bool, s: Scope, c: Cursor)
    requires f.content <= g.content && f.name.index == g.name.index && c.offset <= |f.content|
    requires (f.name.sealed ==> g == f) && (c.sealed ==> f.name.sealed)
    requires Within(ps, f, Origin(f.content, if first then s.offset else 0), first, s, c)
    ensures var offset := if first then s.offset else 0;
            && Within(ps, g, Origin(g.content, offset), first, s, c)
            && Here(g, Origin(g.content, offset), c) == Here(f, Origin(f.content, offset), c)
            && TornHere(g.content, c) == TornHere(f.content, c)
  {
    var offset := if first then s.offset else 0;
    if c.header.Some? {
      PrefixHeader(ps, f.content, g.content);
      if c.skipPartial {
        NextNewlineFinds(f.content, s.offset);
        NextNewlineFinds(g.content, s.offset);
        var nl := NextNewline(g.content, s.offset);
        assert !(nl < c.offset) by { assert forall k :: s.offset <= k < c.offset ==> g.content[k] == f.content[k]; }
      } else {
        PrefixOrigin(f.content, g.content, offset);
        var begin := Origin(f.content, offset).value;
        assert g.content[..c.offset] == f.content[..c.offset] && g.content[begin..c.offset] == f.content[begin..c.offset];
        if EndsLine(f.content[..c.offset]) {
          BoundaryIsNotTorn(f.content, c);
          BoundaryIsNotTorn(g.content, c);
        }
      }
    }
  }

  lemma BoundaryIsNotTorn(b: seq<Byte>, c: Cursor)
    requires c.offset <= |b| && EndsLine(b[..c.offset])
    ensures c.offset == |b| ==> !Torn(b)
  {
    if c.offset == |b| { assert b[..c.offset] == b; }
  }

  /** A cursor stays exact however the log grows. */
  lemma ExactGrows(ps: Parser, a: Log, b: Log, s: Scope, c: Cursor, pos: nat, consumed: seq<Line>, torn: seq<nat>)
    requires Exact(ps, a, s, c, pos, consumed, torn) && WellFormed(b) && Extends(a, b)
    ensures Exact(ps, b, s, c, pos, consumed, torn)
  {
    PlacedGrows(a, b, s, c, pos);
    SealedLinesStay(ps, a, b, s, pos);
    WithinGrows(ps, a[pos], b[pos], pos == s.at, s, c);
  }

  // ---- the steps of a reader ----

  lemma AfterNewline(b: seq<Byte>, n: nat)
    requires 0 < n <= |b| && b[n - 1] == NEWLINE
    ensures EndsLine(b[..n]) && (n == |b| ==> !Torn(b)) && Lines(b[n..n]) == []
  {
  }

  /** A fresh cursor has consumed nothing. */
  lemma ExactStart(ps: Parser, log: Log, at: nat, c: Cursor)
    requires WellFormed(log) && at < |log| && c.index == log[at].name.index && c.name == log[at].name && c.sealed == c.name.sealed
    requires HasHeader(log[at].content) && HeaderEnd(log[at].content) <= c.offset <= |log[at].content|
    requires c.header.Some? && FileHeader(ps, log[at].content) == c.header
    requires c.skipPartial <==> c.offset > HeaderEnd(log[at].content)
    ensures Exact(ps, log, Scope(at, c.offset, {}), c, at, [], [])
  {
    JoinedNothing(LineParts(ps, log, Scope(at, c.offset, {})), at);
    JoinedNothing(TornParts(log, Scope(at, c.offset, {})), at);
    if !c.skipPartial {
      NextNewlineFinds(log[at].content, 0);
      AfterNewline(log[at].content, c.offset);
    }
  }

  /** Reading a new file's header consumes no line. */
  lemma ExactHeader(ps: Parser, log: Log, s: Scope, c: Cursor, pos: nat, consumed: seq<Line>, torn: seq<nat>)
    requires Exact(ps, log, s, c, pos, consumed, torn) && c.header.None?
    requires HasHeader(log[pos].content) && FileHeader(ps, log[pos].content).Some?
    ensures Exact(ps, log, s, c.(header := FileHeader(ps, log[pos].content), offset := HeaderEnd(log[pos].content)), pos, consumed, torn)
  {
    NextNewlineFinds(log[pos].content, 0);
    AfterNewline(log[pos].content, HeaderEnd(log[pos].content));
  }

  lemma NewlineFrom(b: seq<Byte>, from: nat, offset: nat)
    requires from <= offset <= |b| && NextNewline(b, from) >= offset
    ensures NextNewline(b, from) == offset + NextNewline(b[offset..], 0)
  {
    var d := b[offset..];
    var nl := NextNewline(d, 0);
    NextNewlineFinds(d, 0);
    NextNewlineFinds(b, from);
    forall k | from <= k < offset + nl ensures b[k] != NEWLINE {
      if k >= offset { assert b[k] == d[k - offset]; }
    }
    if nl < |d| { assert b[offset + nl] == d[nl]; }
    NextNewlineIs(b, from, offset + nl);
  }

  /** Skipping to the first line boundary consumes no line. */
  lemma ExactSkip(ps: Parser, log: Log, s: Scope, c: Cursor, pos: nat, consumed: seq<Line>, torn: seq<nat>)
    requires Exact(ps, log, s, c, pos, consumed, torn) && c.header.Some? && c.skipPartial
    ensures var d := log[pos].content[c.offset..];
            var nl := NextNewline(d, 0);
            Exact(ps, log, s, if nl == |d| then c.(offset := c.offset + |d|) else c.(offset := c.offset + nl + 1, skipPartial := false), pos, consumed, torn)
  {
    var b, o := log[pos].content, c.offset;
    var nl := NextNewline(b[o..], 0);
    NewlineFrom(b, s.offset, o);
    if nl < |b[o..]| {
      NextNewlineFinds(b[o..], 0);
      AfterNewline(b, o + nl + 1);
    }
  }

  /** Lines up to n + m are those up to n, then those of the next m bytes. */
  lemma LinesExtend(f: LogFile, h: Header, begin: nat, n: nat, m: nat)
    requires begin <= n <= n + m <= |f.content| && EndsLine(f.content[begin..n])
    ensures LinesIn(f, h, begin, n + m) == LinesIn(f, h, begin, n) + LinesIn(f, h, n, n + m)
  {
    assert f.content[begin..n + m] == f.content[begin..n] + f.content[n..n + m];
    LinesJoin(f.content[begin..n], f.content[n..n + m]);
    TaggedJoin(f.name.index, h, Lines(f.content[begin..n]), Lines(f.content[n..n + m]));
  }

  lemma EndsLineFrom(b: seq<Byte>, begin: nat, n: nat)
    requires begin <= n <= |b| && EndsLine(b[..n])
    ensures EndsLine(b[begin..n])
  {
    if begin < n { assert b[begin..n][n - begin - 1] == b[..n][n - 1]; }
  }

  lemma CompleteEnds(b: seq<Byte>, o: nat, n: nat)
    requires o <= |b| && 0 < n == CompleteLength(b[o..])
    ensures EndsLine(b[..o + n]) && (o + n == |b| ==> !Torn(b))
  {
    CompleteLengthFinds(b[o..]);
    assert b[o..][n - 1] == b[o + n - 1];
  }

  lemma WithinConsume(ps: Parser, f: LogFile, begin: Option<nat>, first: bool, s: Scope, c: Cursor, n: nat, more: seq<Line>)
    requires c.offset <= |f.content| && Within(ps, f, begin, first, s, c) && c.header.Some? && !c.skipPartial
    requires 0 < n == CompleteLength(f.content[c.offset..]) && c.index == f.name.index
    requires more == LinesIn(f, c.header.value, c.offset, c.offset + n)
    ensures var c2 := c.(offset := c.offset + n);
            && Within(ps, f, begin, first, s, c2) && Here(f, begin, c2) == Here(f, begin, c) + more
            && TornHere(f.content, c2) == TornHere(f.content, c) == []
  {
    EndsLineFrom(f.content, begin.value, c.offset);
    LinesExtend(f, c.header.value, begin.value, c.offset, n);
    CompleteEnds(f.content, c.offset, n);
  }

  lemma ConsumeSome(ps: Parser, log: Log, s: Scope, c: Cursor, pos: nat, consumed: seq<Line>, torn: seq<nat>, n: nat, more: seq<Line>)
    requires Exact(ps, log, s, c, pos, consumed, torn) && c.header.Some? && !c.skipPartial
    requires 0 < n == CompleteLength(log[pos].content[c.offset..])
    requires more == LinesIn(log[pos], c.header.value, c.offset, c.offset + n)
    ensures Exact(ps, log, s, c.(offset := c.offset + n), pos, consumed + more, torn)
  {
    var f, begin := log[pos], Begin(log, s, pos);
    WithinConsume(ps, f, begin, pos == s.at, s, c, n, more);
    Associative(LinesBefore(ps, log, s, pos), Here(f, begin, c), more);
  }

  /** Reading to the end consumes the complete lines found. */
  lemma ExactConsume(ps: Parser, log: Log, s: Scope, c: Cursor, pos: nat, consumed: seq<Line>, torn: seq<nat>, n: nat, more: seq<Line>)
    requires Exact(ps, log, s, c, pos, consumed, torn) && c.header.Some? && !c.skipPartial
    requires n == CompleteLength(log[pos].content[c.offset..])
    requires more == LinesIn(log[pos], c.header.value, c.offset, c.offset + n)
    ensures Exact(ps, log, s, c.(offset := c.offset + n), pos, consumed + more, torn)
  {
    if n == 0 {
      assert log[pos].content[c.offset..c.offset] == [];
      assert c.(offset := c.offset + n) == c && consumed + more == consumed;
    } else {
      ConsumeSome(ps, log, s, c, pos, consumed, torn, n, more);
    }
  }

  lemma NoLinesIn(f: LogFile, h: Header, o: nat)
    requires o <= |f.content| && CompleteLength(f.content[o..]) == 0
    ensures LinesIn(f, h, o, |f.content|) == []
  {
    CompleteLengthFinds(f.content[o..]);
    assert f.content[o..|f.content|] == f.content[o..];
    NoLines(f.content[o..]);
  }

  /** With no newline ahead, the file's counted lines are all consumed. */
  lemma WithinReadAll(ps: Parser, f: LogFile, begin: Option<nat>, first: bool, s: Scope, c: Cursor)
    requires c.offset <= |f.content| && Within(ps, f, begin, first, s, c) && c.header.Some? && !c.skipPartial
    requires CompleteLength(f.content[c.offset..]) == 0
    ensures begin.value <= |f.content| && Here(f, begin, c) == LinesIn(f, c.header.value, begin.value, |f.content|)
  {
    if c.offset < |f.content| {
      EndsLineFrom(f.content, begin.value, c.offset);
      LinesExtend(f, c.header.value, begin.value, c.offset, |f.content| - c.offset);
      NoLinesIn(f, c.header.value, c.offset);
    }
  }

  lemma TornEnds(b: seq<Byte>, o: nat)
    requires o < |b| && CompleteLength(b[o..]) == 0
    ensures Torn(b)
  {
    CompleteLengthFinds(b[o..]);
    assert b[|b| - 1] == b[o..][|b| - o - 1];
  }

  lemma WithinTorn(ps: Parser, f: LogFile, begin: Option<nat>, first: bool, s: Scope, c: Cursor)
    requires c.offset < |f.content| && Within(ps, f, begin, first, s, c) && c.header.Some? && !c.skipPartial && c.sealed
    requires CompleteLength(f.content[c.offset..]) == 0
    ensures var c2 := c.(offset := |f.content|);
            && Within(ps, f, begin, first, s, c2) && Here(f, begin, c2) == Here(f, begin, c)
            && TornHere(f.content, c) == [] && TornHere(f.content, c2) == [c.index]
  {
    WithinReadAll(ps, f, begin, first, s, c);
    TornEnds(f.content, c.offset);
  }

  /** A sealed file's unfinished tail is dropped and reported. */
  lemma ExactTorn(ps: Parser, log: Log, s: Scope, c: Cursor, pos: nat, consumed: seq<Line>, torn: seq<nat>)
    requires Exact(ps, log, s, c, pos, consumed, torn) && c.header.Some? && !c.skipPartial && c.sealed
    requires c.offset < |log[pos].content| && CompleteLength(log[pos].content[c.offset..]) == 0
    ensures Exact(ps, log, s, c.(offset := |log[pos].content|), pos, consumed, torn + [c.index])
  {
    WithinTorn(ps, log[pos], Begin(log, s, pos), pos == s.at, s, c);
  }

  /** With no newline ahead, everything up to the current file is consumed. */
  lemma ExactReadAll(ps: Parser, log: Log, s: Scope, c: Cursor, pos: nat, consumed: seq<Line>, torn: seq<nat>)
    requires Exact(ps, log, s, c, pos, consumed, torn) && c.header.Some? && !c.skipPartial
    requires CompleteLength(log[pos].content[c.offset..]) == 0
    ensures consumed == LinesBefore(ps, log, s, pos + 1)
  {
    WithinReadAll(ps, log[pos], Begin(log, s, pos), pos == s.at, s, c);
    assert FileLines(ps, log, s, pos) == Here(log[pos], Begin(log, s, pos), c);
  }

  /** The positions strictly between two. */
  function Strictly(pos: nat, p: nat): (r: set<nat>)
    ensures forall i :: i in r <==> pos < i < p
    decreases p
  {
    if p <= pos + 1 then {} else Strictly(pos, p - 1) + {p - 1}
  }

  /** Passing over the files between pos and p. */
  function Skipping(s: Scope, pos: nat, p: nat): Scope { s.(skipped := s.skipped + Strictly(pos, p)) }

  lemma {:induction false} JoinedPast<T>(a: seq<seq<T>>, b: seq<seq<T>>, k: nat, p: nat)
    requires k <= p <= |a| && |a| == |b|
    requires (forall i :: 0 <= i < k ==> a[i] == b[i]) && (forall i :: k <= i < p ==> b[i] == [])
    ensures Joined(b, p) == Joined(a, k)
    decreases p
  {
    if k < p { JoinedPast(a, b, k, p - 1); } else { JoinedSame(a, b, k); }
  }

  /** Passing files over empties their parts and leaves the others. */
  lemma PartsOf(ps: Parser, log: Log, s: Scope, t: Scope, i: nat)
    requires t == s.(skipped := t.skipped) && i < |log|
    ensures i in t.skipped ==> LineParts(ps, log, t)[i] == [] && TornParts(log, t)[i] == [] && SealedTornParts(log, t)[i] == []
    ensures (i in t.skipped <==> i in s.skipped) ==>
              && LineParts(ps, log, t)[i] == LineParts(ps, log, s)[i] && TornParts(log, t)[i] == TornParts(log, s)[i]
              && SealedTornParts(log, t)[i] == SealedTornParts(log, s)[i]
  {
    assert FileLines(ps, log, t, i) == FileLines(ps, log, s, i);
    hide FileLines, Torn;
  }

  lemma PartsPast(ps: Parser, log: Log, s: Scope, t: Scope, k: nat, p: nat)
    requires t == s.(skipped := t.skipped) && k <= p <= |log|
    requires (forall i :: 0 <= i < k ==> (i in t.skipped <==> i in s.skipped)) && forall i :: k <= i < p ==> i in t.skipped
    ensures LinesBefore(ps, log, t, p) == LinesBefore(ps, log, s, k) && TornBefore(log, t, p) == TornBefore(log, s, k)
    ensures Joined(SealedTornParts(log, t), p) == Joined(SealedTornParts(log, s), k)
  {
    var a, b, x, y := LineParts(ps, log, s), LineParts(ps, log, t), TornParts(log, s), TornParts(log, t);
    var v, w := SealedTornParts(log, s), SealedTornParts(log, t);
    assert |a| == |b| == |x| == |y| == |v| == |w| == |log|;
    hide LineParts, TornParts, SealedTornParts, Joined;
    forall i | 0 <= i < p
      ensures if i < k then b[i] == a[i] && y[i] == x[i] && w[i] == v[i] else b[i] == [] && y[i] == [] && w[i] == []
    {
      PartsOf(ps, log, s, t, i);
    }
    JoinedPast(a, b, k, p);
    JoinedPast(x, y, k, p);
    JoinedPast(v, w, k, p);
  }

  lemma SkippedAddNothing(ps: Parser, log: Log, s: Scope, pos: nat, p: nat)
    requires pos < p <= |log| && forall i :: i in s.skipped ==> i < pos
    ensures LinesBefore(ps, log, Skipping(s, pos, p), p) == LinesBefore(ps, log, s, pos + 1)
    ensures TornBefore(log, Skipping(s, pos, p), p) == TornBefore(log, s, pos + 1)
  {
    PartsPast(ps, log, s, Skipping(s, pos, p), pos + 1, p);
  }

  /** Moving on from a sealed file read to its end. */
  lemma ExactMove(ps: Parser, log: Log, s: Scope, c: Cursor, pos: nat, consumed: seq<Line>, torn: seq<nat>, p: nat)
    requires Exact(ps, log, s, c, pos, consumed, torn) && c.header.Some? && !c.skipPartial && c.sealed
    requires c.offset == |log[pos].content| && pos < p <= |log|
    ensures consumed == LinesBefore(ps, log, s, pos + 1)
    ensures p < |log| ==>
              var n := log[p].name;
              Exact(ps, log, Skipping(s, pos, p), Cursor(n.index, n, n.sealed, 0, None, false), p, consumed, torn)
  {
    hide LinesIn, WellFormed;
    assert log[pos].content[c.offset..] == [];
    ExactReadAll(ps, log, s, c, pos, consumed, torn);
    assert torn == TornBefore(log, s, pos + 1);
    SkippedAddNothing(ps, log, s, pos, p);
    if p < |log| {
      assert consumed == LinesBefore(ps, log, Skipping(s, pos, p), p) + [] && torn == TornBefore(log, Skipping(s, pos, p), p) + [];
    }
  }

  /** Giving up the unread file at pos, and passing over those between it and p. */
  function Abandoning(s: Scope, pos: nat, p: nat): Scope { s.(skipped := s.skipped + {pos} + Strictly(pos, p)) }

  /** Moving on from a file of which nothing was read, not even its header. */
  lemma ExactAbandon(ps: Parser, log: Log, s: Scope, c: Cursor, pos: nat, consumed: seq<Line>, torn: seq<nat>, p: nat)
    requires Exact(ps, log, s, c, pos, consumed, torn) && c.header.None? && pos < p < |log|
    ensures var n := log[p].name;
            Exact(ps, log, Abandoning(s, pos, p), Cursor(n.index, n, n.sealed, 0, None, false), p, consumed, torn)
  {
    hide LinesIn, WellFormed, LinesBefore, TornBefore;
    AbandonedAddNothing(ps, log, s, pos, p);
    assert consumed == LinesBefore(ps, log, s, pos) && torn == TornBefore(log, s, pos);
    assert LinesBefore(ps, log, s, pos) + [] == LinesBefore(ps, log, s, pos) && TornBefore(log, s, pos) + [] == TornBefore(log, s, pos);
  }

  lemma AbandonedAddNothing(ps: Parser, log: Log, s: Scope, pos: nat, p: nat)
    requires pos < p <= |log| && forall i :: i in s.skipped ==> i < pos
    ensures LinesBefore(ps, log, Abandoning(s, pos, p), p) == LinesBefore(ps, log, s, pos)
    ensures TornBefore(log, Abandoning(s, pos, p), p) == TornBefore(log, s, pos)
  {
    PartsPast(ps, log, s, Abandoning(s, pos, p), pos, p);
  }

  /** Following a rename changes the name and the flag, not the place. */
  lemma ExactRename(ps: Parser, log: Log, s: Scope, c: Cursor, pos: nat, consumed: seq<Line>, torn: seq<nat>)
    requires Exact(ps, log, s, c, pos, consumed, torn) && !c.sealed && log[pos].name.sealed
    ensures Exact(ps, log, s, c.(name := log[pos].name, sealed := true), pos, consumed, torn)
  {
    var c2 := c.(name := log[pos].name, sealed := true);
    assert Here(log[pos], Begin(log, s, pos), c2) == Here(log[pos], Begin(log, s, pos), c);
  }

  // ---- what an exact cursor says ----

  lemma PrefixJoin<T>(a: seq<T>, x: seq<T>, y: seq<T>)
    requires x <= y
    ensures a + x <= a + y
  {
  }

  lemma PrefixTrans<T>(a: seq<T>, b: seq<T>, c: seq<T>)
    requires a <= b <= c
    ensures a <= c
  {
  }

  lemma WithinIsPrefix(ps: Parser, f: LogFile, begin: Option<nat>, first: bool, s: Scope, c: Cursor)
    requires c.offset <= |f.content| && Within(ps, f, begin, first, s, c)
    requires c.header.Some? && !c.skipPartial && begin.value <= |f.content|
    ensures Here(f, begin, c) <= LinesIn(f, c.header.value, begin.value, |f.content|)
  {
    if c.offset < |f.content| {
      EndsLineFrom(f.content, begin.value, c.offset);
      LinesExtend(f, c.header.value, begin.value, c.offset, |f.content| - c.offset);
    }
  }

  lemma PrefixOfJoined<T>(parts: seq<seq<T>>, k: nat, here: seq<T>)
    requires k < |parts| && here <= parts[k]
    ensures Joined(parts, k) + here <= Joined(parts, |parts|)
  {
    PrefixJoin(Joined(parts, k), here, parts[k]);
    JoinedGrow(parts, k + 1, |parts|);
    PrefixTrans(Joined(parts, k) + here, Joined(parts, k + 1), Joined(parts, |parts|));
  }

  lemma HereIsPrefix(ps: Parser, log: Log, s: Scope, c: Cursor, pos: nat)
    requires pos < |log| && c.offset <= |log[pos].content|
    requires Within(ps, log[pos], Begin(log, s, pos), pos == s.at, s, c)
    ensures Here(log[pos], Begin(log, s, pos), c) <= FileLines(ps, log, s, pos)
  {
    if c.header.Some? && !c.skipPartial { WithinIsPrefix(ps, log[pos], Begin(log, s, pos), pos == s.at, s, c); }
  }

  /** The consumed lines are a prefix of all counted lines the log holds now:
      none is missing, repeated or out of order. */
  lemma ExactIsPrefix(ps: Parser, log: Log, s: Scope, c: Cursor, pos: nat, consumed: seq<Line>, torn: seq<nat>)
    requires Exact(ps, log, s, c, pos, consumed, torn)
    ensures consumed <= LinesBefore(ps, log, s, |log|)
  {
    HereIsPrefix(ps, log, s, c, pos);
    PrefixOfJoined(LineParts(ps, log, s), pos, Here(log[pos], Begin(log, s, pos), c));
  }

  /** Every sealed file the cursor has read to its end is reported once if its
      tail is torn, and never otherwise. */
  lemma TornReportedOnce(ps: Parser, log: Log, s: Scope, c: Cursor, pos: nat, consumed: seq<Line>, torn: seq<nat>, i: nat)
    requires Exact(ps, log, s, c, pos, consumed, torn) && s.at <= i < pos
    ensures multiset(torn)[log[i].name.index] == if i !in s.skipped && Torn(log[i].content) then 1 else 0
  {
    var x := log[i].name.index;
    JoinedCount(TornParts(log, s), pos, i, x);
    assert multiset(torn)[x] == multiset(TornBefore(log, s, pos))[x] + multiset(TornHere(log[pos].content, c))[x];
    assert log[i].name.index < log[pos].name.index;
  }

  // ---- a log read through ----

  function SealedTornParts(log: Log, s: Scope): seq<seq<nat>> {
    seq(|log|, i requires 0 <= i < |log| =>
      if Counts(s, i) && log[i].name.sealed && Torn(log[i].content) then [log[i].name.index] else [])
  }

  /** Every sealed file with a torn tail, once and in order. */
  function AllTorn(log: Log, s: Scope): seq<nat> { Joined(SealedTornParts(log, s), |log|) }

  lemma PassedAreSealed(log: Log, s: Scope, c: Cursor, pos: nat)
    requires Placed(log, s, c, pos)
    ensures TornBefore(log, s, pos) == Joined(SealedTornParts(log, s), pos)
  {
    JoinedSame(TornParts(log, s), SealedTornParts(log, s), pos);
  }

  /** A tail is reported only in a sealed file. */
  lemma ReportedIsSealed(ps: Parser, log: Log, s: Scope, c: Cursor, pos: nat)
    requires Placed(log, s, c, pos) && Within(ps, log[pos], Begin(log, s, pos), pos == s.at, s, c)
    ensures TornHere(log[pos].content, c) <= SealedTornParts(log, s)[pos]
    ensures !c.sealed ==> TornHere(log[pos].content, c) == []
  {
    var b := log[pos].content;
    if c.header.Some? && !c.skipPartial && EndsLine(b[..c.offset]) { BoundaryIsNotTorn(b, c); }
  }

  /** The reported tails are a prefix of all torn tails of sealed files. */
  lemma TornIsPrefix(ps: Parser, log: Log, s: Scope, c: Cursor, pos: nat, consumed: seq<Line>, torn: seq<nat>)
    requires Exact(ps, log, s, c, pos, consumed, torn)
    ensures torn <= AllTorn(log, s)
  {
    PassedAreSealed(log, s, c, pos);
    ReportedIsSealed(ps, log, s, c, pos);
    PrefixOfJoined(SealedTornParts(log, s), pos, TornHere(log[pos].content, c));
  }

  /** In an open file, or at the end of its own, a reader has reported every torn
      tail up to there. */
  lemma AllTailsReported(ps: Parser, log: Log, s: Scope, c: Cursor, pos: nat, consumed: seq<Line>, torn: seq<nat>)
    requires Exact(ps, log, s, c, pos, consumed, torn)
    requires !log[pos].name.sealed || (c.header.Some? && !c.skipPartial && c.offset == |log[pos].content|)
    ensures torn == Joined(SealedTornParts(log, s), pos + 1)
  {
    hide LinesBefore, Here, WellFormed, LinesIn;
    PassedAreSealed(log, s, c, pos);
    ReportedIsSealed(ps, log, s, c, pos);
    assert TornHere(log[pos].content, c) == SealedTornParts(log, s)[pos];
  }

  /** Up to the end of its own file, or up to its beginning if nothing of it was read. */
  lemma UpToOwn(ps: Parser, log: Log, s: Scope, c: Cursor, pos: nat, consumed: seq<Line>, torn: seq<nat>)
    requires Exact(ps, log, s, c, pos, consumed, torn)
    ensures consumed <= LinesBefore(ps, log, s, pos + 1) && torn <= Joined(SealedTornParts(log, s), pos + 1)
    ensures c.header.None? ==> consumed == LinesBefore(ps, log, s, pos) && torn == Joined(SealedTornParts(log, s), pos)
  {
    HereIsPrefix(ps, log, s, c, pos);
    PrefixJoin(LinesBefore(ps, log, s, pos), Here(log[pos], Begin(log, s, pos), c), LineParts(ps, log, s)[pos]);
    PassedAreSealed(log, s, c, pos);
    ReportedIsSealed(ps, log, s, c, pos);
    PrefixJoin(Joined(SealedTornParts(log, s), pos), TornHere(log[pos].content, c), SealedTornParts(log, s)[pos]);
  }

  // ---- what was passed over ----

  lemma {:induction false} JoinedDrops<T>(a: seq<seq<T>>, b: seq<seq<T>>, k: nat)
    requires k <= |a| && |a| == |b| && forall i :: 0 <= i < k ==> b[i] == a[i] || b[i] == []
    ensures |Joined(b, k)| <= |Joined(a, k)|
    ensures Joined(b, k) == Joined(a, k) <==> forall i :: 0 <= i < k ==> b[i] == a[i]
  {
    if k > 0 {
      JoinedDrops(a, b, k - 1);
      if Joined(b, k) == Joined(a, k) {
        assert |b[k - 1]| == |a[k - 1]|;
        assert Joined(b, k)[..|Joined(b, k - 1)|] == Joined(b, k - 1) && Joined(a, k)[..|Joined(a, k - 1)|] == Joined(a, k - 1);
      }
    }
  }

  lemma ScopeIsShorter(ps: Parser, log: Log, s: Scope)
    ensures |LinesBefore(ps, log, s, |log|)| <= |LinesBefore(ps, log, Whole(s), |log|)|
    ensures |AllTorn(log, s)| <= |AllTorn(log, Whole(s))|
  {
    assert forall i :: 0 <= i < |log| ==> FileLines(ps, log, Whole(s), i) == FileLines(ps, log, s, i);
    JoinedDrops(LineParts(ps, log, Whole(s)), LineParts(ps, log, s), |log|);
    JoinedDrops(SealedTornParts(log, Whole(s)), SealedTornParts(log, s), |log|);
  }

  /** No line and no reported tail is in a file. */
  predicate Blank(ps: Parser, log: Log, s: Scope, i: nat)
    requires i < |log|
  {
    FileLines(ps, log, s, i) == [] && !(log[i].name.sealed && Torn(log[i].content))
  }

  /** Nothing that counts was in the files passed over. */
  predicate Harmless(ps: Parser, log: Log, s: Scope) {
    forall i :: s.at <= i < |log| && i in s.skipped ==> Blank(ps, log, s, i)
  }

  lemma PartDiffers(ps: Parser, log: Log, s: Scope, i: nat)
    requires i < |log|
    ensures var a, b := LineParts(ps, log, Whole(s)), LineParts(ps, log, s);
            var x, y := SealedTornParts(log, Whole(s)), SealedTornParts(log, s);
            && (b[i] == a[i] || b[i] == []) && (y[i] == x[i] || y[i] == [])
            && (b[i] == a[i] && y[i] == x[i] <==> (s.at <= i && i in s.skipped ==> Blank(ps, log, s, i)))
  {
    assert FileLines(ps, log, Whole(s), i) == FileLines(ps, log, s, i);
    hide FileLines, Torn;
  }

  /** The lines and torn tails of a scope are those of the whole log if and only
      if nothing was in the files passed over. */
  lemma WholeIff(ps: Parser, log: Log, s: Scope)
    ensures LinesBefore(ps, log, s, |log|) == LinesBefore(ps, log, Whole(s), |log|) && AllTorn(log, s) == AllTorn(log, Whole(s))
            <==> Harmless(ps, log, s)
  {
    var a, b := LineParts(ps, log, Whole(s)), LineParts(ps, log, s);
    var x, y := SealedTornParts(log, Whole(s)), SealedTornParts(log, s);
    assert |a| == |b| == |x| == |y| == |log|;
    hide LineParts, SealedTornParts, Blank, Joined;
    forall i | 0 <= i < |log|
      ensures (b[i] == a[i] || b[i] == []) && (y[i] == x[i] || y[i] == [])
      ensures b[i] == a[i] && y[i] == x[i] <==> (s.at <= i && i in s.skipped ==> Blank(ps, log, s, i))
    {
      PartDiffers(ps, log, s, i);
    }
    JoinedDrops(a, b, |log|);
    JoinedDrops(x, y, |log|);
  }
}
