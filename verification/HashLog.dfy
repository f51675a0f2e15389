/** A node's hash log: files of newline-terminated lines that only grow, are
    renamed when sealed, and are followed by files of higher index. */
module HashLog {
  newtype Byte = x: int | 0 <= x < 256

  const NEWLINE: Byte := 10

  // ---- lines ----

  /** First newline at or after from, or the length. */
  function NextNewline(b: seq<Byte>, from: nat): (i: nat)
    requires from <= |b|
    ensures from <= i <= |b|
    decreases |b| - from
  {
    if from == |b| || b[from] == NEWLINE then from else NextNewline(b, from + 1)
  }

  lemma {:induction false} NextNewlineFinds(b: seq<Byte>, from: nat)
    requires from <= |b|
    ensures NextNewline(b, from) < |b| ==> b[NextNewline(b, from)] == NEWLINE
    ensures forall k :: from <= k < NextNewline(b, from) ==> b[k] != NEWLINE
    decreases |b| - from
  {
    if from < |b| && b[from] != NEWLINE { NextNewlineFinds(b, from + 1); }
  }

  lemma NextNewlineIs(b: seq<Byte>, from: nat, i: nat)
    requires from <= i <= |b| && (i < |b| ==> b[i] == NEWLINE) && forall k :: from <= k < i ==> b[k] != NEWLINE
    ensures NextNewline(b, from) == i
  {
    var j := NextNewline(b, from);
    NextNewlineFinds(b, from);
    assert !(j < i) && !(i < j);
  }

  /** Length of the longest prefix that ends in a newline. */
  function CompleteLength(b: seq<Byte>): (n: nat)
    ensures n <= |b|
  {
    if b == [] then 0
    else if b[|b| - 1] == NEWLINE then |b|
    else CompleteLength(b[..|b| - 1])
  }

  lemma {:induction false} CompleteLengthFinds(b: seq<Byte>)
    ensures CompleteLength(b) > 0 ==> b[CompleteLength(b) - 1] == NEWLINE
    ensures forall k :: CompleteLength(b) <= k < |b| ==> b[k] != NEWLINE
  {
    if b != [] && b[|b| - 1] != NEWLINE {
      var init := b[..|b| - 1];
      CompleteLengthFinds(init);
      assert forall k :: 0 <= k < |init| ==> init[k] == b[k];
    }
  }

  predicate EndsLine(b: seq<Byte>) { b == [] || b[|b| - 1] == NEWLINE }

  /** The complete lines of b, without an unfinished last one. */
  function Lines(b: seq<Byte>): seq<seq<Byte>>
    decreases |b|
  {
    var nl := NextNewline(b, 0);
    if nl == |b| then [] else [b[..nl + 1]] + Lines(b[nl + 1..])
  }

  lemma {:induction false} LinesJoin(a: seq<Byte>, b: seq<Byte>)
    requires EndsLine(a)
    ensures Lines(a + b) == Lines(a) + Lines(b)
    decreases |a|
  {
    if a == [] {
      assert a + b == b;
    } else {
      var nl := NextNewline(a, 0);
      NextNewlineFinds(a, 0);
      NextNewlineIs(a + b, 0, nl);
      assert (a + b)[..nl + 1] == a[..nl + 1] && (a + b)[nl + 1..] == a[nl + 1..] + b;
      LinesJoin(a[nl + 1..], b);
    }
  }

  lemma NoLines(b: seq<Byte>)
    requires forall k :: 0 <= k < |b| ==> b[k] != NEWLINE
    ensures Lines(b) == []
  {
    NextNewlineIs(b, 0, |b|);
  }

  /** An unfinished tail adds no line. */
  lemma LinesOfComplete(b: seq<Byte>)
    ensures Lines(b) == Lines(b[..CompleteLength(b)])
  {
    var n := CompleteLength(b);
    CompleteLengthFinds(b);
    assert b == b[..n] + b[n..];
    LinesJoin(b[..n], b[n..]);
    NoLines(b[n..]);
  }

  // ---- files ----

  /** A file's name tells its index and whether it is sealed. */
  datatype FileName = FileName(index: nat, sealed: bool)

  datatype LogFile = LogFile(name: FileName, content: seq<Byte>)

  type Log = seq<LogFile>

  predicate HasHeader(b: seq<Byte>) { NextNewline(b, 0) < |b| }

  function HeaderEnd(b: seq<Byte>): nat
    requires HasHeader(b)
  {
    NextNewline(b, 0) + 1
  }

  /** A sealed file ends in an incomplete line. */
  predicate Torn(b: seq<Byte>) { !EndsLine(b) }

  /** Files in index order; only a file with a full header is sealed. */
  predicate WellFormed(log: Log) {
    && (forall i, j :: 0 <= i < j < |log| ==> log[i].name.index < log[j].name.index)
    && (forall i :: 0 <= i < |log| && log[i].name.sealed ==> HasHeader(log[i].content))
  }

  /** Open files grow or are sealed under the same index, sealed ones stay, new ones follow. */
  predicate Extends(a: Log, b: Log) {
    && |a| <= |b|
    && forall i :: 0 <= i < |a| ==>
         && b[i].name.index == a[i].name.index
         && a[i].content <= b[i].content
         && (a[i].name.sealed ==> b[i] == a[i])
  }

  // ---- the server ----

  /** What the log becomes before the server looks at it, whether that look fails,
      and the indices whose files are pruned or removed before it. */
  datatype Moment = Moment(next: Log, fails: bool, removes: set<nat>)

  /** Whether the next look fails. */
  predicate Fails(script: seq<Moment>) { script != [] && script[0].fails }

  function Later(script: seq<Moment>): seq<Moment> { if script == [] then [] else script[1..] }

  /** The log at the next look; a moment that would not extend it changes nothing. */
  function Ticked(log: Log, script: seq<Moment>): Log {
    if script != [] && WellFormed(script[0].next) && Extends(log, script[0].next) then script[0].next else log
  }

  /** The indices removed by the next look. A removed file never comes back. */
  function GoneNext(gone: set<nat>, script: seq<Moment>): set<nat> { if script == [] then gone else gone + script[0].removes }

  /** A schedule that removes nothing. */
  predicate Keeps(script: seq<Moment>) { forall i :: 0 <= i < |script| ==> script[i].removes == {} }

  /** The log after n looks. */
  function LogAfter(log: Log, script: seq<Moment>, n: nat): Log
    requires n <= |script|
    decreases n
  {
    if n == 0 then log else LogAfter(Ticked(log, script), script[1..], n - 1)
  }

  /** A listing: the directory is read as dir, then each entry is looked up in
      stat and left out if its name is gone by then. Files created after the
      directory read do not show. */
  function Listing(dir: Log, stat: Log, gone: set<nat>): seq<LogFile>
    requires |dir| <= |stat|
  {
    if dir == [] then []
    else (if Shows(dir[0], stat[0], gone) then [stat[0]] else []) + Listing(dir[1..], stat[1..], gone)
  }

  /** The entry is still there under its name. */
  predicate Shows(d: LogFile, s: LogFile, gone: set<nat>) { s.name == d.name && s.name.index !in gone }

  datatype ListAnswer = ListFailed | Listed(files: seq<LogFile>)

  datatype ReadAnswer = ReadFailed | NotFound | Data(bytes: seq<Byte>)

  /** The file is there under this name. */
  predicate Found(log: Log, gone: set<nat>, name: FileName) { Exists(log, name) && name.index !in gone }

  predicate Exists(log: Log, name: FileName) { exists i :: 0 <= i < |log| && log[i].name == name }

  function ContentOf(log: Log, name: FileName): seq<Byte>
    requires Exists(log, name)
  {
    if log[0].name == name then log[0].content else ContentOf(log[1..], name)
  }

  lemma {:induction false} ContentAt(log: Log, i: nat)
    requires WellFormed(log) && i < |log|
    ensures Exists(log, log[i].name) && ContentOf(log, log[i].name) == log[i].content
  {
    if i > 0 {
      assert WellFormed(log[1..]);
      ContentAt(log[1..], i - 1);
    }
  }

  /** The sidecar's hash-log endpoints. Every schedule of log growth, seals, new
      files, removals and failures is some script. */
  class Source {
    var log: Log
    var gone: set<nat>
    var script: seq<Moment>

    constructor (log: Log, script: seq<Moment>)
      requires WellFormed(log)
      ensures this.log == log && this.gone == {} && this.script == script
    {
      this.log, this.gone, this.script := log, {}, script;
    }

    method Tick() returns (fails: bool)
      requires WellFormed(log)
      modifies this
      ensures WellFormed(log) && Extends(old(log), log)
      ensures log == Ticked(old(log), old(script)) && gone == GoneNext(old(gone), old(script)) && script == Later(old(script))
      ensures fails == Fails(old(script))
    {
      if script == [] { return false; }
      var m := script[0];
      script := script[1..];
      if WellFormed(m.next) && Extends(log, m.next) { log := m.next; }
      gone := gone + m.removes;
      fails := m.fails;
    }

    /** A directory read and, a moment later, the lookups of its entries. */
    method List() returns (r: ListAnswer, ghost dir: Log)
      requires WellFormed(log)
      modifies this
      ensures WellFormed(dir) && Extends(old(log), dir) && dir == Ticked(old(log), old(script))
      ensures WellFormed(log) && Extends(dir, log)
      ensures var gone1 := GoneNext(old(gone), old(script));
              if Fails(old(script)) then r == ListFailed && log == dir && gone == gone1 && script == Later(old(script))
              else && log == Ticked(dir, Later(old(script))) && gone == GoneNext(gone1, Later(old(script))) && script == Later(Later(old(script)))
                   && r == if Fails(Later(old(script))) then ListFailed else Listed(Listing(dir, log, gone))
    {
      var failed := Tick();
      dir := log;
      var entries := log;
      if failed { return ListFailed, dir; }
      failed := Tick();
      r := if failed then ListFailed else Listed(Listing(entries, log, gone));
    }

    /** The bytes from offset to the end; past the end there are none. */
    method ReadFile(name: FileName, offset: nat) returns (r: ReadAnswer)
      requires WellFormed(log)
      modifies this
      ensures WellFormed(log) && Extends(old(log), log)
      ensures log == Ticked(old(log), old(script)) && gone == GoneNext(old(gone), old(script)) && script == Later(old(script))
      ensures r == if Fails(old(script)) then ReadFailed
                   else if !Found(log, gone, name) then NotFound else Data(From(ContentOf(log, name), offset))
    {
      var fails := Tick();
      r := if fails then ReadFailed else if !Found(log, gone, name) then NotFound else Data(From(ContentOf(log, name), offset));
    }

    method ReadHead(name: FileName, length: nat) returns (r: ReadAnswer)
      requires WellFormed(log)
      modifies this
      ensures WellFormed(log) && Extends(old(log), log)
      ensures log == Ticked(old(log), old(script)) && gone == GoneNext(old(gone), old(script)) && script == Later(old(script))
      ensures r == if Fails(old(script)) then ReadFailed
                   else if !Found(log, gone, name) then NotFound else Data(UpTo(ContentOf(log, name), length))
    {
      var fails := Tick();
      r := if fails then ReadFailed else if !Found(log, gone, name) then NotFound else Data(UpTo(ContentOf(log, name), length));
    }
  }

  // ---- schedules as they are used up ----

  /** From log with schedule a, looks were made until b was left and the log was `now`. */
  predicate Looked(log: Log, a: seq<Moment>, now: Log, b: seq<Moment>) {
    |b| <= |a| && a[|a| - |b|..] == b && now == LogAfter(log, a, |a| - |b|)
  }

  /** Some look between a and b failed. */
  predicate SomeFailed(a: seq<Moment>, b: seq<Moment>) {
    |b| <= |a| && exists i :: 0 <= i < |a| - |b| && a[i].fails
  }

  lemma NoLooks(log: Log, a: seq<Moment>)
    ensures Looked(log, a, log, a) && !SomeFailed(a, a)
  {
  }

  lemma OneLook(log: Log, a: seq<Moment>)
    ensures Looked(log, a, Ticked(log, a), Later(a)) && (SomeFailed(a, Later(a)) <==> Fails(a))
  {
    if a != [] {
      assert LogAfter(log, a, 1) == LogAfter(Ticked(log, a), a[1..], 0);
      if Fails(a) { assert a[0].fails; }
    }
  }

  lemma {:induction false} LogAfterAdds(log: Log, a: seq<Moment>, i: nat, j: nat)
    requires i + j <= |a|
    ensures LogAfter(LogAfter(log, a, i), a[i..], j) == LogAfter(log, a, i + j)
    decreases i
  {
    if i > 0 {
      LogAfterAdds(Ticked(log, a), a[1..], i - 1, j);
      assert a[1..][i - 1..] == a[i..];
    } else {
      assert a[0..] == a;
    }
  }

  lemma FailedOn(a: seq<Moment>, b: seq<Moment>, c: seq<Moment>)
    requires |c| <= |b| <= |a| && a[|a| - |b|..] == b
    ensures SomeFailed(a, c) <==> SomeFailed(a, b) || SomeFailed(b, c)
  {
    var n := |a| - |b|;
    if SomeFailed(a, c) {
      var i :| 0 <= i < |a| - |c| && a[i].fails;
      if i >= n { assert b[i - n] == a[i]; }
    }
    if SomeFailed(b, c) {
      var i :| 0 <= i < |b| - |c| && b[i].fails;
      assert a[n + i] == b[i];
    }
  }

  lemma NoneLeft(log: Log, now: Log, b: seq<Moment>)
    requires Looked(log, [], now, b)
    ensures now == log && b == [] && !SomeFailed([], b)
  {
  }

  lemma LookedOn(log: Log, a: seq<Moment>, mid: Log, b: seq<Moment>, now: Log, c: seq<Moment>)
    requires Looked(log, a, mid, b) && Looked(mid, b, now, c)
    ensures Looked(log, a, now, c) && (SomeFailed(a, c) <==> SomeFailed(a, b) || SomeFailed(b, c))
    ensures |c| <= |b| <= |a| && (a == [] ==> now == log && !SomeFailed(a, c))
  {
    hide LogAfter, SomeFailed;
    var n, k := |a| - |b|, |b| - |c|;
    assert Looked(log, a, now, c) by {
      LogAfterAdds(log, a, n, k);
      assert a[n + k..] == a[n..][k..];
    }
    FailedOn(a, b, c);
    if a == [] { NoneLeft(log, now, c); }
  }

  lemma KeepsLater(gone: set<nat>, script: seq<Moment>)
    requires Keeps(script)
    ensures GoneNext(gone, script) == gone && Keeps(Later(script))
  {
  }

  // ---- schedules that open a file only when the one before is sealed ----

  predicate OneOpen(log: Log) { forall i :: 0 <= i < |log| - 1 ==> log[i].name.sealed }

  predicate Successive(log: Log, script: seq<Moment>) {
    OneOpen(log) && forall i :: 0 <= i < |script| ==> OneOpen(script[i].next)
  }

  lemma {:induction false} SuccessiveOn(log: Log, a: seq<Moment>, n: nat)
    requires Successive(log, a) && n <= |a|
    ensures Successive(LogAfter(log, a, n), a[n..])
    decreases n
  {
    if n > 0 {
      SuccessiveOn(Ticked(log, a), a[1..], n - 1);
      assert a[1..][n - 1..] == a[n..];
    } else {
      assert a[0..] == a;
    }
  }

  function From(b: seq<Byte>, offset: nat): seq<Byte> { if offset <= |b| then b[offset..] else [] }

  function UpTo(b: seq<Byte>, length: nat): seq<Byte> { if length <= |b| then b[..length] else b }
}
