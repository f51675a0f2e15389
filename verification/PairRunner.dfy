/** One pair's poll loop (internal/hashlogcompare/run.go): the rows two readers
    return go through the column filter into the shared buffers, are compared,
    and any mismatch latches the pair as diverged. */
module PairRunner {
  import opened Options
  import opened Orders
  import opened Comparator
  import opened StreamingJoin
  import HashLog
  import HashLogReader
  import Tailing

  const BASE_COLUMNS: set<string> := {"blockHash", "changeset", "resultHash"}
  const MODULE_PREFIX := "memIAVL/mod/"
  const EVM_COLUMN := "memIAVL/mod/evm"

  predicate IsModule(name: string) { MODULE_PREFIX <= name && name != EVM_COLUMN }

  /** Columns that must match between a migrating node and its reserve. */
  predicate Relevant(name: string) { name in BASE_COLUMNS || IsModule(name) }

  function RelevantPart(hashes: Row): Row { map name | name in hashes && Relevant(name) :: hashes[name] }

  /** None for a row without all base columns or without any module column. */
  predicate Usable(hashes: Row) {
    BASE_COLUMNS <= hashes.Keys && exists name :: name in hashes && IsModule(name)
  }

  lemma BaseAreNotModules()
    ensures forall name :: name in BASE_COLUMNS ==> !IsModule(name)
    ensures |BASE_COLUMNS| == 3
  {
    assert "blockHash"[0] != MODULE_PREFIX[0] && "changeset"[0] != MODULE_PREFIX[0] && "resultHash"[0] != MODULE_PREFIX[0];
    assert BASE_COLUMNS == {"blockHash"} + {"changeset"} + {"resultHash"};
  }

  lemma FewerColumns(a: set<string>, b: set<string>)
    requires a <= b
    ensures |a| <= |b| && (|a| == |b| <==> a == b)
  {
    assert b == a + (b - a);
  }

  /** Two usable rows filter to the same columns exactly when they agree on every relevant one. */
  lemma FilterDecidesAgreement(a: Row, b: Row)
    ensures RelevantPart(a) == RelevantPart(b) <==>
            forall name :: Relevant(name) ==> (name in a <==> name in b) && (name in a && name in b ==> a[name] == b[name])
  {
    if RelevantPart(a) == RelevantPart(b) {
      forall name | Relevant(name) ensures (name in a <==> name in b) && (name in a && name in b ==> a[name] == b[name]) {
        assert name in RelevantPart(a) <==> name in a;
        assert name in RelevantPart(b) <==> name in b;
      }
    }
  }

  predicate SameAt(a: Row, b: Row, name: string) { (name in a <==> name in b) && (name in a && name in b ==> a[name] == b[name]) }

  /** The EVM root never shows: rows that differ only there filter alike and are
      usable alike. A difference in any other module root or in a block, changeset
      or result hash always shows. */
  lemma OnlyEvmIsIgnored(a: Row, b: Row)
    ensures (forall name :: name != "memIAVL/mod/evm" ==> SameAt(a, b, name)) ==> RelevantPart(a) == RelevantPart(b) && (Usable(a) <==> Usable(b))
    ensures RelevantPart(a) == RelevantPart(b) ==>
              && SameAt(a, b, "blockHash") && SameAt(a, b, "changeset") && SameAt(a, b, "resultHash")
              && forall store :: store != "evm" ==> SameAt(a, b, "memIAVL/mod/" + store)
  {
    if forall name :: name != "memIAVL/mod/evm" ==> SameAt(a, b, name) { EvmAside(a, b); }
    if RelevantPart(a) == RelevantPart(b) {
      FilterDecidesAgreement(a, b);
      forall store: string | store != "evm" ensures SameAt(a, b, "memIAVL/mod/" + store) {
        var name := "memIAVL/mod/" + store;
        assert name[|MODULE_PREFIX|..] == store && EVM_COLUMN[|MODULE_PREFIX|..] == "evm";
        assert Relevant(name);
      }
      assert Relevant("blockHash") && Relevant("changeset") && Relevant("resultHash");
    }
  }

  lemma EvmAside(a: Row, b: Row)
    requires forall name :: name != "memIAVL/mod/evm" ==> SameAt(a, b, name)
    ensures RelevantPart(a) == RelevantPart(b) && (Usable(a) <==> Usable(b))
  {
    BaseAreNotModules();
    assert !Relevant(EVM_COLUMN) by { assert EVM_COLUMN[0] == 'm' && "blockHash"[0] == 'b' && "changeset"[0] == 'c' && "resultHash"[0] == 'r'; }
    forall name | Relevant(name) ensures (name in a <==> name in b) && (name in a && name in b ==> a[name] == b[name]) {
      assert name != EVM_COLUMN && SameAt(a, b, name);
    }
    FilterDecidesAgreement(a, b);
    forall name | IsModule(name) ensures name in a <==> name in b { assert SameAt(a, b, name); }
    forall name | name in BASE_COLUMNS ensures name in a <==> name in b { assert SameAt(a, b, name); }
  }

  method BaseHashes(hashes: Row) returns (r: Option<Row>)
    ensures r == if BASE_COLUMNS <= hashes.Keys then Some(map name | name in BASE_COLUMNS :: hashes[name]) else None
  {
    var out: Row := map[];
    var base := ["blockHash", "changeset", "resultHash"];
    for i := 0 to |base|
      invariant out.Keys == Elems(base[..i]) && forall name :: name in out ==> name in hashes && out[name] == hashes[name]
    {
      if base[i] !in hashes {
        assert base[i] in BASE_COLUMNS;
        return None;
      }
      ElemsNext(base, i);
      out := out[base[i] := hashes[base[i]]];
    }
    assert base[..|base|] == base && base[0] in base && base[1] in base && base[2] in base;
    assert out.Keys == BASE_COLUMNS;
    assert out == map name | name in BASE_COLUMNS :: hashes[name];
    r := Some(out);
  }

  method AddModuleHashes(base: Row, hashes: Row) returns (out: Row)
    requires base.Keys == BASE_COLUMNS && forall name :: name in base ==> name in hashes && base[name] == hashes[name]
    ensures out == RelevantPart(hashes)
  {
    out := base;
    var names := Enumerate(hashes.Keys);
    for i := 0 to |names|
      invariant forall name :: name in out <==> name in BASE_COLUMNS || (name in names[..i] && IsModule(name))
      invariant forall name :: name in out ==> name in hashes && out[name] == hashes[name]
    {
      assert names[i] in hashes.Keys;
      if MODULE_PREFIX <= names[i] && names[i] != EVM_COLUMN { out := out[names[i] := hashes[names[i]]]; }
    }
    assert names[..|names|] == names;
  }

  lemma UsableBySize(hashes: Row)
    requires BASE_COLUMNS <= hashes.Keys
    ensures Usable(hashes) <==> |RelevantPart(hashes)| != 3
  {
    BaseAreNotModules();
    var keys := RelevantPart(hashes).Keys;
    assert BASE_COLUMNS <= keys;
    FewerColumns(BASE_COLUMNS, keys);
    if Usable(hashes) {
      var name :| name in hashes && IsModule(name);
      assert name in keys && name !in BASE_COLUMNS;
    } else {
      assert keys <= BASE_COLUMNS;
    }
  }

  method ComparableHashes(hashes: Row) returns (r: Option<Row>)
    ensures r == if Usable(hashes) then Some(RelevantPart(hashes)) else None
  {
    var base := BaseHashes(hashes);
    if base.None? { return None; }
    var out := AddModuleHashes(base.value, hashes);
    UsableBySize(hashes);
    r := if |out| == 3 then None else Some(out);
  }

  /** The usable rows of a poll, filtered. */
  ghost function Filtered(rows: seq<Entry>): seq<Entry> {
    if rows == [] then []
    else
      var e := rows[|rows| - 1];
      Filtered(rows[..|rows| - 1]) + if Usable(e.row) then [Entry(e.height, RelevantPart(e.row))] else []
  }

  lemma FilteredNext(rows: seq<Entry>, i: nat)
    requires i < |rows|
    ensures Filtered(rows[..i + 1]) ==
            if Usable(rows[i].row) then Filtered(rows[..i]) + [Entry(rows[i].height, RelevantPart(rows[i].row))]
            else Filtered(rows[..i])
  {
    assert rows[..i + 1][..i] == rows[..i];
  }

  lemma AddAllNext(s: Pair, side: Side, rows: seq<Entry>, e: Entry)
    ensures AddAll(s, side, rows + [e]) == AfterAdd(AddAll(s, side, rows), side, e.height, e.row)
  {
    assert (rows + [e])[..|rows|] == rows;
  }

  lemma {:induction false} FilteredJoin(a: seq<Entry>, b: seq<Entry>)
    ensures Filtered(a + b) == Filtered(a) + Filtered(b)
    decreases |b|
  {
    if b == [] {
      assert a + b == a;
    } else {
      FilteredJoin(a, b[..|b| - 1]);
      assert (a + b)[..|a + b| - 1] == a + b[..|b| - 1];
    }
  }

  lemma {:induction false} ReceivedJoin(m: Rows, a: seq<Entry>, b: seq<Entry>)
    ensures Received(m, a + b) == Received(Received(m, a), b)
    decreases |b|
  {
    if b == [] {
      assert a + b == a;
    } else {
      ReceivedJoin(m, a, b[..|b| - 1]);
      assert (a + b)[..|a + b| - 1] == a + b[..|b| - 1];
    }
  }

  // ---- from consumed lines to the rows of a side ----

  function Entries(rows: seq<Tailing.HashRow>): seq<Entry> {
    seq(|rows|, i requires 0 <= i < |rows| => Entry(rows[i].height, rows[i].hashes))
  }

  /** The usable rows among the lines, filtered, in order. */
  ghost function UsableRows(ps: Tailing.Parser, lines: seq<Tailing.Line>): seq<Entry> {
    Filtered(Entries(HashLogReader.ParsedRows(ps, lines)))
  }

  lemma UsableJoin(ps: Tailing.Parser, a: seq<Tailing.Line>, b: seq<Tailing.Line>)
    ensures UsableRows(ps, a + b) == UsableRows(ps, a) + UsableRows(ps, b)
  {
    var x, y := HashLogReader.ParsedRows(ps, a), HashLogReader.ParsedRows(ps, b);
    HashLogReader.ParsingJoins(ps, a, b);
    assert Entries(x + y) == Entries(x) + Entries(y);
    FilteredJoin(Entries(x), Entries(y));
  }

  /** The rows by height; the last one wins. */
  ghost function ByHeight(ps: Tailing.Parser, lines: seq<Tailing.Line>): Rows { Received(map[], UsableRows(ps, lines)) }

  function Sent(p: Poll, side: Side): seq<Entry> { if side == Migrating then p.migrating else p.reserve }

  /** Everything one side sent, in order. */
  function Gathered(polls: seq<Poll>, side: Side): seq<Entry> {
    if polls == [] then [] else Gathered(polls[..|polls| - 1], side) + Sent(polls[|polls| - 1], side)
  }

  lemma {:induction false} StreamIsGathered(polls: seq<Poll>, side: Side)
    ensures Stream(polls, side) == Received(map[], Gathered(polls, side))
  {
    if polls != [] {
      StreamIsGathered(polls[..|polls| - 1], side);
      ReceivedJoin(map[], Gathered(polls[..|polls| - 1], side), Sent(polls[|polls| - 1], side));
    }
  }

  lemma GatheredNext(polls: seq<Poll>, p: Poll)
    ensures AfterPolls(polls + [p]) == AfterPoll(AfterPolls(polls), p)
    ensures forall side :: Gathered(polls + [p], side) == Gathered(polls, side) + Sent(p, side)
  {
    assert (polls + [p])[..|polls|] == polls;
  }

  class Runner {
    const state: PairState
    const migrating: HashLogReader.Reader
    const reserve: HashLogReader.Reader
    var diverged: bool
    var compared: nat
    var mismatches: seq<Mismatch>
    var migratingGaps: nat
    var reserveGaps: nat

    ghost var polls: seq<Poll>

    constructor (migrating: HashLogReader.Reader, reserve: HashLogReader.Reader)
      requires migrating != reserve && migrating.src != reserve.src && migrating.Valid() && reserve.Valid()
      requires !migrating.started && !reserve.started && migrating.past == [] && reserve.past == []
      ensures Valid() && polls == [] && this.migrating == migrating && this.reserve == reserve && fresh(state)
    {
      state := new PairState();
      this.migrating, this.reserve := migrating, reserve;
      diverged, compared, mismatches, migratingGaps, reserveGaps, polls := false, 0, [], 0, 0, [];
    }

    ghost function Total(): Totals
      reads this, state
    {
      Totals(state.View(), compared, mismatches, migratingGaps, reserveGaps)
    }

    /** The diverged gauge is set exactly when some mismatch was recorded. */
    predicate Latched()
      reads this
    {
      diverged <==> mismatches != []
    }

    /** Everything found so far comes from the polls, and the polls brought the
        usable rows among all lines the two readers consumed. */
    ghost predicate Valid()
      reads this, state, migrating, migrating.src, reserve, reserve.src
    {
      && migrating != reserve && migrating.src != reserve.src && migrating.Valid() && reserve.Valid()
      && Latched() && Total() == AfterPolls(polls)
      && Gathered(polls, Migrating) == UsableRows(migrating.ps, migrating.Total())
      && Gathered(polls, Reserve) == UsableRows(reserve.ps, reserve.Total())
    }

    /** Adds the usable rows of one side; returns how many were not. */
    method AddRows(side: Side, rows: seq<Entry>, invalid: nat) returns (unusable: nat)
      modifies state
      ensures state.View() == AddAll(old(state.View()), side, Filtered(rows))
      ensures unusable == invalid + |rows| - |Filtered(rows)|
    {
      unusable := invalid;
      for i := 0 to |rows|
        invariant state.View() == AddAll(old(state.View()), side, Filtered(rows[..i]))
        invariant unusable == invalid + i - |Filtered(rows[..i])|
      {
        FilteredNext(rows, i);
        var row := ComparableHashes(rows[i].row);
        if row.None? {
          unusable := unusable + 1;
        } else {
          AddAllNext(old(state.View()), side, Filtered(rows[..i]), Entry(rows[i].height, row.value));
          state.Add(side, rows[i].height, row.value);
        }
      }
      assert rows[..|rows|] == rows;
    }

    /** Polls one reader and adds what it returned. */
    method Read(side: Side, r: HashLogReader.Reader, ghost f: nat) returns (unusable: nat, ghost sent: seq<Entry>, ghost g: nat)
      requires r.Valid() && HashLogReader.Still(r, f)
      modifies state, r, r.src
      ensures r.Valid() && r.Called() && r.Sighted() && HashLogReader.Still(r, g)
      ensures |r.src.script| + 1 + f <= |old(r.src.script)| + g && (old(r.Keeping()) ==> r.past == old(r.past))
      ensures state.View() == AddAll(old(state.View()), side, sent)
      ensures UsableRows(r.ps, r.Total()) == UsableRows(r.ps, old(r.Total())) + sent
      ensures unusable + |sent| + |old(r.Total())| == |r.Total()|
    {
      hide AddAll;
      ghost var before := r.Total();
      var rows, invalid, delta, h := HashLogReader.PollAgain(r, f);
      unusable := AddRows(side, Entries(rows), invalid);
      sent, g := Filtered(Entries(rows)), h;
      UsableJoin(r.ps, before, delta);
      HashLogReader.EveryLineAccounted(r.ps, delta);
    }

    method Record(res: CompareResult)
      requires Latched()
      modifies this
      ensures Latched() && (old(diverged) ==> diverged) && polls == old(polls)
      ensures compared == old(compared) + res.compared && mismatches == old(mismatches) + res.mismatches
      ensures migratingGaps == old(migratingGaps) + res.migratingGaps && reserveGaps == old(reserveGaps) + res.reserveGaps
    {
      for i := 0 to |res.mismatches|
        modifies this`diverged, this`mismatches
        invariant mismatches == old(mismatches) + res.mismatches[..i]
        invariant diverged <==> old(diverged) || i > 0
      {
        diverged := true;
        mismatches := mismatches + [res.mismatches[i]];
      }
      assert res.mismatches[..|res.mismatches|] == res.mismatches;
      migratingGaps, reserveGaps, compared := migratingGaps + res.migratingGaps, reserveGaps + res.reserveGaps, compared + res.compared;
    }

    method ReadBoth(ghost f: nat, ghost g: nat) returns (ghost sent: Poll, ghost f2: nat, ghost g2: nat)
      requires migrating != reserve && migrating.src != reserve.src && migrating.Valid() && reserve.Valid()
      requires HashLogReader.Still(migrating, f) && HashLogReader.Still(reserve, g)
      modifies state, migrating, migrating.src, reserve, reserve.src
      ensures migrating.Valid() && migrating.Called() && migrating.Sighted() && HashLogReader.Still(migrating, f2)
      ensures reserve.Valid() && reserve.Called() && reserve.Sighted() && HashLogReader.Still(reserve, g2)
      ensures |migrating.src.script| + 1 + f <= |old(migrating.src.script)| + f2 && (old(migrating.Keeping()) ==> migrating.past == old(migrating.past))
      ensures |reserve.src.script| + 1 + g <= |old(reserve.src.script)| + g2 && (old(reserve.Keeping()) ==> reserve.past == old(reserve.past))
      ensures state.View() == AddAll(AddAll(old(state.View()), Migrating, sent.migrating), Reserve, sent.reserve)
      ensures UsableRows(migrating.ps, migrating.Total()) == UsableRows(migrating.ps, old(migrating.Total())) + sent.migrating
      ensures UsableRows(reserve.ps, reserve.Total()) == UsableRows(reserve.ps, old(reserve.Total())) + sent.reserve
    {
      hide HashLogReader.Reader.Valid, HashLogReader.Reader.Total, HashLogReader.Still, UsableRows, AddAll;
      hide HashLog.Looked, HashLog.SomeFailed, HashLog.Successive, HashLog.Keeps, HashLogReader.AllOneOpen;
      var _, m, f3 := Read(Migrating, migrating, f);
      var _, r, g3 := Read(Reserve, reserve, g);
      sent, f2, g2 := Poll(m, r), f3, g3;
    }

    /** One poll of both readers is one step of the streaming join over the
        usable rows they returned. */
    method PollOnce(ghost f: nat, ghost g: nat) returns (ghost f2: nat, ghost g2: nat)
      requires Valid() && HashLogReader.Still(migrating, f) && HashLogReader.Still(reserve, g)
      modifies this, state, migrating, migrating.src, reserve, reserve.src
      ensures Valid() && (old(diverged) ==> diverged) && |polls| == |old(polls)| + 1 && polls[..|old(polls)|] == old(polls)
      ensures migrating.Called() && migrating.Sighted() && reserve.Called() && reserve.Sighted()
      ensures HashLogReader.Still(migrating, f2) && HashLogReader.Still(reserve, g2)
      ensures |migrating.src.script| + 1 + f <= |old(migrating.src.script)| + f2 && (old(migrating.Keeping()) ==> migrating.past == old(migrating.past))
      ensures |reserve.src.script| + 1 + g <= |old(reserve.src.script)| + g2 && (old(reserve.Keeping()) ==> reserve.past == old(reserve.past))
    {
      hide HashLogReader.Reader.Valid, HashLogReader.Reader.Total, HashLogReader.Reader.Called, HashLogReader.Reader.Sighted, HashLogReader.Still;
      hide UsableRows, Gathered, AfterPolls, AddAll;
      ghost var before := Total();
      ghost var sent;
      sent, f2, g2 := ReadBoth(f, g);
      var res := state.Compare();
      Record(res);
      GatheredNext(polls, sent);
      assert Total() == AfterPoll(before, sent);
      polls := polls + [sent];
    }

    /** With height-ordered usable rows the gauge is set exactly when the lines
        the two readers consumed hold different usable rows at a common height. */
    lemma LatchMeans()
      requires Valid() && InOrder(polls)
      ensures diverged <==> Diverge(ByHeight(migrating.ps, migrating.Total()), ByHeight(reserve.ps, reserve.Total()))
    {
      StreamIsGathered(polls, Migrating);
      StreamIsGathered(polls, Reserve);
      DivergedMeans(polls);
    }

    /** Any number of polls of a pair, whatever happens to the two logs in
        between. Once both schedules are used up and both logs stay, enough polls make
        the gauge tell whether the two whole logs differ, if no lines were cut off by a
        gap and none are in files given up. A schedule that removes no file has no gap,
        and one that opens a file only when the one before is sealed passes none over. */
    method Watch(n: nat)
      requires Valid() && polls == [] && !migrating.started && !reserve.started && migrating.past == [] && reserve.past == []
      modifies this, state, migrating, migrating.src, reserve, reserve.src
      ensures Valid() && |polls| == n
      ensures InOrder(polls) ==>
                (diverged <==> Diverge(ByHeight(migrating.ps, migrating.Total()), ByHeight(reserve.ps, reserve.Total())))
      ensures n >= |old(migrating.src.script)| + 2 * |migrating.src.log| + 3 && n >= |old(reserve.src.script)| + 2 * |reserve.src.log| + 3
              && Tailed(migrating) && Tailed(reserve) && InOrder(polls) ==>
                (diverged <==> Diverge(AllRows(migrating), AllRows(reserve)))
      ensures (old(migrating.Keeping()) ==> migrating.past == []) && (old(reserve.Keeping()) ==> reserve.past == [])
      ensures old(HashLog.Successive(migrating.src.log, migrating.src.script)) && old(migrating.Keeping()) ==> migrating.mark.scope.skipped == {}
      ensures old(HashLog.Successive(reserve.src.log, reserve.src.script)) && old(reserve.Keeping()) ==> reserve.mark.scope.skipped == {}
    {
      hide UsableRows, Gathered, AfterPolls, InOrder, Diverge, ByHeight, Tailed;
      hide HashLogReader.Reader.Valid, HashLogReader.Still, HashLog.Looked, HashLog.Successive, HashLog.Keeps, HashLogReader.AllOneOpen;
      ghost var f: nat, g: nat := 0, 0;
      ghost var mlog, mscript, rlog, rscript := migrating.src.log, migrating.src.script, reserve.src.log, reserve.src.script;
      HashLog.NoLooks(mlog, mscript);
      HashLog.NoLooks(rlog, rscript);
      Begins();
      for i := 0 to n
        invariant Valid() && |polls| == i
        invariant HashLogReader.Still(migrating, f) && HashLogReader.Still(reserve, g)
        invariant i + |migrating.src.script| <= |old(migrating.src.script)| + f && i + |reserve.src.script| <= |old(reserve.src.script)| + g
        invariant old(migrating.Keeping()) ==> migrating.Keeping() && migrating.past == []
        invariant old(reserve.Keeping()) ==> reserve.Keeping() && reserve.past == []
        invariant Followed(migrating, mlog, mscript, old(migrating.Keeping())) && Followed(reserve, rlog, rscript, old(reserve.Keeping()))
      {
        ghost var mlog2, mscript2, rlog2, rscript2 := migrating.src.log, migrating.src.script, reserve.src.log, reserve.src.script;
        HashLogReader.SuccessiveThen(mlog, mscript, mlog2, mscript2);
        HashLogReader.SuccessiveThen(rlog, rscript, rlog2, rscript2);
        f, g := PollOnce(f, g);
        HashLog.LookedOn(mlog, mscript, mlog2, mscript2, migrating.src.log, migrating.src.script);
        HashLog.LookedOn(rlog, rscript, rlog2, rscript2, reserve.src.log, reserve.src.script);
      }
      if InOrder(polls) { LatchMeans(); }
      Ends(migrating, f, mlog, mscript, old(migrating.Keeping()));
      Ends(reserve, g, rlog, rscript, old(reserve.Keeping()));
    }

    lemma Begins()
      requires Valid() && !migrating.started && !reserve.started
      ensures HashLogReader.Still(migrating, 0) && HashLogReader.Still(reserve, 0)
      ensures HashLogReader.AllOneOpen(migrating.mark.seen) && HashLogReader.AllOneOpen(reserve.mark.seen)
    {
    }
  }

  /** The reader's calls came from the schedule, and so did the listings it moved on by. */
  ghost predicate Followed(r: HashLogReader.Reader, log: HashLog.Log, script: seq<HashLog.Moment>, keeping: bool)
    reads r, r.src
  {
    && HashLog.Looked(log, script, r.src.log, r.src.script)
    && (HashLog.Successive(log, script) && keeping ==> HashLogReader.AllOneOpen(r.mark.seen))
  }

  lemma Ends(r: HashLogReader.Reader, f: nat, log: HashLog.Log, script: seq<HashLog.Moment>, keeping: bool)
    requires r.Valid() && HashLogReader.Still(r, f) && Followed(r, log, script, keeping)
    ensures HashLog.Successive(log, script) && keeping ==> r.mark.scope.skipped == {}
    ensures f >= 2 * |r.src.log| + 3 && Tailed(r) ==> AllRows(r) == ByHeight(r.ps, r.Total())
  {
    hide HashLogReader.Orderly, HashLogReader.Bounded, Tailing.Harmless, ByHeight, Tailing.LinesBefore, HashLog.Successive,
         Tailing.Exact, Tailing.AllTorn, HashLog.Looked, HashLogReader.AllOneOpen, HashLogReader.Settled;
    if HashLog.Successive(log, script) && keeping { HashLogReader.OneOpenSkipsNothing(r.mark.seen); }
    if f >= 2 * |r.src.log| + 3 {
      HashLogReader.StillIsThrough(r, f);
      assert Tailed(r) ==> r.Total() == r.mark.consumed;
    }
  }

  /** The reader has reported no gap, its log can be read through, and nothing is in
      the files it gave up. */
  ghost predicate Tailed(r: HashLogReader.Reader)
    reads r, r.src
  {
    && r.started && r.past == [] && HashLogReader.Readable(r.ps, r.src.log, r.src.gone, r.mark.scope)
    && Tailing.Harmless(r.ps, r.src.log, r.Abandoned())
  }

  /** The usable rows among all complete lines of a reader's log since its start. */
  ghost function AllRows(r: HashLogReader.Reader): Rows
    reads r, r.src
  {
    ByHeight(r.ps, Tailing.LinesBefore(r.ps, r.src.log, Tailing.Whole(r.mark.scope), |r.src.log|))
  }

  predicate Diverge(m: Rows, r: Rows) { exists h :: h in m && h in r && m[h] != r[h] }

  lemma ReportedMeans(ms: seq<Mismatch>, m: Rows, r: Rows)
    requires ReportsDivergence(ms, m, r)
    ensures ms != [] <==> Diverge(m, r)
  {
    if ms != [] { assert Reported(ms, ms[0].height); }
    if Diverge(m, r) {
      var h :| h in m && h in r && m[h] != r[h];
      assert Reported(ms, h);
    }
  }

  /** With height-ordered usable rows some mismatch is recorded exactly when the
      two streams differ at a height both have. */
  lemma DivergedMeans(polls: seq<Poll>)
    requires InOrder(polls)
    ensures AfterPolls(polls).mismatches != [] <==> Diverge(Stream(polls, Migrating), Stream(polls, Reserve))
  {
    EveryDivergenceIsReported(polls);
    ReportedMeans(AfterPolls(polls).mismatches, Stream(polls, Migrating), Stream(polls, Reserve));
  }
}
