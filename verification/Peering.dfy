/** Peer resolution (internal/peering/resolver.go): the persistent_peers set of a
    node, composed again on every reconcile, never loses a peer to a failure. */
module Peering {
  import opened Options
  import opened Orders

  const P2P_PORT := "26656"

  /** A SeiNode a label source matches. */
  datatype Peer = Peer(name: string, namespace: string, externalAddress: string)

  /** A peer source, with what it matches. */
  datatype Source = Label(peers: seq<Peer>) | Static(addresses: seq<string>) | EC2Tags(instances: seq<string>)

  /** What one reconcile hears back: whether the call fails, and each peer's node ID if its sidecar answers. */
  datatype Answer = Answer(fails: bool, nodeIDs: seq<Option<string>>)

  function PeerAddress(p: Peer): (a: string)
    ensures a != "" && (p.externalAddress != "" ==> a == p.externalAddress)
  {
    if p.externalAddress != "" then p.externalAddress
    else p.name + "-0." + p.name + "." + p.namespace + ".svc.cluster.local:" + P2P_PORT
  }

  // ---- entries and hosts ----

  /** Position of the first '@', or the length. */
  function AtSign(p: string): (i: nat)
    ensures i <= |p| && (i < |p| ==> p[i] == '@')
  {
    if p == "" || p[0] == '@' then 0 else AtSign(p[1..]) + 1
  }

  /** The host:port of a composed entry, when both halves are there. */
  function HostOf(p: string): Option<string> {
    var at := AtSign(p);
    if at == 0 || at >= |p| - 1 then None else Some(p[at + 1..])
  }

  predicate ValidID(id: string) { id != "" && forall i :: 0 <= i < |id| ==> id[i] != '@' }

  function Compose(id: string, address: string): string { id + "@" + address }

  lemma {:induction false} AtSignAfter(id: string, rest: string)
    requires forall i :: 0 <= i < |id| ==> id[i] != '@'
    ensures AtSign(id + "@" + rest) == |id|
  {
    if id != "" {
      AtSignAfter(id[1..], rest);
      assert (id + "@" + rest)[1..] == id[1..] + "@" + rest;
    }
  }

  lemma ComposedHost(id: string, address: string)
    requires ValidID(id) && address != ""
    ensures HostOf(Compose(id, address)) == Some(address)
  {
    AtSignAfter(id, address);
    assert Compose(id, address)[|id| + 1..] == address;
  }

  /** Exactly the entries of a non-empty ID without '@' and a host have that host. */
  lemma HostOfIff(e: string, host: string)
    ensures HostOf(e) == Some(host) <==> host != "" && exists id :: ValidID(id) && e == Compose(id, host)
  {
    if HostOf(e) == Some(host) {
      var id := e[..AtSign(e)];
      BeforeAtSign(e);
      assert e == Compose(id, host);
    }
    if host != "" && exists id :: ValidID(id) && e == Compose(id, host) {
      var id :| ValidID(id) && e == Compose(id, host);
      ComposedHost(id, host);
    }
  }

  lemma {:induction false} BeforeAtSign(p: string)
    ensures forall i :: 0 <= i < AtSign(p) ==> p[i] != '@'
  {
    if p != "" && p[0] != '@' { BeforeAtSign(p[1..]); }
  }

  /** Without external addresses, two peers share an address only if they are one
      (names are labels, without dots). */
  lemma AddressesDiffer(p: Peer, q: Peer)
    requires p.externalAddress == "" && q.externalAddress == "" && PeerAddress(p) == PeerAddress(q)
    requires '.' !in p.name && '.' !in q.name
    ensures p.name == q.name && p.namespace == q.namespace
  {
    var tail := ".svc.cluster.local:" + P2P_PORT;
    PodAddress(p);
    PodAddress(q);
    hide PeerAddress;
    var x, y := p.name + ("." + (p.namespace + tail)), q.name + ("." + (q.namespace + tail));
    FirstDot(p.name, x, PeerAddress(p));
    FirstDot(q.name, y, PeerAddress(q));
    SameHead(p.name, "-0." + x, q.name, "-0." + y);
    SameHead("-0.", x, "-0.", y);
    SameHead(p.name, "." + (p.namespace + tail), q.name, "." + (q.namespace + tail));
    SameHead(".", p.namespace + tail, ".", q.namespace + tail);
    SameHead(p.namespace, tail, q.namespace, tail);
  }

  lemma PodAddress(p: Peer)
    requires p.externalAddress == ""
    ensures PeerAddress(p) == p.name + ("-0." + (p.name + ("." + (p.namespace + (".svc.cluster.local:" + P2P_PORT)))))
  {
  }

  lemma SameHead(a: string, s: string, b: string, t: string)
    requires a + s == b + t && |a| == |b|
    ensures a == b && s == t
  {
    assert (a + s)[..|a|] == a && (b + t)[..|b|] == b;
    assert (a + s)[|a|..] == s && (b + t)[|b|..] == t;
  }

  lemma FirstDot(name: string, rest: string, a: string)
    requires '.' !in name && a == name + ("-0." + rest)
    ensures |name| + 2 < |a| && a[|name| + 2] == '.' && forall i :: 0 <= i < |name| + 2 ==> a[i] != '.'
  {
    forall i | 0 <= i < |name| ensures a[i] != '.' { assert a[i] == name[i] && name[i] in name; }
  }

  /** indexResolvedPeersByHost: the last entry of each host. */
  function IndexByHost(peers: seq<string>): map<string, string> {
    if peers == [] then map[]
    else
      var m, p := IndexByHost(peers[..|peers| - 1]), peers[|peers| - 1];
      if HostOf(p).Some? then m[HostOf(p).value := p] else m
  }

  /** Every host is indexed, under an entry of that host. */
  lemma {:induction false} IndexFinds(peers: seq<string>)
    ensures forall h :: h in IndexByHost(peers) ==> IndexByHost(peers)[h] in peers && HostOf(IndexByHost(peers)[h]) == Some(h)
    ensures forall p :: p in peers && HostOf(p).Some? ==> HostOf(p).value in IndexByHost(peers)
    decreases |peers|
  {
    if peers != [] {
      var init, p := peers[..|peers| - 1], peers[|peers| - 1];
      IndexFinds(init);
      assert peers == init + [p];
    }
  }

  method IndexPeers(peers: seq<string>) returns (r: map<string, string>)
    ensures r == IndexByHost(peers)
  {
    r := map[];
    for i := 0 to |peers|
      invariant r == IndexByHost(peers[..i])
    {
      assert peers[..i + 1][..i] == peers[..i];
      var at := AtSign(peers[i]);
      if !(at == 0 || at >= |peers[i]| - 1) { r := r[peers[i][at + 1..] := peers[i]]; }
    }
    assert peers[..|peers|] == peers;
  }

  // ---- label sources ----

  /** The entry of one peer: fresh, else the prior one of its host, else none yet. */
  function PeerEntry(p: Peer, id: Option<string>, index: map<string, string>): seq<string> {
    if id.Some? then [Compose(id.value, PeerAddress(p))]
    else if PeerAddress(p) in index then [index[PeerAddress(p)]] else []
  }

  predicate IsSelf(p: Peer, self: Peer) { p.name == self.name && p.namespace == self.namespace }

  /** Entries of the first k peers; a peer without an answer has None. */
  function LabelEntries(self: Peer, peers: seq<Peer>, ids: seq<Option<string>>, index: map<string, string>): seq<string>
    requires |ids| == |peers|
  {
    if peers == [] then []
    else
      var n := |peers| - 1;
      LabelEntries(self, peers[..n], ids[..n], index) + if IsSelf(peers[n], self) then [] else PeerEntry(peers[n], ids[n], index)
  }

  method ResolveLabel(self: Peer, peers: seq<Peer>, ids: seq<Option<string>>, index: map<string, string>) returns (r: seq<string>)
    requires |ids| == |peers|
    ensures r == LabelEntries(self, peers, ids, index)
  {
    r := [];
    for i := 0 to |peers|
      invariant r == LabelEntries(self, peers[..i], ids[..i], index)
    {
      assert peers[..i + 1][..i] == peers[..i] && ids[..i + 1][..i] == ids[..i];
      if IsSelf(peers[i], self) { continue; }
      var address := PeerAddress(peers[i]);
      if ids[i].Some? {
        r := r + [Compose(ids[i].value, address)];
      } else if address in index {
        r := r + [index[address]];
      }
    }
    assert peers[..|peers|] == peers && ids[..|ids|] == ids;
  }

  lemma {:induction false} LabelEntriesAre(self: Peer, peers: seq<Peer>, ids: seq<Option<string>>, index: map<string, string>, i: nat)
    requires |ids| == |peers| && i < |peers| && !IsSelf(peers[i], self)
    ensures forall e :: e in PeerEntry(peers[i], ids[i], index) ==> e in LabelEntries(self, peers, ids, index)
    decreases |peers|
  {
    var n := |peers| - 1;
    if i < n { LabelEntriesAre(self, peers[..n], ids[..n], index, i); }
  }

  lemma {:induction false} LabelEntriesFrom(self: Peer, peers: seq<Peer>, ids: seq<Option<string>>, index: map<string, string>, e: string)
    requires |ids| == |peers| && e in LabelEntries(self, peers, ids, index)
    ensures exists i :: 0 <= i < |peers| && !IsSelf(peers[i], self) && e in PeerEntry(peers[i], ids[i], index)
    decreases |peers|
  {
    var n := |peers| - 1;
    if e in LabelEntries(self, peers[..n], ids[..n], index) {
      LabelEntriesFrom(self, peers[..n], ids[..n], index, e);
      var i :| 0 <= i < n && !IsSelf(peers[i], self) && e in PeerEntry(peers[i], ids[i], index);
    }
  }

  // ---- all sources ----

  /** Every answer fits its source, and sidecars answer with real node IDs. */
  predicate Fitting(sources: seq<Source>, answers: seq<Answer>) {
    && |answers| == |sources|
    && forall i :: 0 <= i < |sources| && sources[i].Label? ==>
         && |answers[i].nodeIDs| == |sources[i].peers|
         && forall k :: 0 <= k < |answers[i].nodeIDs| && answers[i].nodeIDs[k].Some? ==> ValidID(answers[i].nodeIDs[k].value)
  }

  function SourceEntries(self: Peer, s: Source, a: Answer, index: map<string, string>): seq<string>
    requires s.Label? ==> |a.nodeIDs| == |s.peers|
  {
    match s
    case Label(peers) => LabelEntries(self, peers, a.nodeIDs, index)
    case Static(addresses) => addresses
    case EC2Tags(instances) => if a.fails then [] else instances
  }

  function Gathered(self: Peer, sources: seq<Source>, answers: seq<Answer>, index: map<string, string>): seq<string>
    requires Fitting(sources, answers)
  {
    if sources == [] then []
    else
      var n := |sources| - 1;
      Gathered(self, sources[..n], answers[..n], index) + SourceEntries(self, sources[n], answers[n], index)
  }

  predicate ListFails(sources: seq<Source>, answers: seq<Answer>)
    requires |answers| == |sources|
  {
    exists i :: 0 <= i < |sources| && sources[i].Label? && answers[i].fails
  }

  predicate EC2Fails(sources: seq<Source>, answers: seq<Answer>)
    requires |answers| == |sources|
  {
    exists i :: 0 <= i < |sources| && sources[i].EC2Tags? && answers[i].fails
  }

  /** None is a failed list call; the prior set then stays. */
  function Resolved(self: Peer, sources: seq<Source>, answers: seq<Answer>, prior: seq<string>): Option<seq<string>>
    requires Fitting(sources, answers)
  {
    if ListFails(sources, answers) then None
    else
      var gathered := Gathered(self, sources, answers, IndexByHost(prior));
      Some(Compact(Sort(if EC2Fails(sources, answers) then gathered + prior else gathered, StringLe)))
  }

  method Resolve(self: Peer, sources: seq<Source>, answers: seq<Answer>, prior: seq<string>) returns (r: Option<seq<string>>)
    requires Fitting(sources, answers)
    ensures r == Resolved(self, sources, answers, prior)
  {
    var index := IndexPeers(prior);
    var peers, preserve := [], false;
    for i := 0 to |sources|
      invariant peers == Gathered(self, sources[..i], answers[..i], index)
      invariant preserve == EC2Fails(sources[..i], answers[..i])
      invariant !ListFails(sources[..i], answers[..i])
    {
      GatheredNext(self, sources, answers, index, i);
      match sources[i] {
        case Label(matching) =>
          if answers[i].fails { return None; }
          var endpoints := ResolveLabel(self, matching, answers[i].nodeIDs, index);
          peers := peers + endpoints;
        case Static(addresses) => peers := peers + addresses;
        case EC2Tags(instances) =>
          if answers[i].fails { preserve := true; } else { peers := peers + instances; }
      }
    }
    assert sources[..|sources|] == sources && answers[..|answers|] == answers;
    if preserve { peers := peers + prior; }
    r := Some(Compact(Sort(peers, StringLe)));
  }

  lemma GatheredNext(self: Peer, sources: seq<Source>, answers: seq<Answer>, index: map<string, string>, i: nat)
    requires Fitting(sources, answers) && i < |sources|
    ensures Gathered(self, sources[..i + 1], answers[..i + 1], index)
         == Gathered(self, sources[..i], answers[..i], index) + SourceEntries(self, sources[i], answers[i], index)
    ensures EC2Fails(sources[..i + 1], answers[..i + 1]) <==> EC2Fails(sources[..i], answers[..i]) || (sources[i].EC2Tags? && answers[i].fails)
    ensures ListFails(sources[..i + 1], answers[..i + 1]) <==> ListFails(sources[..i], answers[..i]) || (sources[i].Label? && answers[i].fails)
    ensures sources[i].Label? && answers[i].fails ==> ListFails(sources, answers)
  {
    var s, a := sources[..i + 1], answers[..i + 1];
    assert s[..i] == sources[..i] && a[..i] == answers[..i];
    assert s[i] == sources[i] && a[i] == answers[i];
    assert forall k :: 0 <= k < i ==> s[k] == sources[..i][k] && a[k] == answers[..i][k];
  }

  // ---- the theorem ----

  /** An entry one of the sources can give. */
  ghost predicate Given(self: Peer, sources: seq<Source>, e: string) {
    exists i :: 0 <= i < |sources| && GivenBy(self, sources[i], e)
  }

  ghost predicate GivenBy(self: Peer, s: Source, e: string) {
    match s
    case Label(peers) => exists k :: 0 <= k < |peers| && !IsSelf(peers[k], self) && HostOf(e) == Some(PeerAddress(peers[k]))
    case Static(addresses) => e in addresses
    case EC2Tags(instances) => e in instances
  }

  ghost predicate AllGiven(self: Peer, sources: seq<Source>, peers: seq<string>) {
    forall e :: e in peers ==> Given(self, sources, e)
  }

  predicate HasHost(peers: seq<string>, h: string) { exists e :: e in peers && HostOf(e) == Some(h) }

  lemma {:induction false} GatheredHas(self: Peer, sources: seq<Source>, answers: seq<Answer>, index: map<string, string>, i: nat, e: string)
    requires Fitting(sources, answers) && i < |sources| && e in SourceEntries(self, sources[i], answers[i], index)
    ensures e in Gathered(self, sources, answers, index)
    decreases |sources|
  {
    hide SourceEntries;
    var n := |sources| - 1;
    if i < n { GatheredHas(self, sources[..n], answers[..n], index, i, e); }
  }

  lemma {:induction false} GatheredFrom(self: Peer, sources: seq<Source>, answers: seq<Answer>, index: map<string, string>, e: string)
    requires Fitting(sources, answers) && e in Gathered(self, sources, answers, index)
    ensures exists i :: 0 <= i < |sources| && e in SourceEntries(self, sources[i], answers[i], index)
    decreases |sources|
  {
    var n := |sources| - 1;
    if e in Gathered(self, sources[..n], answers[..n], index) {
      GatheredFrom(self, sources[..n], answers[..n], index, e);
      var i :| 0 <= i < n && e in SourceEntries(self, sources[..n][i], answers[..n][i], index);
      assert e in SourceEntries(self, sources[i], answers[i], index);
    }
  }

  /** What a label source yields is one of its peers' entries. */
  lemma LabelGives(self: Peer, peers: seq<Peer>, ids: seq<Option<string>>, prior: seq<string>, e: string)
    requires |ids| == |peers| && e in LabelEntries(self, peers, ids, IndexByHost(prior))
    requires forall k :: 0 <= k < |ids| && ids[k].Some? ==> ValidID(ids[k].value)
    ensures GivenBy(self, Label(peers), e)
  {
    LabelEntriesFrom(self, peers, ids, IndexByHost(prior), e);
    var k :| 0 <= k < |peers| && !IsSelf(peers[k], self) && e in PeerEntry(peers[k], ids[k], IndexByHost(prior));
    IndexFinds(prior);
    if ids[k].Some? { ComposedHost(ids[k].value, PeerAddress(peers[k])); }
  }

  /** A label source keeps every host of its peers that the prior set had. */
  lemma LabelKeeps(self: Peer, peers: seq<Peer>, ids: seq<Option<string>>, prior: seq<string>, k: nat)
    requires |ids| == |peers| && k < |peers| && !IsSelf(peers[k], self) && HasHost(prior, PeerAddress(peers[k]))
    requires forall j :: 0 <= j < |ids| && ids[j].Some? ==> ValidID(ids[j].value)
    ensures HasHost(LabelEntries(self, peers, ids, IndexByHost(prior)), PeerAddress(peers[k]))
  {
    var h, index := PeerAddress(peers[k]), IndexByHost(prior);
    IndexFinds(prior);
    LabelEntriesAre(self, peers, ids, index, k);
    if ids[k].Some? { ComposedHost(ids[k].value, h); }
    var e := PeerEntry(peers[k], ids[k], index)[0];
    assert e in PeerEntry(peers[k], ids[k], index) && HostOf(e) == Some(h);
  }

  lemma EveryGatheredIsGiven(self: Peer, sources: seq<Source>, answers: seq<Answer>, prior: seq<string>)
    requires Fitting(sources, answers)
    ensures AllGiven(self, sources, Gathered(self, sources, answers, IndexByHost(prior)))
  {
    var index := IndexByHost(prior);
    forall e | e in Gathered(self, sources, answers, index) ensures Given(self, sources, e) {
      GatheredFrom(self, sources, answers, index, e);
      var i :| 0 <= i < |sources| && e in SourceEntries(self, sources[i], answers[i], index);
      if sources[i].Label? { LabelGives(self, sources[i].peers, answers[i].nodeIDs, prior, e); }
      assert GivenBy(self, sources[i], e);
    }
  }

  /** A given host of the prior set is gathered again, unless EC2 fails. */
  lemma GatheredKeeps(self: Peer, sources: seq<Source>, answers: seq<Answer>, prior: seq<string>, e: string)
    requires Fitting(sources, answers) && !EC2Fails(sources, answers)
    requires e in prior && Given(self, sources, e) && HostOf(e).Some?
    ensures HasHost(Gathered(self, sources, answers, IndexByHost(prior)), HostOf(e).value)
  {
    var index := IndexByHost(prior);
    var i :| 0 <= i < |sources| && GivenBy(self, sources[i], e);
    if sources[i].Label? {
      var k :| 0 <= k < |sources[i].peers| && !IsSelf(sources[i].peers[k], self) && HostOf(e) == Some(PeerAddress(sources[i].peers[k]));
      assert HasHost(prior, HostOf(e).value);
      LabelKeeps(self, sources[i].peers, answers[i].nodeIDs, prior, k);
      var q :| q in LabelEntries(self, sources[i].peers, answers[i].nodeIDs, index) && HostOf(q) == HostOf(e);
      GatheredHas(self, sources, answers, index, i, q);
    } else {
      GatheredHas(self, sources, answers, index, i, e);
    }
  }

  lemma CompactedSort(peers: seq<string>)
    ensures var r := Compact(Sort(peers, StringLe));
            SortedBy(r, StringLe) && Distinct(r) && forall e :: e in r <==> e in peers
  {
    StringOrder();
    SortSorts(peers, StringLe);
    CompactSorted(Sort(peers, StringLe), StringLe);
    CompactKeeps(Sort(peers, StringLe));
    SortKeeps(peers, StringLe);
    SameElements(Sort(peers, StringLe), peers);
  }

  /** One reconcile: sorted, duplicate-free, and no host of the prior set is lost. */
  lemma NoHostIsLost(self: Peer, sources: seq<Source>, answers: seq<Answer>, prior: seq<string>)
    requires Fitting(sources, answers) && AllGiven(self, sources, prior) && Resolved(self, sources, answers, prior).Some?
    ensures var r := Resolved(self, sources, answers, prior).value;
            && SortedBy(r, StringLe) && Distinct(r) && AllGiven(self, sources, r)
            && forall h :: HasHost(prior, h) ==> HasHost(r, h)
  {
    var gathered := Gathered(self, sources, answers, IndexByHost(prior));
    var all := if EC2Fails(sources, answers) then gathered + prior else gathered;
    CompactedSort(all);
    EveryGatheredIsGiven(self, sources, answers, prior);
    forall h | HasHost(prior, h) ensures HasHost(Compact(Sort(all, StringLe)), h) {
      var e :| e in prior && HostOf(e) == Some(h);
      if EC2Fails(sources, answers) {
        assert e in all;
      } else {
        GatheredKeeps(self, sources, answers, prior, e);
        var q :| q in gathered && HostOf(q) == Some(h);
        assert q in all;
      }
    }
  }

  /** The resolved set after a run of reconciles; a failed list call keeps it. */
  function After(self: Peer, sources: seq<Source>, run: seq<seq<Answer>>): seq<string>
    requires forall i :: 0 <= i < |run| ==> Fitting(sources, run[i])
  {
    if run == [] then []
    else
      var prior := After(self, sources, run[..|run| - 1]);
      var r := Resolved(self, sources, run[|run| - 1], prior);
      if r.Some? then r.value else prior
  }

  /** Over any run with fixed sources the set stays sorted and duplicate-free,
      and a host once resolved stays, whatever sidecar, EC2 or list calls fail. */
  lemma {:induction false} HostsNeverShrink(self: Peer, sources: seq<Source>, run: seq<seq<Answer>>, k: nat)
    requires (forall i :: 0 <= i < |run| ==> Fitting(sources, run[i])) && k <= |run|
    ensures var r := After(self, sources, run);
            && SortedBy(r, StringLe) && Distinct(r) && AllGiven(self, sources, r)
            && forall h :: HasHost(After(self, sources, run[..k]), h) ==> HasHost(r, h)
    decreases |run|
  {
    if k == |run| { assert run[..k] == run; }
    if run != [] {
      var n := |run| - 1;
      var prior := After(self, sources, run[..n]);
      HostsNeverShrink(self, sources, run[..n], if k <= n then k else n);
      if k <= n { assert run[..n][..k] == run[..k]; }
      if Resolved(self, sources, run[n], prior).Some? { NoHostIsLost(self, sources, run[n], prior); }
    }
  }

  // ---- exactly what is resolved ----

  /** e is the last prior entry of this host. */
  ghost predicate LastOf(prior: seq<string>, host: string, e: string) {
    exists i :: 0 <= i < |prior| && prior[i] == e && HostOf(e) == Some(host) && forall j :: i < j < |prior| ==> HostOf(prior[j]) != Some(host)
  }

  lemma {:induction false} IndexHoldsLast(prior: seq<string>, host: string, e: string)
    ensures host in IndexByHost(prior) && IndexByHost(prior)[host] == e <==> LastOf(prior, host, e)
    decreases |prior|
  {
    if prior != [] {
      var n := |prior| - 1;
      var init, p := prior[..n], prior[n];
      IndexHoldsLast(init, host, e);
      if HostOf(p) == Some(host) {
        assert p == e ==> LastOf(prior, host, e) by { assert prior[n] == p; }
      } else {
        if LastOf(init, host, e) {
          var i :| 0 <= i < n && init[i] == e && HostOf(e) == Some(host) && forall j :: i < j < n ==> HostOf(init[j]) != Some(host);
          assert prior[i] == e && forall j :: i < j < |prior| ==> HostOf(prior[j]) != Some(host);
        }
        if LastOf(prior, host, e) {
          var i :| 0 <= i < |prior| && prior[i] == e && HostOf(e) == Some(host) && forall j :: i < j < |prior| ==> HostOf(prior[j]) != Some(host);
          assert init[i] == e && forall j :: i < j < n ==> HostOf(init[j]) != Some(host);
        }
      }
    }
  }

  /** An entry this source yields now. A label peer other than the node itself gives
      its fresh ID at its address, or if it does not answer the last entry the
      prior set had for that address. */
  ghost predicate Yields(self: Peer, s: Source, a: Answer, prior: seq<string>, e: string)
    requires s.Label? ==> |a.nodeIDs| == |s.peers|
  {
    match s
    case Label(peers) => exists k ::
      && 0 <= k < |peers| && !(peers[k].name == self.name && peers[k].namespace == self.namespace)
      && if a.nodeIDs[k].Some? then e == a.nodeIDs[k].value + "@" + PeerAddress(peers[k]) else LastOf(prior, PeerAddress(peers[k]), e)
    case Static(addresses) => e in addresses
    case EC2Tags(instances) => !a.fails && e in instances
  }

  lemma YieldsIff(self: Peer, s: Source, a: Answer, prior: seq<string>, e: string)
    requires s.Label? ==> |a.nodeIDs| == |s.peers|
    ensures e in SourceEntries(self, s, a, IndexByHost(prior)) <==> Yields(self, s, a, prior, e)
  {
    hide LastOf, IndexByHost;
    if s.Label? {
      var index := IndexByHost(prior);
      forall k | 0 <= k < |s.peers|
        ensures e in PeerEntry(s.peers[k], a.nodeIDs[k], index) <==>
                if a.nodeIDs[k].Some? then e == a.nodeIDs[k].value + "@" + PeerAddress(s.peers[k]) else LastOf(prior, PeerAddress(s.peers[k]), e)
      {
        IndexHoldsLast(prior, PeerAddress(s.peers[k]), e);
      }
      if e in LabelEntries(self, s.peers, a.nodeIDs, index) {
        LabelEntriesFrom(self, s.peers, a.nodeIDs, index, e);
        var k :| 0 <= k < |s.peers| && !IsSelf(s.peers[k], self) && e in PeerEntry(s.peers[k], a.nodeIDs[k], index);
      }
      if Yields(self, s, a, prior, e) {
        var k :| && 0 <= k < |s.peers| && !(s.peers[k].name == self.name && s.peers[k].namespace == self.namespace)
                 && if a.nodeIDs[k].Some? then e == a.nodeIDs[k].value + "@" + PeerAddress(s.peers[k]) else LastOf(prior, PeerAddress(s.peers[k]), e);
        LabelEntriesAre(self, s.peers, a.nodeIDs, index, k);
      }
    }
  }

  /** The resolved set holds exactly what the sources yield now, and the whole prior
      set as well when EC2 failed. Only a failed list call resolves nothing. */
  lemma ResolvedIff(self: Peer, sources: seq<Source>, answers: seq<Answer>, prior: seq<string>, e: string)
    requires Fitting(sources, answers)
    ensures Resolved(self, sources, answers, prior).None? <==> exists i :: 0 <= i < |sources| && sources[i].Label? && answers[i].fails
    ensures Resolved(self, sources, answers, prior).Some? ==>
              (e in Resolved(self, sources, answers, prior).value <==>
                 || (exists i :: 0 <= i < |sources| && Yields(self, sources[i], answers[i], prior, e))
                 || (e in prior && exists i :: 0 <= i < |sources| && sources[i].EC2Tags? && answers[i].fails))
  {
    hide Yields, IndexByHost, SourceEntries;
    var index := IndexByHost(prior);
    var gathered := Gathered(self, sources, answers, index);
    CompactedSort(if EC2Fails(sources, answers) then gathered + prior else gathered);
    forall i | 0 <= i < |sources| ensures e in SourceEntries(self, sources[i], answers[i], index) <==> Yields(self, sources[i], answers[i], prior, e) {
      YieldsIff(self, sources[i], answers[i], prior, e);
    }
    if e in gathered { GatheredFrom(self, sources, answers, index, e); }
    if i :| 0 <= i < |sources| && e in SourceEntries(self, sources[i], answers[i], index) { GatheredHas(self, sources, answers, index, i, e); }
  }
}
