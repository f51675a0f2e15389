/** Building the config overlay (internal/planner/config_overlay.go and
    consensus_overlay.go): loops over maps in any order that refine the merge. */
module OverlayBuild {
  import opened Options
  import opened Orders
  import opened OverlayTree

  /** The entry that supplied a node, and those of the nodes below it. */
  datatype Origin = Origin(key: string, children: map<string, Origin>)

  /** The origin tree has exactly the nodes of the value tree. */
  ghost predicate Mirrors<L>(o: Origin, t: Entries<L>)
    decreases o
  {
    && o.children.Keys == t.Keys
    && forall k :: k in t ==> Mirrors(o.children[k], Below(t[k]))
  }

  function Below<L>(t: Tree<L>): Entries<L> { if t.Table? then t.entries else map[] }

  /** Every node below o was supplied by an entry with a key. */
  ghost predicate Named(o: Origin) {
    forall k :: k in o.children ==> o.children[k].key != "" && Named(o.children[k])
  }

  /** Some place holds a node supplied by the entry `conflict` that src cannot combine with. */
  ghost predicate Blames<L>(dst: Entries<L>, src: Entries<L>, o: Origin, conflict: string)
    decreases Table(src)
  {
    exists k :: k in dst && k in src && k in o.children
      && if dst[k].Table? && src[k].Table? then Blames(dst[k].entries, src[k].entries, o.children[k], conflict)
         else conflict == o.children[k].key
  }

  /** The entry that supplied the node at a path. */
  function OriginAt(o: Origin, path: seq<string>): Option<string>
    decreases |path|
  {
    if path == [] || path[0] !in o.children then None
    else if |path| == 1 then Some(o.children[path[0]].key)
    else OriginAt(o.children[path[0]], path[1..])
  }

  /** Every node is supplied as before, or by this entry where src has a node. */
  ghost predicate Traces<L>(before: Origin, after: Origin, src: Entries<L>, key: string) {
    forall path {:trigger OriginAt(after, path)} :: OriginAt(after, path).Some? ==>
      OriginAt(after, path) == OriginAt(before, path) || (OriginAt(after, path) == Some(key) && NodeAt(src, path).Some?)
  }

  lemma TraceOne<L>(before: Origin, after: Origin, src: Entries<L>, key: string, name: string, at: Option<Origin>, o: Origin)
    requires Traces(before, after, src, key) && name in src && (at.Some? ==> name in before.children && at.value == before.children[name])
    requires o.key == if at.Some? then at.value.key else key
    requires Traces(if at.Some? then at.value else Origin(key, map[]), o, Below(src[name]), key)
    ensures Traces(before, after.(children := after.children[name := o]), src, key)
  {
    var next := after.(children := after.children[name := o]);
    forall path | OriginAt(next, path).Some?
      ensures OriginAt(next, path) == OriginAt(before, path) || (OriginAt(next, path) == Some(key) && NodeAt(src, path).Some?)
    {
      if path[0] == name {
        if |path| > 1 { assert OriginAt(next, path) == OriginAt(o, path[1..]); }
      } else {
        assert OriginAt(next, path) == OriginAt(after, path);
      }
    }
  }

  /** A blamed key names the entry at a place where the two sides clash. */
  lemma {:induction false} BlameHasPlace<L>(dst: Entries<L>, src: Entries<L>, o: Origin, conflict: string) returns (path: seq<string>)
    requires Blames(dst, src, o, conflict)
    ensures ClashAt(dst, src, path) && OriginAt(o, path) == Some(conflict)
    decreases Table(src)
  {
    var k :| k in dst && k in src && k in o.children
      && if dst[k].Table? && src[k].Table? then Blames(dst[k].entries, src[k].entries, o.children[k], conflict)
         else conflict == o.children[k].key;
    path := [k];
    if dst[k].Table? && src[k].Table? {
      var rest := BlameHasPlace(dst[k].entries, src[k].entries, o.children[k], conflict);
      path := [k] + rest;
      assert path[1..] == rest;
    }
  }

  // ---- one name ----

  /** The names done so far are merged into dst, and origins mirror the result. */
  ghost predicate Inserted<L>(dst: Entries<L>, src: Entries<L>, origin: Origin, done: set<string>, into: Entries<L>, origins: Origin) {
    MergedNames(dst, src, done, into) && Recorded(dst, origin, done, into, origins)
  }

  ghost predicate Recorded<L>(dst: Entries<L>, origin: Origin, done: set<string>, into: Entries<L>, origins: Origin) {
    && Mirrors(origins, into) && Named(origins) && origins.key == origin.key
    && forall k :: k in dst && k !in done ==> k in origins.children && k in origin.children && origins.children[k] == origin.children[k]
  }

  lemma MirrorsOne<L>(o: Origin, t: Entries<L>, name: string, c: Origin, x: Tree<L>)
    requires Mirrors(o, t) && Mirrors(c, Below(x))
    ensures Mirrors(o.(children := o.children[name := c]), t[name := x])
  {
    hide Below;
    var p, u := o.(children := o.children[name := c]), t[name := x];
    forall k | k in u ensures Mirrors(p.children[k], Below(u[k])) {
      if k != name { assert Mirrors(o.children[k], Below(t[k])); }
    }
  }

  lemma NamedOne(o: Origin, name: string, c: Origin)
    requires Named(o) && Named(c) && c.key != ""
    ensures Named(o.(children := o.children[name := c]))
  {
    var p := o.(children := o.children[name := c]);
    forall k | k in p.children ensures p.children[k].key != "" && Named(p.children[k]) {
      if k != name { assert Named(o.children[k]); }
    }
  }

  lemma RecordOne<L>(dst: Entries<L>, origin: Origin, done: set<string>, into: Entries<L>, origins: Origin, name: string, t: Tree<L>, o: Origin)
    requires Recorded(dst, origin, done, into, origins)
    requires o.key != "" && Named(o) && Mirrors(o, Below(t))
    ensures Recorded(dst, origin, done + {name}, into[name := t], origins.(children := origins.children[name := o]))
  {
    hide Mirrors, Named, Below;
    MirrorsOne(origins, into, name, o, t);
    NamedOne(origins, name, o);
  }

  lemma InsertOne<L>(dst: Entries<L>, src: Entries<L>, origin: Origin, done: set<string>, into: Entries<L>, origins: Origin, name: string, t: Tree<L>, o: Origin)
    requires Inserted(dst, src, origin, done, into, origins) && name in src && name !in done
    requires FitsAt(dst, src, name) && t == JoinedAt(dst, src, name)
    requires o.key != "" && Named(o) && Mirrors(o, Below(t))
    ensures Inserted(dst, src, origin, done + {name}, into[name := t], origins.(children := origins.children[name := o]))
  {
    hide Mirrors, Named, Fits, Joined;
    MergeName(dst, src, done, into, name);
    RecordOne(dst, origin, done, into, origins, name, t, o);
  }

  lemma NothingInserted<L>(dst: Entries<L>, src: Entries<L>, origin: Origin, key: string)
    requires Mirrors(origin, dst) && Named(origin)
    ensures Inserted(dst, src, origin, {}, dst, origin) && Traces(origin, origin, src, key)
  {
  }

  /** A name not yet visited stands as it stood. */
  lemma NotYetInserted<L>(dst: Entries<L>, src: Entries<L>, origin: Origin, done: set<string>, into: Entries<L>, origins: Origin, name: string)
    requires Inserted(dst, src, origin, done, into, origins) && name in src && name !in done
    ensures name in into <==> name in dst
    ensures name in dst ==>
              && name in origins.children && name in origin.children && origins.children[name] == origin.children[name]
              && into[name] == dst[name] && origin.children[name].key != "" && Named(origin.children[name])
              && Mirrors(origin.children[name], Below(dst[name]))
  {
  }

  lemma AllInserted<L>(dst: Entries<L>, src: Entries<L>, origin: Origin, into: Entries<L>, origins: Origin)
    requires Inserted(dst, src, origin, src.Keys, into, origins)
    ensures Fits(dst, src) && into == Joined(dst, src) && Mirrors(origins, into) && Named(origins) && origins.key == origin.key
  {
    JoinedByName(dst, src, into);
  }

  lemma BlamedHere<L>(dst: Entries<L>, src: Entries<L>, origin: Origin, name: string, conflict: string)
    requires name in dst && name in src && name in origin.children && !FitsAt(dst, src, name)
    requires if dst[name].Table? && src[name].Table? then Blames(dst[name].entries, src[name].entries, origin.children[name], conflict)
             else conflict == origin.children[name].key
    ensures Blames(dst, src, origin, conflict) && !Fits(dst, src)
  {
  }

  // ---- insertOverlay ----

  /** One name of src: a collision's key, or the new node and its origin. */
  method InsertName<L>(dst: Entries<L>, src: Entries<L>, name: string, at: Option<Origin>, key: string)
    returns (conflict: string, t: Tree<L>, o: Origin)
    requires key != "" && name in src && (at.Some? <==> name in dst)
    requires at.Some? ==> at.value.key != "" && Named(at.value) && Mirrors(at.value, Below(dst[name]))
    ensures conflict == "" <==> FitsAt(dst, src, name)
    ensures conflict == "" ==> t == JoinedAt(dst, src, name) && o.key != "" && Named(o) && Mirrors(o, Below(t))
    ensures conflict == "" ==> o.key == (if at.Some? then at.value.key else key)
                               && Traces(if at.Some? then at.value else Origin(key, map[]), o, Below(src[name]), key)
    ensures conflict != "" ==> at.Some? && if dst[name].Table? && src[name].Table?
                                           then Blames(dst[name].entries, src[name].entries, at.value, conflict)
                                           else conflict == at.value.key
    decreases src[name], 2
  {
    t, o := src[name], if at.Some? then at.value else Origin(key, map[]);
    if at.Some? && (!src[name].Table? || !dst[name].Table?) { return at.value.key, t, o; }
    conflict := "";
    if src[name].Table? {
      var current: Entries<L> := if at.Some? then dst[name].entries else map[];
      MergeNothing(src[name].entries);
      var merged;
      conflict, merged, o := InsertOverlay(current, src[name].entries, o, key);
      t := Table(merged);
    }
  }

  /** Inserts src into dst in whatever order src is visited. The empty string is
      success; otherwise the key of an entry src collides with. */
  method InsertOverlay<L>(dst: Entries<L>, src: Entries<L>, origin: Origin, key: string)
    returns (conflict: string, into: Entries<L>, origins: Origin)
    requires key != "" && Mirrors(origin, dst) && Named(origin)
    ensures conflict == "" <==> Fits(dst, src)
    ensures conflict == "" ==> into == Joined(dst, src) && Mirrors(origins, into) && Named(origins) && origins.key == origin.key
    ensures conflict == "" ==> Traces(origin, origins, src, key)
    ensures conflict != "" ==> Blames(dst, src, origin, conflict)
    decreases Table(src), 1
  {
    hide Inserted, Fits, Joined, Traces, Blames, Mirrors, Named;
    into, origins := dst, origin;
    NothingInserted(dst, src, origin, key);
    var names := Enumerate(src.Keys);
    assert Elems(names[..0]) == {};
    for i := 0 to |names|
      invariant Inserted(dst, src, origin, Elems(names[..i]), into, origins) && Traces(origin, origins, src, key)
    {
      var name := names[i];
      assert name in src.Keys;
      ElemsNext(names, i);
      NotYetInserted(dst, src, origin, Elems(names[..i]), into, origins, name);
      var at := if name in into then Some(origins.children[name]) else None;
      var c, t, o := InsertName(dst, src, name, at, key);
      if c != "" {
        BlamedHere(dst, src, origin, name, c);
        return c, into, origins;
      }
      InsertOne(dst, src, origin, Elems(names[..i]), into, origins, name, t, o);
      TraceOne(origin, origins, src, key, name, at, o);
      into, origins := into[name := t], origins.(children := origins.children[name := o]);
    }
    assert names[..|names|] == names && Elems(names) == src.Keys;
    AllInserted(dst, src, origin, into, origins);
    conflict := "";
  }

  // ---- configValuesOverlay ----

  /** An entry of spec.configValues. Its value is None when the file name is
      refused, the JSON does not decode, or it holds a null or an unrepresentable number. */
  datatype ConfigValue<L> = ConfigValue(file: string, key: string, value: Option<Tree<L>>)

  /** strings.Split around dots. */
  function Split(s: string): (parts: seq<string>)
    ensures parts != []
  {
    if s == "" then [""]
    else
      var rest := Split(s[1..]);
      if s[0] == '.' then [""] + rest else [[s[0]] + rest[0]] + rest[1..]
  }

  function Dotted(parts: seq<string>): string
    requires parts != []
  {
    if |parts| == 1 then parts[0] else parts[0] + "." + Dotted(parts[1..])
  }

  lemma DottedCons(c: char, rest: seq<string>)
    requires rest != []
    ensures Dotted([[c] + rest[0]] + rest[1..]) == [c] + Dotted(rest)
  {
    var all := [[c] + rest[0]] + rest[1..];
    assert all[1..] == rest[1..];
    if |rest| > 1 { assert ([c] + rest[0]) + "." + Dotted(rest[1..]) == [c] + (rest[0] + "." + Dotted(rest[1..])); }
  }

  /** Different keys are different paths. */
  lemma {:induction false} SplitRoundTrip(s: string)
    ensures Dotted(Split(s)) == s
  {
    if s != "" {
      SplitRoundTrip(s[1..]);
      var rest := Split(s[1..]);
      if s[0] == '.' {
        assert Split(s)[1..] == rest;
        assert Dotted(Split(s)) == "" + "." + s[1..];
      } else {
        DottedCons(s[0], rest);
        assert Split(s) == [[s[0]] + rest[0]] + rest[1..];
      }
    }
  }

  function Wrap<L>(path: seq<string>, t: Tree<L>): Tree<L> {
    if path == [] then t else Table(map[path[0] := Wrap(path[1..], t)])
  }

  method WrapPath<L>(path: seq<string>, t: Tree<L>) returns (r: Tree<L>)
    ensures r == Wrap(path, t)
  {
    r := t;
    for i := |path| downto 0
      invariant r == Wrap(path[i..], t)
    {
      assert path[i..][1..] == path[i + 1..];
      r := Table(map[path[i] := r]);
    }
    assert path[0..] == path;
  }

  /** The entry alone, as a patch over files. */
  ghost function PatchOf<L>(v: ConfigValue<L>): Option<Entries<L>> {
    if v.value.None? then None else Some(map[v.file := Wrap(Split(v.key), v.value.value)])
  }

  ghost function Patches<L>(values: seq<ConfigValue<L>>): seq<Option<Entries<L>>> {
    Mapped((v: ConfigValue<L>) => PatchOf(v), values)
  }

  /** The files built so far, each a table with its origins. */
  ghost predicate FilesOk<L>(files: Entries<L>, origins: map<string, Origin>) {
    && files.Keys == origins.Keys
    && forall f :: f in files ==> files[f].Table? && Mirrors(origins[f], files[f].entries) && Named(origins[f])
  }

  lemma MergeFile<L>(files: Entries<L>, file: string, w: Entries<L>)
    requires forall f :: f in files ==> files[f].Table?
    ensures var current := if file in files then files[file].entries else map[];
            Merge(files, map[file := Table(w)]) == if Fits(current, w) then Some(files[file := Table(Joined(current, w))]) else None
  {
    var patch: Entries<L> := map[file := Table(w)];
    MergeNothing(w);
    var current := if file in files then files[file].entries else map[];
    if Fits(current, w) {
      assert Joined(map[], w) == w;
      JoinedByName(files, patch, files[file := Table(Joined(current, w))]);
    } else {
      assert !FitsAt(files, patch, file);
    }
  }

  lemma {:induction false} NoneStays<L>(patches: seq<Option<Entries<L>>>, k: nat)
    requires k <= |patches| && MergeAll(patches[..k]) == None
    ensures MergeAll(patches) == None
    decreases |patches| - k
  {
    if k == |patches| {
      assert patches[..k] == patches;
    } else {
      assert patches[..k + 1][..k] == patches[..k];
      NoneStays(patches, k + 1);
    }
  }

  lemma PatchesNext<L>(values: seq<ConfigValue<L>>, i: nat)
    requires i < |values|
    ensures MergeAll(Patches(values)[..i + 1]) == MergeAny(MergeAll(Patches(values)[..i]), PatchOf(values[i]))
  {
    var ps := Patches(values);
    assert ps[..i + 1][..i] == ps[..i];
  }

  /** What configValuesOverlay returns: the files, the entry that was refused, or
      the key of an entry that a later one overlaps. */
  datatype Overlaid<L> = Overlaid(files: Entries<L>) | Refused(at: nat) | Overlapping(previous: string, at: nat)

  /** Entry j is in the same file and has a node at the path. */
  ghost predicate Supplies<L>(v: ConfigValue<L>, file: string, path: seq<string>, key: string) {
    v.value.Some? && v.file == file && v.key == key && NodeAt(PatchOf(v).value, [file] + path).Some?
  }

  /** Every node built so far came from an entry with the key its origin tells. */
  ghost predicate Sourced<L>(values: seq<ConfigValue<L>>, n: nat, origins: map<string, Origin>)
    requires n <= |values|
  {
    forall f, path {:trigger OriginAt(origins[f], path)} :: f in origins && OriginAt(origins[f], path).Some? ==>
      exists j :: 0 <= j < n && Supplies(values[j], f, path, OriginAt(origins[f], path).value)
  }

  lemma SourcedOne<L>(values: seq<ConfigValue<L>>, n: nat, origins: map<string, Origin>, before: Origin, o: Origin, wrapped: Entries<L>)
    requires n < |values| && Sourced(values, n, origins) && values[n].value.Some? && Wrap(Split(values[n].key), values[n].value.value) == Table(wrapped)
    requires before == if values[n].file in origins then origins[values[n].file] else Origin("", map[])
    requires Traces(before, o, wrapped, values[n].key)
    ensures Sourced(values, n + 1, origins[values[n].file := o])
  {
    hide Split, Wrap;
    var v := values[n];
    var next := origins[v.file := o];
    forall f, path | f in next && OriginAt(next[f], path).Some?
      ensures exists j :: 0 <= j < n + 1 && Supplies(values[j], f, path, OriginAt(next[f], path).value)
    {
      if f == v.file && OriginAt(o, path) != OriginAt(before, path) {
        assert ([f] + path)[1..] == path;
        assert Supplies(values[n], f, path, v.key);
      } else {
        var j :| 0 <= j < n && Supplies(values[j], f, path, OriginAt(origins[f], path).value);
      }
    }
  }

  /** A clash with the files so far is a clash with the entry that is blamed. */
  lemma BlamedEntryClashes<L>(values: seq<ConfigValue<L>>, n: nat, files: Entries<L>, path: seq<string>, wrapped: Entries<L>, j: nat, key: string)
    requires n < |values| && MergeAll(Patches(values)[..n]) == Some(files) && values[n].value.Some?
    requires Wrap(Split(values[n].key), values[n].value.value) == Table(wrapped) && values[n].file in files && files[values[n].file].Table?
    requires ClashAt(files[values[n].file].entries, wrapped, path) && j < n && Supplies(values[j], values[n].file, path, key)
    ensures !Fits(PatchOf(values[j]).value, PatchOf(values[n]).value)
  {
    hide Split, Wrap, MergeAll, Fits;
    var f, ps := values[n].file, Patches(values)[..n];
    var at := [f] + path;
    assert at[1..] == path && ps[j] == PatchOf(values[j]);
    NodeOfOnePatch(ps, j, at);
    assert ClashAt(PatchOf(values[j]).value, PatchOf(values[n]).value, at);
    ClashMeansMisfit(PatchOf(values[j]).value, PatchOf(values[n]).value, at);
  }

  /** The overlay of all entries; the first entry without a value; or the first one
      that fits an earlier entry of its file badly, with that entry's key. */
  method ConfigValuesOverlay<L>(values: seq<ConfigValue<L>>) returns (r: Overlaid<L>)
    requires forall v :: v in values ==> v.key != ""
    ensures r.Overlaid? <==> MergeAll(Patches(values)).Some?
    ensures r.Overlaid? ==> MergeAll(Patches(values)) == Some(r.files)
    ensures r.Refused? ==> r.at < |values| && values[r.at].value.None? && MergeAll(Patches(values)[..r.at]).Some?
    ensures r.Overlapping? ==>
              && r.at < |values| && MergeAll(Patches(values)[..r.at]).Some?
              && exists j :: 0 <= j < r.at && values[j].file == values[r.at].file && values[j].key == r.previous
                             && PatchOf(values[j]).Some? && PatchOf(values[r.at]).Some?
                             && !Fits(PatchOf(values[j]).value, PatchOf(values[r.at]).value)
  {
    hide Mirrors, Named, Fits, Joined, Split, Wrap, Traces, Sourced;
    var files: Entries<L>, origins: map<string, Origin> := map[], map[];
    NothingSourced(values);
    for i := 0 to |values|
      invariant MergeAll(Patches(values)[..i]) == Some(files) && FilesOk(files, origins) && Sourced(values, i, origins)
    {
      var v := values[i];
      assert v in values;
      PatchesNext(values, i);
      if v.value.None? {
        NoneStays(Patches(values), i + 1);
        return Refused(i);
      }
      var wrapped := WrapPath(Split(v.key), v.value.value);
      WrapIsTable(Split(v.key), v.value.value);
      MergeFile(files, v.file, wrapped.entries);
      var current: Entries<L>, at := map[], Origin("", map[]);
      if v.file in files { current, at := files[v.file].entries, origins[v.file]; }
      NothingMirrors<L>();
      var previous, into, o := InsertOverlay(current, wrapped.entries, at, v.key);
      if previous != "" {
        NoneStays(Patches(values), i + 1);
        BlameIsFair(values, i, files, origins, current, at, wrapped.entries, previous);
        return Overlapping(previous, i);
      }
      SourcedOne(values, i, origins, at, o, wrapped.entries);
      files, origins := files[v.file := Table(into)], origins[v.file := o];
    }
    assert Patches(values)[..|values|] == Patches(values);
    r := Overlaid(files);
  }

  lemma NothingSourced<L>(values: seq<ConfigValue<L>>)
    ensures Sourced(values, 0, map[])
  {
  }

  lemma NothingMirrors<L>()
    ensures Mirrors<L>(Origin("", map[]), map[]) && Named(Origin("", map[]))
  {
  }

  lemma WrapIsTable<L>(path: seq<string>, t: Tree<L>)
    requires path != []
    ensures Wrap(path, t).Table?
  {
  }

  lemma BlameIsFair<L>(values: seq<ConfigValue<L>>, n: nat, files: Entries<L>, origins: map<string, Origin>,
                       current: Entries<L>, at: Origin, wrapped: Entries<L>, previous: string)
    requires n < |values| && MergeAll(Patches(values)[..n]) == Some(files) && FilesOk(files, origins) && Sourced(values, n, origins)
    requires values[n].value.Some? && Wrap(Split(values[n].key), values[n].value.value) == Table(wrapped)
    requires if values[n].file in files then current == files[values[n].file].entries && at == origins[values[n].file]
             else current == map[] && at == Origin("", map[])
    requires Blames(current, wrapped, at, previous)
    ensures exists j :: 0 <= j < n && values[j].file == values[n].file && values[j].key == previous
                        && PatchOf(values[j]).Some? && PatchOf(values[n]).Some?
                        && !Fits(PatchOf(values[j]).value, PatchOf(values[n]).value)
  {
    hide Split, Wrap, MergeAll, Fits, Mirrors, Named;
    var f := values[n].file;
    var path := BlameHasPlace(current, wrapped, at, previous);
    assert f in files && f in origins && OriginAt(origins[f], path) == Some(previous);
    var j :| 0 <= j < n && Supplies(values[j], f, path, previous);
    BlamedEntryClashes(values, n, files, path, wrapped, j, previous);
  }

  // ---- the engine's keys ----

  /** mergeTables: false when src holds a name that dst has taken. */
  method MergeTables<L>(dst: Entries<L>, src: Entries<L>) returns (ok: bool, into: Entries<L>)
    ensures ok <==> Fits(dst, src)
    ensures ok ==> into == Joined(dst, src)
    decreases Table(src)
  {
    into := dst;
    var names := Enumerate(src.Keys);
    for i := 0 to |names|
      invariant MergedNames(dst, src, Elems(names[..i]), into)
    {
      var name := names[i];
      assert name in src.Keys && name !in Elems(names[..i]);
      ElemsNext(names, i);
      if FitsAt(dst, src, name) { MergeName(dst, src, Elems(names[..i]), into, name); }
      if src[name].Table? && name in into && into[name].Table? {
        var fits, t := MergeTables(into[name].entries, src[name].entries);
        if !fits { return false, into; }
        into := into[name := Table(t)];
      } else if name in into {
        return false, into;
      } else {
        into := into[name := src[name]];
      }
    }
    assert names[..|names|] == names;
    JoinedByName(dst, src, into);
    ok := true;
  }

  /** mergeOverlayPatches: an absent side leaves the other; two are merged file by file. */
  method MergeOverlayPatches<L>(user: Option<Entries<L>>, controller: Option<Entries<L>>) returns (ok: bool, r: Option<Entries<L>>)
    requires user.Some? ==> forall f :: f in user.value ==> user.value[f].Table?
    requires controller.Some? ==> forall f :: f in controller.value ==> controller.value[f].Table?
    ensures controller.None? ==> ok && r == user
    ensures user.None? && controller.Some? ==> ok && r == controller
    ensures user.Some? && controller.Some? ==> (ok <==> Fits(user.value, controller.value)) && (ok ==> r == Merge(user.value, controller.value))
  {
    if controller.None? { return true, user; }
    if user.None? { return true, controller; }
    var files := user.value;
    var names := Enumerate(controller.value.Keys);
    for i := 0 to |names|
      invariant MergedNames(user.value, controller.value, Elems(names[..i]), files)
    {
      var file := names[i];
      assert file in controller.value.Keys && file !in Elems(names[..i]);
      ElemsNext(names, i);
      if FitsAt(user.value, controller.value, file) { MergeName(user.value, controller.value, Elems(names[..i]), files, file); }
      var current: Entries<L> := if file in files then files[file].entries else map[];
      MergeNothing(controller.value[file].entries);
      var fits, t := MergeTables(current, controller.value[file].entries);
      if !fits { return false, None; }
      files := files[file := Table(t)];
    }
    assert names[..|names|] == names;
    JoinedByName(user.value, controller.value, files);
    return true, Some(files);
  }

  // ---- the theorems ----

  /** A permutation of the entries gives the same overlay, or both fail. */
  lemma EntryOrderDoesNotShow<L>(a: seq<ConfigValue<L>>, b: seq<ConfigValue<L>>)
    requires multiset(a) == multiset(b)
    ensures MergeAll(Patches(a)) == MergeAll(Patches(b))
  {
    MappedPermutes((v: ConfigValue<L>) => PatchOf(v), a, b);
    OrderDoesNotShow(Patches(a), Patches(b));
  }

  lemma {:induction false} WrapNode<L>(path: seq<string>, t: Tree<L>)
    requires path != []
    ensures Wrap(path, t).Table? && NodeAt(Wrap(path, t).entries, path) == Some(t)
  {
    if |path| > 1 { WrapNode(path[1..], t); }
  }

  /** Where an entry's value belongs: below its file, at its dotted key. */
  function PlaceOf<L>(v: ConfigValue<L>): seq<string> { [v.file] + Split(v.key) }

  lemma PatchNode<L>(v: ConfigValue<L>)
    requires v.value.Some?
    ensures PatchOf(v).Some? && NodeAt(PatchOf(v).value, PlaceOf(v)) == Some(v.value.value)
  {
    WrapNode(Split(v.key), v.value.value);
    assert PlaceOf(v)[1..] == Split(v.key);
  }

  /** On success each entry reads back at its dotted path exactly as given if and
      only if every other entry leaves its place alone or holds only tables there
      that it has too. A leaf always does; a table is in every case still there,
      with all it holds, in a table that may have grown. */
  lemma EntryReadsBack<L>(values: seq<ConfigValue<L>>, i: nat)
    requires MergeAll(Patches(values)).Some? && i < |values| && values[i].value.Some?
    ensures var t, at := values[i].value.value, PlaceOf(values[i]);
            var node := NodeAt(MergeAll(Patches(values)).value, at);
            && (node == Some(t) <==> forall j :: 0 <= j < |values| && j != i ==> Spares(PatchOf(values[j]), at, t))
            && node.Some? && (t.Leaf? ==> node == Some(t))
            && (t.Table? ==> node.value.Table? && Contains(node.value.entries, t.entries))
  {
    var ps := Patches(values);
    assert forall j :: 0 <= j < |values| ==> ps[j] == PatchOf(values[j]);
    PatchNode(values[i]);
    NodeOfOnePatch(ps, i, PlaceOf(values[i]));
  }

  lemma SplitPlain(s: string)
    requires |s| == 1 && s[0] != '.'
    ensures Split(s) == [s]
  {
    assert s[1..] == "" && [s[0]] + "" == s;
    assert Split(s) == [[s[0]] + ""] + [];
  }

  lemma SplitTwo()
    ensures Split("a") == ["a"] && Split("a.b") == ["a", "b"]
  {
    SplitPlain("a");
    SplitPlain("b");
    assert ".b"[1..] == "b" && "a.b"[1..] == ".b";
    assert Split(".b") == ["", "b"];
  }

  lemma MergeTwo<L>(p: Entries<L>, q: Entries<L>)
    ensures MergeAll([Some(p), Some(q)]) == Merge(p, q)
  {
    var one: seq<Option<Entries<L>>>, two := [Some(p)], [Some(p), Some(q)];
    MergeNothing(p);
    assert one[..0] == [] && MergeAll(one) == MergeAny(MergeAll(one[..0]), one[0]);
    assert two[..1] == one && MergeAll(two) == MergeAny(MergeAll(two[..1]), two[1]);
  }

  lemma WrapTwo<L>(t: Tree<L>)
    ensures Wrap(["a"], t) == Table(map["a" := t]) && Wrap(["a", "b"], t) == Table(map["a" := Table(map["b" := t])])
  {
    assert ["a"][1..] == [] && ["a", "b"][1..] == ["b"] && ["b"][1..] == [];
  }

  /** An empty table and a leaf below it: both are accepted, and the table does not read back. */
  lemma TableMayNotReadBack<L>(leaf: L)
    ensures var values := [ConfigValue("app.toml", "a", Some(Table(map[]))), ConfigValue("app.toml", "a.b", Some(Leaf(leaf)))];
            && MergeAll(Patches(values)).Some?
            && NodeAt(MergeAll(Patches(values)).value, PlaceOf(values[0])) == Some(Table(map["b" := Leaf(leaf)]))
  {
    hide Split, MergeAll, Wrap;
    var empty: Entries<L>, low: Entries<L> := map[], map["b" := Leaf(leaf)];
    var values := [ConfigValue("app.toml", "a", Some(Table(empty))), ConfigValue("app.toml", "a.b", Some(Leaf(leaf)))];
    SplitTwo();
    WrapTwo(Table(empty));
    WrapTwo(Leaf(leaf));
    var a, b: Entries<L> := map["a" := Table(empty)], map["a" := Table(low)];
    var p, q: Entries<L> := map["app.toml" := Table(a)], map["app.toml" := Table(b)];
    assert Patches(values) == [Some(p), Some(q)];
    MergeTwo(p, q);
    MergeNothing(low);
    assert Fits(a, b);
    assert Fits(p, q);
    MergedNodes(p, q, ["app.toml", "a"]);
    assert ["app.toml", "a"][1..] == ["a"];
  }

  /** Merging the engine's keys keeps every leaf of both sides and adds none. */
  lemma EngineKeysKeepLeaves<L>(user: Entries<L>, engine: Entries<L>, path: seq<string>)
    requires Fits(user, engine)
    ensures var all := Joined(user, engine);
            && (LeafAt(user, path).Some? ==> LeafAt(all, path) == LeafAt(user, path))
            && (LeafAt(engine, path).Some? ==> LeafAt(all, path) == LeafAt(engine, path))
            && (LeafAt(all, path).Some? ==> LeafAt(user, path).Some? || LeafAt(engine, path).Some?)
  {
    MergedLeaves(user, engine, path);
  }
}
