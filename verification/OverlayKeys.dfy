/** Dotted keys as paths, and which keys can stand together in one overlay
    (internal/planner/config_overlay.go). */
module OverlayKeys {
  import opened Options
  import opened Orders
  import opened OverlayTree
  import opened OverlayBuild

  predicate Undotted(s: string) { '.' !in s }

  /** No part of a split key holds a dot. */
  lemma {:induction false} PartsAreUndotted(s: string)
    ensures forall i :: 0 <= i < |Split(s)| ==> Undotted(Split(s)[i])
  {
    if s != "" { PartsAreUndotted(s[1..]); }
  }

  lemma {:induction false} SplitUndotted(s: string)
    requires Undotted(s)
    ensures Split(s) == [s]
  {
    if s != "" {
      assert Undotted(s[1..]) && s[0] in s;
      SplitUndotted(s[1..]);
      assert [s[0]] + s[1..] == s;
    }
  }

  lemma SplitCons(c: char, s: string)
    ensures var rest := Split(s); Split([c] + s) == if c == '.' then [""] + rest else [[c] + rest[0]] + rest[1..]
  {
    assert ([c] + s)[1..] == s;
  }

  lemma ConsShifts(c: char, x: seq<string>, y: seq<string>)
    requires x != []
    ensures [""] + (x + y) == ([""] + x) + y
    ensures [[c] + (x + y)[0]] + (x + y)[1..] == ([[c] + x[0]] + x[1..]) + y
  {
    assert (x + y)[1..] == x[1..] + y;
  }

  lemma SplitShift(c: char, t: string, b: string)
    requires Split(t + "." + b) == Split(t) + Split(b)
    ensures Split([c] + (t + "." + b)) == Split([c] + t) + Split(b)
  {
    SplitCons(c, t);
    SplitCons(c, t + "." + b);
    hide Split;
    ConsShifts(c, Split(t), Split(b));
  }

  /** A dot between two keys separates their paths. */
  lemma {:induction false} SplitJoin(a: string, b: string)
    ensures Split(a + "." + b) == Split(a) + Split(b)
    decreases |a|
  {
    if a == "" {
      assert a + "." + b == ['.'] + b && Split(a) == [""];
      SplitCons('.', b);
    } else {
      SplitJoin(a[1..], b);
      SplitShift(a[0], a[1..], b);
      hide Split;
      assert a == [a[0]] + a[1..];
      assert a + "." + b == [a[0]] + (a[1..] + "." + b);
    }
  }

  /** The path of a key is the one sequence of undotted names that spells it. */
  lemma {:induction false} OnlyPath(parts: seq<string>, s: string)
    requires parts != [] && forall i :: 0 <= i < |parts| ==> Undotted(parts[i])
    ensures Dotted(parts) == s <==> Split(s) == parts
    decreases |parts|
  {
    if Split(s) == parts { SplitRoundTrip(s); }
    if Dotted(parts) == s {
      SplitUndotted(parts[0]);
      if |parts| == 1 {
        assert parts == [parts[0]];
      } else {
        OnlyPath(parts[1..], Dotted(parts[1..]));
        SplitJoin(parts[0], Dotted(parts[1..]));
        assert parts == [parts[0]] + parts[1..];
      }
    }
  }

  // ---- keys below keys ----

  /** b is the key a, or continues it after a dot. */
  predicate Covers(a: string, b: string) { a == b || a + "." <= b }

  lemma CoversIsPrefix(a: string, b: string)
    ensures Covers(a, b) <==> Split(a) <= Split(b)
  {
    if a != b && a + "." <= b {
      var rest := b[|a| + 1..];
      assert b == a + "." + rest;
      SplitJoin(a, rest);
    }
    if Split(a) <= Split(b) { PrefixSpells(Split(a), Split(b), a, b); }
  }

  lemma PrefixSpells(x: seq<string>, y: seq<string>, a: string, b: string)
    requires x == Split(a) && y == Split(b) && x <= y
    ensures Covers(a, b)
  {
    SplitRoundTrip(a);
    SplitRoundTrip(b);
    if |x| < |y| {
      DottedJoin(x, y[|x|..]);
      assert y == x + y[|x|..];
      assert b == a + "." + Dotted(y[|x|..]);
    } else {
      assert x == y;
    }
  }

  lemma {:induction false} DottedJoin(x: seq<string>, y: seq<string>)
    requires x != [] && y != []
    ensures Dotted(x + y) == Dotted(x) + "." + Dotted(y)
    decreases |x|
  {
    if |x| == 1 {
      assert (x + y)[1..] == y;
    } else {
      DottedJoin(x[1..], y);
      assert (x + y)[1..] == x[1..] + y;
      assert x[0] + "." + (Dotted(x[1..]) + "." + Dotted(y)) == (x[0] + "." + Dotted(x[1..])) + "." + Dotted(y);
    }
  }

  // ---- two leaves ----

  lemma SingleFits<L>(k: string, a: Tree<L>, l: string, b: Tree<L>)
    ensures Fits(map[k := a], map[l := b]) <==> (k == l ==> a.Table? && b.Table? && Fits(a.entries, b.entries))
  {
    var x, y: Entries<L> := map[k := a], map[l := b];
    assert k in x && l in y;
  }

  lemma ConsPrefix(p: seq<string>, q: seq<string>)
    requires p != [] && q != []
    ensures p <= q <==> p[0] == q[0] && p[1..] <= q[1..]
  {
    if p[0] == q[0] && p[1..] <= q[1..] { assert p == [p[0]] + p[1..] && q == [q[0]] + q[1..]; }
  }

  lemma {:induction false} LeavesFitIff<L>(p: seq<string>, q: seq<string>, x: L, y: L)
    requires p != [] && q != []
    ensures Wrap(p, Leaf(x)).Table? && Wrap(q, Leaf(y)).Table?
    ensures Fits(Wrap(p, Leaf(x)).entries, Wrap(q, Leaf(y)).entries) <==> !(p <= q) && !(q <= p)
    decreases |p|
  {
    SingleFits(p[0], Wrap(p[1..], Leaf(x)), q[0], Wrap(q[1..], Leaf(y)));
    ConsPrefix(p, q);
    ConsPrefix(q, p);
    if |p| > 1 && |q| > 1 { LeavesFitIff(p[1..], q[1..], x, y); }
  }

  /** All values are leaves: the overlay builds exactly when, in each file, no key
      is another key or continues it after a dot. */
  lemma LeafKeysBuildIff<L>(values: seq<ConfigValue<L>>)
    requires forall i :: 0 <= i < |values| ==> values[i].value.Some? && values[i].value.value.Leaf?
    ensures MergeAll(Patches(values)).Some? <==>
            forall i, j :: 0 <= i < |values| && 0 <= j < |values| && i != j && values[i].file == values[j].file ==> !Covers(values[i].key, values[j].key)
  {
    var ps := Patches(values);
    MergesIff(ps);
    forall i, j | 0 <= i < j < |values|
      ensures Fits(ps[i].value, ps[j].value) <==>
              (values[i].file == values[j].file ==> !Covers(values[i].key, values[j].key) && !Covers(values[j].key, values[i].key))
    {
      TwoPatches(values[i], values[j]);
    }
  }

  lemma TwoPatches<L>(v: ConfigValue<L>, w: ConfigValue<L>)
    requires v.value.Some? && w.value.Some? && v.value.value.Leaf? && w.value.value.Leaf?
    ensures Fits(PatchOf(v).value, PatchOf(w).value) <==> (v.file == w.file ==> !Covers(v.key, w.key) && !Covers(w.key, v.key))
  {
    CoversIsPrefix(v.key, w.key);
    CoversIsPrefix(w.key, v.key);
    LeavesFitIff(Split(v.key), Split(w.key), v.value.value.value, w.value.value.value);
    SingleFits(v.file, Wrap(Split(v.key), v.value.value), w.file, Wrap(Split(w.key), w.value.value));
  }
}
