/** The tidy-tree layout of a forest: leaves take the next column, a parent sits
    midway between its outermost children. */
module TopoTree {
  import opened Common
  import opened TopoGraph

  datatype Tree = Node(host: Host, kids: seq<Tree>)

  /** A placed host, with its parent and the parent's column. */
  datatype Placed = Placed(host: Host, col: real, depth: nat, parent: Option<Host>, up: real)

  datatype Pos = Pos(col: real, depth: nat)

  function MinOf(s: seq<real>): (m: real)
    requires s != []
    ensures m in s && forall k :: 0 <= k < |s| ==> m <= s[k]
  {
    if |s| == 1 then s[0]
    else
      var rest := MinOf(s[1..]);
      if s[0] <= rest then s[0] else rest
  }

  function MaxOf(s: seq<real>): (m: real)
    requires s != []
    ensures m in s && forall k :: 0 <= k < |s| ==> s[k] <= m
  {
    if |s| == 1 then s[0]
    else
      var rest := MaxOf(s[1..]);
      if s[0] >= rest then s[0] else rest
  }

  function Middle(cols: seq<real>): real
    requires cols != []
  {
    (MinOf(cols) + MaxOf(cols)) / 2.0
  }

  // ---- The layout ----

  function Leaves(t: Tree): (n: nat)
    ensures n >= 1
    decreases t
  {
    if t.kids == [] then 1 else LeavesAll(t.kids)
  }

  function LeavesAll(ts: seq<Tree>): (n: nat)
    ensures ts != [] ==> n >= 1
    decreases ts
  {
    if ts == [] then 0 else LeavesAll(Init(ts)) + Leaves(Last(ts))
  }

  /** The column of a tree's root when its first leaf takes the given number. */
  function Col(t: Tree, leaf: nat): real
    decreases t
  {
    if t.kids == [] then leaf as real
    else
      Middle(Cols(t.kids, leaf))
  }

  function Cols(ts: seq<Tree>, leaf: nat): (cols: seq<real>)
    ensures |cols| == |ts|
    decreases ts
  {
    if ts == [] then [] else Cols(Init(ts), leaf) + [Col(Last(ts), leaf + LeavesAll(Init(ts)))]
  }

  /** Everything placed for one tree, children before their parent. */
  function Place(t: Tree, depth: nat, leaf: nat, parent: Option<Host>, up: real): (s: seq<Placed>)
    ensures |s| >= 1 && s[|s| - 1] == Placed(t.host, Col(t, leaf), depth, parent, up)
    decreases t
  {
    PlaceAll(t.kids, depth + 1, leaf, Some(t.host), Col(t, leaf)) + [Placed(t.host, Col(t, leaf), depth, parent, up)]
  }

  function PlaceAll(ts: seq<Tree>, depth: nat, leaf: nat, parent: Option<Host>, up: real): seq<Placed>
    decreases ts
  {
    if ts == [] then []
    else PlaceAll(Init(ts), depth, leaf, parent, up)
         + Place(Last(ts), depth, leaf + LeavesAll(Init(ts)), parent, up)
  }

  /** The deepest level a tree reaches. */
  function Deepest(t: Tree, depth: nat): nat
    decreases t
  {
    var below := DeepestAll(t.kids, depth + 1);
    if below > depth then below else depth
  }

  function DeepestAll(ts: seq<Tree>, depth: nat): nat
    decreases ts
  {
    if ts == [] then 0
    else
      var a, b := DeepestAll(Init(ts), depth), Deepest(Last(ts), depth);
      if a > b then a else b
  }

  lemma PlaceSnoc(ts: seq<Tree>, t: Tree, depth: nat, leaf: nat, parent: Option<Host>, up: real)
    ensures PlaceAll(ts + [t], depth, leaf, parent, up)
         == PlaceAll(ts, depth, leaf, parent, up) + Place(t, depth, leaf + LeavesAll(ts), parent, up)
    ensures LeavesAll(ts + [t]) == LeavesAll(ts) + Leaves(t)
    ensures Cols(ts + [t], leaf) == Cols(ts, leaf) + [Col(t, leaf + LeavesAll(ts))]
  {
    assert Init(ts + [t]) == ts && Last(ts + [t]) == t;
  }

  /** Each tree's root stands on the top level, at its column. */
  lemma {:induction false} RootEntry(ts: seq<Tree>, depth: nat, leaf: nat, parent: Option<Host>, up: real, i: nat)
    returns (k: nat)
    requires i < |ts|
    ensures k < |PlaceAll(ts, depth, leaf, parent, up)|
    ensures PlaceAll(ts, depth, leaf, parent, up)[k] == Placed(ts[i].host, Cols(ts, leaf)[i], depth, parent, up)
  {
    PlaceSnoc(Init(ts), Last(ts), depth, leaf, parent, up);
    assert Init(ts) + [Last(ts)] == ts;
    if i == |ts| - 1 {
      k := |PlaceAll(ts, depth, leaf, parent, up)| - 1;
    } else {
      k := RootEntry(Init(ts), depth, leaf, parent, up, i);
    }
  }

  // ---- Geometry ----

  ghost predicate ColIn(c: real, leaf: nat, leaves: nat) {
    leaf as real <= c <= (leaf + leaves) as real - 1.0
  }

  /** Columns stay inside the tree's own run of leaves. */
  ghost predicate Within(s: seq<Placed>, depth: nat, leaf: nat, leaves: nat) {
    forall i :: 0 <= i < |s| ==>
      ColIn(s[i].col, leaf, leaves) && s[i].depth >= depth && (s[i].depth > depth ==> ColIn(s[i].up, leaf, leaves))
  }

  /** On one level, listed left to right: columns at least one apart, and the
      parents' columns never swapped. */
  ghost predicate LeftToRight(s: seq<Placed>) {
    forall i, j :: 0 <= i < j < |s| && s[i].depth == s[j].depth ==>
      s[i].col + 1.0 <= s[j].col && s[i].up <= s[j].up
  }

  lemma {:induction false} ColWithin(t: Tree, leaf: nat)
    ensures ColIn(Col(t, leaf), leaf, Leaves(t))
    decreases t
  {
    if t.kids != [] {
      ColsWithin(t.kids, leaf);
    }
  }

  lemma {:induction false} ColsWithin(ts: seq<Tree>, leaf: nat)
    ensures forall k :: 0 <= k < |ts| ==> ColIn(Cols(ts, leaf)[k], leaf, LeavesAll(ts))
    decreases ts
  {
    if ts != [] {
      ColsWithin(Init(ts), leaf);
      ColWithin(Last(ts), leaf + LeavesAll(Init(ts)));
    }
  }

  /** What sits on the top level of a list hangs from the given parent. */
  ghost predicate HangsFrom(s: seq<Placed>, depth: nat, parent: Option<Host>, up: real) {
    forall i :: 0 <= i < |s| && s[i].depth == depth ==> s[i].parent == parent && s[i].up == up
  }

  lemma Widen(s: seq<Placed>, depth: nat, leaf: nat, leaves: nat, leaf': nat, leaves': nat)
    requires Within(s, depth, leaf, leaves)
    requires leaf' <= leaf && leaf + leaves <= leaf' + leaves'
    ensures Within(s, depth, leaf', leaves')
  {
  }

  lemma {:induction false} PlaceWithin(t: Tree, depth: nat, leaf: nat, parent: Option<Host>, up: real)
    ensures Within(Place(t, depth, leaf, parent, up), depth, leaf, Leaves(t))
    ensures HangsFrom(Place(t, depth, leaf, parent, up), depth, parent, up)
    ensures var s := Place(t, depth, leaf, parent, up); forall i :: 0 <= i < |s| - 1 ==> s[i].depth > depth
    decreases t
  {
    ColWithin(t, leaf);
    PlaceAllWithin(t.kids, depth + 1, leaf, Some(t.host), Col(t, leaf));
    if t.kids == [] {
      assert PlaceAll(t.kids, depth + 1, leaf, Some(t.host), Col(t, leaf)) == [];
    }
  }

  lemma {:induction false} PlaceAllWithin(ts: seq<Tree>, depth: nat, leaf: nat, parent: Option<Host>, up: real)
    ensures Within(PlaceAll(ts, depth, leaf, parent, up), depth, leaf, LeavesAll(ts))
    ensures HangsFrom(PlaceAll(ts, depth, leaf, parent, up), depth, parent, up)
    decreases ts
  {
    hide Col, Cols, Place;
    if ts != [] {
      var n, m := LeavesAll(Init(ts)), Leaves(Last(ts));
      PlaceAllWithin(Init(ts), depth, leaf, parent, up);
      PlaceWithin(Last(ts), depth, leaf + n, parent, up);
      Widen(PlaceAll(Init(ts), depth, leaf, parent, up), depth, leaf, n, leaf, n + m);
      Widen(Place(Last(ts), depth, leaf + n, parent, up), depth, leaf + n, m, leaf, n + m);
    }
  }

  lemma {:induction false} PlaceOrdered(t: Tree, depth: nat, leaf: nat, parent: Option<Host>, up: real)
    ensures LeftToRight(Place(t, depth, leaf, parent, up))
    decreases t
  {
    PlaceAllOrdered(t.kids, depth + 1, leaf, Some(t.host), Col(t, leaf));
    PlaceWithin(t, depth, leaf, parent, up);
  }

  lemma {:induction false} PlaceAllOrdered(ts: seq<Tree>, depth: nat, leaf: nat, parent: Option<Host>, up: real)
    ensures LeftToRight(PlaceAll(ts, depth, leaf, parent, up))
    decreases ts
  {
    hide Col, Cols, Place;
    if ts != [] {
      var n, m := LeavesAll(Init(ts)), Leaves(Last(ts));
      PlaceAllOrdered(Init(ts), depth, leaf, parent, up);
      PlaceOrdered(Last(ts), depth, leaf + n, parent, up);
      PlaceAllWithin(Init(ts), depth, leaf, parent, up);
      PlaceWithin(Last(ts), depth, leaf + n, parent, up);
    }
  }

  lemma {:induction false} PlaceDeepest(t: Tree, depth: nat, leaf: nat, parent: Option<Host>, up: real, i: nat)
    requires i < |Place(t, depth, leaf, parent, up)|
    ensures Place(t, depth, leaf, parent, up)[i].depth <= Deepest(t, depth)
    decreases t
  {
    if i < |Place(t, depth, leaf, parent, up)| - 1 {
      PlaceAllDeepest(t.kids, depth + 1, leaf, Some(t.host), Col(t, leaf), i);
    }
  }

  lemma {:induction false} PlaceAllDeepest(ts: seq<Tree>, depth: nat, leaf: nat, parent: Option<Host>, up: real, i: nat)
    requires i < |PlaceAll(ts, depth, leaf, parent, up)|
    ensures PlaceAll(ts, depth, leaf, parent, up)[i].depth <= DeepestAll(ts, depth)
    decreases ts
  {
    hide Place, Col, Cols;
    var a := PlaceAll(Init(ts), depth, leaf, parent, up);
    if i < |a| {
      PlaceAllDeepest(Init(ts), depth, leaf, parent, up, i);
    } else {
      PlaceDeepest(Last(ts), depth, leaf + LeavesAll(Init(ts)), parent, up, i - |a|);
    }
  }

  /** The deepest level is reached. */
  lemma {:induction false} PlaceReaches(t: Tree, depth: nat, leaf: nat, parent: Option<Host>, up: real) returns (i: nat)
    ensures i < |Place(t, depth, leaf, parent, up)| && Place(t, depth, leaf, parent, up)[i].depth == Deepest(t, depth)
    decreases t
  {
    var s := Place(t, depth, leaf, parent, up);
    if DeepestAll(t.kids, depth + 1) > depth {
      i := PlaceAllReaches(t.kids, depth + 1, leaf, Some(t.host), Col(t, leaf));
    } else {
      i := |s| - 1;
    }
  }

  lemma {:induction false} PlaceAllReaches(ts: seq<Tree>, depth: nat, leaf: nat, parent: Option<Host>, up: real)
    returns (i: nat)
    requires ts != []
    ensures i < |PlaceAll(ts, depth, leaf, parent, up)|
    ensures PlaceAll(ts, depth, leaf, parent, up)[i].depth == DeepestAll(ts, depth)
    decreases ts
  {
    hide Place, Col, Cols;
    var a := PlaceAll(Init(ts), depth, leaf, parent, up);
    if DeepestAll(Init(ts), depth) > Deepest(Last(ts), depth) {
      i := PlaceAllReaches(Init(ts), depth, leaf, parent, up);
    } else {
      i := PlaceReaches(Last(ts), depth, leaf + LeavesAll(Init(ts)), parent, up);
      i := |a| + i;
    }
  }

  /** Every placed host but the roots has its parent placed one level up, at the
      column its edge starts from. */
  ghost predicate HasParentIn(p: Placed, s: seq<Placed>) {
    exists k :: 0 <= k < |s| && s[k].depth + 1 == p.depth && p.parent == Some(s[k].host) && p.up == s[k].col
  }

  lemma {:induction false} PlaceParents(t: Tree, depth: nat, leaf: nat, parent: Option<Host>, up: real, i: nat)
    requires i < |Place(t, depth, leaf, parent, up)|
    requires Place(t, depth, leaf, parent, up)[i].depth > depth
    ensures HasParentIn(Place(t, depth, leaf, parent, up)[i], Place(t, depth, leaf, parent, up))
    decreases t
  {
    var s := Place(t, depth, leaf, parent, up);
    var below := PlaceAll(t.kids, depth + 1, leaf, Some(t.host), Col(t, leaf));
    var p := s[i];
    if p.depth == depth + 1 {
      PlaceAllWithin(t.kids, depth + 1, leaf, Some(t.host), Col(t, leaf));
      assert s[|s| - 1].depth + 1 == p.depth && p.parent == Some(s[|s| - 1].host);
    } else {
      PlaceAllParents(t.kids, depth + 1, leaf, Some(t.host), Col(t, leaf), i);
      var k :| && 0 <= k < |below| && below[k].depth + 1 == p.depth
               && p.parent == Some(below[k].host) && p.up == below[k].col;
      assert s[k] == below[k];
    }
  }

  lemma {:induction false} PlaceAllParents(ts: seq<Tree>, depth: nat, leaf: nat, parent: Option<Host>, up: real, i: nat)
    requires i < |PlaceAll(ts, depth, leaf, parent, up)|
    requires PlaceAll(ts, depth, leaf, parent, up)[i].depth > depth
    ensures HasParentIn(PlaceAll(ts, depth, leaf, parent, up)[i], PlaceAll(ts, depth, leaf, parent, up))
    decreases ts
  {
    var s := PlaceAll(ts, depth, leaf, parent, up);
    var a := PlaceAll(Init(ts), depth, leaf, parent, up);
    var b := Place(Last(ts), depth, leaf + LeavesAll(Init(ts)), parent, up);
    assert s == a + b;
    var p := s[i];
    if i < |a| {
      PlaceAllParents(Init(ts), depth, leaf, parent, up, i);
      var k :| 0 <= k < |a| && a[k].depth + 1 == p.depth && p.parent == Some(a[k].host) && p.up == a[k].col;
      assert s[k] == a[k];
    } else {
      PlaceParents(Last(ts), depth, leaf + LeavesAll(Init(ts)), parent, up, i - |a|);
      var k :| 0 <= k < |b| && b[k].depth + 1 == p.depth && p.parent == Some(b[k].host) && p.up == b[k].col;
      assert s[|a| + k] == b[k];
    }
  }

  // ---- As a position table ----

  function AsMap(s: seq<Placed>): map<int, Pos> {
    if s == [] then map[]
    else
      var p := s[|s| - 1];
      AsMap(s[..|s| - 1])[p.host.id := Pos(p.col, p.depth)]
  }

  ghost predicate DistinctHosts(s: seq<Placed>) {
    forall i, j :: 0 <= i < j < |s| ==> s[i].host.id != s[j].host.id
  }

  lemma {:induction false} AsMapAppend(a: seq<Placed>, b: seq<Placed>)
    ensures AsMap(a + b) == AsMap(a) + AsMap(b)
  {
    if b == [] {
      assert a + b == a;
    } else {
      var n := |b| - 1;
      AsMapAppend(a, b[..n]);
      assert (a + b)[..|a + b| - 1] == a + b[..n];
    }
  }

  lemma {:induction false} AsMapKeys(s: seq<Placed>)
    ensures forall id :: id in AsMap(s) <==> exists i :: 0 <= i < |s| && s[i].host.id == id
  {
    if s != [] {
      AsMapKeys(s[..|s| - 1]);
    }
  }

  lemma {:induction false} AsMapAt(s: seq<Placed>, i: nat)
    requires DistinctHosts(s) && i < |s|
    ensures s[i].host.id in AsMap(s) && AsMap(s)[s[i].host.id] == Pos(s[i].col, s[i].depth)
  {
    if i < |s| - 1 {
      AsMapAt(s[..|s| - 1], i);
    }
  }
}
