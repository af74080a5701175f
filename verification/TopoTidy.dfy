/** What makes the layout tidy: parents midway over their children, the childless
    hosts in columns 0, 1, 2, ..., and whole subtrees side by side in list order. */
module TopoTidy {
  import opened Common
  import opened TopoGraph
  import opened TopoTree
  import opened TopoForest

  // ---- Parents and children in a placement ----

  predicate ChildOf(q: Placed, p: Placed) { q.parent == Some(p.host) }

  ghost predicate Childless(s: seq<Placed>, p: Placed) {
    forall q :: q in s ==> !ChildOf(q, p)
  }

  /** a and b are children of p, no child of p is left of a or right of b. */
  ghost predicate Outermost(s: seq<Placed>, p: Placed, a: Placed, b: Placed) {
    && a in s && b in s && ChildOf(a, p) && ChildOf(b, p)
    && forall q :: q in s && ChildOf(q, p) ==> a.col <= q.col <= b.col
  }

  /** Every parent sits midway between its outermost children. */
  ghost predicate Centred(s: seq<Placed>) {
    forall p :: p in s && !Childless(s, p) ==> Midway(s, p)
  }

  ghost predicate Midway(s: seq<Placed>, p: Placed) {
    exists a, b :: Outermost(s, p, a, b) && p.col == (a.col + b.col) / 2.0
  }

  /** The childless sit in the n columns from leaf on, one in each of them. */
  ghost predicate Numbered(s: seq<Placed>, leaf: nat, n: nat) {
    && (forall p :: p in s && Childless(s, p) ==> InColumns(p, leaf, n))
    && (forall m: nat :: leaf <= m < leaf + n ==> Taken(s, m))
  }

  ghost predicate InColumns(p: Placed, leaf: nat, n: nat) {
    exists m: nat :: leaf <= m < leaf + n && InColumn(p, m)
  }

  predicate InColumn(p: Placed, m: nat) { p.col == m as real }

  ghost predicate Taken(s: seq<Placed>, m: nat) {
    exists p :: p in s && Childless(s, p) && InColumn(p, m)
  }

  /** Every entry hangs from the outside parent or from another entry. */
  ghost predicate Family(s: seq<Placed>, parent: Option<Host>) {
    forall q :: q in s ==> q.parent == parent || exists p :: p in s && ChildOf(q, p)
  }

  /** Different entries show different hosts, and none of them the outside parent. */
  ghost predicate OnlyOnce(s: seq<Placed>, parent: Option<Host>) {
    && (forall p, q :: p in s && q in s && p.host == q.host ==> p == q)
    && (forall p :: p in s ==> parent != Some(p.host))
  }

  ghost predicate Disjoint(a: seq<Placed>, b: seq<Placed>) {
    forall p, q :: p in a && q in b ==> p.host != q.host
  }

  lemma PlaceAllFamily(ts: seq<Tree>, depth: nat, leaf: nat, parent: Option<Host>, up: real)
    ensures Family(PlaceAll(ts, depth, leaf, parent, up), parent)
  {
    var s := PlaceAll(ts, depth, leaf, parent, up);
    PlaceAllWithin(ts, depth, leaf, parent, up);
    hide PlaceAll, Within;
    forall q | q in s && q.parent != parent ensures exists p :: p in s && ChildOf(q, p) {
      var j :| 0 <= j < |s| && s[j] == q;
      assert s[j].depth != depth;
      DepthAtLeast(ts, depth, leaf, parent, up, j);
      PlaceAllParents(ts, depth, leaf, parent, up, j);
      var k :| 0 <= k < |s| && s[k].depth + 1 == s[j].depth && s[j].parent == Some(s[k].host) && s[j].up == s[k].col;
      assert ChildOf(q, s[k]);
    }
  }

  lemma DepthAtLeast(ts: seq<Tree>, depth: nat, leaf: nat, parent: Option<Host>, up: real, j: nat)
    requires j < |PlaceAll(ts, depth, leaf, parent, up)|
    ensures PlaceAll(ts, depth, leaf, parent, up)[j].depth >= depth
  {
    PlaceAllWithin(ts, depth, leaf, parent, up);
  }

  // ---- Two parts next to each other ----

  /** Children stay with their parent's part. */
  lemma Parts(a: seq<Placed>, b: seq<Placed>, parent: Option<Host>, p: Placed)
    requires Family(a, parent) && Family(b, parent) && Disjoint(a, b)
    requires OnlyOnce(a, parent) && OnlyOnce(b, parent)
    ensures p in a ==> forall q :: q in a + b && ChildOf(q, p) ==> q in a
    ensures p in b ==> forall q :: q in a + b && ChildOf(q, p) ==> q in b
  {
    if p in a {
      forall q | q in b ensures !ChildOf(q, p) {
        if q.parent != parent {
          var r :| r in b && ChildOf(q, r);
        }
      }
    }
    if p in b {
      forall q | q in a ensures !ChildOf(q, p) {
        if q.parent != parent {
          var r :| r in a && ChildOf(q, r);
        }
      }
    }
  }

  lemma PartOf(a: seq<Placed>, s: seq<Placed>, p: Placed)
    requires forall q :: q in a ==> q in s
    requires forall q :: q in s && ChildOf(q, p) ==> q in a
    ensures Childless(s, p) <==> Childless(a, p)
    ensures Midway(a, p) ==> Midway(s, p)
  {
    if Midway(a, p) {
      var x, y :| Outermost(a, p, x, y) && p.col == (x.col + y.col) / 2.0;
      assert Outermost(s, p, x, y);
    }
  }

  lemma PartsCentred(a: seq<Placed>, b: seq<Placed>, parent: Option<Host>)
    requires Family(a, parent) && Family(b, parent) && Disjoint(a, b)
    requires OnlyOnce(a, parent) && OnlyOnce(b, parent)
    requires Centred(a) && Centred(b)
    ensures Centred(a + b)
  {
    hide Family, OnlyOnce, Disjoint, Childless, Midway;
    var s := a + b;
    forall p | p in s && !Childless(s, p) ensures Midway(s, p) {
      Parts(a, b, parent, p);
      if p in a {
        PartOf(a, s, p);
      } else {
        PartOf(b, s, p);
      }
    }
  }

  lemma PartsNumbered(a: seq<Placed>, b: seq<Placed>, parent: Option<Host>, leaf: nat, n: nat, m: nat)
    requires Family(a, parent) && Family(b, parent) && Disjoint(a, b)
    requires OnlyOnce(a, parent) && OnlyOnce(b, parent)
    requires Numbered(a, leaf, n) && Numbered(b, leaf + n, m)
    ensures Numbered(a + b, leaf, n + m)
  {
    hide Family, OnlyOnce, Disjoint, Childless;
    var s := a + b;
    forall p | p in s && Childless(s, p) ensures InColumns(p, leaf, n + m) {
      Parts(a, b, parent, p);
      if p in a {
        PartOf(a, s, p);
        assert InColumns(p, leaf, n);
      } else {
        PartOf(b, s, p);
        assert InColumns(p, leaf + n, m);
      }
    }
    forall k: nat | leaf <= k < leaf + (n + m) ensures Taken(s, k) {
      if k < leaf + n {
        assert Taken(a, k);
        var p :| p in a && Childless(a, p) && InColumn(p, k);
        Parts(a, b, parent, p);
        PartOf(a, s, p);
      } else {
        assert Taken(b, k);
        var p :| p in b && Childless(b, p) && InColumn(p, k);
        Parts(a, b, parent, p);
        PartOf(b, s, p);
      }
    }
  }

  // ---- A tree ----

  lemma OnlyRootOnTop(t: Tree, depth: nat, leaf: nat, parent: Option<Host>, up: real, q: Placed)
    requires q in Place(t, depth, leaf, parent, up) && q.depth == depth
    ensures q == Placed(t.host, Col(t, leaf), depth, parent, up)
  {
    PlaceWithin(t, depth, leaf, parent, up);
    hide Place, Col;
    var b := Place(t, depth, leaf, parent, up);
    var i :| 0 <= i < |b| && b[i] == q;
  }

  /** On the top level of a list stand the roots of its trees, at their columns. */
  lemma {:induction false} TopColumns(ts: seq<Tree>, depth: nat, leaf: nat, parent: Option<Host>, up: real, q: Placed)
    requires q in PlaceAll(ts, depth, leaf, parent, up) && q.depth == depth
    ensures q.col in Cols(ts, leaf)
    decreases ts
  {
    hide Col;
    var n := LeavesAll(Init(ts));
    if q in PlaceAll(Init(ts), depth, leaf, parent, up) {
      TopColumns(Init(ts), depth, leaf, parent, up, q);
    } else {
      assert q in Place(Last(ts), depth, leaf + n, parent, up);
      OnlyRootOnTop(Last(ts), depth, leaf + n, parent, up, q);
      assert Cols(ts, leaf)[|ts| - 1] == Col(Last(ts), leaf + n);
    }
  }

  /** Whatever hangs from the outside parent stands on the top level. */
  lemma HangsOnTop(ts: seq<Tree>, depth: nat, leaf: nat, parent: Option<Host>, up: real, q: Placed)
    requires OnlyOnce(PlaceAll(ts, depth, leaf, parent, up), parent)
    requires q in PlaceAll(ts, depth, leaf, parent, up) && q.parent == parent
    ensures q.depth == depth
  {
    var s := PlaceAll(ts, depth, leaf, parent, up);
    var j :| 0 <= j < |s| && s[j] == q;
    DepthAtLeast(ts, depth, leaf, parent, up, j);
    if q.depth > depth {
      PlaceAllParents(ts, depth, leaf, parent, up, j);
    }
  }

  lemma TopFound(ts: seq<Tree>, depth: nat, leaf: nat, parent: Option<Host>, up: real, c: real) returns (q: Placed)
    requires c in Cols(ts, leaf)
    ensures q in PlaceAll(ts, depth, leaf, parent, up) && q.parent == parent && q.col == c
  {
    var i :| 0 <= i < |ts| && Cols(ts, leaf)[i] == c;
    var k := RootEntry(ts, depth, leaf, parent, up, i);
    q := PlaceAll(ts, depth, leaf, parent, up)[k];
  }

  /** The root of a tree with children is midway between the outermost of them. */
  lemma RootMidway(t: Tree, depth: nat, leaf: nat, parent: Option<Host>, up: real)
    requires t.kids != [] && OnlyOnce(Place(t, depth, leaf, parent, up), parent)
    ensures Midway(Place(t, depth, leaf, parent, up), Placed(t.host, Col(t, leaf), depth, parent, up))
  {
    var s, root := Place(t, depth, leaf, parent, up), Placed(t.host, Col(t, leaf), depth, parent, up);
    var below := PlaceAll(t.kids, depth + 1, leaf, Some(t.host), Col(t, leaf));
    var cols := Cols(t.kids, leaf);
    assert s == below + [root] && root in s;
    BelowOnce(t, depth, leaf, parent, up);
    var a := TopFound(t.kids, depth + 1, leaf, Some(t.host), Col(t, leaf), MinOf(cols));
    var b := TopFound(t.kids, depth + 1, leaf, Some(t.host), Col(t, leaf), MaxOf(cols));
    forall q | q in s && ChildOf(q, root) ensures a.col <= q.col <= b.col {
      assert q in below;
      HangsOnTop(t.kids, depth + 1, leaf, Some(t.host), Col(t, leaf), q);
      TopColumns(t.kids, depth + 1, leaf, Some(t.host), Col(t, leaf), q);
    }
    assert Outermost(s, root, a, b);
  }

  lemma BelowOnce(t: Tree, depth: nat, leaf: nat, parent: Option<Host>, up: real)
    requires OnlyOnce(Place(t, depth, leaf, parent, up), parent)
    ensures var below := PlaceAll(t.kids, depth + 1, leaf, Some(t.host), Col(t, leaf));
      && OnlyOnce(below, Some(t.host))
      && (forall p :: p in below ==> !ChildOf(Placed(t.host, Col(t, leaf), depth, parent, up), p))
  {
    var root := Placed(t.host, Col(t, leaf), depth, parent, up);
    var below := PlaceAll(t.kids, depth + 1, leaf, Some(t.host), Col(t, leaf));
    PlaceAllWithin(t.kids, depth + 1, leaf, Some(t.host), Col(t, leaf));
    assert Place(t, depth, leaf, parent, up) == below + [root];
    hide Place, PlaceAll, Col;
    RestOnce(below, root, parent);
  }

  lemma RestOnce(below: seq<Placed>, root: Placed, parent: Option<Host>)
    requires OnlyOnce(below + [root], parent) && root !in below
    ensures OnlyOnce(below, Some(root.host)) && forall p :: p in below ==> !ChildOf(root, p) || root.parent != parent
  {
    var s := below + [root];
    assert root in s;
    forall p | p in below ensures p.host != root.host && parent != Some(p.host) {
      assert p in s;
    }
    assert forall p :: p in below ==> p in s;
  }

  // ---- All trees ----

  ghost predicate Tidy(s: seq<Placed>, leaf: nat, n: nat) {
    Centred(s) && Numbered(s, leaf, n)
  }

  lemma SplitOnce(a: seq<Placed>, b: seq<Placed>, parent: Option<Host>)
    requires DistinctHosts(a + b) && OnlyOnce(a + b, parent)
    ensures DistinctHosts(a) && DistinctHosts(b) && Disjoint(a, b) && OnlyOnce(a, parent) && OnlyOnce(b, parent)
  {
    var s := a + b;
    forall i, j | 0 <= i < j < |a| ensures a[i].host.id != a[j].host.id {
      assert s[i] == a[i] && s[j] == a[j];
    }
    forall i, j | 0 <= i < j < |b| ensures b[i].host.id != b[j].host.id {
      assert s[|a| + i] == b[i] && s[|a| + j] == b[j];
    }
    forall p, q | p in a && q in b ensures p.host != q.host {
      var i :| 0 <= i < |a| && a[i] == p;
      var j :| 0 <= j < |b| && b[j] == q;
      assert s[i] == p && s[|a| + j] == q;
    }
    assert forall p :: p in a ==> p in s;
    assert forall p :: p in b ==> p in s;
  }

  lemma PartsTidy(a: seq<Placed>, b: seq<Placed>, parent: Option<Host>, leaf: nat, n: nat, m: nat)
    requires Family(a, parent) && Family(b, parent) && Disjoint(a, b)
    requires OnlyOnce(a, parent) && OnlyOnce(b, parent)
    requires Tidy(a, leaf, n) && Tidy(b, leaf + n, m)
    ensures Tidy(a + b, leaf, n + m)
  {
    hide Family, OnlyOnce, Disjoint, Centred, Numbered;
    PartsCentred(a, b, parent);
    PartsNumbered(a, b, parent, leaf, n, m);
  }

  lemma LeafTidy(root: Placed, parent: Option<Host>, leaf: nat)
    requires parent != Some(root.host) && root.parent == parent && root.col == leaf as real
    ensures Tidy([root], leaf, 1)
  {
    assert Childless([root], root) && InColumn(root, leaf);
    assert root in [root];
  }

  lemma OverChildren(below: seq<Placed>, root: Placed, parent: Option<Host>)
    requires OnlyOnce(below + [root], parent) && root.parent == parent
    ensures forall p, q :: p in below && q in below + [root] && ChildOf(q, p) ==> q in below
  {
    forall p | p in below ensures !ChildOf(root, p) {
      assert p in below + [root];
    }
  }

  /** A parent over a tidy list of children. */
  lemma OverTidy(below: seq<Placed>, root: Placed, parent: Option<Host>, leaf: nat, n: nat)
    requires Tidy(below, leaf, n) && OnlyOnce(below + [root], parent) && root.parent == parent
    requires Midway(below + [root], root)
    ensures Tidy(below + [root], leaf, n)
  {
    var s := below + [root];
    OverChildren(below, root, parent);
    HasChildren(s, root);
    hide Childless, Midway, OnlyOnce, ChildOf, Numbered, Centred;
    forall p | p in below
      ensures Childless(s, p) <==> Childless(below, p)
      ensures Midway(below, p) ==> Midway(s, p)
    {
      PartOf(below, s, p);
    }
    OverCentred(below, root);
    OverNumbered(below, root, leaf, n);
  }

  lemma HasChildren(s: seq<Placed>, p: Placed)
    requires Midway(s, p)
    ensures !Childless(s, p)
  {
    var a, b :| Outermost(s, p, a, b) && p.col == (a.col + b.col) / 2.0;
  }

  lemma OverCentred(below: seq<Placed>, root: Placed)
    requires Centred(below) && Midway(below + [root], root)
    requires forall p :: p in below ==> (Childless(below + [root], p) <==> Childless(below, p))
    requires forall p :: p in below && Midway(below, p) ==> Midway(below + [root], p)
    ensures Centred(below + [root])
  {
    hide Childless, Midway;
  }

  lemma OverNumbered(below: seq<Placed>, root: Placed, leaf: nat, n: nat)
    requires Numbered(below, leaf, n) && !Childless(below + [root], root)
    requires forall p :: p in below ==> (Childless(below + [root], p) <==> Childless(below, p))
    ensures Numbered(below + [root], leaf, n)
  {
    hide Childless, InColumns;
    var s := below + [root];
    assert forall p :: p in s ==> p in below || p == root;
    forall m: nat | leaf <= m < leaf + n ensures Taken(s, m) {
      assert Taken(below, m);
      var p :| p in below && Childless(below, p) && InColumn(p, m);
      assert p in s && Childless(s, p);
    }
  }

  lemma {:induction false} TreeTidy(t: Tree, depth: nat, leaf: nat, parent: Option<Host>, up: real)
    requires var s := Place(t, depth, leaf, parent, up); DistinctHosts(s) && OnlyOnce(s, parent)
    ensures Tidy(Place(t, depth, leaf, parent, up), leaf, Leaves(t))
    decreases t
  {
    var root := Placed(t.host, Col(t, leaf), depth, parent, up);
    var below := PlaceAll(t.kids, depth + 1, leaf, Some(t.host), Col(t, leaf));
    assert Place(t, depth, leaf, parent, up) == below + [root];
    assert root in below + [root];
    if t.kids == [] {
      assert below + [root] == [root];
      LeafTidy(root, parent, leaf);
    } else {
      PlaceAllWithin(t.kids, depth + 1, leaf, Some(t.host), Col(t, leaf));
      BelowOnce(t, depth, leaf, parent, up);
      RootMidway(t, depth, leaf, parent, up);
      assert Leaves(t) == LeavesAll(t.kids);
      hide Place, PlaceAll, Col, Leaves, LeavesAll, Tidy, OnlyOnce;
      SplitOnce(below, [root], parent);
      assert root in [root];
      TreesTidy(t.kids, depth + 1, leaf, Some(t.host), Col(t, leaf));
      OverTidy(below, root, parent, leaf, LeavesAll(t.kids));
    }
  }

  lemma {:induction false} TreesTidy(ts: seq<Tree>, depth: nat, leaf: nat, parent: Option<Host>, up: real)
    requires var s := PlaceAll(ts, depth, leaf, parent, up); DistinctHosts(s) && OnlyOnce(s, parent)
    ensures Tidy(PlaceAll(ts, depth, leaf, parent, up), leaf, LeavesAll(ts))
    decreases ts
  {
    hide Place, PlaceAll, Col, Leaves, LeavesAll, Tidy, OnlyOnce, DistinctHosts;
    if ts == [] {
      NoTrees(depth, leaf, parent, up);
    } else {
      var front, t := Init(ts), Last(ts);
      assert front + [t] == ts;
      var n := LeavesAll(front);
      PlaceSnoc(front, t, depth, leaf, parent, up);
      var a, b := PlaceAll(front, depth, leaf, parent, up), Place(t, depth, leaf + n, parent, up);
      SplitOnce(a, b, parent);
      TreesTidy(front, depth, leaf, parent, up);
      TreeTidy(t, depth, leaf + n, parent, up);
      PlaceAllFamily(front, depth, leaf, parent, up);
      TreeFamily(t, depth, leaf + n, parent, up);
      PartsTidy(a, b, parent, leaf, n, Leaves(t));
    }
  }

  lemma NoTrees(depth: nat, leaf: nat, parent: Option<Host>, up: real)
    ensures Tidy(PlaceAll([], depth, leaf, parent, up), leaf, LeavesAll([]))
  {
    assert PlaceAll([], depth, leaf, parent, up) == [];
  }

  lemma TreeFamily(t: Tree, depth: nat, leaf: nat, parent: Option<Host>, up: real)
    ensures Family(Place(t, depth, leaf, parent, up), parent)
  {
    PlaceAllFamily([t], depth, leaf, parent, up);
    assert Init([t]) == [];
    assert PlaceAll([t], depth, leaf, parent, up)
        == PlaceAll([], depth, leaf, parent, up) + Place(t, depth, leaf, parent, up);
  }

  // ---- Side by side ----

  /** a comes before b in the list. */
  ghost predicate Before(hosts: seq<Host>, a: Host, b: Host) {
    exists i, j :: 0 <= i < j < |hosts| && hosts[i] == a && hosts[j] == b
  }

  /** At depth d the two stand under different children of one parent, or under
      different roots, x under the one that comes first in the list. */
  ghost predicate LeftOf(hosts: seq<Host>, x: Host, dx: nat, y: Host, dy: nat, d: nat) {
    && 1 <= d <= dx && d <= dy && DepthIs(hosts, x, dx) && DepthIs(hosts, y, dy)
    && var a, b := AncestorAt(hosts, x, dx, d), AncestorAt(hosts, y, dy, d);
       TreeParent(hosts, a) == TreeParent(hosts, b) && Before(hosts, a, b)
  }

  ghost predicate StandsBefore(hosts: seq<Host>, x: Host, y: Host) {
    exists dx, dy, d :: LeftOf(hosts, x, dx, y, dy, d)
  }

  ghost predicate Beside(hosts: seq<Host>, p: Placed, q: Placed, d: nat) {
    LeftOf(hosts, p.host, p.depth, q.host, q.depth, d)
  }

  ghost predicate SideBySide(hosts: seq<Host>, s: seq<Placed>) {
    forall p, q, d :: p in s && q in s && Beside(hosts, p, q, d) ==> p.col + 1.0 <= q.col
  }

  ghost predicate InOrder(hosts: seq<Host>, ks: seq<Host>) {
    forall i, j :: 0 <= i < j < |ks| ==> Before(hosts, ks[i], ks[j])
  }

  lemma NotBack(hosts: seq<Host>, a: Host, b: Host)
    requires UniqueIds(hosts) && Before(hosts, a, b)
    ensures !Before(hosts, b, a) && a != b
  {
  }

  lemma {:induction false} KidsInOrder(hosts: seq<Host>, n: nat, x: Host)
    requires n <= |hosts|
    ensures InOrder(hosts[..n], KidsAmong(hosts, hosts[..n], x)) && InOrder(hosts[..n], RootsAmong(hosts, hosts[..n]))
  {
    if n > 0 {
      var some, front := hosts[..n], hosts[..n - 1];
      assert Init(some) == front && Last(some) == hosts[n - 1];
      KidsInOrder(hosts, n - 1, x);
      InOrderMore(front, hosts[n - 1], KidsAmong(hosts, front, x));
      InOrderMore(front, hosts[n - 1], RootsAmong(hosts, front));
      assert front + [hosts[n - 1]] == some;
    }
  }

  lemma InOrderMore(front: seq<Host>, h: Host, ks: seq<Host>)
    requires InOrder(front, ks) && forall k :: k in ks ==> k in front
    ensures InOrder(front + [h], ks) && InOrder(front + [h], ks + [h])
  {
    var s, more := front + [h], ks + [h];
    forall i, j | 0 <= i < j < |more| ensures Before(s, more[i], more[j]) {
      if j < |ks| {
        var a, b :| 0 <= a < b < |front| && front[a] == ks[i] && front[b] == ks[j];
        assert s[a] == ks[i] && s[b] == ks[j];
      } else {
        assert ks[i] in front;
        var a :| 0 <= a < |front| && front[a] == ks[i];
        assert s[a] == ks[i] && s[|front|] == h;
      }
    }
    assert forall i :: 0 <= i < |ks| ==> more[i] == ks[i];
  }

  lemma {:induction false} AncestorTwice(hosts: seq<Host>, x: Host, dx: nat, d: nat, e: nat)
    requires DepthIs(hosts, x, dx) && 1 <= e <= d <= dx
    ensures DepthIs(hosts, AncestorAt(hosts, x, dx, d), d)
    ensures AncestorAt(hosts, x, dx, e) == AncestorAt(hosts, AncestorAt(hosts, x, dx, d), d, e)
    decreases dx
  {
    hide OnShortCycle, ByName, ParentOf;
    if dx > d {
      AncestorTwice(hosts, TreeParent(hosts, x).value, dx - 1, d, e);
    }
  }

  /** Two that stand beside each other at depth d share what is above that. */
  lemma SharedAbove(hosts: seq<Host>, p: Placed, q: Placed, d: nat, e: nat)
    requires Beside(hosts, p, q, d) && 1 <= e < d
    ensures AncestorAt(hosts, p.host, p.depth, e) == AncestorAt(hosts, q.host, q.depth, e)
  {
    AncestorStep(hosts, p.host, p.depth, d - 1);
    AncestorStep(hosts, q.host, q.depth, d - 1);
    AncestorTwice(hosts, p.host, p.depth, d - 1, e);
    AncestorTwice(hosts, q.host, q.depth, d - 1, e);
  }

  /** Under one ancestor at depth e nothing stands beside another above that. */
  lemma OnlyDeeper(hosts: seq<Host>, p: Placed, q: Placed, d: nat, e: nat)
    requires UniqueIds(hosts) && Beside(hosts, p, q, d) && e <= p.depth && e <= q.depth && 1 <= e
    requires AncestorAt(hosts, p.host, p.depth, e) == AncestorAt(hosts, q.host, q.depth, e)
    ensures d > e
  {
    if d <= e {
      NotBack(hosts, AncestorAt(hosts, p.host, p.depth, d), AncestorAt(hosts, q.host, q.depth, d));
      AncestorTwice(hosts, p.host, p.depth, e, d);
      AncestorTwice(hosts, q.host, q.depth, e, d);
    }
  }

  /** Under two different children of one parent, or two roots, at depth e: the one
      under the later of them never stands before the other. */
  lemma NeverBefore(hosts: seq<Host>, p: Placed, q: Placed, d: nat, e: nat)
    requires UniqueIds(hosts) && DepthIs(hosts, p.host, p.depth) && DepthIs(hosts, q.host, q.depth)
    requires 1 <= e <= p.depth && e <= q.depth
    requires var a, b := AncestorAt(hosts, p.host, p.depth, e), AncestorAt(hosts, q.host, q.depth, e);
      TreeParent(hosts, a) == TreeParent(hosts, b) && Before(hosts, b, a)
    ensures !Beside(hosts, p, q, d)
  {
    if Beside(hosts, p, q, d) {
      NotBack(hosts, AncestorAt(hosts, q.host, q.depth, e), AncestorAt(hosts, p.host, p.depth, e));
      if d > e {
        SharedAbove(hosts, p, q, d, e);
      } else if d < e {
        assert Beside(hosts, q, p, e);
        NotBack(hosts, AncestorAt(hosts, p.host, p.depth, d), AncestorAt(hosts, q.host, q.depth, d));
        SharedAbove(hosts, q, p, e, d);
      }
    }
  }

  lemma PairBeside(a: seq<Placed>, b: seq<Placed>, hosts: seq<Host>)
    requires SideBySide(hosts, a) && SideBySide(hosts, b)
    requires forall p, q :: p in a && q in b ==> p.col + 1.0 <= q.col
    requires forall p, q, d :: p in b && q in a ==> !Beside(hosts, p, q, d)
    ensures SideBySide(hosts, a + b)
  {
    hide Beside;
  }

  /** Who is in a list of trees, by value. */
  lemma TreesMember(hosts: seq<Host>, ks: seq<Host>, d: nat, leaf: nat, parent: Option<Host>, up: real, p: Placed)
    returns (k: Host)
    requires AllAt(hosts, ks, d) && forall x :: x in ks ==> TreeParent(hosts, x) == parent
    requires p in PlaceAll(TreesOf(hosts, ks, d), d, leaf, parent, up)
    ensures k in ks && Below(hosts, p, k, d)
    ensures ColIn(p.col, leaf, LeavesAll(TreesOf(hosts, ks, d)))
  {
    var s := PlaceAll(TreesOf(hosts, ks, d), d, leaf, parent, up);
    PlaceAllWithin(TreesOf(hosts, ks, d), d, leaf, parent, up);
    hide PlaceAll, TreesOf, Below, AllAt, TreeParent;
    var i :| 0 <= i < |s| && s[i] == p;
    k := TreesHosts(hosts, ks, d, leaf, parent, up, i);
  }

  lemma TreeMember(hosts: seq<Host>, h: Host, d: nat, leaf: nat, up: real, p: Placed)
    requires h in hosts && DepthIs(hosts, h, d)
    requires p in Place(TreeOf(hosts, h, d), d, leaf, TreeParent(hosts, h), up)
    ensures Below(hosts, p, h, d) && ColIn(p.col, leaf, Leaves(TreeOf(hosts, h, d)))
  {
    var s := Place(TreeOf(hosts, h, d), d, leaf, TreeParent(hosts, h), up);
    PlaceWithin(TreeOf(hosts, h, d), d, leaf, TreeParent(hosts, h), up);
    hide Place, TreeOf, Below, DepthIs, TreeParent;
    var i :| 0 <= i < |s| && s[i] == p;
    TreeHosts(hosts, h, d, leaf, up, i);
  }

  lemma {:induction false} TreeBeside(hosts: seq<Host>, h: Host, d: nat, leaf: nat, up: real)
    requires UniqueIds(hosts) && h in hosts && DepthIs(hosts, h, d)
    ensures SideBySide(hosts, Place(TreeOf(hosts, h, d), d, leaf, TreeParent(hosts, h), up))
    decreases |hosts| + 1 - d, 0, 0
  {
    hide *;
    KidsFacts(hosts, h, d);
    TreeSplit(hosts, h, d, leaf, TreeParent(hosts, h), up);
    var s := Place(TreeOf(hosts, h, d), d, leaf, TreeParent(hosts, h), up);
    var col := RootColumn(hosts, h, d, leaf);
    var below := PlaceAll(TreesOf(hosts, Kids(hosts, h), d + 1), d + 1, leaf, Some(h), col);
    var root := Placed(h, col, d, TreeParent(hosts, h), up);
    KidsListed(hosts, h);
    TreesBeside(hosts, Kids(hosts, h), d + 1, leaf, Some(h), col);
    forall p, q, e | p in s && q in s && (p == root || q == root) ensures !Beside(hosts, p, q, e) {
      TreeMember(hosts, h, d, leaf, up, p);
      TreeMember(hosts, h, d, leaf, up, q);
      UnderOne(hosts, p, q, h, d, e);
    }
    WithRoot(hosts, below, root);
  }

  lemma KidsListed(hosts: seq<Host>, h: Host)
    ensures InOrder(hosts, Kids(hosts, h)) && InOrder(hosts, Roots(hosts))
  {
    assert hosts[..|hosts|] == hosts;
    KidsInOrder(hosts, |hosts|, h);
  }

  lemma UnderOne(hosts: seq<Host>, p: Placed, q: Placed, h: Host, d: nat, e: nat)
    requires UniqueIds(hosts) && Below(hosts, p, h, d) && Below(hosts, q, h, d)
    requires p.host == h || q.host == h
    ensures !Beside(hosts, p, q, e)
  {
    if Beside(hosts, p, q, e) {
      OnlyDeeper(hosts, p, q, e, d);
      AncestorDepth(hosts, p.host, p.depth, d);
      if p.host == h {
        DepthUnique(hosts, h, p.depth, d);
      } else {
        DepthUnique(hosts, h, q.depth, d);
      }
    }
  }

  lemma WithRoot(hosts: seq<Host>, below: seq<Placed>, root: Placed)
    requires SideBySide(hosts, below)
    requires forall p, q, d :: p in below + [root] && q in below + [root] && (p == root || q == root) ==>
               !Beside(hosts, p, q, d)
    ensures SideBySide(hosts, below + [root])
  {
    hide Beside;
  }

  lemma {:induction false} TreesBeside(hosts: seq<Host>, ks: seq<Host>, d: nat, leaf: nat,
                                       parent: Option<Host>, up: real)
    requires UniqueIds(hosts) && AllAt(hosts, ks, d) && InOrder(hosts, ks)
    requires forall x :: x in ks ==> TreeParent(hosts, x) == parent
    ensures SideBySide(hosts, PlaceAll(TreesOf(hosts, ks, d), d, leaf, parent, up))
    decreases |hosts| + 1 - d, 1, |ks|
  {
    hide PlaceAll, Place, TreeOf, TreesOf, SideBySide, Beside, DepthIs, TreeParent, Below, UniqueIds, NextLeaf;
    if ks == [] {
      NoneBeside(hosts, d, leaf, parent, up);
    } else {
      var front, x := Init(ks), Last(ks);
      TreesSplit(hosts, ks, d, leaf, parent, up);
      var next := NextLeaf(hosts, ks, d, leaf);
      var a := PlaceAll(TreesOf(hosts, front, d), d, leaf, parent, up);
      var b := Place(TreeOf(hosts, x, d), d, next, parent, up);
      TreesBeside(hosts, front, d, leaf, parent, up);
      TreeBeside(hosts, x, d, next, up);
      forall p, q | p in a && q in b
        ensures p.col + 1.0 <= q.col
        ensures forall e :: !Beside(hosts, q, p, e)
      {
        var k := TreesMember(hosts, front, d, leaf, parent, up, p);
        TreeMember(hosts, x, d, next, up, q);
        FrontColumns(hosts, ks, d, leaf, p.col, q.col);
        assert Before(hosts, k, x) by {
          var i :| 0 <= i < |front| && front[i] == k;
          assert ks[i] == k && ks[|ks| - 1] == x;
        }
        forall e ensures !Beside(hosts, q, p, e) {
          LaterOne(hosts, q, p, x, k, d, e);
        }
      }
      PairBeside(a, b, hosts);
    }
  }

  lemma NoneBeside(hosts: seq<Host>, d: nat, leaf: nat, parent: Option<Host>, up: real)
    ensures SideBySide(hosts, PlaceAll(TreesOf(hosts, [], d), d, leaf, parent, up))
  {
    assert PlaceAll(TreesOf(hosts, [], d), d, leaf, parent, up) == [];
  }

  lemma FrontColumns(hosts: seq<Host>, ks: seq<Host>, d: nat, leaf: nat, a: real, b: real)
    requires ks != [] && AllAt(hosts, ks, d) && AllAt(hosts, Init(ks), d) && Last(ks) in hosts
    requires ColIn(a, leaf, LeavesAll(TreesOf(hosts, Init(ks), d)))
    requires ColIn(b, NextLeaf(hosts, ks, d, leaf), Leaves(TreeOf(hosts, Last(ks), d)))
    ensures a + 1.0 <= b
  {
  }

  lemma LaterOne(hosts: seq<Host>, p: Placed, q: Placed, x: Host, k: Host, d: nat, e: nat)
    requires UniqueIds(hosts) && Below(hosts, p, x, d) && Below(hosts, q, k, d)
    requires TreeParent(hosts, x) == TreeParent(hosts, k) && Before(hosts, k, x)
    ensures !Beside(hosts, p, q, e)
  {
    NeverBefore(hosts, p, q, e, d);
  }

  // ---- The whole placement ----

  /** Parents sit midway over their outermost children; the childless hosts fill the
      columns 0, 1, 2, ...; and of two hosts that stand under different children of
      one parent, or under different roots, the one under the child listed first is
      at least a column to the left. */
  lemma PlacementTidy(hosts: seq<Host>, up: real)
    requires UniqueIds(hosts)
    ensures var s := Placement(hosts, up);
      Centred(s) && Numbered(s, 0, LeavesAll(Forest(hosts))) && SideBySide(hosts, s)
  {
    var s := Placement(hosts, up);
    PlacedOnce(hosts, up);
    RootsAt(hosts);
    if hosts != [] {
      KidsListed(hosts, hosts[0]);
    }
    TreesBeside(hosts, Roots(hosts), 1, 0, None, up);
    ById(s);
    TreesTidy(Forest(hosts), 1, 0, None, up);
  }

  lemma ById(s: seq<Placed>)
    requires DistinctHosts(s)
    ensures OnlyOnce(s, None)
  {
    forall p, q | p in s && q in s && p.host == q.host ensures p == q {
      var i :| 0 <= i < |s| && s[i] == p;
      var j :| 0 <= j < |s| && s[j] == q;
    }
  }
}
