/** The forest that cycle breaking leaves, as trees: every placed host once. */
module TopoForest {
  import opened Common
  import opened TopoGraph
  import opened TopoTree

  /** The children of x among a list of hosts, in its order. */
  ghost function KidsAmong(hosts: seq<Host>, some: seq<Host>, x: Host): (ks: seq<Host>)
    ensures forall k :: k in ks <==> k in some && TreeParent(hosts, k) == Some(x)
  {
    if some == [] then []
    else
      var ks := KidsAmong(hosts, Init(some), x);
      if TreeParent(hosts, Last(some)) == Some(x) then ks + [Last(some)] else ks
  }

  ghost function Kids(hosts: seq<Host>, x: Host): seq<Host> { KidsAmong(hosts, hosts, x) }

  ghost function RootsAmong(hosts: seq<Host>, some: seq<Host>): (rs: seq<Host>)
    ensures forall r :: r in rs <==> r in some && TreeParent(hosts, r).None?
  {
    if some == [] then []
    else
      var rs := RootsAmong(hosts, Init(some));
      if TreeParent(hosts, Last(some)).None? then rs + [Last(some)] else rs
  }

  ghost function Roots(hosts: seq<Host>): seq<Host> { RootsAmong(hosts, hosts) }

  ghost predicate NoRepeat(s: seq<Host>) {
    forall i, j :: 0 <= i < j < |s| ==> s[i] != s[j]
  }

  lemma {:induction false} KidsDistinct(hosts: seq<Host>, some: seq<Host>, x: Host)
    requires UniqueIds(some)
    ensures NoRepeat(KidsAmong(hosts, some, x)) && NoRepeat(RootsAmong(hosts, some))
  {
    if some != [] {
      KidsDistinct(hosts, Init(some), x);
      assert Last(some) !in Init(some);
    }
  }

  lemma NoKidTwice(hosts: seq<Host>, h: Host)
    requires UniqueIds(hosts)
    ensures NoRepeat(Kids(hosts, h)) && NoRepeat(Roots(hosts))
  {
    KidsDistinct(hosts, hosts, h);
  }

  /** All at depth d of the forest. */
  ghost predicate AllAt(hosts: seq<Host>, ks: seq<Host>, d: nat) {
    forall k :: k in ks ==> k in hosts && DepthIs(hosts, k, d)
  }

  lemma KidsFacts(hosts: seq<Host>, h: Host, d: nat)
    requires h in hosts && DepthIs(hosts, h, d)
    ensures 1 <= d <= |hosts| && AllAt(hosts, Kids(hosts, h), d + 1)
    ensures forall x :: x in Kids(hosts, h) <==> x in hosts && TreeParent(hosts, x) == Some(h)
  {
    DepthBound(hosts, h, d);
  }

  lemma RootsAt(hosts: seq<Host>)
    ensures AllAt(hosts, Roots(hosts), 1)
  {
  }

  ghost function TreeOf(hosts: seq<Host>, h: Host, d: nat): Tree
    requires h in hosts && DepthIs(hosts, h, d)
    decreases |hosts| + 1 - d, 0, 0
  {
    KidsFacts(hosts, h, d);
    Node(h, TreesOf(hosts, Kids(hosts, h), d + 1))
  }

  ghost function TreesOf(hosts: seq<Host>, ks: seq<Host>, d: nat): (ts: seq<Tree>)
    requires AllAt(hosts, ks, d)
    ensures |ts| == |ks|
    decreases |hosts| + 1 - d, 1, |ks|
  {
    if ks == [] then [] else TreesOf(hosts, Init(ks), d) + [TreeOf(hosts, Last(ks), d)]
  }

  ghost function Forest(hosts: seq<Host>): seq<Tree> {
    RootsAt(hosts);
    TreesOf(hosts, Roots(hosts), 1)
  }

  /** Everything the topology view places, children before parents. */
  ghost function Placement(hosts: seq<Host>, up: real): seq<Placed> {
    PlaceAll(Forest(hosts), 1, 0, None, up)
  }

  lemma TreesSnoc(hosts: seq<Host>, ks: seq<Host>, d: nat)
    requires ks != [] && AllAt(hosts, ks, d)
    ensures AllAt(hosts, Init(ks), d)
    ensures TreesOf(hosts, ks, d) == TreesOf(hosts, Init(ks), d) + [TreeOf(hosts, Last(ks), d)]
  {
  }

  /** The leaf number the last tree starts from. */
  ghost function NextLeaf(hosts: seq<Host>, ks: seq<Host>, d: nat, leaf: nat): nat
    requires ks != [] && AllAt(hosts, ks, d)
  {
    leaf + LeavesAll(TreesOf(hosts, Init(ks), d))
  }

  /** The last tree's placements follow those of the trees before it. */
  lemma TreesSplit(hosts: seq<Host>, ks: seq<Host>, d: nat, leaf: nat, parent: Option<Host>, up: real)
    requires ks != [] && AllAt(hosts, ks, d)
    ensures AllAt(hosts, Init(ks), d) && Last(ks) in hosts && DepthIs(hosts, Last(ks), d)
    ensures PlaceAll(TreesOf(hosts, ks, d), d, leaf, parent, up)
         == PlaceAll(TreesOf(hosts, Init(ks), d), d, leaf, parent, up)
            + Place(TreeOf(hosts, Last(ks), d), d, NextLeaf(hosts, ks, d, leaf), parent, up)
  {
    hide Place, PlaceAll, Cols, LeavesAll;
    TreesSnoc(hosts, ks, d);
    PlaceSnoc(TreesOf(hosts, Init(ks), d), TreeOf(hosts, Last(ks), d), d, leaf, parent, up);
  }

  ghost function RootColumn(hosts: seq<Host>, h: Host, d: nat, leaf: nat): real
    requires h in hosts && DepthIs(hosts, h, d)
  {
    Col(TreeOf(hosts, h, d), leaf)
  }

  /** A tree's own placement follows those of its children. */
  lemma TreeSplit(hosts: seq<Host>, h: Host, d: nat, leaf: nat, parent: Option<Host>, up: real)
    requires h in hosts && DepthIs(hosts, h, d)
    ensures AllAt(hosts, Kids(hosts, h), d + 1)
    ensures Place(TreeOf(hosts, h, d), d, leaf, parent, up)
         == PlaceAll(TreesOf(hosts, Kids(hosts, h), d + 1), d + 1, leaf, Some(h), RootColumn(hosts, h, d, leaf))
            + [Placed(h, RootColumn(hosts, h, d, leaf), d, parent, up)]
  {
    KidsFacts(hosts, h, d);
    hide Col, PlaceAll, TreesOf, KidsAmong;
  }

  // ---- Who is in a tree ----

  /** The forest ancestor of x at depth d. */
  ghost function AncestorAt(hosts: seq<Host>, x: Host, dx: nat, d: nat): Host
    requires DepthIs(hosts, x, dx) && 1 <= d <= dx
    decreases dx
  {
    if dx == d then x else AncestorAt(hosts, TreeParent(hosts, x).value, dx - 1, d)
  }

  /** A placed host that really is a host below h, which is at depth d. */
  ghost predicate Below(hosts: seq<Host>, p: Placed, h: Host, d: nat) {
    && p.host in hosts
    && 1 <= d <= p.depth
    && DepthIs(hosts, p.host, p.depth)
    && AncestorAt(hosts, p.host, p.depth, d) == h
    && p.parent == TreeParent(hosts, p.host)
  }

  lemma {:induction false} BelowParent(hosts: seq<Host>, p: Placed, k: Host, d: nat, h: Host)
    requires Below(hosts, p, k, d + 1) && TreeParent(hosts, k) == Some(h) && d >= 1
    ensures Below(hosts, p, h, d)
  {
    AncestorStep(hosts, p.host, p.depth, d);
  }

  lemma {:induction false} AncestorStep(hosts: seq<Host>, x: Host, dx: nat, d: nat)
    requires DepthIs(hosts, x, dx) && 1 <= d < dx
    ensures DepthIs(hosts, AncestorAt(hosts, x, dx, d + 1), d + 1)
    ensures TreeParent(hosts, AncestorAt(hosts, x, dx, d + 1)) == Some(AncestorAt(hosts, x, dx, d))
    decreases dx
  {
    if dx > d + 1 {
      AncestorStep(hosts, TreeParent(hosts, x).value, dx - 1, d);
    }
  }

  lemma {:induction false} AncestorListed(hosts: seq<Host>, x: Host, dx: nat, d: nat)
    requires x in hosts && DepthIs(hosts, x, dx) && 1 <= d <= dx
    ensures AncestorAt(hosts, x, dx, d) in hosts
    decreases dx
  {
    if dx > d {
      ParentListed(hosts, x);
      AncestorListed(hosts, TreeParent(hosts, x).value, dx - 1, d);
    }
  }

  lemma BelowItself(hosts: seq<Host>, p: Placed)
    requires p.host in hosts && DepthIs(hosts, p.host, p.depth) && p.parent == TreeParent(hosts, p.host)
    ensures Below(hosts, p, p.host, p.depth)
  {
  }

  lemma {:induction false} TreeHosts(hosts: seq<Host>, h: Host, d: nat, leaf: nat, up: real, i: nat)
    requires h in hosts && DepthIs(hosts, h, d)
    requires i < |Place(TreeOf(hosts, h, d), d, leaf, TreeParent(hosts, h), up)|
    ensures Below(hosts, Place(TreeOf(hosts, h, d), d, leaf, TreeParent(hosts, h), up)[i], h, d)
    decreases |hosts| + 1 - d, 0, 0
  {
    hide *;
    KidsFacts(hosts, h, d);
    TreeSplit(hosts, h, d, leaf, TreeParent(hosts, h), up);
    var col := RootColumn(hosts, h, d, leaf);
    var below := PlaceAll(TreesOf(hosts, Kids(hosts, h), d + 1), d + 1, leaf, Some(h), col);
    if i < |below| {
      var k := TreesHosts(hosts, Kids(hosts, h), d + 1, leaf, Some(h), col, i);
      BelowParent(hosts, below[i], k, d, h);
    } else {
      BelowItself(hosts, Placed(h, col, d, TreeParent(hosts, h), up));
    }
  }

  lemma {:induction false} TreesHosts(hosts: seq<Host>, ks: seq<Host>, d: nat, leaf: nat,
                                      parent: Option<Host>, up: real, i: nat) returns (k: Host)
    requires AllAt(hosts, ks, d)
    requires forall x :: x in ks ==> TreeParent(hosts, x) == parent
    requires i < |PlaceAll(TreesOf(hosts, ks, d), d, leaf, parent, up)|
    ensures k in ks && Below(hosts, PlaceAll(TreesOf(hosts, ks, d), d, leaf, parent, up)[i], k, d)
    decreases |hosts| + 1 - d, 1, |ks|
  {
    hide Place, Col, Cols, KidsAmong;
    if ks == [] {
      assert false;
    }
    TreesSplit(hosts, ks, d, leaf, parent, up);
    var next := NextLeaf(hosts, ks, d, leaf);
    var a := PlaceAll(TreesOf(hosts, Init(ks), d), d, leaf, parent, up);
    var b := Place(TreeOf(hosts, Last(ks), d), d, next, parent, up);
    if i < |a| {
      k := TreesHosts(hosts, Init(ks), d, leaf, parent, up, i);
    } else {
      k := Last(ks);
      TreeHosts(hosts, k, d, next, up, i - |a|);
    }
  }

  // ---- Each host at most once ----

  lemma SameAncestor(hosts: seq<Host>, p: Placed, q: Placed, h: Host, k: Host, d: nat)
    requires UniqueIds(hosts) && Below(hosts, p, h, d) && Below(hosts, q, k, d) && p.host.id == q.host.id
    ensures h == k
  {
    assert p.host == q.host;
    DepthUnique(hosts, p.host, p.depth, q.depth);
  }

  lemma NotTheRoot(hosts: seq<Host>, p: Placed, k: Host, h: Host, d: nat)
    requires UniqueIds(hosts) && Below(hosts, p, k, d + 1) && h in hosts && DepthIs(hosts, h, d)
    ensures p.host.id != h.id
  {
    if p.host.id == h.id {
      assert p.host == h;
      DepthUnique(hosts, h, p.depth, d);
      assert false;
    }
  }

  lemma JoinDistinct(a: seq<Placed>, b: seq<Placed>)
    requires DistinctHosts(a) && DistinctHosts(b)
    requires forall i, j :: 0 <= i < |a| && 0 <= j < |b| ==> a[i].host.id != b[j].host.id
    ensures DistinctHosts(a + b)
  {
  }

  lemma {:induction false} TreeOnce(hosts: seq<Host>, h: Host, d: nat, leaf: nat, up: real)
    requires UniqueIds(hosts) && h in hosts && DepthIs(hosts, h, d)
    ensures DistinctHosts(Place(TreeOf(hosts, h, d), d, leaf, TreeParent(hosts, h), up))
    decreases |hosts| + 1 - d, 0, 0
  {
    hide *;
    NoKidTwice(hosts, h);
    KidsFacts(hosts, h, d);
    TreeSplit(hosts, h, d, leaf, TreeParent(hosts, h), up);
    var col := RootColumn(hosts, h, d, leaf);
    var below := PlaceAll(TreesOf(hosts, Kids(hosts, h), d + 1), d + 1, leaf, Some(h), col);
    TreesOnce(hosts, Kids(hosts, h), d + 1, leaf, Some(h), col);
    forall i | 0 <= i < |below|
      ensures below[i].host.id != h.id
    {
      var k := TreesHosts(hosts, Kids(hosts, h), d + 1, leaf, Some(h), col, i);
      NotTheRoot(hosts, below[i], k, h, d);
    }
    JoinDistinct(below, [Placed(h, col, d, TreeParent(hosts, h), up)]);
  }

  lemma {:induction false} TreesOnce(hosts: seq<Host>, ks: seq<Host>, d: nat, leaf: nat,
                                     parent: Option<Host>, up: real)
    requires UniqueIds(hosts) && AllAt(hosts, ks, d) && NoRepeat(ks)
    requires forall x :: x in ks ==> TreeParent(hosts, x) == parent
    ensures DistinctHosts(PlaceAll(TreesOf(hosts, ks, d), d, leaf, parent, up))
    decreases |hosts| + 1 - d, 1, |ks|
  {
    hide Place, Col, Cols, KidsAmong;
    if ks != [] {
      TreesSplit(hosts, ks, d, leaf, parent, up);
      var next := NextLeaf(hosts, ks, d, leaf);
      var a := PlaceAll(TreesOf(hosts, Init(ks), d), d, leaf, parent, up);
      var b := Place(TreeOf(hosts, Last(ks), d), d, next, parent, up);
      TreesOnce(hosts, Init(ks), d, leaf, parent, up);
      TreeOnce(hosts, Last(ks), d, next, up);
      forall i, j | 0 <= i < |a| && 0 <= j < |b|
        ensures a[i].host.id != b[j].host.id
      {
        var k := TreesHosts(hosts, Init(ks), d, leaf, parent, up, i);
        TreeHosts(hosts, Last(ks), d, next, up, j);
        if a[i].host.id == b[j].host.id {
          SameAncestor(hosts, a[i], b[j], k, Last(ks), d);
          assert false;
        }
      }
      JoinDistinct(a, b);
    }
  }

  // ---- Each grounded host at least once ----

  ghost predicate Covers(s: seq<Placed>, x: Host) {
    exists i :: 0 <= i < |s| && s[i].host == x
  }

  lemma CoversEither(a: seq<Placed>, b: seq<Placed>, x: Host)
    requires Covers(a, x) || Covers(b, x)
    ensures Covers(a + b, x)
  {
    if i :| 0 <= i < |a| && a[i].host == x {
      assert (a + b)[i].host == x;
    } else {
      var i :| 0 <= i < |b| && b[i].host == x;
      assert (a + b)[|a| + i].host == x;
    }
  }

  lemma {:induction false} TreeCovers(hosts: seq<Host>, h: Host, d: nat, leaf: nat, parent: Option<Host>, up: real,
                                      x: Host, dx: nat)
    requires h in hosts && DepthIs(hosts, h, d)
    requires x in hosts && DepthIs(hosts, x, dx) && d <= dx && AncestorAt(hosts, x, dx, d) == h
    ensures Covers(Place(TreeOf(hosts, h, d), d, leaf, parent, up), x)
    decreases dx - d, 0, 0
  {
    hide Place, PlaceAll, TreesOf, TreeOf, RootColumn, Kids, KidsAmong;
    KidsFacts(hosts, h, d);
    TreeSplit(hosts, h, d, leaf, parent, up);
    var col := RootColumn(hosts, h, d, leaf);
    var below := PlaceAll(TreesOf(hosts, Kids(hosts, h), d + 1), d + 1, leaf, Some(h), col);
    if dx == d {
    } else {
      AncestorStep(hosts, x, dx, d);
      AncestorListed(hosts, x, dx, d + 1);
      TreesCover(hosts, Kids(hosts, h), d + 1, leaf, Some(h), col, x, dx);
      CoversEither(below, [Placed(h, col, d, parent, up)], x);
    }
  }

  lemma {:induction false} TreesCover(hosts: seq<Host>, ks: seq<Host>, d: nat, leaf: nat,
                                      parent: Option<Host>, up: real, x: Host, dx: nat)
    requires AllAt(hosts, ks, d)
    requires x in hosts && DepthIs(hosts, x, dx) && 1 <= d <= dx && AncestorAt(hosts, x, dx, d) in ks
    ensures Covers(PlaceAll(TreesOf(hosts, ks, d), d, leaf, parent, up), x)
    decreases dx - d, 1, |ks|
  {
    hide Place, Col, Cols, KidsAmong;
    TreesSplit(hosts, ks, d, leaf, parent, up);
    var next := NextLeaf(hosts, ks, d, leaf);
    var a := PlaceAll(TreesOf(hosts, Init(ks), d), d, leaf, parent, up);
    var b := Place(TreeOf(hosts, Last(ks), d), d, next, parent, up);
    if AncestorAt(hosts, x, dx, d) == Last(ks) {
      TreeCovers(hosts, Last(ks), d, next, parent, up, x, dx);
    } else {
      TreesCover(hosts, Init(ks), d, leaf, parent, up, x, dx);
    }
    CoversEither(a, b, x);
  }

  // ---- The whole placement ----

  /** Every host whose path reaches a root is placed exactly once, at its depth
      and under its parent; nothing else is placed. */
  lemma PlacedOnce(hosts: seq<Host>, up: real)
    requires UniqueIds(hosts)
    ensures DistinctHosts(Placement(hosts, up))
    ensures forall x :: x in hosts ==> (Covers(Placement(hosts, up), x) <==> Grounded(hosts, x))
    ensures forall i :: 0 <= i < |Placement(hosts, up)| ==>
              var p := Placement(hosts, up)[i];
              p.host in hosts && DepthIs(hosts, p.host, p.depth) && p.parent == TreeParent(hosts, p.host)
  {
    RootsAt(hosts);
    var rs, s := Roots(hosts), Placement(hosts, up);
    if hosts != [] {
      KidsDistinct(hosts, hosts, hosts[0]);
    }
    TreesOnce(hosts, rs, 1, 0, None, up);
    forall i | 0 <= i < |s|
      ensures s[i].host in hosts && DepthIs(hosts, s[i].host, s[i].depth) && s[i].parent == TreeParent(hosts, s[i].host)
    {
      var k := TreesHosts(hosts, rs, 1, 0, None, up, i);
    }
    forall x | x in hosts && Grounded(hosts, x)
      ensures Covers(s, x)
    {
      var dx :| DepthIs(hosts, x, dx);
      var r := AncestorAt(hosts, x, dx, 1);
      AncestorListed(hosts, x, dx, 1);
      AncestorDepth(hosts, x, dx, 1);
      TreesCover(hosts, rs, 1, 0, None, up, x, dx);
    }
  }

  lemma {:induction false} AncestorDepth(hosts: seq<Host>, x: Host, dx: nat, d: nat)
    requires DepthIs(hosts, x, dx) && 1 <= d <= dx
    ensures DepthIs(hosts, AncestorAt(hosts, x, dx, d), d)
    decreases dx
  {
    if dx > d {
      AncestorDepth(hosts, TreeParent(hosts, x).value, dx - 1, d);
    }
  }
}
