/** The topology view's layout: cycle breaking, the recursive placement with its
    shared leaf counter, and the boxes and edges that come out of it. */
module TopoLayout {
  import opened Common
  import opened TopoGraph
  import opened TopoTree
  import opened TopoForest
  import opened TopoDrawing

  // ---- Reading a child's column back from the position table ----

  /** In a list of distinct hosts each tree's root is found at its column. */
  lemma RootColumns(ts: seq<Tree>, depth: nat, leaf: nat, parent: Option<Host>, up: real)
    requires DistinctHosts(PlaceAll(ts, depth, leaf, parent, up))
    ensures var m := AsMap(PlaceAll(ts, depth, leaf, parent, up));
      forall i :: 0 <= i < |ts| ==> ts[i].host.id in m && m[ts[i].host.id].col == Cols(ts, leaf)[i]
  {
    forall i | 0 <= i < |ts|
      ensures var m := AsMap(PlaceAll(ts, depth, leaf, parent, up));
        ts[i].host.id in m && m[ts[i].host.id].col == Cols(ts, leaf)[i]
    {
      var k := RootEntry(ts, depth, leaf, parent, up, i);
      AsMapAt(PlaceAll(ts, depth, leaf, parent, up), k);
    }
  }

  /** What placing one more tree adds. */
  lemma Grow(ts: seq<Tree>, i: nat, depth: nat, leaf: nat, parent: Option<Host>, up: real)
    requires i < |ts|
    ensures PlaceAll(ts[..i + 1], depth, leaf, parent, up)
         == PlaceAll(ts[..i], depth, leaf, parent, up) + Place(ts[i], depth, leaf + LeavesAll(ts[..i]), parent, up)
    ensures LeavesAll(ts[..i + 1]) == LeavesAll(ts[..i]) + Leaves(ts[i])
    ensures DeepestAll(ts[..i + 1], depth) == Max(DeepestAll(ts[..i], depth), Deepest(ts[i], depth))
  {
    assert Init(ts[..i + 1]) == ts[..i] && Last(ts[..i + 1]) == ts[i];
  }

  lemma {:induction false} Prefixes(ts: seq<Tree>, i: nat, depth: nat, leaf: nat, parent: Option<Host>, up: real)
    requires i <= |ts| && DistinctHosts(PlaceAll(ts, depth, leaf, parent, up))
    ensures DistinctHosts(PlaceAll(ts[..i], depth, leaf, parent, up))
    decreases |ts| - i
  {
    hide *;
    if i == |ts| {
      assert ts[..i] == ts;
    } else {
      Prefixes(ts, i + 1, depth, leaf, parent, up);
      Grow(ts, i, depth, leaf, parent, up);
      DistinctParts(PlaceAll(ts[..i], depth, leaf, parent, up),
                    Place(ts[i], depth, leaf + LeavesAll(ts[..i]), parent, up));
    }
  }

  lemma DistinctParts(a: seq<Placed>, b: seq<Placed>)
    requires DistinctHosts(a + b)
    ensures DistinctHosts(a) && DistinctHosts(b)
  {
    forall i, j | 0 <= i < j < |a| ensures a[i].host.id != a[j].host.id {
      assert (a + b)[i] == a[i] && (a + b)[j] == a[j];
    }
    forall i, j | 0 <= i < j < |b| ensures b[i].host.id != b[j].host.id {
      assert (a + b)[|a| + i] == b[i] && (a + b)[|a| + j] == b[j];
    }
  }

  lemma NonePlaced(ts: seq<Tree>, depth: nat, leaf: nat, parent: Option<Host>, up: real)
    ensures AsMap(PlaceAll(ts[..0], depth, leaf, parent, up)) == map[]
    ensures LeavesAll(ts[..0]) == 0 && DeepestAll(ts[..0], depth) == 0
  {
  }

  lemma TopOne(t: Tree, depth: nat, leaf: nat, parent: Option<Host>, up: real)
    ensures var below := PlaceAll(t.kids, depth + 1, leaf, Some(t.host), Col(t, leaf));
      && AsMap(Place(t, depth, leaf, parent, up)) == AsMap(below)[t.host.id := Pos(Col(t, leaf), depth)]
      && (DistinctHosts(Place(t, depth, leaf, parent, up)) ==> DistinctHosts(below))
    ensures t.kids == [] ==> Leaves(t) == 1 && Col(t, leaf) == leaf as real && Deepest(t, depth) == depth
    ensures t.kids != [] ==>
              && Leaves(t) == LeavesAll(t.kids)
              && Col(t, leaf) == Middle(Cols(t.kids, leaf))
              && Deepest(t, depth) == Max(DeepestAll(t.kids, depth + 1), depth)
  {
    var s := Place(t, depth, leaf, parent, up);
    assert Init(s) == PlaceAll(t.kids, depth + 1, leaf, Some(t.host), Col(t, leaf));
    assert s == Init(s) + [Last(s)];
  }

  lemma MapLaws(m: map<int, Pos>, a: map<int, Pos>, b: map<int, Pos>, id: int, p: Pos)
    ensures (m + a) + b == m + (a + b)
    ensures (m + a)[id := p] == m + a[id := p]
  {
  }

  // ---- The children table as trees ----

  /** The table lists, host by host, the children the tree has. */
  ghost predicate Mirrors(kids: map<int, seq<Host>>, t: Tree)
    decreases t
  {
    && t.host.id in kids
    && |kids[t.host.id]| == |t.kids|
    && forall i :: 0 <= i < |t.kids| ==> t.kids[i].host == kids[t.host.id][i] && Mirrors(kids, t.kids[i])
  }

  lemma MirrorsKids(kids: map<int, seq<Host>>, t: Tree)
    requires Mirrors(kids, t)
    ensures t.host.id in kids && |kids[t.host.id]| == |t.kids|
    ensures forall i :: 0 <= i < |t.kids| ==> t.kids[i].host == kids[t.host.id][i] && Mirrors(kids, t.kids[i])
  {
  }

  ghost predicate KidsTable(hosts: seq<Host>, kids: map<int, seq<Host>>) {
    forall h :: h in hosts ==> h.id in kids && kids[h.id] == Kids(hosts, h)
  }

  lemma {:induction false} TreeMirrors(hosts: seq<Host>, kids: map<int, seq<Host>>, h: Host, d: nat)
    requires KidsTable(hosts, kids) && h in hosts && DepthIs(hosts, h, d)
    ensures Mirrors(kids, TreeOf(hosts, h, d))
    decreases |hosts| + 1 - d, 0, 0
  {
    KidsFacts(hosts, h, d);
    TreesMirror(hosts, kids, Kids(hosts, h), d + 1);
  }

  lemma {:induction false} TreesMirror(hosts: seq<Host>, kids: map<int, seq<Host>>, ks: seq<Host>, d: nat)
    requires KidsTable(hosts, kids) && AllAt(hosts, ks, d)
    ensures forall i :: 0 <= i < |ks| ==>
              TreesOf(hosts, ks, d)[i].host == ks[i] && Mirrors(kids, TreesOf(hosts, ks, d)[i])
    decreases |hosts| + 1 - d, 1, |ks|
  {
    if ks != [] {
      TreesSnoc(hosts, ks, d);
      TreesMirror(hosts, kids, Init(ks), d);
      TreeMirrors(hosts, kids, Last(ks), d);
    }
  }

  // ---- Reading the position table for one host ----

  /** A positioned host is one entry of the placement; its parent's position is
      where its edge starts. */
  lemma Found(hosts: seq<Host>, up: real, h: Host) returns (j: nat)
    requires UniqueIds(hosts) && h in hosts && h.id in AsMap(Placement(hosts, up))
    ensures var s := Placement(hosts, up); var m := AsMap(s);
      && j < |s| && s[j].host == h && m[h.id] == Pos(s[j].col, s[j].depth)
      && (TreeParent(hosts, h).None? ==> s[j].depth == 1 && s[j].up == up)
      && (TreeParent(hosts, h).Some? ==>
            var id := TreeParent(hosts, h).value.id;
            s[j].depth > 1 && id in m && m[id] == Pos(s[j].up, s[j].depth - 1))
  {
    var s := Placement(hosts, up);
    PlacedOnce(hosts, up);
    PlaceAllWithin(Forest(hosts), 1, 0, None, up);
    hide Forest, TreeParent, AsMap, PlaceAll;
    AsMapKeys(s);
    var i :| 0 <= i < |s| && s[i].host.id == h.id;
    j := i;
    AsMapAt(s, j);
    if s[j].depth > 1 {
      PlaceAllParents(Forest(hosts), 1, 0, None, up, j);
      var k :| 0 <= k < |s| && s[k].depth + 1 == s[j].depth && s[j].parent == Some(s[k].host) && s[j].up == s[k].col;
      AsMapAt(s, k);
    }
  }

  lemma NotFound(hosts: seq<Host>, up: real, h: Host)
    requires UniqueIds(hosts) && h in hosts
    ensures h.id in AsMap(Placement(hosts, up)) <==> Grounded(hosts, h)
  {
    var s := Placement(hosts, up);
    PlacedOnce(hosts, up);
    AsMapKeys(s);
    if h.id in AsMap(s) {
      var j := Found(hosts, up, h);
      assert Covers(s, h);
    }
  }

  /** The id of the parent, as the layout records it. */
  ghost function ParentId(hosts: seq<Host>, h: Host): Option<int> {
    match TreeParent(hosts, h) case None => None case Some(p) => Some(p.id)
  }

  lemma ReadyToDraw(hosts: seq<Host>, d: Drawing, leaves: nat, at: seq<nat>)
    requires UniqueIds(hosts) && leaves >= 1 && d.w >= leaves as real * LEAF_GAP
    requires Shows(d, Placement(hosts, RootCol(hosts)), leaves, at) && HostsOf(d.nodes) == GroundedAmong(hosts, hosts)
    ensures Drawn(hosts, RootCol(hosts), d, leaves, at)
  {
  }

  class Layout {
    const hosts: seq<Host>
    const byName: map<string, Host>
    var kids: map<int, seq<Host>>
    var parentId: map<int, Option<int>>
    var roots: seq<Host>
    var leaf: nat
    var maxDepth: nat
    var pos: map<int, Pos>

    constructor (hosts: seq<Host>)
      ensures this.hosts == hosts && byName == ByName(hosts)
      ensures kids == map[] && parentId == map[] && roots == [] && leaf == 0 && maxDepth == 1 && pos == map[]
    {
      this.hosts, byName := hosts, ByName(hosts);
      kids, parentId, roots, leaf, maxDepth, pos := map[], map[], [], 0, 1, map[];
    }

    /** The guarded search for a cycle through h. */
    method SeesCycle(h: Host) returns (cyc: bool)
      requires UniqueIds(hosts) && h in hosts && byName == ByName(hosts)
      ensures cyc <==> OnShortCycle(hosts, h)
    {
      var cur, guard := ParentOf(byName, h), 0;
      cyc := false;
      assert cur == Up(hosts, h, 1) by {
        assert Up(hosts, h, 0) == Some(h);
      }
      while cur.Some? && guard < GUARD
        invariant 0 <= guard <= GUARD && cur == Up(hosts, h, guard + 1)
        invariant forall k :: 1 <= k <= guard ==> Up(hosts, h, k) != Some(h)
      {
        UpListed(hosts, h, guard + 1);
        if cur.value.id == h.id {
          assert 1 <= guard + 1 <= GUARD && Up(hosts, h, guard + 1) == Some(h);
          return true;
        }
        cur, guard := ParentOf(byName, cur.value), guard + 1;
      }
      forall k | 1 <= k <= GUARD
        ensures Up(hosts, h, k) != Some(h)
      {
        if k > guard {
          UpPlus(hosts, h, guard + 1, k - (guard + 1));
        }
      }
    }

    /** Children, parents and roots are those of the forest. */
    ghost predicate Linked()
      reads this
    {
      && UniqueIds(hosts) && byName == ByName(hosts)
      && roots == Roots(hosts)
      && (forall h :: h in hosts ==> h.id in kids && kids[h.id] == Kids(hosts, h))
      && (forall h :: h in hosts ==> h.id in parentId && parentId[h.id] == ParentId(hosts, h))
    }

    lemma SameId(p: Host)
      requires UniqueIds(hosts) && p in hosts
      ensures forall x :: x in hosts && x.id == p.id ==> x == p
    {
    }

    lemma KidsFirst()
      ensures RootsAmong(hosts, hosts[..0]) == []
      ensures forall x :: KidsAmong(hosts, hosts[..0], x) == []
    {
    }

    lemma KidsStep(i: nat, x: Host)
      requires i < |hosts|
      ensures KidsAmong(hosts, hosts[..i + 1], x)
           == KidsAmong(hosts, hosts[..i], x) + (if TreeParent(hosts, hosts[i]) == Some(x) then [hosts[i]] else [])
      ensures RootsAmong(hosts, hosts[..i + 1])
           == RootsAmong(hosts, hosts[..i]) + (if TreeParent(hosts, hosts[i]).None? then [hosts[i]] else [])
    {
      assert Init(hosts[..i + 1]) == hosts[..i] && Last(hosts[..i + 1]) == hosts[i];
    }

    method NoKids()
      modifies `kids
      ensures forall h :: h in hosts ==> h.id in kids && kids[h.id] == []
    {
      for i := 0 to |hosts|
        invariant forall h :: h in hosts[..i] ==> h.id in kids && kids[h.id] == []
      {
        kids := kids[hosts[i].id := []];
      }
      assert hosts[..|hosts|] == hosts;
    }

    method Link()
      requires UniqueIds(hosts) && byName == ByName(hosts) && roots == []
      modifies `kids, `parentId, `roots
      ensures Linked()
    {
      hide KidsAmong, RootsAmong, ParentOf, ByName;
      NoKids();
      assert hosts[..|hosts|] == hosts;
      KidsFirst();
      for i := 0 to |hosts|
        invariant roots == RootsAmong(hosts, hosts[..i])
        invariant forall h :: h in hosts ==> h.id in kids && kids[h.id] == KidsAmong(hosts, hosts[..i], h)
        invariant forall h :: h in hosts[..i] ==> h.id in parentId && parentId[h.id] == ParentId(hosts, h)
      {
        var h := hosts[i];
        forall x | x in hosts
          ensures KidsAmong(hosts, hosts[..i + 1], x)
               == KidsAmong(hosts, hosts[..i], x) + (if TreeParent(hosts, h) == Some(x) then [h] else [])
        {
          KidsStep(i, x);
        }
        KidsStep(i, h);
        var p := ParentOf(byName, h);
        ParentListed(hosts, h);
        var cyc := SeesCycle(h);
        if p.Some? && !cyc {
          SameId(p.value);
          kids := kids[p.value.id := kids[p.value.id] + [h]];
          parentId := parentId[h.id := Some(p.value.id)];
        } else {
          roots := roots + [h];
          parentId := parentId[h.id := None];
        }
      }
      assert hosts[..|hosts|] == hosts;
    }

    /** Place h and everything below it. */
    method Assign(h: Host, depth: nat, ghost t: Tree, ghost parent: Option<Host>, ghost up: real)
      requires t.host == h && Mirrors(kids, t)
      requires DistinctHosts(Place(t, depth, leaf, parent, up))
      modifies `leaf, `maxDepth, `pos
      ensures pos == old(pos) + AsMap(Place(t, depth, old(leaf), parent, up))
      ensures leaf == old(leaf) + Leaves(t)
      ensures maxDepth == Max(old(maxDepth), Deepest(t, depth))
      decreases t
    {
      hide AsMap, PlaceAll, Place, Col, Cols, Leaves, LeavesAll, Deepest, DeepestAll, Middle, Mirrors;
      MirrorsKids(kids, t);
      TopOne(t, depth, leaf, parent, up);
      NonePlaced(t.kids, depth + 1, leaf, Some(h), Col(t, leaf));
      ghost var below := AsMap(PlaceAll(t.kids, depth + 1, leaf, Some(h), Col(t, leaf)));
      MapLaws(pos, below, map[], h.id, Pos(Col(t, leaf), depth));
      maxDepth := Max(maxDepth, depth);
      var cs := kids[h.id];
      if cs == [] {
        assert t.kids[..0] == t.kids && pos + below == pos;
        pos := pos[h.id := Pos(leaf as real, depth)];
        leaf := leaf + 1;
      } else {
        AssignAll(cs, depth + 1, t.kids, Some(h), Col(t, leaf));
        RootColumns(t.kids, depth + 1, old(leaf), Some(h), Col(t, old(leaf)));
        var cols := seq(|cs|, i requires 0 <= i < |cs| && cs[i].id in pos reads this => pos[cs[i].id].col);
        assert cols == Cols(t.kids, old(leaf));
        pos := pos[h.id := Pos(Middle(cols), depth)];
      }
    }

    /** Place the children of one host, or the roots, left to right. */
    method AssignAll(cs: seq<Host>, depth: nat, ghost ts: seq<Tree>, ghost parent: Option<Host>, ghost up: real)
      requires |cs| == |ts| && forall i :: 0 <= i < |ts| ==> ts[i].host == cs[i] && Mirrors(kids, ts[i])
      requires DistinctHosts(PlaceAll(ts, depth, leaf, parent, up))
      modifies `leaf, `maxDepth, `pos
      ensures pos == old(pos) + AsMap(PlaceAll(ts, depth, old(leaf), parent, up))
      ensures leaf == old(leaf) + LeavesAll(ts)
      ensures maxDepth == Max(old(maxDepth), DeepestAll(ts, depth))
      decreases ts
    {
      hide AsMap, PlaceAll, Place, Leaves, LeavesAll, Deepest, DeepestAll, Mirrors;
      NonePlaced(ts, depth, leaf, parent, up);
      for i := 0 to |cs|
        invariant pos == old(pos) + AsMap(PlaceAll(ts[..i], depth, old(leaf), parent, up))
        invariant leaf == old(leaf) + LeavesAll(ts[..i])
        invariant maxDepth == Max(old(maxDepth), DeepestAll(ts[..i], depth))
      {
        Grow(ts, i, depth, old(leaf), parent, up);
        AsMapAppend(PlaceAll(ts[..i], depth, old(leaf), parent, up), Place(ts[i], depth, leaf, parent, up));
        Prefixes(ts, i + 1, depth, old(leaf), parent, up);
        DistinctParts(PlaceAll(ts[..i], depth, old(leaf), parent, up), Place(ts[i], depth, leaf, parent, up));
        MapLaws(old(pos), AsMap(PlaceAll(ts[..i], depth, old(leaf), parent, up)),
                 AsMap(Place(ts[i], depth, leaf, parent, up)), 0, Pos(0.0, 0));
        Assign(cs[i], depth, ts[i], parent, up);
      }
      assert ts[..|ts|] == ts;
    }

    lemma ForestReady(up: real)
      requires Linked()
      ensures |roots| == |Forest(hosts)|
      ensures forall i :: 0 <= i < |roots| ==> Forest(hosts)[i].host == roots[i] && Mirrors(kids, Forest(hosts)[i])
      ensures Placement(hosts, up) == PlaceAll(Forest(hosts), 1, 0, None, up)
    {
      hide TreesOf, Mirrors, PlaceAll;
      RootsAt(hosts);
      TreesMirror(hosts, kids, Roots(hosts), 1);
    }

    /** Everything the view computes before it draws. */
    method PlaceAllHosts() returns (leaves: nat)
      requires UniqueIds(hosts) && byName == ByName(hosts)
      requires roots == [] && leaf == 0 && maxDepth == 1 && pos == map[]
      modifies this
      ensures Linked()
      ensures pos == AsMap(Placement(hosts, RootCol(hosts)))
      ensures leaves == Max(1, LeavesAll(Forest(hosts))) && maxDepth == Max(1, DeepestAll(Forest(hosts), 1))
    {
      hide Forest, Placement, PlaceAll, AsMap, Mirrors, Kids, Roots, RootCol;
      hide LeavesAll, DeepestAll, TreeParent, ParentId;
      Link();
      ghost var up := RootCol(hosts);
      PlacedOnce(hosts, up);
      ForestReady(up);
      AssignAll(roots, 1, Forest(hosts), None, up);
      assert pos == map[] + AsMap(Placement(hosts, up));
      leaves := Max(1, leaf);
    }

    /** The whole drawing, on a canvas at least as wide as asked. */
    method Draw(width: real) returns (d: Drawing, ghost leaves: nat, ghost at: seq<nat>)
      requires UniqueIds(hosts) && byName == ByName(hosts)
      requires roots == [] && leaf == 0 && maxDepth == 1 && pos == map[]
      modifies this
      ensures leaves == Max(1, LeavesAll(Forest(hosts)))
      ensures d.w >= width && d.w >= leaves as real * 200.0 && (d.w == width || d.w == leaves as real * 200.0)
      ensures d.rootX == d.w / 2.0 && Picture(d, hosts, leaves)
      ensures d.height == (if hosts == [] then TOP_Y else DepthY(Max(1, DeepestAll(Forest(hosts), 1)))) + 110
      ensures Shows(d, Placement(hosts, RootCol(hosts)), leaves, at)
      ensures HostsOf(d.nodes) == GroundedAmong(hosts, hosts)
      ensures Apart(d) && NoCrossing(d) && Connected(d, hosts) && (hosts != [] ==> OnCanvas(d))
    {
      assert LEAF_GAP == 200.0;
      hide *;
      var n := PlaceAllHosts();
      RootColIs(hosts);
      var w := if width > n as real * LEAF_GAP then width else n as real * LEAF_GAP;
      var height := (if hosts == [] then TOP_Y else DepthY(maxDepth)) + 110;
      d, at := Render(n, w, height);
      leaves := n;
      AllConnected(hosts, RootCol(hosts), d, leaves, at);
      ReadyToDraw(hosts, d, leaves, at);
      IsPicture(hosts, RootCol(hosts), d, leaves, at);
      PlacementShape(hosts, RootCol(hosts));
      Geometry(d, Placement(hosts, RootCol(hosts)), leaves, at);
      if hosts != [] {
        Canvas(d, Placement(hosts, RootCol(hosts)), leaves, at, maxDepth);
      }
    }

    /** Box and edge of one positioned host. */
    method BoxAndEdge(h: Host, n: nat, w: real) returns (b: Box, e: Edge, ghost j: nat)
      requires Linked() && pos == AsMap(Placement(hosts, RootCol(hosts)))
      requires n >= 1 && n == Max(1, LeavesAll(Forest(hosts)))
      requires h in hosts && h.id in pos
      ensures j < |Placement(hosts, RootCol(hosts))| && Placement(hosts, RootCol(hosts))[j].host == h
      ensures b == BoxOf(Placement(hosts, RootCol(hosts))[j], n, w)
      ensures e == EdgeOf(Placement(hosts, RootCol(hosts))[j], n, w)
      ensures b.host == h && e.x2 == b.x && e.y2 == b.y
    {
      RootX(n, w);
      RootColIs(hosts);
      hide Linked, Placement, AsMap, RootCol, ColX, DepthY, TreeParent, Forest, LeavesAll;
      j := Found(hosts, RootCol(hosts), h);
      var p := pos[h.id];
      var x, y := ColX(p.col, n, w), DepthY(p.depth);
      b := Box(h, x, y);
      var pid := parentId[h.id];
      if pid.None? {
        e := Edge(w / 2.0, ROOT_Y, x, y);
      } else {
        var pp := pos[pid.value];
        e := Edge(ColX(pp.col, n, w), DepthY(pp.depth), x, y);
      }
    }

    /** Boxes and edges of the positioned hosts, in list order. */
    method Render(n: nat, w: real, height: int) returns (d: Drawing, ghost at: seq<nat>)
      requires Linked() && pos == AsMap(Placement(hosts, RootCol(hosts)))
      requires n >= 1 && n == Max(1, LeavesAll(Forest(hosts)))
      ensures d.w == w && d.rootX == w / 2.0 && d.height == height
      ensures Shows(d, Placement(hosts, RootCol(hosts)), n, at)
      ensures HostsOf(d.nodes) == GroundedAmong(hosts, hosts)
    {
      ghost var s := Placement(hosts, RootCol(hosts));
      d, at := Drawing([], [], w / 2.0, w, height), [];
      hide Linked, AsMap, RootCol, BoxOf, EdgeOf, Grounded, GroundedAmong;
      hide LeavesAll, Max, Forest, Placement, DrawnTo, Shows;
      DrawnNone(hosts, d, s, n);
      for i := 0 to |hosts|
        invariant d.w == w && d.rootX == w / 2.0 && d.height == height
        invariant DrawnTo(hosts, d, s, n, at, i)
      {
        var h := hosts[i];
        UniqueHere();
        NotFound(hosts, RootCol(hosts), h);
        if h.id in pos {
          var b, e, j := BoxAndEdge(h, n, w);
          DrawnMore(hosts, d, s, n, at, i, j);
          d := d.(nodes := d.nodes + [b], edges := d.edges + [e]);
          at := at + [j];
        } else {
          DrawnSkip(hosts, d, s, n, at, i);
        }
      }
      DrawnAll(hosts, d, s, n, at);
    }

    lemma UniqueHere()
      requires Linked()
      ensures UniqueIds(hosts)
    {
    }
  }
}
