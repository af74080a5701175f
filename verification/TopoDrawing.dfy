/** The drawing of a placement, in pixels: boxes, edges and canvas, and what makes it a
    picture of the forest. */
module TopoDrawing {
  import opened Common
  import opened TopoGraph
  import opened TopoTree
  import opened TopoForest
  import opened TopoTidy

  const ROOT_Y := 56
  const TOP_Y := 200
  const LEVEL_GAP := 140
  const LEAF_GAP := 200.0

  datatype Box = Box(host: Host, x: real, y: int)
  datatype Edge = Edge(x1: real, y1: int, x2: real, y2: int)

  function ColX(c: real, leaves: nat, w: real): real
    requires leaves >= 1
  {
    (c + 0.5) / leaves as real * w
  }

  function DepthY(d: int): int {
    TOP_Y + (d - 1) * LEVEL_GAP
  }

  function Max(a: int, b: int): int {
    if a > b then a else b
  }

  // ---- Small facts about the columns ----

  lemma Spread(leaves: nat, w: real) returns (s: real)
    requires leaves >= 1 && w >= leaves as real * LEAF_GAP
    ensures s == w / leaves as real >= LEAF_GAP && s * leaves as real == w
  {
    s := w / leaves as real;
  }

  /** One column apart is at least LEAF_GAP pixels apart. */
  lemma ColXGap(c: real, d: real, leaves: nat, w: real)
    requires leaves >= 1 && w >= leaves as real * LEAF_GAP && c + 1.0 <= d
    ensures ColX(c, leaves, w) + LEAF_GAP <= ColX(d, leaves, w)
  {
    var s := Spread(leaves, w);
    assert (d + 0.5) * s - (c + 0.5) * s == (d - c) * s;
    assert (d - c) * s >= 1.0 * s;
  }

  /** A column of the layout lies on the canvas with half a gap to spare. */
  lemma ColXInside(c: real, leaves: nat, w: real)
    requires leaves >= 1 && w >= leaves as real * LEAF_GAP && ColIn(c, 0, leaves)
    ensures LEAF_GAP / 2.0 <= ColX(c, leaves, w) <= w - LEAF_GAP / 2.0
  {
    var s := Spread(leaves, w);
    assert (c + 0.5) * s >= 0.5 * s;
    var rest := leaves as real - (c + 0.5);
    assert rest >= 0.5;
    assert rest * s >= 0.5 * s;
    assert rest * s == leaves as real * s - (c + 0.5) * s;
  }

  // ---- From placement to pixels ----

  function BoxOf(p: Placed, leaves: nat, w: real): Box
    requires leaves >= 1
  {
    Box(p.host, ColX(p.col, leaves, w), DepthY(p.depth))
  }

  function EdgeOf(p: Placed, leaves: nat, w: real): Edge
    requires leaves >= 1
  {
    Edge(ColX(p.up, leaves, w), if p.depth == 1 then ROOT_Y else DepthY(p.depth - 1),
         ColX(p.col, leaves, w), DepthY(p.depth))
  }

  datatype Drawing = Drawing(nodes: seq<Box>, edges: seq<Edge>, rootX: real, w: real, height: int)

  /** Box and edge k show the placed host at[k], each placed host at most once. */
  ghost predicate Shows(d: Drawing, s: seq<Placed>, leaves: nat, at: seq<nat>)
    requires leaves >= 1
  {
    && |d.nodes| == |d.edges| == |at|
    && (forall k :: 0 <= k < |at| ==>
          at[k] < |s| && d.nodes[k] == BoxOf(s[at[k]], leaves, d.w) && d.edges[k] == EdgeOf(s[at[k]], leaves, d.w))
    && (forall k, l :: 0 <= k < l < |at| ==> at[k] != at[l])
  }

  lemma ShowsMore(d: Drawing, s: seq<Placed>, leaves: nat, at: seq<nat>, j: nat)
    requires leaves >= 1 && Shows(d, s, leaves, at) && j < |s|
    requires forall k :: 0 <= k < |d.nodes| ==> d.nodes[k].host != s[j].host
    ensures var e := d.(nodes := d.nodes + [BoxOf(s[j], leaves, d.w)], edges := d.edges + [EdgeOf(s[j], leaves, d.w)]);
      Shows(e, s, leaves, at + [j]) && HostsOf(e.nodes) == HostsOf(d.nodes) + [s[j].host]
  {
    forall k | 0 <= k < |at|
      ensures at[k] != j
    {
      assert d.nodes[k].host == s[at[k]].host;
    }
  }

  function HostsOf(nodes: seq<Box>): seq<Host> {
    seq(|nodes|, k requires 0 <= k < |nodes| => nodes[k].host)
  }

  /** Boxes on one level keep LEAF_GAP apart. */
  ghost predicate Apart(d: Drawing) {
    forall k, l :: 0 <= k < |d.nodes| && 0 <= l < |d.nodes| && k != l && d.nodes[k].y == d.nodes[l].y ==>
      d.nodes[k].x + LEAF_GAP <= d.nodes[l].x || d.nodes[l].x + LEAF_GAP <= d.nodes[k].x
  }

  /** Edges into one level do not cross. */
  ghost predicate NoCrossing(d: Drawing) {
    forall k, l ::
      0 <= k < |d.edges| && 0 <= l < |d.edges| && d.edges[k].y2 == d.edges[l].y2 && d.edges[k].x2 < d.edges[l].x2 ==>
      d.edges[k].x1 <= d.edges[l].x1
  }

  /** Every box is on the canvas, half a gap from either side. */
  ghost predicate OnCanvas(d: Drawing) {
    forall k :: 0 <= k < |d.nodes| ==>
      LEAF_GAP / 2.0 <= d.nodes[k].x <= d.w - LEAF_GAP / 2.0 && TOP_Y <= d.nodes[k].y <= d.height - 110
  }

  lemma ShownApart(d: Drawing, s: seq<Placed>, leaves: nat, at: seq<nat>, k: nat, l: nat)
    requires leaves >= 1 && d.w >= leaves as real * LEAF_GAP
    requires Shows(d, s, leaves, at) && LeftToRight(s)
    requires k < |at| && l < |at| && at[k] < at[l] && d.nodes[k].y == d.nodes[l].y
    ensures d.nodes[k].x + LEAF_GAP <= d.nodes[l].x && d.edges[k].x1 <= d.edges[l].x1
  {
    var p, q := s[at[k]], s[at[l]];
    assert p.depth == q.depth;
    ColXGap(p.col, q.col, leaves, d.w);
  }

  lemma Geometry(d: Drawing, s: seq<Placed>, leaves: nat, at: seq<nat>)
    requires leaves >= 1 && d.w >= leaves as real * LEAF_GAP
    requires Shows(d, s, leaves, at) && LeftToRight(s)
    ensures Apart(d) && NoCrossing(d)
  {
    forall k, l | 0 <= k < |d.nodes| && 0 <= l < |d.nodes| && k != l && d.nodes[k].y == d.nodes[l].y
      ensures d.nodes[k].x + LEAF_GAP <= d.nodes[l].x || d.nodes[l].x + LEAF_GAP <= d.nodes[k].x
      ensures d.edges[k].x2 < d.edges[l].x2 ==> d.edges[k].x1 <= d.edges[l].x1
    {
      if at[k] < at[l] {
        ShownApart(d, s, leaves, at, k, l);
      } else {
        ShownApart(d, s, leaves, at, l, k);
      }
    }
    assert forall k :: 0 <= k < |at| ==> d.edges[k].x2 == d.nodes[k].x && d.edges[k].y2 == d.nodes[k].y;
  }

  lemma Canvas(d: Drawing, s: seq<Placed>, leaves: nat, at: seq<nat>, deepest: nat)
    requires leaves >= 1 && d.w >= leaves as real * LEAF_GAP && d.height == DepthY(deepest) + 110
    requires Shows(d, s, leaves, at) && Within(s, 1, 0, leaves)
    requires forall i :: 0 <= i < |s| ==> s[i].depth <= deepest
    ensures OnCanvas(d)
  {
    forall k | 0 <= k < |d.nodes|
      ensures LEAF_GAP / 2.0 <= d.nodes[k].x <= d.w - LEAF_GAP / 2.0 && TOP_Y <= d.nodes[k].y <= d.height - 110
    {
      ColXInside(s[at[k]].col, leaves, d.w);
    }
  }

  lemma RootX(leaves: nat, w: real)
    requires leaves >= 1
    ensures ColX(leaves as real / 2.0 - 0.5, leaves, w) == w / 2.0
  {
    var n := leaves as real;
    assert n / 2.0 / n == 0.5;
  }

  /** Each edge ends at its box, and starts at the parent's box or, for a root, at
      the laptop. */
  ghost predicate Connected(d: Drawing, hosts: seq<Host>) {
    |d.edges| == |d.nodes| &&
    forall k :: 0 <= k < |d.nodes| ==>
      && d.edges[k].x2 == d.nodes[k].x && d.edges[k].y2 == d.nodes[k].y
      && match TreeParent(hosts, d.nodes[k].host)
         case None => d.edges[k].x1 == d.rootX && d.edges[k].y1 == 56
         case Some(p) => exists l :: 0 <= l < |d.nodes| && d.nodes[l].host == p
                                  && d.edges[k].x1 == d.nodes[l].x && d.edges[k].y1 == d.nodes[l].y
  }

  /** Exactly the grounded hosts are drawn, each once, in list order. */
  ghost function GroundedAmong(hosts: seq<Host>, some: seq<Host>): seq<Host> {
    if some == [] then []
    else
      var rest := GroundedAmong(hosts, Init(some));
      if Grounded(hosts, Last(some)) then rest + [Last(some)] else rest
  }

  lemma {:induction false} GroundedListed(hosts: seq<Host>, some: seq<Host>, h: Host)
    ensures h in GroundedAmong(hosts, some) <==> h in some && Grounded(hosts, h)
  {
    if some != [] {
      GroundedListed(hosts, Init(some), h);
    }
  }

  /** A drawn host's forest parent is drawn, and its edge starts there. */
  lemma ParentDrawn(hosts: seq<Host>, up: real, d: Drawing, leaves: nat, at: seq<nat>, k: nat) returns (l: nat)
    requires UniqueIds(hosts) && leaves >= 1 && Shows(d, Placement(hosts, up), leaves, at)
    requires HostsOf(d.nodes) == GroundedAmong(hosts, hosts)
    requires k < |d.nodes| && TreeParent(hosts, d.nodes[k].host).Some?
    ensures l < |d.nodes| && d.nodes[l].host == TreeParent(hosts, d.nodes[k].host).value
    ensures d.edges[k].x1 == d.nodes[l].x && d.edges[k].y1 == d.nodes[l].y
  {
    var s, j := Placement(hosts, up), at[k];
    PlacedOnce(hosts, up);
    var p := TreeParent(hosts, d.nodes[k].host).value;
    assert s[j].parent == Some(p) && s[j].depth > 1;
    PlaceAllParents(Forest(hosts), 1, 0, None, up, j);
    var m :| 0 <= m < |s| && s[m].depth + 1 == s[j].depth && s[j].parent == Some(s[m].host) && s[j].up == s[m].col;
    assert Covers(s, p) && p in hosts;
    GroundedListed(hosts, hosts, p);
    l :| 0 <= l < |d.nodes| && HostsOf(d.nodes)[l] == p;
    assert s[at[l]].host == p == s[m].host;
    assert at[l] == m;
  }

  lemma RootDrawn(hosts: seq<Host>, up: real, d: Drawing, leaves: nat, at: seq<nat>, k: nat)
    requires UniqueIds(hosts) && leaves >= 1 && Shows(d, Placement(hosts, up), leaves, at)
    requires up == leaves as real / 2.0 - 0.5 && d.rootX == d.w / 2.0
    requires k < |d.nodes| && TreeParent(hosts, d.nodes[k].host).None?
    ensures d.edges[k].x1 == d.rootX && d.edges[k].y1 == ROOT_Y
  {
    PlacedOnce(hosts, up);
    PlaceAllWithin(Forest(hosts), 1, 0, None, up);
    RootX(leaves, d.w);
    assert Placement(hosts, up)[at[k]].depth == 1;
  }

  lemma AllConnected(hosts: seq<Host>, up: real, d: Drawing, leaves: nat, at: seq<nat>)
    requires UniqueIds(hosts) && leaves >= 1 && Shows(d, Placement(hosts, up), leaves, at)
    requires HostsOf(d.nodes) == GroundedAmong(hosts, hosts)
    requires up == leaves as real / 2.0 - 0.5 && d.rootX == d.w / 2.0
    ensures Connected(d, hosts)
  {
    hide Placement, TreeParent, GroundedAmong, ColX, DepthY;
    forall k | 0 <= k < |d.nodes|
      ensures TreeParent(hosts, d.nodes[k].host).None? ==> d.edges[k].x1 == d.rootX && d.edges[k].y1 == ROOT_Y
      ensures TreeParent(hosts, d.nodes[k].host).Some? ==>
                exists l :: 0 <= l < |d.nodes| && d.nodes[l].host == TreeParent(hosts, d.nodes[k].host).value
                         && d.edges[k].x1 == d.nodes[l].x && d.edges[k].y1 == d.nodes[l].y
    {
      if TreeParent(hosts, d.nodes[k].host).Some? {
        var l := ParentDrawn(hosts, up, d, leaves, at, k);
      } else {
        RootDrawn(hosts, up, d, leaves, at, k);
      }
    }
  }

  /** Where a root's edge starts, in columns: the middle of the canvas. */
  ghost function RootCol(hosts: seq<Host>): real {
    Max(1, LeavesAll(Forest(hosts))) as real / 2.0 - 0.5
  }

  lemma RootColIs(hosts: seq<Host>)
    ensures RootCol(hosts) == Max(1, LeavesAll(Forest(hosts))) as real / 2.0 - 0.5
    ensures Max(1, LeavesAll(Forest(hosts))) >= 1
  {
  }

  lemma PlacementShape(hosts: seq<Host>, up: real)
    ensures LeftToRight(Placement(hosts, up))
    ensures Within(Placement(hosts, up), 1, 0, Max(1, LeavesAll(Forest(hosts))))
    ensures forall i :: 0 <= i < |Placement(hosts, up)| ==>
              Placement(hosts, up)[i].depth <= Max(1, DeepestAll(Forest(hosts), 1))
  {
    var ts := Forest(hosts);
    hide Forest;
    PlaceAllOrdered(ts, 1, 0, None, up);
    PlaceAllWithin(ts, 1, 0, None, up);
    if ts == [] {
      assert PlaceAll(ts, 1, 0, None, up) == [];
    }
    forall i | 0 <= i < |PlaceAll(ts, 1, 0, None, up)|
      ensures PlaceAll(ts, 1, 0, None, up)[i].depth <= Max(1, DeepestAll(ts, 1))
    {
      PlaceAllDeepest(ts, 1, 0, None, up, i);
    }
  }

  // ---- The picture, box by box ----

  ghost predicate ChildBox(d: Drawing, hosts: seq<Host>, k: int, j: int) {
    && 0 <= k < |d.nodes| && 0 <= j < |d.nodes|
    && TreeParent(hosts, d.nodes[j].host) == Some(d.nodes[k].host)
  }

  ghost predicate ChildlessBox(d: Drawing, hosts: seq<Host>, k: int) {
    0 <= k < |d.nodes| && forall j :: !ChildBox(d, hosts, k, j)
  }

  /** The outermost children of box k, a leftmost and b rightmost. */
  ghost predicate OutermostBoxes(d: Drawing, hosts: seq<Host>, k: int, a: int, b: int) {
    && ChildBox(d, hosts, k, a) && ChildBox(d, hosts, k, b)
    && forall j :: ChildBox(d, hosts, k, j) ==> d.nodes[a].x <= d.nodes[j].x <= d.nodes[b].x
  }

  /** Every box with boxes below it is midway between the outermost of them. */
  ghost predicate BoxesCentred(d: Drawing, hosts: seq<Host>) {
    forall k :: 0 <= k < |d.nodes| && !ChildlessBox(d, hosts, k) ==>
      exists a, b :: OutermostBoxes(d, hosts, k, a, b) && d.nodes[k].x == (d.nodes[a].x + d.nodes[b].x) / 2.0
  }

  /** Box k is in the middle of strip m of the canvas, cut into equal strips. */
  ghost predicate InStrip(d: Drawing, k: int, m: nat, strips: nat)
    requires strips >= 1
  {
    0 <= k < |d.nodes| && d.nodes[k].x == (m as real + 0.5) / strips as real * d.w
  }

  /** The childless boxes are in the middle of their strips, one strip for each. */
  ghost predicate OnePerStrip(d: Drawing, hosts: seq<Host>, strips: nat)
    requires strips >= 1
  {
    && (forall k :: ChildlessBox(d, hosts, k) ==> exists m: nat :: m < strips && InStrip(d, k, m, strips))
    && (forall m: nat :: m < strips && d.nodes != [] ==> StripTaken(d, hosts, m, strips))
  }

  ghost predicate StripTaken(d: Drawing, hosts: seq<Host>, m: nat, strips: nat)
    requires strips >= 1
  {
    exists k :: ChildlessBox(d, hosts, k) && InStrip(d, k, m, strips)
  }

  /** Whole subtrees are side by side, in the order their roots are listed. */
  ghost predicate SubtreesApart(d: Drawing, hosts: seq<Host>) {
    forall k, l ::
      0 <= k < |d.nodes| && 0 <= l < |d.nodes| && StandsBefore(hosts, d.nodes[k].host, d.nodes[l].host) ==>
      d.nodes[k].x + 200.0 <= d.nodes[l].x
  }

  /** Level by level, 140 apart from 200 down, and just high enough. */
  ghost predicate OnLevels(d: Drawing, hosts: seq<Host>) {
    && (forall k :: 0 <= k < |d.nodes| ==> OnLevel(d, hosts, k))
    && (if d.nodes == [] then d.height == 310
        else exists k :: 0 <= k < |d.nodes| && d.height == d.nodes[k].y + 110)
    && (forall k :: 0 <= k < |d.nodes| ==> d.nodes[k].y + 110 <= d.height)
  }

  ghost predicate OnLevel(d: Drawing, hosts: seq<Host>, k: int)
    requires 0 <= k < |d.nodes|
  {
    exists depth: nat :: DepthIs(hosts, d.nodes[k].host, depth) && d.nodes[k].y == 60 + 140 * depth
  }

  /** Exactly the placed hosts have a box, and boxes are listed as the hosts are. */
  ghost predicate AllBoxes(d: Drawing, hosts: seq<Host>) {
    && (forall k :: 0 <= k < |d.nodes| ==> d.nodes[k].host in hosts && Grounded(hosts, d.nodes[k].host))
    && (forall h :: h in hosts && Grounded(hosts, h) ==> exists k :: 0 <= k < |d.nodes| && d.nodes[k].host == h)
    && (forall k, l :: 0 <= k < l < |d.nodes| ==> Before(hosts, d.nodes[k].host, d.nodes[l].host))
  }

  /** The drawing as a whole. */
  ghost predicate Picture(d: Drawing, hosts: seq<Host>, strips: nat)
    requires strips >= 1
  {
    && AllBoxes(d, hosts) && OnLevels(d, hosts)
    && BoxesCentred(d, hosts) && OnePerStrip(d, hosts, strips) && SubtreesApart(d, hosts)
  }

  lemma ColXMiddle(a: real, b: real, leaves: nat, w: real)
    requires leaves >= 1
    ensures ColX((a + b) / 2.0, leaves, w) == (ColX(a, leaves, w) + ColX(b, leaves, w)) / 2.0
  {
    var n := leaves as real;
    var u, v := (a + 0.5) / n, (b + 0.5) / n;
    assert ((a + b) / 2.0 + 0.5) / n == (u + v) / 2.0;
    assert (u + v) / 2.0 * w == (u * w + v * w) / 2.0;
  }

  lemma ColXMonotone(a: real, b: real, leaves: nat, w: real)
    requires leaves >= 1 && w >= leaves as real * LEAF_GAP && a <= b
    ensures ColX(a, leaves, w) <= ColX(b, leaves, w)
  {
    var s := Spread(leaves, w);
    assert (b + 0.5) * s - (a + 0.5) * s == (b - a) * s;
    assert (b - a) * s >= 0.0;
  }

  /** Every entry of the placement has its box. */
  lemma BoxFor(hosts: seq<Host>, up: real, d: Drawing, leaves: nat, at: seq<nat>, p: Placed) returns (k: nat)
    requires UniqueIds(hosts) && leaves >= 1 && Shows(d, Placement(hosts, up), leaves, at)
    requires HostsOf(d.nodes) == GroundedAmong(hosts, hosts) && p in Placement(hosts, up)
    ensures k < |d.nodes| && Placement(hosts, up)[at[k]] == p
  {
    var s := Placement(hosts, up);
    PlacedOnce(hosts, up);
    hide Placement, GroundedAmong, Grounded, TreeParent, ColX, DepthY;
    var j :| 0 <= j < |s| && s[j] == p;
    assert Covers(s, p.host) && p.host in hosts;
    GroundedListed(hosts, hosts, p.host);
    k :| 0 <= k < |d.nodes| && HostsOf(d.nodes)[k] == p.host;
    assert s[at[k]].host == p.host;
    assert at[k] == j;
  }

  /** Child boxes show children, and children have child boxes. */
  lemma ChildShown(hosts: seq<Host>, up: real, d: Drawing, leaves: nat, at: seq<nat>, k: int, j: int)
    requires UniqueIds(hosts) && leaves >= 1 && Shows(d, Placement(hosts, up), leaves, at)
    requires 0 <= k < |d.nodes| && 0 <= j < |d.nodes|
    ensures ChildBox(d, hosts, k, j) <==> ChildOf(Placement(hosts, up)[at[j]], Placement(hosts, up)[at[k]])
  {
    PlacedOnce(hosts, up);
    hide Placement, ColX, DepthY, TreeParent;
  }

  /** What the entries that are shown are. */
  ghost predicate Drawn(hosts: seq<Host>, up: real, d: Drawing, leaves: nat, at: seq<nat>)
    requires leaves >= 1
  {
    && UniqueIds(hosts) && d.w >= leaves as real * LEAF_GAP
    && Shows(d, Placement(hosts, up), leaves, at) && HostsOf(d.nodes) == GroundedAmong(hosts, hosts)
  }

  lemma ChildlessShown(hosts: seq<Host>, up: real, d: Drawing, leaves: nat, at: seq<nat>, k: int)
    requires leaves >= 1 && Drawn(hosts, up, d, leaves, at) && 0 <= k < |d.nodes|
    ensures ChildlessBox(d, hosts, k) <==> Childless(Placement(hosts, up), Placement(hosts, up)[at[k]])
  {
    var s := Placement(hosts, up);
    var p := s[at[k]];
    hide Placement, ColX, DepthY, GroundedAmong, ChildBox, ChildOf;
    if q :| q in s && ChildOf(q, p) {
      var j := BoxFor(hosts, up, d, leaves, at, q);
      ChildShown(hosts, up, d, leaves, at, k, j);
    }
    if j :| ChildBox(d, hosts, k, j) {
      BoxIndex(d, hosts, k, j);
      ChildShown(hosts, up, d, leaves, at, k, j);
      assert s[at[j]] in s;
    }
  }

  lemma BoxIndex(d: Drawing, hosts: seq<Host>, k: int, j: int)
    requires ChildBox(d, hosts, k, j)
    ensures 0 <= k < |d.nodes| && 0 <= j < |d.nodes|
  {
  }

  lemma BoxCentred(hosts: seq<Host>, up: real, d: Drawing, leaves: nat, at: seq<nat>, k: int) returns (a: nat, b: nat)
    requires leaves >= 1 && Drawn(hosts, up, d, leaves, at) && 0 <= k < |d.nodes|
    requires Centred(Placement(hosts, up)) && !ChildlessBox(d, hosts, k)
    ensures OutermostBoxes(d, hosts, k, a, b) && d.nodes[k].x == (d.nodes[a].x + d.nodes[b].x) / 2.0
  {
    var s := Placement(hosts, up);
    var p := s[at[k]];
    ChildlessShown(hosts, up, d, leaves, at, k);
    hide Placement, ColX, DepthY, GroundedAmong, ChildBox, ChildOf, Childless, ChildlessBox;
    assert Midway(s, p);
    var x, y :| Outermost(s, p, x, y) && p.col == (x.col + y.col) / 2.0;
    a := BoxFor(hosts, up, d, leaves, at, x);
    b := BoxFor(hosts, up, d, leaves, at, y);
    ChildShown(hosts, up, d, leaves, at, k, a);
    ChildShown(hosts, up, d, leaves, at, k, b);
    forall j | ChildBox(d, hosts, k, j) ensures d.nodes[a].x <= d.nodes[j].x <= d.nodes[b].x {
      BoxIndex(d, hosts, k, j);
      ChildShown(hosts, up, d, leaves, at, k, j);
      assert s[at[j]] in s;
      ColXMonotone(x.col, s[at[j]].col, leaves, d.w);
      ColXMonotone(s[at[j]].col, y.col, leaves, d.w);
    }
    ColXMiddle(x.col, y.col, leaves, d.w);
  }

  lemma StripsFilled(hosts: seq<Host>, up: real, d: Drawing, leaves: nat, at: seq<nat>, n: nat)
    requires leaves >= 1 && Drawn(hosts, up, d, leaves, at)
    requires Numbered(Placement(hosts, up), 0, n) && (n > 0 ==> n == leaves) && (n == 0 ==> d.nodes == [])
    ensures OnePerStrip(d, hosts, leaves)
  {
    var s := Placement(hosts, up);
    hide Placement, DepthY, GroundedAmong, Childless, ChildlessBox;
    forall k | ChildlessBox(d, hosts, k) ensures exists m: nat :: m < leaves && InStrip(d, k, m, leaves) {
      BoxListed(d, hosts, k);
      ChildlessShown(hosts, up, d, leaves, at, k);
      assert s[at[k]] in s && InColumns(s[at[k]], 0, n);
      var m: nat :| 0 <= m < 0 + n && InColumn(s[at[k]], m);
      assert InStrip(d, k, m, leaves);
    }
    forall m: nat | m < leaves && d.nodes != [] ensures StripTaken(d, hosts, m, leaves) {
      assert Taken(s, m);
      var p :| p in s && Childless(s, p) && InColumn(p, m);
      var k := BoxFor(hosts, up, d, leaves, at, p);
      ChildlessShown(hosts, up, d, leaves, at, k);
      assert InStrip(d, k, m, leaves);
    }
  }

  lemma BoxListed(d: Drawing, hosts: seq<Host>, k: int)
    requires ChildlessBox(d, hosts, k)
    ensures 0 <= k < |d.nodes|
  {
  }

  lemma BoxesBeside(hosts: seq<Host>, up: real, d: Drawing, leaves: nat, at: seq<nat>, k: int, l: int)
    requires leaves >= 1 && Drawn(hosts, up, d, leaves, at) && SideBySide(hosts, Placement(hosts, up))
    requires 0 <= k < |d.nodes| && 0 <= l < |d.nodes| && StandsBefore(hosts, d.nodes[k].host, d.nodes[l].host)
    ensures d.nodes[k].x + 200.0 <= d.nodes[l].x
  {
    var s := Placement(hosts, up);
    PlacedOnce(hosts, up);
    hide Placement, ColX, DepthY, GroundedAmong;
    var p, q := s[at[k]], s[at[l]];
    var dx, dy, e :| LeftOf(hosts, p.host, dx, q.host, dy, e);
    DepthUnique(hosts, p.host, dx, p.depth);
    DepthUnique(hosts, q.host, dy, q.depth);
    assert Beside(hosts, p, q, e) && p in s && q in s;
    ColXGap(p.col, q.col, leaves, d.w);
  }

  lemma {:induction false} GroundedInOrder(hosts: seq<Host>, n: nat)
    requires n <= |hosts|
    ensures InOrder(hosts[..n], GroundedAmong(hosts, hosts[..n]))
  {
    if n > 0 {
      var front := hosts[..n - 1];
      assert Init(hosts[..n]) == front && Last(hosts[..n]) == hosts[n - 1];
      GroundedInOrder(hosts, n - 1);
      forall k | k in GroundedAmong(hosts, front) ensures k in front {
        GroundedListed(hosts, front, k);
      }
      InOrderMore(front, hosts[n - 1], GroundedAmong(hosts, front));
      assert front + [hosts[n - 1]] == hosts[..n];
    }
  }

  lemma BoxesListed(hosts: seq<Host>, d: Drawing)
    requires HostsOf(d.nodes) == GroundedAmong(hosts, hosts)
    ensures AllBoxes(d, hosts)
  {
    var hs := HostsOf(d.nodes);
    assert hosts[..|hosts|] == hosts;
    GroundedInOrder(hosts, |hosts|);
    hide GroundedAmong, Grounded, Before;
    forall k | 0 <= k < |d.nodes| ensures d.nodes[k].host in hosts && Grounded(hosts, d.nodes[k].host) {
      assert hs[k] in hs;
      GroundedListed(hosts, hosts, hs[k]);
    }
    forall h | h in hosts && Grounded(hosts, h) ensures exists k :: 0 <= k < |d.nodes| && d.nodes[k].host == h {
      GroundedListed(hosts, hosts, h);
      var k :| 0 <= k < |hs| && hs[k] == h;
      assert d.nodes[k].host == h;
    }
    forall k, l | 0 <= k < l < |d.nodes| ensures Before(hosts, d.nodes[k].host, d.nodes[l].host) {
      assert Before(hosts, hs[k], hs[l]);
    }
  }

  lemma BoxesOnLevels(hosts: seq<Host>, up: real, d: Drawing, leaves: nat, at: seq<nat>)
    requires leaves >= 1 && Drawn(hosts, up, d, leaves, at)
    requires d.height == (if hosts == [] then TOP_Y else DepthY(Max(1, DeepestAll(Forest(hosts), 1)))) + 110
    ensures OnLevels(d, hosts)
  {
    var s := Placement(hosts, up);
    PlacedOnce(hosts, up);
    PlacementShape(hosts, up);
    hide GroundedAmong, ColX;
    forall k | 0 <= k < |d.nodes| ensures OnLevel(d, hosts, k) && d.nodes[k].y + 110 <= d.height {
      assert DepthIs(hosts, d.nodes[k].host, s[at[k]].depth);
      assert s[at[k]].host in hosts;
    }
    if d.nodes == [] {
      NothingPlaced(hosts, up, d, leaves, at);
    } else {
      SomePlaced(hosts, up, d, leaves, at);
      var i := PlaceAllReaches(Forest(hosts), 1, 0, None, up);
      var k := BoxFor(hosts, up, d, leaves, at, s[i]);
      assert s[i].depth >= 1 && s[i].host in hosts;
      assert d.height == d.nodes[k].y + 110;
    }
  }

  lemma SomePlaced(hosts: seq<Host>, up: real, d: Drawing, leaves: nat, at: seq<nat>)
    requires leaves >= 1 && Shows(d, Placement(hosts, up), leaves, at) && d.nodes != []
    ensures Forest(hosts) != [] && LeavesAll(Forest(hosts)) >= 1
  {
    assert at[0] < |Placement(hosts, up)|;
    assert PlaceAll([], 1, 0, None, up) == [];
  }

  lemma NothingPlaced(hosts: seq<Host>, up: real, d: Drawing, leaves: nat, at: seq<nat>)
    requires leaves >= 1 && Drawn(hosts, up, d, leaves, at) && d.nodes == []
    ensures Forest(hosts) == [] && DeepestAll(Forest(hosts), 1) == 0
  {
    var ts := Forest(hosts);
    hide Forest;
    if ts != [] {
      var i := PlaceAllReaches(ts, 1, 0, None, up);
      var k := BoxFor(hosts, up, d, leaves, at, Placement(hosts, up)[i]);
    }
  }

  lemma AllCentred(hosts: seq<Host>, up: real, d: Drawing, leaves: nat, at: seq<nat>)
    requires leaves >= 1 && Drawn(hosts, up, d, leaves, at) && Centred(Placement(hosts, up))
    ensures BoxesCentred(d, hosts)
  {
    hide Drawn, Centred, Placement, ChildlessBox;
    forall k | 0 <= k < |d.nodes| && !ChildlessBox(d, hosts, k)
      ensures exists a, b :: OutermostBoxes(d, hosts, k, a, b) && d.nodes[k].x == (d.nodes[a].x + d.nodes[b].x) / 2.0
    {
      var a, b := BoxCentred(hosts, up, d, leaves, at, k);
    }
  }

  lemma AllApart(hosts: seq<Host>, up: real, d: Drawing, leaves: nat, at: seq<nat>)
    requires leaves >= 1 && Drawn(hosts, up, d, leaves, at) && SideBySide(hosts, Placement(hosts, up))
    ensures SubtreesApart(d, hosts)
  {
    hide Drawn, SideBySide, Placement, StandsBefore;
    forall k, l | 0 <= k < |d.nodes| && 0 <= l < |d.nodes| && StandsBefore(hosts, d.nodes[k].host, d.nodes[l].host)
      ensures d.nodes[k].x + 200.0 <= d.nodes[l].x
    {
      BoxesBeside(hosts, up, d, leaves, at, k, l);
    }
  }

  lemma IsPicture(hosts: seq<Host>, up: real, d: Drawing, leaves: nat, at: seq<nat>)
    requires leaves >= 1 && Drawn(hosts, up, d, leaves, at) && leaves == Max(1, LeavesAll(Forest(hosts)))
    requires d.height == (if hosts == [] then TOP_Y else DepthY(Max(1, DeepestAll(Forest(hosts), 1)))) + 110
    ensures Picture(d, hosts, leaves)
  {
    var n := LeavesAll(Forest(hosts));
    PlacementTidy(hosts, up);
    BoxesOnLevels(hosts, up, d, leaves, at);
    if d.nodes != [] {
      SomePlaced(hosts, up, d, leaves, at);
    }
    BoxesListed(hosts, d);
    hide Drawn, Placement, Forest, Centred, SideBySide, Numbered, AllBoxes, OnLevels, OnePerStrip;
    AllCentred(hosts, up, d, leaves, at);
    AllApart(hosts, up, d, leaves, at);
    StripsFilled(hosts, up, d, leaves, at, n);
  }

  /** The drawing so far shows the grounded ones of the first i hosts. */
  ghost predicate DrawnTo(hosts: seq<Host>, d: Drawing, s: seq<Placed>, n: nat, at: seq<nat>, i: nat)
    requires n >= 1
  {
    && i <= |hosts| && Shows(d, s, n, at)
    && HostsOf(d.nodes) == GroundedAmong(hosts, hosts[..i])
    && forall k :: 0 <= k < |d.nodes| ==> d.nodes[k].host in hosts[..i]
  }

  lemma DrawnNone(hosts: seq<Host>, d: Drawing, s: seq<Placed>, n: nat)
    requires n >= 1 && d.nodes == [] && d.edges == []
    ensures DrawnTo(hosts, d, s, n, [], 0)
  {
  }

  lemma DrawnSkip(hosts: seq<Host>, d: Drawing, s: seq<Placed>, n: nat, at: seq<nat>, i: nat)
    requires n >= 1 && i < |hosts| && DrawnTo(hosts, d, s, n, at, i) && !Grounded(hosts, hosts[i])
    ensures DrawnTo(hosts, d, s, n, at, i + 1)
  {
    hide Grounded, Shows;
    assert Init(hosts[..i + 1]) == hosts[..i] && Last(hosts[..i + 1]) == hosts[i];
  }

  lemma DrawnMore(hosts: seq<Host>, d: Drawing, s: seq<Placed>, n: nat, at: seq<nat>, i: nat, j: nat)
    requires UniqueIds(hosts) && n >= 1 && i < |hosts| && j < |s| && s[j].host == hosts[i]
    requires DrawnTo(hosts, d, s, n, at, i) && Grounded(hosts, hosts[i])
    ensures DrawnTo(hosts, d.(nodes := d.nodes + [BoxOf(s[j], n, d.w)], edges := d.edges + [EdgeOf(s[j], n, d.w)]),
                    s, n, at + [j], i + 1)
  {
    hide Grounded, ColX, DepthY;
    assert Init(hosts[..i + 1]) == hosts[..i] && Last(hosts[..i + 1]) == hosts[i];
    assert hosts[i] !in hosts[..i];
    ShowsMore(d, s, n, at, j);
    hide Shows, HostsOf;
  }

  lemma DrawnAll(hosts: seq<Host>, d: Drawing, s: seq<Placed>, n: nat, at: seq<nat>)
    requires n >= 1 && DrawnTo(hosts, d, s, n, at, |hosts|)
    ensures Shows(d, s, n, at) && HostsOf(d.nodes) == GroundedAmong(hosts, hosts)
  {
    assert hosts[..|hosts|] == hosts;
  }
}
