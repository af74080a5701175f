/** The ssh hops to a host, laptop first, and how they relate to the path the
    topology view draws. */
module HopChain {
  import opened Common
  import opened TopoGraph

  const MAX_GATEWAYS: nat := 8

  function SshSpec(h: Host): string {
    if h.ssh != "" then h.ssh else h.name
  }

  function Specs(hops: seq<Host>): seq<string> {
    seq(|hops|, i requires 0 <= i < |hops| => SshSpec(hops[i]))
  }

  /** Each hop is given by its ssh tag, or by its name when it has none. */
  ghost predicate NamesHops(specs: seq<string>, hops: seq<Host>) {
    && |specs| == |hops|
    && forall i :: 0 <= i < |hops| ==>
         (hops[i].ssh == "" ==> specs[i] == hops[i].name) && (hops[i].ssh != "" ==> specs[i] == hops[i].ssh)
  }

  /** h itself last, preceded by the g hosts above it, furthest first. */
  ghost function Above(hosts: seq<Host>, h: Host, g: nat): seq<Host>
    requires Up(hosts, h, g).Some?
  {
    if g == 0 then [h] else [Up(hosts, h, g).value] + Above(hosts, h, g - 1)
  }

  /** Following links from h meets no id twice before step g. */
  ghost predicate NoRepeatBefore(hosts: seq<Host>, h: Host, g: nat) {
    forall i, j :: 0 <= i < j < g ==> !SameIdAt(hosts, h, i, j)
  }

  ghost predicate SameIdAt(hosts: seq<Host>, h: Host, i: nat, j: nat) {
    Up(hosts, h, i).Some? && Up(hosts, h, j).Some? && Up(hosts, h, i).value.id == Up(hosts, h, j).value.id
  }

  /** Why the walk stops at step g: enough gateways, no further link, or an id it
      has been to. */
  ghost predicate StopsAt(hosts: seq<Host>, h: Host, g: nat)
    requires Up(hosts, h, g).Some?
  {
    || g == 8
    || ParentOf(ByName(hosts), Up(hosts, h, g).value).None?
    || exists i :: 0 <= i < g && SameIdAt(hosts, h, i, g)
  }

  /** The ids of h and of the hosts above it, before step g. */
  ghost function IdsBefore(hosts: seq<Host>, h: Host, g: nat): set<int> {
    set i | 0 <= i < g && Up(hosts, h, i).Some? :: Up(hosts, h, i).value.id
  }

  /** The walk has gone g links up from h to cur. */
  ghost predicate Walked(hosts: seq<Host>, h: Host, g: nat, cur: Host, gateways: seq<Host>, seen: set<int>) {
    && Up(hosts, h, g) == Some(cur)
    && |gateways| == g && gateways + [h] == Above(hosts, h, g)
    && seen == IdsBefore(hosts, h, g)
    && NoRepeatBefore(hosts, h, g)
  }

  lemma WalkStarts(hosts: seq<Host>, h: Host)
    ensures Walked(hosts, h, 0, h, [], {})
  {
    assert [] + [h] == [h];
  }

  lemma WalkOn(hosts: seq<Host>, h: Host, g: nat, cur: Host, gateways: seq<Host>, seen: set<int>)
    requires Walked(hosts, h, g, cur, gateways, seen) && cur.id !in seen
    requires ParentOf(ByName(hosts), cur).Some?
    ensures var gw := ParentOf(ByName(hosts), cur).value;
      Walked(hosts, h, g + 1, gw, [gw] + gateways, seen + {cur.id})
  {
    var gw := ParentOf(ByName(hosts), cur).value;
    hide ParentOf, ByName;
    UpNext(hosts, h, g, cur);
    assert [gw] + gateways + [h] == [gw] + (gateways + [h]);
    assert Above(hosts, h, g + 1) == [gw] + Above(hosts, h, g);
    hide Above, Up;
    assert forall i :: 0 <= i < g ==> !SameIdAt(hosts, h, i, g);
    assert IdsBefore(hosts, h, g + 1) == IdsBefore(hosts, h, g) + {cur.id};
  }

  lemma UpNext(hosts: seq<Host>, h: Host, g: nat, cur: Host)
    requires Up(hosts, h, g) == Some(cur)
    ensures Up(hosts, h, g + 1) == ParentOf(ByName(hosts), cur)
  {
  }

  lemma WalkEnds(hosts: seq<Host>, h: Host, g: nat, cur: Host, gateways: seq<Host>, seen: set<int>)
    requires Walked(hosts, h, g, cur, gateways, seen)
    requires g == MAX_GATEWAYS || ParentOf(ByName(hosts), cur).None? || cur.id in seen
    ensures Up(hosts, h, g).Some? && gateways + [h] == Above(hosts, h, g)
    ensures NoRepeatBefore(hosts, h, g) && StopsAt(hosts, h, g)
  {
    hide Above, Up, ParentOf, ByName;
    if cur.id in seen {
      var i :| 0 <= i < g && Up(hosts, h, i).Some? && Up(hosts, h, i).value.id == cur.id;
      assert SameIdAt(hosts, h, i, g);
    }
  }

  /** The host need not be among the loaded ones: it may be an earlier record. */
  method ConnectChain(hosts: seq<Host>, host: Option<Host>) returns (specs: seq<string>, ghost g: nat)
    ensures host.None? ==> specs == []
    ensures host.Some? ==>
              && g <= 8 && Up(hosts, host.value, g).Some?
              && specs == Specs(Above(hosts, host.value, g)) && NamesHops(specs, Above(hosts, host.value, g))
              && NoRepeatBefore(hosts, host.value, g) && StopsAt(hosts, host.value, g)
  {
    hide Up, Above, Walked, NoRepeatBefore, StopsAt;
    g := 0;
    if host.None? {
      return [], 0;
    }
    var h := host.value;
    var byName := ByName(hosts);
    var gateways: seq<Host> := [];
    var seen: set<int> := {};
    var cur := h;
    WalkStarts(hosts, h);
    while cur.via != "" && cur.id !in seen && |gateways| < MAX_GATEWAYS
      invariant g == |gateways| <= MAX_GATEWAYS
      invariant Walked(hosts, h, g, cur, gateways, seen)
      decreases MAX_GATEWAYS - |gateways|
    {
      if cur.via !in byName || byName[cur.via].id == cur.id {
        break;
      }
      WalkOn(hosts, h, g, cur, gateways, seen);
      var gw := byName[cur.via];
      seen := seen + {cur.id};
      gateways := [gw] + gateways;
      g := g + 1;
      cur := gw;
    }
    WalkEnds(hosts, h, g, cur, gateways, seen);
    specs := Specs(gateways + [h]);
  }

  // ---- What the hops are ----

  lemma {:induction false} AboveAt(hosts: seq<Host>, h: Host, g: nat, i: nat)
    requires Up(hosts, h, g).Some? && i <= g
    ensures |Above(hosts, h, g)| == g + 1 && Up(hosts, h, g - i) == Some(Above(hosts, h, g)[i])
  {
    if g > 0 {
      AboveAt(hosts, h, g - 1, if i > 0 then i - 1 else 0);
    }
  }

  /** The host last, and each gateway the `via` of the next. */
  lemma HopsLinked(hosts: seq<Host>, h: Host, g: nat)
    requires Up(hosts, h, g).Some?
    ensures var hops := Above(hosts, h, g);
      && |hops| == g + 1 && hops[g] == h
      && (forall i :: 0 <= i < g ==> ParentOf(ByName(hosts), hops[i + 1]) == Some(hops[i]))
  {
    AboveAt(hosts, h, g, g);
    assert Up(hosts, h, 0) == Some(h);
    var hops := Above(hosts, h, g);
    forall i | 0 <= i < g
      ensures ParentOf(ByName(hosts), hops[i + 1]) == Some(hops[i])
    {
      AboveAt(hosts, h, g, i);
      AboveAt(hosts, h, g, i + 1);
      UpNext(hosts, h, g - (i + 1), hops[i + 1]);
    }
  }

  function Reverse(s: seq<Host>): seq<Host> {
    seq(|s|, i requires 0 <= i < |s| => s[|s| - 1 - i])
  }

  /** The forest path follows the same links. */
  lemma {:induction false} PathIsUp(hosts: seq<Host>, h: Host, d: nat, i: nat)
    requires i < d && DepthIs(hosts, h, d)
    ensures Up(hosts, h, i) == Some(PathUp(hosts, h, d)[i])
    decreases d
  {
    hide ByName, ParentOf, OnShortCycle;
    if i > 0 {
      UpOne(hosts, h, i - 1);
      PathIsUp(hosts, TreeParent(hosts, h).value, d - 1, i - 1);
    }
  }

  lemma PathIsAbove(hosts: seq<Host>, h: Host, d: nat)
    requires DepthIs(hosts, h, d)
    ensures d >= 1 && Up(hosts, h, d - 1).Some? && Reverse(PathUp(hosts, h, d)) == Above(hosts, h, d - 1)
  {
    assert d >= 1;
    hide *;
    var p := PathUp(hosts, h, d);
    PathIsUp(hosts, h, d, d - 1);
    var above := Above(hosts, h, d - 1);
    AboveAt(hosts, h, d - 1, 0);
    forall i | 0 <= i < |above|
      ensures p[d - 1 - i] == above[i]
    {
      AboveAt(hosts, h, d - 1, i);
      PathIsUp(hosts, h, d, d - 1 - i);
    }
    ReverseIs(p, above);
  }

  lemma ReverseIs(s: seq<Host>, t: seq<Host>)
    requires |s| == |t| && forall i :: 0 <= i < |s| ==> s[|s| - 1 - i] == t[i]
    ensures Reverse(s) == t
  {
  }

  /** The walk cannot stop below the root of the forest path, short of nine hops. */
  lemma NoEarlyStop(hosts: seq<Host>, h: Host, d: nat, g: nat)
    requires UniqueIds(hosts) && h in hosts && DepthIs(hosts, h, d)
    requires g <= MAX_GATEWAYS && Up(hosts, h, g).Some? && StopsAt(hosts, h, g)
    ensures g == MAX_GATEWAYS || g >= d - 1
  {
    if g < d - 1 && g != MAX_GATEWAYS {
      PathFacts(hosts, h, d);
      PathDistinct(hosts, h, d);
      PathIsUp(hosts, h, d, g);
      PathIsUp(hosts, h, d, g + 1);
      forall i | 0 <= i < g ensures !SameIdAt(hosts, h, i, g) {
        PathIsUp(hosts, h, d, i);
      }
    }
  }

  /** For a placed host the hops are the topology's root-to-host path if and only
      if that path has nine hosts, or fewer and its root has no gateway of its own
      (it is not a root just because it sits on a cycle). */
  lemma SameAsTopology(hosts: seq<Host>, h: Host, d: nat, g: nat)
    requires UniqueIds(hosts) && h in hosts && DepthIs(hosts, h, d)
    requires g <= MAX_GATEWAYS && Up(hosts, h, g).Some?
    requires NoRepeatBefore(hosts, h, g) && StopsAt(hosts, h, g)
    ensures var path := Reverse(PathUp(hosts, h, d));
      && |path| == d
      && (Above(hosts, h, g) == path <==>
            d == 9 || (d <= 8 && ParentOf(ByName(hosts), path[0]).None?))
  {
    PathIsAbove(hosts, h, d);
    HopsLinked(hosts, h, d - 1);
    HopsLinked(hosts, h, g);
    NoEarlyStop(hosts, h, d, g);
    AboveAt(hosts, h, d - 1, 0);
    if d <= MAX_GATEWAYS && g >= d {
      UpPlus(hosts, h, d, g - d);
      assert Up(hosts, h, d).Some?;
    }
    if g == d - 1 && d <= MAX_GATEWAYS {
      PathDistinct(hosts, h, d);
      PathIsUp(hosts, h, d, g);
      forall i | 0 <= i < g ensures !SameIdAt(hosts, h, i, g) {
        PathIsUp(hosts, h, d, i);
        PathFacts(hosts, h, d);
      }
    }
  }

  lemma {:induction false} CycleNeverEnds(hosts: seq<Host>, h: Host, m: nat, j: nat)
    requires m >= 1 && Up(hosts, h, m) == Some(h)
    ensures Up(hosts, h, j).Some?
    decreases j
  {
    if j >= m {
      UpPlus(hosts, h, m, j - m);
      CycleNeverEnds(hosts, h, m, j - m);
    } else {
      UpPlus(hosts, h, j, m - j);
    }
  }

  /** A chain of k gateways that ends is a forest path of k + 1 hosts. */
  lemma {:induction false} AcyclicDepth(hosts: seq<Host>, h: Host, k: nat)
    requires Up(hosts, h, k).Some? && Up(hosts, h, k + 1).None?
    ensures DepthIs(hosts, h, k + 1)
    decreases k
  {
    if m :| 1 <= m <= GUARD && Up(hosts, h, m) == Some(h) {
      CycleNeverEnds(hosts, h, m, k + 1);
      assert false;
    }
    assert Up(hosts, h, 0) == Some(h);
    if k > 0 {
      UpPlus(hosts, h, 1, k - 1);
      UpPlus(hosts, h, 1, k);
      assert Up(hosts, h, 1) == TreeParent(hosts, h);
      AcyclicDepth(hosts, TreeParent(hosts, h).value, k - 1);
    } else {
      assert Up(hosts, h, 1) == ParentOf(ByName(hosts), h);
    }
  }

  /** So for a chain of at most eight gateways that ends, the hops are the drawn
      path, laptop first. */
  lemma AcyclicChain(hosts: seq<Host>, h: Host, k: nat, g: nat)
    requires UniqueIds(hosts) && h in hosts
    requires k <= MAX_GATEWAYS && Up(hosts, h, k).Some? && Up(hosts, h, k + 1).None?
    requires g <= MAX_GATEWAYS && Up(hosts, h, g).Some?
    requires NoRepeatBefore(hosts, h, g) && StopsAt(hosts, h, g)
    ensures DepthIs(hosts, h, k + 1) && Above(hosts, h, g) == Reverse(PathUp(hosts, h, k + 1))
  {
    AcyclicDepth(hosts, h, k);
    SameAsTopology(hosts, h, k + 1, g);
    PathIsAbove(hosts, h, k + 1);
    HopsLinked(hosts, h, k);
  }
}
