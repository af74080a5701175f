/** The hosts as a graph of `via` links, and the forest the topology view makes
    of it by turning every host found on a short cycle into a root. */
module TopoGraph {
  import opened Common

  /** A host; an empty `via` or `ssh` is an absent tag. */
  datatype Host = Host(id: int, name: string, via: string, ssh: string)

  /** The bound on the cycle search. */
  const GUARD: nat := 32

  /** Ids are the table's primary key. */
  ghost predicate UniqueIds(hosts: seq<Host>) {
    forall i, j :: 0 <= i < j < |hosts| ==> hosts[i].id != hosts[j].id
  }

  /** Name index; a later host wins. */
  function ByName(hosts: seq<Host>): map<string, Host> {
    if hosts == [] then map[]
    else ByName(hosts[..|hosts| - 1])[hosts[|hosts| - 1].name := hosts[|hosts| - 1]]
  }

  /** The gateway named by a host's `via` tag, if there is such another host. */
  function ParentOf(byName: map<string, Host>, h: Host): Option<Host> {
    if h.via != "" && h.via in byName && byName[h.via].id != h.id then Some(byName[h.via]) else None
  }

  lemma ParentListed(hosts: seq<Host>, h: Host)
    ensures ParentOf(ByName(hosts), h).Some? ==> ParentOf(ByName(hosts), h).value in hosts
  {
    if h.via in ByName(hosts) {
    }
  }

  /** p is the last host listed under the name. */
  ghost predicate LastNamed(hosts: seq<Host>, name: string, p: Host) {
    exists i :: 0 <= i < |hosts| && hosts[i] == p && p.name == name && NoneAfter(hosts, name, i)
  }

  ghost predicate NoneAfter(hosts: seq<Host>, name: string, i: int) {
    forall j :: 0 <= j < |hosts| && i < j ==> hosts[j].name != name
  }

  lemma {:induction false} NamedIs(hosts: seq<Host>, name: string)
    ensures name in ByName(hosts) ==> LastNamed(hosts, name, ByName(hosts)[name])
    ensures name !in ByName(hosts) ==> NoneAfter(hosts, name, -1)
  {
    if hosts != [] {
      var n := |hosts| - 1;
      NamedIs(hosts[..n], name);
      if hosts[n].name == name {
        assert NoneAfter(hosts, name, n);
      } else if name in ByName(hosts[..n]) {
        var p := ByName(hosts[..n])[name];
        var i :| 0 <= i < n && hosts[..n][i] == p && p.name == name && NoneAfter(hosts[..n], name, i);
        assert forall j :: 0 <= j < n ==> hosts[..n][j] == hosts[j];
        assert NoneAfter(hosts, name, i);
      } else {
        assert forall j :: 0 <= j < n ==> hosts[..n][j] == hosts[j];
      }
    }
  }

  /** The gateway of a host is the last host listed under its `via` name, unless that
      is the host itself. */
  lemma ParentIs(hosts: seq<Host>, h: Host, p: Host)
    ensures ParentOf(ByName(hosts), h) == Some(p) <==> h.via != "" && p.id != h.id && LastNamed(hosts, h.via, p)
  {
    NamedIs(hosts, h.via);
    if LastNamed(hosts, h.via, p) {
      var i :| 0 <= i < |hosts| && hosts[i] == p && p.name == h.via && NoneAfter(hosts, h.via, i);
      if h.via in ByName(hosts) {
        var q := ByName(hosts)[h.via];
        var j :| 0 <= j < |hosts| && hosts[j] == q && q.name == h.via && NoneAfter(hosts, h.via, j);
        assert i == j;
      }
    }
  }

  // ---- Following links ----

  /** k links up. */
  function Up(hosts: seq<Host>, h: Host, k: nat): (r: Option<Host>)
  {
    if k == 0 then Some(h)
    else
      var below := Up(hosts, h, k - 1);
      if below.None? then None else ParentOf(ByName(hosts), below.value)
  }

  lemma {:induction false} UpPlus(hosts: seq<Host>, h: Host, i: nat, k: nat)
    ensures Up(hosts, h, i + k) == if Up(hosts, h, i).None? then None else Up(hosts, Up(hosts, h, i).value, k)
  {
    if k > 0 {
      UpPlus(hosts, h, i, k - 1);
    }
  }

  lemma {:induction false} UpListed(hosts: seq<Host>, h: Host, k: nat)
    requires h in hosts
    ensures Up(hosts, h, k).Some? ==> Up(hosts, h, k).value in hosts
  {
    if k > 0 {
      UpListed(hosts, h, k - 1);
      if Up(hosts, h, k - 1).Some? {
        ParentListed(hosts, Up(hosts, h, k - 1).value);
      }
    }
  }

  /** The host comes back to itself after exactly k links, k at most the guard. */
  ghost predicate OnShortCycle(hosts: seq<Host>, h: Host) {
    exists k :: 1 <= k <= GUARD && Up(hosts, h, k) == Some(h)
  }

  /** The host is on a cycle the guarded search does not see. */
  ghost predicate OnLongCycle(hosts: seq<Host>, h: Host) {
    && h in hosts
    && (exists m :: m >= 1 && Up(hosts, h, m) == Some(h))
    && !OnShortCycle(hosts, h)
  }

  /** The parent in the forest. */
  ghost function TreeParent(hosts: seq<Host>, h: Host): Option<Host> {
    if OnShortCycle(hosts, h) then None else ParentOf(ByName(hosts), h)
  }

  ghost predicate ComesBack(hosts: seq<Host>, h: Host, links: nat) {
    1 <= links <= 32 && Up(hosts, h, links) == Some(h)
  }

  /** A host hangs from its gateway unless at most 32 links from it come back to it. */
  lemma HangsIff(hosts: seq<Host>, h: Host, p: Host)
    ensures TreeParent(hosts, h) == Some(p) <==>
              ParentOf(ByName(hosts), h) == Some(p) && forall links :: !ComesBack(hosts, h, links)
    ensures Up(hosts, h, 0) == Some(h) && Up(hosts, h, 1) == ParentOf(ByName(hosts), h)
  {
    assert Up(hosts, h, 0) == Some(h);
    hide ParentOf, ByName;
    if links :| ComesBack(hosts, h, links) {
      assert OnShortCycle(hosts, h);
    }
    if OnShortCycle(hosts, h) {
      var k :| 1 <= k <= GUARD && Up(hosts, h, k) == Some(h);
      assert ComesBack(hosts, h, k);
    }
  }

  // ---- Depth in the forest ----

  /** The forest path from h ends in a root after d hosts. */
  ghost predicate DepthIs(hosts: seq<Host>, h: Host, d: nat)
    decreases d
  {
    && d >= 1
    && (TreeParent(hosts, h).None? <==> d == 1)
    && (d > 1 ==> DepthIs(hosts, TreeParent(hosts, h).value, d - 1))
  }

  /** The host is placed: its forest path reaches a root. */
  ghost predicate Grounded(hosts: seq<Host>, h: Host) {
    exists d :: DepthIs(hosts, h, d)
  }

  lemma {:induction false} DepthUnique(hosts: seq<Host>, h: Host, d: nat, e: nat)
    requires DepthIs(hosts, h, d) && DepthIs(hosts, h, e)
    ensures d == e
    decreases d
  {
    if d > 1 {
      DepthUnique(hosts, TreeParent(hosts, h).value, d - 1, e - 1);
    }
  }

  /** The forest path from h upwards. */
  ghost function PathUp(hosts: seq<Host>, h: Host, d: nat): (p: seq<Host>)
    requires DepthIs(hosts, h, d)
    ensures |p| == d
    decreases d
  {
    if d == 1 then [h] else [h] + PathUp(hosts, TreeParent(hosts, h).value, d - 1)
  }

  lemma {:induction false} PathFacts(hosts: seq<Host>, h: Host, d: nat)
    requires h in hosts && DepthIs(hosts, h, d)
    ensures forall i :: 0 <= i < d ==> PathUp(hosts, h, d)[i] in hosts && DepthIs(hosts, PathUp(hosts, h, d)[i], d - i)
    decreases d
  {
    if d > 1 {
      ParentListed(hosts, h);
      PathFacts(hosts, TreeParent(hosts, h).value, d - 1);
    }
  }

  lemma PathDistinct(hosts: seq<Host>, h: Host, d: nat)
    requires h in hosts && DepthIs(hosts, h, d)
    ensures forall i, j :: 0 <= i < j < d ==> PathUp(hosts, h, d)[i] != PathUp(hosts, h, d)[j]
  {
    PathFacts(hosts, h, d);
    var p := PathUp(hosts, h, d);
    forall i, j | 0 <= i < j < d
      ensures p[i] != p[j]
    {
      if p[i] == p[j] {
        DepthUnique(hosts, p[i], d - i, d - j);
      }
    }
  }

  // ---- Counting ----

  lemma {:induction false} Distinct<T>(s: seq<T>, all: set<T>)
    requires forall i, j :: 0 <= i < j < |s| ==> s[i] != s[j]
    requires forall i :: 0 <= i < |s| ==> s[i] in all
    ensures |s| <= |all|
  {
    if s != [] {
      var n := |s| - 1;
      assert forall i :: 0 <= i < n ==> s[i] != s[n];
      Distinct(s[..n], all - {s[n]});
    }
  }

  lemma {:induction false} SetOfSeq<T>(s: seq<T>)
    ensures |set x | x in s| <= |s|
  {
    if s != [] {
      var n := |s| - 1;
      SetOfSeq(s[..n]);
      assert (set x | x in s) == (set x | x in s[..n]) + {s[n]};
    }
  }

  /** No forest path is longer than the number of hosts. */
  lemma DepthBound(hosts: seq<Host>, h: Host, d: nat)
    requires h in hosts && DepthIs(hosts, h, d)
    ensures d <= |hosts|
  {
    PathFacts(hosts, h, d);
    PathDistinct(hosts, h, d);
    Distinct(PathUp(hosts, h, d), set x | x in hosts);
    SetOfSeq(hosts);
  }

  // ---- Exactly the hosts that lead to a long cycle are not placed ----

  /** No host within the first k links up is a root. */
  ghost predicate NoRootWithin(hosts: seq<Host>, h: Host, k: nat) {
    forall i :: 0 <= i < k ==> Up(hosts, h, i).Some? && TreeParent(hosts, Up(hosts, h, i).value).Some?
  }

  lemma UpOne(hosts: seq<Host>, h: Host, k: nat)
    requires TreeParent(hosts, h).Some?
    ensures Up(hosts, h, k + 1) == Up(hosts, TreeParent(hosts, h).value, k)
  {
    assert Up(hosts, h, 0) == Some(h);
    assert Up(hosts, h, 1) == ParentOf(ByName(hosts), h);
    UpPlus(hosts, h, 1, k);
  }

  /** Either a root is met within k links, and the host has a depth d, or none is. */
  lemma {:induction false} RootOrNone(hosts: seq<Host>, h: Host, k: nat) returns (d: nat)
    ensures d > 0 ==> DepthIs(hosts, h, d)
    ensures d == 0 ==> NoRootWithin(hosts, h, k)
    decreases k
  {
    if k == 0 {
      d := 0;
    } else if TreeParent(hosts, h).None? {
      d := 1;
    } else {
      d := RootOrNone(hosts, TreeParent(hosts, h).value, k - 1);
      if d > 0 {
        d := d + 1;
      } else {
        forall i | 0 <= i < k
          ensures Up(hosts, h, i).Some? && TreeParent(hosts, Up(hosts, h, i).value).Some?
        {
          if i > 0 {
            UpOne(hosts, h, i - 1);
          }
        }
      }
    }
  }

  /** If the next host up comes back to itself, so does a host on the cycle. */
  lemma CycleBack(hosts: seq<Host>, h: Host, m: nat, p: Host, k: nat)
    requires m >= 1 && Up(hosts, h, m) == Some(h) && Up(hosts, h, 1) == Some(p) && Up(hosts, p, k) == Some(p)
    ensures Up(hosts, h, k) == Some(h)
  {
    UpPlus(hosts, h, 1, m - 1);
    UpPlus(hosts, p, k, m - 1);
    UpPlus(hosts, p, m - 1, k);
  }

  /** Once on a long cycle, always on a long cycle. */
  lemma LongCycleStep(hosts: seq<Host>, h: Host)
    requires OnLongCycle(hosts, h)
    ensures TreeParent(hosts, h).Some? && OnLongCycle(hosts, TreeParent(hosts, h).value)
  {
    var m :| m >= 1 && Up(hosts, h, m) == Some(h);
    UpPlus(hosts, h, 1, m - 1);
    assert Up(hosts, h, 0) == Some(h);
    assert Up(hosts, h, 1) == TreeParent(hosts, h);
    var x := TreeParent(hosts, h).value;
    ParentListed(hosts, h);
    UpPlus(hosts, x, m - 1, 1);
    assert Up(hosts, x, m) == Some(x);
    if k :| 1 <= k <= GUARD && Up(hosts, x, k) == Some(x) {
      CycleBack(hosts, h, m, x, k);
      assert false;
    }
  }

  lemma {:induction false} LongCycleNoDepth(hosts: seq<Host>, h: Host, d: nat)
    requires OnLongCycle(hosts, h)
    ensures !DepthIs(hosts, h, d)
    decreases d
  {
    LongCycleStep(hosts, h);
    if d > 1 {
      LongCycleNoDepth(hosts, TreeParent(hosts, h).value, d - 1);
    }
  }

  ghost predicate LeadsToLongCycle(hosts: seq<Host>, h: Host) {
    exists i :: Up(hosts, h, i).Some? && OnLongCycle(hosts, Up(hosts, h, i).value)
  }

  lemma {:induction false} LeadsNoDepth(hosts: seq<Host>, h: Host, i: nat, d: nat)
    requires Up(hosts, h, i).Some? && OnLongCycle(hosts, Up(hosts, h, i).value)
    requires DepthIs(hosts, h, d)
    ensures false
    decreases i
  {
    if i == 0 {
      LongCycleNoDepth(hosts, h, d);
    } else if d == 1 {
      // a root on a short cycle: everything it reaches is on that cycle too
      UpPlus(hosts, h, 1, i - 1);
      assert OnShortCycle(hosts, h);
      ShortCycleStays(hosts, h, i);
    } else {
      UpOne(hosts, h, i - 1);
      LeadsNoDepth(hosts, TreeParent(hosts, h).value, i - 1, d - 1);
    }
  }

  lemma ShortCycleStays(hosts: seq<Host>, h: Host, i: nat)
    requires OnShortCycle(hosts, h) && Up(hosts, h, i).Some?
    ensures OnShortCycle(hosts, Up(hosts, h, i).value)
  {
    var k :| 1 <= k <= GUARD && Up(hosts, h, k) == Some(h);
    UpPlus(hosts, h, k, i);
    UpPlus(hosts, h, i, k);
  }

  /** A repeat within the first n links puts the host on the way to a long cycle,
      when no root is met. */
  lemma RepeatIsLong(hosts: seq<Host>, h: Host, i: nat, j: nat, k: nat)
    requires h in hosts && i < j <= k && NoRootWithin(hosts, h, k)
    requires Up(hosts, h, i) == Up(hosts, h, j)
    ensures LeadsToLongCycle(hosts, h)
  {
    UpPlus(hosts, h, i, j - i);
    UpListed(hosts, h, i);
    var x := Up(hosts, h, i).value;
    assert Up(hosts, x, j - i) == Some(x);
    assert TreeParent(hosts, x).Some?;
    assert OnLongCycle(hosts, x);
  }

  lemma NotGroundedLeads(hosts: seq<Host>, h: Host)
    requires h in hosts && !Grounded(hosts, h)
    ensures LeadsToLongCycle(hosts, h)
  {
    var n := |hosts| + 1;
    var d := RootOrNone(hosts, h, n);
    assert d == 0;
    var s := seq(n, i requires 0 <= i < n => Up(hosts, h, i));
    if forall i, j :: 0 <= i < j < n ==> s[i] != s[j] {
      var t := seq(n, i requires 0 <= i < n => Up(hosts, h, i).value);
      forall i | 0 <= i < n ensures t[i] in hosts {
        UpListed(hosts, h, i);
      }
      assert forall i, j :: 0 <= i < j < n ==> s[i] != s[j] && s[i] == Some(t[i]) && s[j] == Some(t[j]);
      Distinct(t, set x | x in hosts);
      SetOfSeq(hosts);
      assert false;
    } else {
      var i, j :| 0 <= i < j < n && s[i] == s[j];
      RepeatIsLong(hosts, h, i, j, n);
    }
  }

  /** The placed hosts are exactly those whose links do not lead into a cycle of
      more than GUARD hosts. */
  lemma PlacedIff(hosts: seq<Host>, h: Host)
    requires h in hosts
    ensures Grounded(hosts, h) <==> !LeadsToLongCycle(hosts, h)
  {
    if Grounded(hosts, h) && LeadsToLongCycle(hosts, h) {
      var d :| DepthIs(hosts, h, d);
      var i :| Up(hosts, h, i).Some? && OnLongCycle(hosts, Up(hosts, h, i).value);
      LeadsNoDepth(hosts, h, i, d);
    }
    if !Grounded(hosts, h) {
      NotGroundedLeads(hosts, h);
    }
  }

  /** So every host is placed if and only if no cycle is longer than the guard. */
  lemma AllPlacedIff(hosts: seq<Host>)
    ensures (forall h :: h in hosts ==> Grounded(hosts, h)) <==> (forall h :: h in hosts ==> !OnLongCycle(hosts, h))
  {
    forall h | h in hosts
      ensures OnLongCycle(hosts, h) ==> !Grounded(hosts, h)
      ensures !Grounded(hosts, h) ==> exists x :: x in hosts && OnLongCycle(hosts, x)
    {
      PlacedIff(hosts, h);
      if OnLongCycle(hosts, h) {
        assert Up(hosts, h, 0) == Some(h);
      }
      if !Grounded(hosts, h) {
        var i :| Up(hosts, h, i).Some? && OnLongCycle(hosts, Up(hosts, h, i).value);
      }
    }
  }
}
