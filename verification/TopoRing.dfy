/** Rings of gateways: the inputs on which the drawing and the hop chain fall short. */
module TopoRing {
  import opened Common
  import opened HopChain
  import opened TopoGraph

  function Name(i: nat): (s: string)
    ensures |s| == i + 1
  {
    if i == 0 then "a" else Name(i - 1) + "a"
  }

  function Next(n: nat, i: nat): nat { if i + 1 == n then 0 else i + 1 }

  /** n hosts, each reached through the next and the last through the first. */
  function Ring(n: nat): seq<Host> {
    seq(n, i requires 0 <= i < n => Host(i, Name(i), Name(Next(n, i)), ""))
  }

  lemma {:induction false} RingNames(n: nat, m: nat, i: nat)
    requires i < m <= n
    ensures Name(i) in ByName(Ring(n)[..m]) && ByName(Ring(n)[..m])[Name(i)] == Ring(n)[i]
  {
    hide Name;
    assert Ring(n)[..m][..m - 1] == Ring(n)[..m - 1];
    if i < m - 1 {
      RingNames(n, m - 1, i);
      Longer(i, m - 1);
    }
  }

  lemma Longer(i: nat, j: nat)
    requires i < j
    ensures Name(i) != Name(j)
  {
    assert |Name(i)| < |Name(j)|;
  }

  lemma RingParent(n: nat, i: nat)
    requires n >= 2 && i < n
    ensures ParentOf(ByName(Ring(n)), Ring(n)[i]) == Some(Ring(n)[Next(n, i)])
  {
    hide ByName;
    assert Ring(n)[..n] == Ring(n);
    RingNames(n, n, Next(n, i));
    assert |Name(Next(n, i))| > 0;
  }

  /** k links up from host i, once round at most. */
  function Turned(n: nat, i: nat, k: nat): nat
    requires i < n && k <= n
  {
    if i + k < n then i + k else i + k - n
  }

  lemma {:induction false} RingUp(n: nat, i: nat, k: nat)
    requires n >= 2 && i < n && k <= n
    ensures Up(Ring(n), Ring(n)[i], k) == Some(Ring(n)[Turned(n, i, k)])
  {
    hide Ring, ByName, ParentOf;
    RingSize(n);
    if k > 0 {
      RingUp(n, i, k - 1);
      RingParent(n, Turned(n, i, k - 1));
    }
  }

  lemma RingSize(n: nat)
    ensures |Ring(n)| == n && UniqueIds(Ring(n))
    ensures forall i, j :: 0 <= i < j < n ==> Ring(n)[i] != Ring(n)[j]
  {
  }

  /** A ring is drawn if and only if it has at most 32 hosts. */
  lemma RingDrawnIff(n: nat, i: nat)
    requires n >= 2 && i < n
    ensures |Ring(n)| == n && (Grounded(Ring(n), Ring(n)[i]) <==> n <= 32)
  {
    hide Ring;
    RingSize(n);
    var hosts := Ring(n);
    var h := hosts[i];
    RingUp(n, i, n);
    if n <= GUARD {
      assert OnShortCycle(hosts, h);
      assert DepthIs(hosts, h, 1);
    } else {
      forall k | 1 <= k <= GUARD ensures Up(hosts, h, k) != Some(h) {
        RingUp(n, i, k);
      }
      RingUp(n, i, 0);
      assert OnLongCycle(hosts, h);
      PlacedIff(hosts, h);
    }
  }

  /** The smallest ring that is left out of the drawing. */
  lemma ThirtyThreeAreLeftOut()
    ensures |Ring(33)| == 33 && !Grounded(Ring(33), Ring(33)[0])
  {
    RingDrawnIff(33, 0);
  }

  /** Of two hosts behind each other the drawing makes roots, while the hops to the
      first go through the second and the first again. */
  lemma TwoBehindEachOther()
    ensures |Ring(2)| == 2
    ensures var hosts := Ring(2); var h := hosts[0];
            && DepthIs(hosts, h, 1) && Reverse(PathUp(hosts, h, 1)) == [h]
            && Up(hosts, h, 2).Some? && NoRepeatBefore(hosts, h, 2) && StopsAt(hosts, h, 2)
            && Above(hosts, h, 2) == [h, hosts[1], h]
  {
    hide Ring, ByName, ParentOf;
    RingSize(2);
    var hosts := Ring(2);
    var h := hosts[0];
    RingUp(2, 0, 0);
    RingUp(2, 0, 1);
    RingUp(2, 0, 2);
    assert OnShortCycle(hosts, h);
    assert SameIdAt(hosts, h, 0, 2);
    assert Up(hosts, h, 1) == Some(hosts[1]) && Up(hosts, h, 2) == Some(h);
    hide Up;
    assert Above(hosts, h, 0) == [h] && Above(hosts, h, 1) == [hosts[1]] + Above(hosts, h, 0);
    assert Above(hosts, h, 2) == [h] + Above(hosts, h, 1);
    assert hosts[0].id != hosts[1].id;
    assert !SameIdAt(hosts, h, 0, 1);
  }
}
