/** The session's output pump and its attached browsers, with the shared
    channels they talk through. Each method is one critical section. */
module Pty {
  import opened PtyStream

  /** A buffered channel of output chunks. Sending on a closed one, or closing it
      twice, would panic. */
  class Chan {
    var queue: seq<Bytes>
    var closed: bool
    ghost const owner: nat // the subscription it was made for

    constructor (ghost owner: nat)
      ensures queue == [] && !closed && this.owner == owner
    {
      queue, closed, this.owner := [], false, owner;
    }

    /** Send, or skip when the buffer is full. */
    method TrySend(b: Bytes)
      requires !closed
      modifies `queue
      ensures queue == if |old(queue)| < SUB_BUF then old(queue) + [b] else old(queue)
    {
      if |queue| < SUB_BUF {
        queue := queue + [b];
      }
    }

    method Close()
      requires !closed
      modifies `closed
      ensures closed
    {
      closed := true;
    }
  }

  /** One browser's handle. */
  class Handle {
    const ls: LiveSession
    const subID: nat
    const ch: Chan
    var replay: Bytes
    var rpos: nat
    var detached: bool

    constructor (ls: LiveSession, subID: nat, ch: Chan, replay: Bytes)
      ensures this.ls == ls && this.subID == subID && this.ch == ch
      ensures this.replay == replay && rpos == 0 && !detached
    {
      this.ls, this.subID, this.ch := ls, subID, ch;
      this.replay, rpos, detached := replay, 0, false;
    }

    /** The real fields agree with what the specification says of this client. */
    ghost predicate Shows(v: Client)
      reads this, ch
    {
      v.replay == replay && v.rpos == rpos && v.queue == ch.queue && v.subscribed == !ch.closed
    }

    /** This handle is client i of the session, on that channel. */
    ghost predicate Plays(session: LiveSession, i: nat, c: Chan, v: Client)
      reads this, c
    {
      && ls == session && subID == i && ch == c && c.owner == i
      && Shows(v) && (detached ==> !v.subscribed)
    }

    /** Copy what fits to the front of p. */
    static method Copy(p: array<Byte>, src: Bytes) returns (n: nat)
      modifies p
      ensures n == Min(p.Length, |src|)
      ensures p[..n] == src[..n]
      ensures forall i :: n <= i < p.Length ==> p[i] == old(p[i])
    {
      n := Min(p.Length, |src|);
      for i := 0 to n
        invariant p[..i] == src[..i]
        invariant forall k :: n <= k < p.Length ==> p[k] == old(p[k])
      {
        p[i] := src[i];
      }
    }

    /** Replay first, then live output; a live client with nothing to take would
        block. */
    method Read(p: array<Byte>) returns (n: nat, r: ReadResult)
      requires ls.Valid() && subID < |ls.clients| && ls.clients[subID] == this
      modifies p, `replay, `rpos, ch, ls`views
      ensures ls.Valid()
      ensures ls.State() == Step(old(ls.State()), Op.Read(subID, p.Length))
      ensures r == ReadOne(old(ls.views)[subID], p.Length).1
      ensures r.Data? ==> n == |r.bytes| <= p.Length && p[..n] == r.bytes
      ensures !r.Data? ==> n == 0
      ensures n <= p.Length && forall i :: n <= i < p.Length ==> p[i] == old(p[i])
    {
      ghost var v := ls.views[subID];
      n, r := Take(p, v);
      ls.views := ls.views[subID := ReadOne(v, p.Length).0];
    }

    /** The body of Read, on this client alone. */
    method Take(p: array<Byte>, ghost v: Client) returns (n: nat, r: ReadResult)
      requires Shows(v)
      modifies p, `replay, `rpos, ch
      ensures Shows(ReadOne(v, p.Length).0) && ch.closed == old(ch.closed)
      ensures r == ReadOne(v, p.Length).1
      ensures r.Data? ==> n == |r.bytes| <= p.Length && p[..n] == r.bytes
      ensures !r.Data? ==> n == 0
      ensures n <= p.Length && forall i :: n <= i < p.Length ==> p[i] == old(p[i])
    {
      if rpos < |replay| {
        n := Copy(p, replay[rpos..]);
        r := Data(p[..n]);
        rpos := rpos + n;
      } else if ch.queue == [] {
        n, r := 0, if ch.closed then Eof else WouldBlock;
      } else {
        var b := ch.queue[0];
        ch.queue := ch.queue[1..];
        n := Copy(p, b);
        r := Data(p[..n]);
        if n < |b| {
          replay, rpos := b[n..], 0;
        }
      }
    }

    /** Detach without ending the session. */
    method Detach()
      requires ls.Valid() && subID < |ls.clients| && ls.clients[subID] == this
      modifies `detached, ls`subs, ls`views, ch
      ensures ls.Valid() && detached
      ensures ls.State() == Step(old(ls.State()), Op.Detach(subID))
    {
      if !detached && subID in ls.subs {
        ls.Drop(subID);
      }
      detached := true;
    }
  }

  class LiveSession {
    var ring: Bytes
    var subs: map<nat, Chan>
    var nextID: nat
    var closed: bool
    // Everything printed; every client there ever was, its channel, and the
    // specification's view of it.
    ghost var output: Bytes
    ghost var clients: seq<Handle>
    ghost var chans: seq<Chan>
    ghost var views: seq<Client>

    constructor ()
      ensures Valid() && State() == INITIAL
    {
      ring, subs, nextID, closed := [], map[], 0, false;
      output, clients, chans, views := [], [], [], [];
    }

    ghost function State(): Session
      reads this
    {
      Session(ring, closed, output, views)
    }

    /** Subscription ids index the clients; a channel is open exactly while it is
        subscribed, so nothing is sent on or closes a closed one. */
    ghost predicate ValidSubs()
      reads this, clients, chans
    {
      && nextID == |clients| == |chans| == |views|
      && (forall i :: i in subs ==> i < |chans| && subs[i] == chans[i])
      && (forall i :: 0 <= i < |views| ==> (i in subs <==> views[i].subscribed))
      && (forall i :: 0 <= i < |clients| ==> clients[i].Plays(this, i, chans[i], views[i]))
    }

    ghost predicate Valid()
      reads this, clients, chans
    {
      ValidSubs() && (closed ==> subs == map[])
    }

    /** One chunk from the PTY: into the capped ring, and to every subscriber
        that has room. */
    method Pump(buf: array<Byte>, n: nat)
      requires Valid() && n <= buf.Length
      modifies `ring, `output, `views, chans
      ensures Valid() && clients == old(clients)
      ensures State() == Step(old(State()), Op.Pump(buf[..n]))
    {
      if n == 0 {
        return;
      }
      var b := buf[..n];
      ring := ring + b;
      if |ring| > RING_CAP {
        ring := ring[|ring| - RING_CAP..];
      }
      output := output + b;
      FanOut(b);
      assert b == buf[..n];
    }

    /** The send loop of the pump, in any order of the subscriptions. */
    method FanOut(b: Bytes)
      requires Valid()
      modifies `views, chans
      ensures Valid()
      ensures views == OfferAll(old(views), b)
    {
      var todo := subs.Keys;
      while todo != {}
        invariant todo <= subs.Keys && Valid()
        invariant views == OfferSome(old(views), b, subs.Keys - todo)
      {
        var id :| id in todo;
        OfferNext(old(views), b, subs.Keys, todo, id);
        todo := todo - {id};
        SendTo(id, b);
      }
      OfferDone(old(views), b, subs.Keys);
    }

    method SendTo(id: nat, b: Bytes)
      requires Valid() && id in subs
      modifies `views, subs[id]
      ensures Valid()
      ensures views == old(views)[id := OfferTo(old(views[id]), b)]
    {
      views := views[id := OfferTo(views[id], b)];
      subs[id].TrySend(b);
    }

    /** Snapshot the ring and subscribe, or refuse when the session has ended. */
    method Attach() returns (a: Handle?)
      requires Valid()
      modifies `subs, `nextID, `clients, `chans, `views
      ensures Valid()
      ensures State() == Step(old(State()), Op.Attach)
      ensures a == null <==> old(closed)
      ensures clients == old(clients) + (if a == null then [] else [a])
      ensures a != null ==> fresh(a) && fresh(a.ch)
    {
      if closed {
        return null;
      }
      var ch := new Chan(nextID);
      a := new Handle(this, nextID, ch, ring);
      Subscribe(a);
    }

    method Subscribe(c: Handle)
      requires Valid() && !closed
      requires c.Plays(this, nextID, c.ch, Client(ring, 0, [], true, [], |output|, |output|, []))
      modifies `subs, `nextID, `clients, `chans, `views
      ensures Valid() && clients == old(clients) + [c]
      ensures State() == Step(old(State()), Op.Attach)
    {
      subs := subs[nextID := c.ch];
      nextID := nextID + 1;
      clients, chans := clients + [c], chans + [c.ch];
      views := views + [Client(ring, 0, [], true, [], |output|, |output|, [])];
    }

    /** End of the session: close and forget every subscription, once. */
    method Teardown()
      requires Valid()
      modifies `closed, `subs, `views, chans
      ensures Valid() && closed && clients == old(clients)
      ensures State() == Step(old(State()), Op.Teardown)
    {
      if closed {
        CutOffFirst(views, subs.Keys);
      } else {
        closed := true;
        CloseAll();
      }
    }

    method CloseAll()
      requires ValidSubs()
      modifies `subs, `views, chans
      ensures ValidSubs() && subs == map[]
      ensures views == CutOffAll(old(views))
    {
      CutOffFirst(views, subs.Keys);
      while subs != map[]
        invariant ValidSubs() && views == CutOffOthers(old(views), subs.Keys)
        decreases subs.Keys
      {
        var id :| id in subs;
        CutOffNext(old(views), subs.Keys, id);
        Drop(id);
      }
    }

    /** Close one subscription's channel and forget it. */
    method Drop(id: nat)
      requires ValidSubs() && id in subs
      modifies `subs, `views, subs[id]
      ensures ValidSubs() && subs == old(subs) - {id}
      ensures views == old(views)[id := old(views[id]).(subscribed := false)]
    {
      views := views[id := views[id].(subscribed := false)];
      var ch := subs[id];
      subs := subs - {id};
      ch.Close();
    }
  }
}
