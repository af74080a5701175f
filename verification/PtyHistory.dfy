/** A session told from the list of its steps alone: what was printed, which clients
    there are, and what part of the output each of them is owed. */
module PtyHistory {
  import opened Common
  import opened PtyStream

  lemma {:induction false} OneMore(s: Session, ops: seq<Op>, op: Op)
    ensures RunFrom(s, ops + [op]) == Step(RunFrom(s, ops), op)
    decreases |ops|
  {
    hide Step;
    if ops == [] {
      assert ops + [op] == [op] && [op][1..] == [];
      assert RunFrom(s, [op]) == RunFrom(Step(s, op), []);
    } else {
      assert (ops + [op])[1..] == ops[1..] + [op];
      OneMore(Step(s, ops[0]), ops[1..], op);
    }
  }

  // ---- One more chunk ----

  /** A chunk reaches every subscribed client that has fewer than 256 waiting, at the
      end of what waits; a full queue keeps what it has. Either way the offer is
      recorded. Nothing happens to the other clients. */
  ghost predicate Offered(c: Client, d: Client, chunk: Bytes) {
    && (c.subscribed ==>
          && d.offers == c.offers + [Offer(chunk, |c.queue|)]
          && (d.queue == c.queue + [chunk] <==> |c.queue| < 256)
          && (d.queue == c.queue <==> |c.queue| >= 256)
          && d.upto == c.upto + |chunk|
          && (d.replay, d.rpos, d.got, d.born, d.subscribed) == (c.replay, c.rpos, c.got, c.born, true))
    && (!c.subscribed ==> d == c)
  }

  lemma PumpOffers(ops: seq<Op>, chunk: Bytes, k: nat)
    requires chunk != [] && k < |Run(ops).clients|
    ensures |Run(ops + [Pump(chunk)]).clients| == |Run(ops).clients|
    ensures Offered(Run(ops).clients[k], Run(ops + [Pump(chunk)]).clients[k], chunk)
  {
    OneMore(INITIAL, ops, Pump(chunk));
    var q := Run(ops).clients[k].queue;
    assert |q + [chunk]| != |q|;
  }

  // ---- One read ----

  /** What is given out next: the rest of the replay, or else the first chunk waiting. */
  ghost function Front(c: Client): Bytes
    requires c.rpos <= |c.replay|
  {
    if c.rpos < |c.replay| then c.replay[c.rpos..] else if c.queue != [] then c.queue[0] else []
  }

  /** A read gives as much of the next piece as fits and leaves the rest pending. It
      waits only when nothing is pending and more can come. */
  lemma ReadGives(ops: seq<Op>, k: nat, room: nat)
    requires k < |Run(ops).clients|
    ensures var c := Run(ops).clients[k];
      && c.rpos <= |c.replay|
      && var (d, r) := ReadOne(c, room);
      && (Pending(c) == [] ==> d == c && r == if c.subscribed then WouldBlock else Eof)
      && (Pending(c) != [] ==>
            && r == Data(Pending(c)[..Min(room, |Front(c)|)]) && |Front(c)| > 0
            && d.rpos <= |d.replay| && Pending(d) == Pending(c)[Min(room, |Front(c)|)..]
            && |d.queue| + 1 >= |c.queue|)
      && (Run(ops + [Read(k, room)]) == Run(ops).(clients := Run(ops).clients[k := d]))
  {
    Reachable(ops);
    OneMore(INITIAL, ops, Read(k, room));
    var s := Run(ops);
    assert ClientInv(s.clients[k], s.output, s.closed);
    hide Run, Inv, ClientInv;
    PieceGiven(s.clients[k], room);
  }

  lemma PieceGiven(c: Client, room: nat)
    requires c.rpos <= |c.replay| && forall j :: 0 <= j < |c.queue| ==> c.queue[j] != []
    ensures var (d, r) := ReadOne(c, room);
      && (Pending(c) == [] ==> d == c && r == if c.subscribed then WouldBlock else Eof)
      && (Pending(c) != [] ==>
            && r == Data(Pending(c)[..Min(room, |Front(c)|)]) && |Front(c)| > 0
            && d.rpos <= |d.replay| && Pending(d) == Pending(c)[Min(room, |Front(c)|)..]
            && |d.queue| + 1 >= |c.queue|)
  {
    var d := ReadOne(c, room).0;
    ReadMoves(c, room);
    if c.rpos < |c.replay| {
      assert Pending(c) == Front(c) + Flatten(c.queue);
    } else if c.queue != [] {
      assert Pending(c) == c.queue[0] + Flatten(c.queue[1..]);
      assert Pending(c)[0] == c.queue[0][0];
    }
    if Pending(c) != [] {
      var n := Min(room, |Front(c)|);
      assert Pending(c)[..n] == Front(c)[..n];
      assert d.got == c.got + Pending(c)[..n];
      Rest(c.got, Pending(c), n, Pending(d));
    }
  }

  lemma Rest(got: Bytes, held: Bytes, n: nat, after: Bytes)
    requires n <= |held| && (got + held[..n]) + after == got + held
    ensures after == held[n..]
  {
    var a, b := (got + held[..n]) + after, got + held;
    assert a[|got| + n..] == after && b[|got| + n..] == held[n..];
  }

  // ---- The time line ----

  /** Everything the steps pump. */
  function Printed(ops: seq<Op>): Bytes {
    if ops == [] then []
    else Printed(Init(ops)) + if Last(ops).Pump? then Last(ops).chunk else []
  }

  /** The positions of the attaches that are let in: no teardown came before. */
  function Entries(ops: seq<Op>): seq<nat> {
    if ops == [] then []
    else Entries(Init(ops)) + if Last(ops) == Attach && Teardown !in Init(ops) then [|ops| - 1] else []
  }

  /** The step cuts client k off. */
  predicate CutsOff(op: Op, k: nat) { op == Detach(k) || op == Teardown }

  /** Where the client let in as number k stops being one: the first step after its
      attach that cuts it off, or the end of the steps. */
  ghost predicate StaysUntil(ops: seq<Op>, k: nat, from: nat, end: nat) {
    && from < end <= |ops|
    && (forall i :: from < i < end ==> !CutsOff(ops[i], k))
    && (end < |ops| ==> CutsOff(ops[end], k))
  }

  /** The client's place in the output is what the steps say. */
  ghost predicate Placed(c: Client, ops: seq<Op>, k: nat, from: nat, end: nat) {
    && StaysUntil(ops, k, from, end)
    && c.born == |Printed(ops[..from])| && c.upto == |Printed(ops[..end])|
    && (c.subscribed <==> end == |ops|)
  }

  ghost predicate Told(s: Session, ops: seq<Op>) {
    && s.output == Printed(ops)
    && (s.closed <==> Teardown in ops)
    && |s.clients| == |Entries(ops)|
    && forall k :: 0 <= k < |s.clients| ==> Fits(s.clients[k], ops, k)
  }

  ghost predicate Fits(c: Client, ops: seq<Op>, k: nat)
    requires k < |Entries(ops)|
  {
    exists end :: Placed(c, ops, k, Entries(ops)[k], end)
  }

  lemma {:induction false} PrintedPrefix(ops: seq<Op>, op: Op, n: nat)
    requires n <= |ops|
    ensures (ops + [op])[..n] == ops[..n]
    ensures Printed(ops + [op]) == Printed(ops) + if op.Pump? then op.chunk else []
  {
    assert Init(ops + [op]) == ops;
  }

  lemma {:induction false} EntriesWithin(ops: seq<Op>)
    ensures forall k :: 0 <= k < |Entries(ops)| ==> Entries(ops)[k] < |ops| && ops[Entries(ops)[k]] == Attach
  {
    if ops != [] {
      EntriesWithin(Init(ops));
    }
  }

  /** What a step can do to a client's place. */
  ghost predicate Moved(c: Client, d: Client, op: Op, k: nat) {
    && d.born == c.born
    && (!c.subscribed ==> !d.subscribed && d.upto == c.upto)
    && (c.subscribed ==>
          && d.upto == c.upto + (if op.Pump? then |op.chunk| else 0)
          && (d.subscribed <==> !CutsOff(op, k)))
  }

  /** A client that has been let in stays where it is or moves on with the output. */
  lemma PlacedNext(c: Client, d: Client, ops: seq<Op>, op: Op, k: nat, from: nat, end: nat)
    requires Placed(c, ops, k, from, end)
    requires Moved(c, d, op, k)
    ensures exists e :: Placed(d, ops + [op], k, from, e)
  {
    hide Printed;
    var all := ops + [op];
    PrintedPrefix(ops, op, from);
    PrintedPrefix(ops, op, end);
    assert all[..|ops|] == ops && all[..|all|] == all && ops[..|ops|] == ops;
    if c.subscribed && d.subscribed {
      assert Placed(d, all, k, from, |all|);
    } else {
      assert Placed(d, all, k, from, end);
    }
  }

  lemma StepMoves(s: Session, op: Op)
    ensures var t := Step(s, op);
      && t.output == s.output + (if op.Pump? then op.chunk else [])
      && (t.closed <==> s.closed || op == Teardown)
      && |t.clients| == |s.clients| + (if op == Attach && !s.closed then 1 else 0)
      && (forall k :: 0 <= k < |s.clients| ==> Moved(s.clients[k], t.clients[k], op, k))
      && (op == Attach && !s.closed ==>
            var c := t.clients[|s.clients|]; c.born == c.upto == |s.output| && c.subscribed)
  {
    assert s.output + [] == s.output;
  }

  lemma EntriesNext(ops: seq<Op>, op: Op)
    ensures Entries(ops + [op]) == Entries(ops) + if op == Attach && Teardown !in ops then [|ops|] else []
    ensures Teardown in ops + [op] <==> Teardown in ops || op == Teardown
  {
    assert Init(ops + [op]) == ops;
  }

  lemma ToldNext(s: Session, ops: seq<Op>, op: Op)
    requires Told(s, ops)
    ensures Told(Step(s, op), ops + [op])
  {
    var t, all := Step(s, op), ops + [op];
    PrintedPrefix(ops, op, 0);
    EntriesNext(ops, op);
    StepMoves(s, op);
    hide Step, Printed, Placed, Entries, Moved;
    forall k | 0 <= k < |t.clients| ensures Fits(t.clients[k], all, k) {
      if k < |s.clients| {
        assert Fits(s.clients[k], ops, k) && Entries(all)[k] == Entries(ops)[k];
        var end :| Placed(s.clients[k], ops, k, Entries(ops)[k], end);
        PlacedNext(s.clients[k], t.clients[k], ops, op, k, Entries(ops)[k], end);
      } else {
        JustIn(t.clients[k], ops, k);
        assert Placed(t.clients[k], all, k, Entries(all)[k], |ops| + 1);
      }
    }
  }

  lemma JustIn(c: Client, ops: seq<Op>, k: nat)
    requires c.born == c.upto == |Printed(ops)| && c.subscribed
    ensures Placed(c, ops + [Attach], k, |ops|, |ops| + 1)
  {
    PrintedPrefix(ops, Attach, |ops|);
    assert ops[..|ops|] == ops && (ops + [Attach])[..|ops| + 1] == ops + [Attach];
  }

  lemma {:induction false} AllTold(ops: seq<Op>)
    ensures Told(Run(ops), ops)
  {
    if ops != [] {
      AllTold(Init(ops));
      OneMore(INITIAL, Init(ops), Last(ops));
      assert ops == Init(ops) + [Last(ops)];
      ToldNext(Run(Init(ops)), Init(ops), Last(ops));
    }
  }

  /** The session is what its steps say: the output is what was pumped, it is closed
      once it was torn down, the clients are the attaches let in, and each of them is
      owed the output from its attach to the step that cut it off. When nothing was
      dropped for it, what it has read and still holds is that and, before it, the
      last 512 KiB printed before its attach. */
  lemma Chronicle(ops: seq<Op>, k: nat) returns (end: nat)
    requires k < |Run(ops).clients|
    ensures Run(ops).output == Printed(ops) && (Run(ops).closed <==> Teardown in ops)
    ensures |Run(ops).clients| == |Entries(ops)|
    ensures var c, from := Run(ops).clients[k], Entries(ops)[k];
      && StaysUntil(ops, k, from, end) && (c.subscribed <==> end == |ops|)
      && c.born == |Printed(ops[..from])| && c.upto == |Printed(ops[..end])|
      && (NothingDropped(c) ==>
            && c.rpos <= |c.replay| && c.born <= c.upto <= |Printed(ops)|
            && c.got + Pending(c) == Printed(ops)[c.born - Min(c.born, 524288)..c.upto])
  {
    AllTold(ops);
    assert Fits(Run(ops).clients[k], ops, k);
    end :| Placed(Run(ops).clients[k], ops, k, Entries(ops)[k], end);
    if NothingDropped(Run(ops).clients[k]) {
      NoGapNoDuplicate(ops, k);
    }
  }

  /** How many clients there are, even when there is none. */
  lemma ClientsAre(ops: seq<Op>)
    ensures |Run(ops).clients| == |Entries(ops)| && Run(ops).output == Printed(ops)
    ensures Run(ops).closed <==> Teardown in ops
    ensures forall k :: 0 <= k < |Entries(ops)| ==> Entries(ops)[k] < |ops| && ops[Entries(ops)[k]] == Attach
  {
    AllTold(ops);
    EntriesWithin(ops);
  }

  // ---- Enough room ----

  /** No more wait than were offered, at every offer. */
  ghost predicate Waiting(c: Client) {
    && |c.queue| <= |c.offers|
    && forall k :: 0 <= k < |c.offers| ==> c.offers[k].backlog <= k
  }

  lemma StepWaiting(s: Session, op: Op)
    requires forall k :: 0 <= k < |s.clients| ==> Waiting(s.clients[k])
    ensures forall k :: 0 <= k < |Step(s, op).clients| ==> Waiting(Step(s, op).clients[k])
  {
  }

  lemma {:induction false} AllWaiting(ops: seq<Op>)
    ensures forall k :: 0 <= k < |Run(ops).clients| ==> Waiting(Run(ops).clients[k])
  {
    if ops != [] {
      AllWaiting(Init(ops));
      OneMore(INITIAL, Init(ops), Last(ops));
      assert ops == Init(ops) + [Last(ops)];
      StepWaiting(Run(Init(ops)), Last(ops));
    }
  }

  /** A client that was offered at most 256 chunks has lost none, read or not. */
  lemma RoomForAll(ops: seq<Op>, k: nat)
    requires k < |Run(ops).clients| && |Run(ops).clients[k].offers| <= 256
    ensures NothingDropped(Run(ops).clients[k])
  {
    AllWaiting(ops);
  }
}
