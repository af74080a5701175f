/** What the PTY fan-out promises its browser clients, as a state machine over
    the steps that the session lock makes atomic. */
module PtyStream {

  const RING_CAP: nat := 512 * 1024
  const SUB_BUF: nat := 256

  newtype Byte = x: int | 0 <= x < 256
  type Bytes = seq<Byte>

  /** A chunk offered to a client, and how many chunks it had not taken yet. */
  datatype Offer = Offer(chunk: Bytes, backlog: nat)

  /** One attached browser. The last four fields are history: the bytes Read has
      returned, the session's output length at attach and when the client was cut
      off (so far), and every chunk pumped in between. */
  datatype Client = Client(replay: Bytes, rpos: nat, queue: seq<Bytes>, subscribed: bool,
                           got: Bytes, born: nat, upto: nat, offers: seq<Offer>)

  /** A session with every client it ever had; output is all it ever printed. */
  datatype Session = Session(ring: Bytes, closed: bool, output: Bytes, clients: seq<Client>)

  datatype ReadResult = Data(bytes: Bytes) | Eof | WouldBlock

  datatype Op = Pump(chunk: Bytes) | Attach | Read(k: nat, room: nat) | Detach(k: nat) | Teardown

  const INITIAL := Session([], false, [], [])

  function Tail(s: Bytes, n: nat): Bytes {
    if |s| > n then s[|s| - n..] else s
  }

  // ---- Steps ----

  /** The non-blocking send of one chunk to one client. */
  function OfferTo(c: Client, chunk: Bytes): Client {
    if !c.subscribed then c
    else c.(queue := if |c.queue| < SUB_BUF then c.queue + [chunk] else c.queue,
            upto := c.upto + |chunk|,
            offers := c.offers + [Offer(chunk, |c.queue|)])
  }

  function OfferAll(cs: seq<Client>, chunk: Bytes): seq<Client> {
    seq(|cs|, i requires 0 <= i < |cs| => OfferTo(cs[i], chunk))
  }

  /** Any order of the send loop: the clients in done have been offered the chunk. */
  ghost function OfferSome(cs: seq<Client>, chunk: Bytes, done: set<nat>): seq<Client> {
    seq(|cs|, i requires 0 <= i < |cs| => if i in done then OfferTo(cs[i], chunk) else cs[i])
  }

  lemma OfferNext(cs: seq<Client>, chunk: Bytes, subs: set<nat>, todo: set<nat>, id: nat)
    requires id < |cs| && id in todo && todo <= subs
    ensures OfferSome(cs, chunk, subs - todo)[id] == cs[id]
    ensures OfferSome(cs, chunk, subs - (todo - {id}))
         == OfferSome(cs, chunk, subs - todo)[id := OfferTo(cs[id], chunk)]
  {
  }

  lemma OfferDone(cs: seq<Client>, chunk: Bytes, done: set<nat>)
    requires forall i :: 0 <= i < |cs| && cs[i].subscribed ==> i in done
    ensures OfferSome(cs, chunk, done) == OfferAll(cs, chunk)
  {
  }

  /** Likewise for the close loop: the clients outside subs are cut off. */
  ghost function CutOffOthers(cs: seq<Client>, subs: set<nat>): seq<Client> {
    seq(|cs|, i requires 0 <= i < |cs| => if i in subs then cs[i] else cs[i].(subscribed := false))
  }

  lemma CutOffNext(cs: seq<Client>, subs: set<nat>, id: nat)
    requires id < |cs| && id in subs
    ensures CutOffOthers(cs, subs)[id] == cs[id]
    ensures CutOffOthers(cs, subs - {id}) == CutOffOthers(cs, subs)[id := cs[id].(subscribed := false)]
  {
  }

  lemma CutOffFirst(cs: seq<Client>, subs: set<nat>)
    requires forall i :: 0 <= i < |cs| ==> (i in subs <==> cs[i].subscribed)
    ensures CutOffOthers(cs, subs) == cs
    ensures CutOffOthers(cs, {}) == CutOffAll(cs)
  {
  }

  function PumpStep(s: Session, chunk: Bytes): Session {
    if chunk == [] then s
    else s.(ring := Tail(s.ring + chunk, RING_CAP),
            output := s.output + chunk,
            clients := OfferAll(s.clients, chunk))
  }

  /** Snapshot and subscribe; a closed session refuses. */
  function AttachStep(s: Session): Session {
    if s.closed then s
    else s.(clients := s.clients + [Client(s.ring, 0, [], true, [], |s.output|, |s.output|, [])])
  }

  function Min(a: nat, b: nat): nat { if a <= b then a else b }

  /** One Read into a buffer with the given room. */
  function ReadOne(c: Client, room: nat): (Client, ReadResult) {
    if c.rpos < |c.replay| then
      var p := c.replay[c.rpos..][..Min(room, |c.replay| - c.rpos)];
      (c.(rpos := c.rpos + |p|, got := c.got + p), Data(p))
    else if c.queue != [] then
      var b := c.queue[0];
      var p := b[..Min(room, |b|)];
      var rest := c.(queue := c.queue[1..], got := c.got + p);
      (if |p| < |b| then rest.(replay := b[|p|..], rpos := 0) else rest, Data(p))
    else (c, if c.subscribed then WouldBlock else Eof)
  }

  function ReadStep(s: Session, k: nat, room: nat): Session {
    if k < |s.clients| then s.(clients := s.clients[k := ReadOne(s.clients[k], room).0]) else s
  }

  function DetachStep(s: Session, k: nat): Session {
    if k < |s.clients| then s.(clients := s.clients[k := s.clients[k].(subscribed := false)]) else s
  }

  function CutOffAll(cs: seq<Client>): seq<Client> {
    seq(|cs|, i requires 0 <= i < |cs| => cs[i].(subscribed := false))
  }

  function TeardownStep(s: Session): Session {
    s.(closed := true, clients := CutOffAll(s.clients))
  }

  function Step(s: Session, op: Op): Session {
    match op
    case Pump(chunk) => PumpStep(s, chunk)
    case Attach => AttachStep(s)
    case Read(k, room) => ReadStep(s, k, room)
    case Detach(k) => DetachStep(s, k)
    case Teardown => TeardownStep(s)
  }

  /** Any interleaving of steps. */
  function RunFrom(s: Session, ops: seq<Op>): Session
    decreases |ops|
  {
    if ops == [] then s else RunFrom(Step(s, ops[0]), ops[1..])
  }

  function Run(ops: seq<Op>): Session { RunFrom(INITIAL, ops) }

  // ---- What a client is owed ----

  function Flatten(chunks: seq<Bytes>): Bytes {
    if chunks == [] then [] else chunks[0] + Flatten(chunks[1..])
  }

  function Chunks(offers: seq<Offer>): seq<Bytes> {
    if offers == [] then [] else [offers[0].chunk] + Chunks(offers[1..])
  }

  /** The offers that found room: those made while fewer than SUB_BUF were waiting. */
  function Accepted(offers: seq<Offer>): seq<Bytes> {
    if offers == [] then []
    else if offers[0].backlog < SUB_BUF then [offers[0].chunk] + Accepted(offers[1..])
    else Accepted(offers[1..])
  }

  /** Bytes the client already holds but Read has not returned yet. */
  function Pending(c: Client): Bytes
    requires c.rpos <= |c.replay|
  {
    c.replay[c.rpos..] + Flatten(c.queue)
  }

  ghost predicate NothingDropped(c: Client) {
    forall k :: 0 <= k < |c.offers| ==> c.offers[k].backlog < SUB_BUF
  }

  /** The invariant of one client: what it has read and still holds is the ring
      snapshot at its attach followed by the accepted offers, and the offers are
      exactly the output between attach and cut-off. */
  ghost predicate ClientInv(c: Client, output: Bytes, closed: bool) {
    && c.rpos <= |c.replay|
    && c.born <= c.upto <= |output|
    && (c.subscribed ==> c.upto == |output| && !closed)
    && |c.queue| <= SUB_BUF
    && (forall k :: 0 <= k < |c.queue| ==> c.queue[k] != [])
    && Flatten(Chunks(c.offers)) == output[c.born..c.upto]
    && c.got + Pending(c) == Tail(output[..c.born], RING_CAP) + Flatten(Accepted(c.offers))
  }

  ghost predicate Inv(s: Session) {
    && s.ring == Tail(s.output, RING_CAP)
    && forall k :: 0 <= k < |s.clients| ==> ClientInv(s.clients[k], s.output, s.closed)
  }

  // ---- Lists of chunks ----

  lemma {:induction false} FlattenAppend(chunks: seq<Bytes>, b: Bytes)
    ensures Flatten(chunks + [b]) == Flatten(chunks) + b
  {
    if chunks == [] {
      assert chunks + [b] == [b];
    } else {
      FlattenAppend(chunks[1..], b);
      assert (chunks + [b])[1..] == chunks[1..] + [b];
    }
  }

  lemma {:induction false} OffersAppend(offers: seq<Offer>, o: Offer)
    ensures Chunks(offers + [o]) == Chunks(offers) + [o.chunk]
    ensures Accepted(offers + [o]) == Accepted(offers) + (if o.backlog < SUB_BUF then [o.chunk] else [])
  {
    if offers == [] {
      assert offers + [o] == [o];
    } else {
      OffersAppend(offers[1..], o);
      assert (offers + [o])[1..] == offers[1..] + [o];
    }
  }

  lemma {:induction false} AllAccepted(offers: seq<Offer>)
    requires forall k :: 0 <= k < |offers| ==> offers[k].backlog < SUB_BUF
    ensures Accepted(offers) == Chunks(offers)
  {
    if offers != [] {
      AllAccepted(offers[1..]);
    }
  }

  // ---- Every step keeps the invariant ----

  lemma TailOfTail(s: Bytes, b: Bytes, n: nat)
    ensures Tail(Tail(s, n) + b, n) == Tail(s + b, n)
  {
  }

  lemma OfferTaken(c: Client, chunk: Bytes, owed: Bytes)
    requires c.rpos <= |c.replay| && c.got + Pending(c) == owed
    ensures var d := c.(queue := c.queue + [chunk]); d.got + Pending(d) == owed + chunk
  {
    FlattenAppend(c.queue, chunk);
    var held := c.replay[c.rpos..];
    assert c.got + (held + (Flatten(c.queue) + chunk)) == (c.got + (held + Flatten(c.queue))) + chunk;
  }

  lemma OfferRecorded(offers: seq<Offer>, o: Offer, start: Bytes)
    ensures Flatten(Chunks(offers + [o])) == Flatten(Chunks(offers)) + o.chunk
    ensures start + Flatten(Accepted(offers + [o]))
         == start + Flatten(Accepted(offers)) + (if o.backlog < SUB_BUF then o.chunk else [])
  {
    OffersAppend(offers, o);
    FlattenAppend(Chunks(offers), o.chunk);
    if o.backlog < SUB_BUF {
      FlattenAppend(Accepted(offers), o.chunk);
    } else {
      assert Accepted(offers + [o]) == Accepted(offers);
    }
  }

  lemma OfferKeeps(c: Client, output: Bytes, closed: bool, chunk: Bytes)
    requires ClientInv(c, output, closed) && chunk != []
    ensures ClientInv(OfferTo(c, chunk), output + chunk, closed)
  {
    var after := output + chunk;
    var start := Tail(output[..c.born], RING_CAP);
    assert after[..c.born] == output[..c.born];
    if c.subscribed {
      OfferRecorded(c.offers, Offer(chunk, |c.queue|), start);
      assert after[c.born..c.upto + |chunk|] == output[c.born..c.upto] + chunk;
      if |c.queue| < SUB_BUF {
        OfferTaken(c, chunk, start + Flatten(Accepted(c.offers)));
      }
    } else {
      assert after[c.born..c.upto] == output[c.born..c.upto];
    }
  }

  lemma MovePrefix(got: Bytes, held: Bytes, n: nat, rest: Bytes)
    requires n <= |held|
    ensures (got + held[..n]) + (held[n..] + rest) == got + (held + rest)
  {
    assert held[..n] + held[n..] == held;
  }

  /** A Read moves bytes from what is held to what has been read, in order. */
  lemma ReadMoves(c: Client, room: nat)
    requires c.rpos <= |c.replay|
    ensures var (d, r) := ReadOne(c, room);
      && d.rpos <= |d.replay|
      && d.got + Pending(d) == c.got + Pending(c)
      && d.got == c.got + (if r.Data? then r.bytes else [])
      && (r.Data? ==> |r.bytes| <= room)
  {
    var d := ReadOne(c, room).0;
    if c.rpos < |c.replay| {
      var held := c.replay[c.rpos..];
      var n := Min(room, |held|);
      assert d.replay[d.rpos..] == held[n..];
      MovePrefix(c.got, held, n, Flatten(c.queue));
    } else if c.queue != [] {
      var b := c.queue[0];
      var n := Min(room, |b|);
      assert c.replay[c.rpos..] == [];
      assert Pending(c) == b + Flatten(c.queue[1..]);
      assert d.replay[d.rpos..] == b[n..];
      MovePrefix(c.got, b, n, Flatten(c.queue[1..]));
    }
  }

  lemma ReadKeeps(c: Client, output: Bytes, closed: bool, room: nat)
    requires ClientInv(c, output, closed)
    ensures ClientInv(ReadOne(c, room).0, output, closed)
  {
    ReadMoves(c, room);
  }

  lemma StepKeeps(s: Session, op: Op)
    requires Inv(s)
    ensures Inv(Step(s, op))
  {
    var t := Step(s, op);
    match op {
      case Pump(chunk) =>
        if chunk != [] {
          TailOfTail(s.output, chunk, RING_CAP);
          forall k | 0 <= k < |t.clients| ensures ClientInv(t.clients[k], t.output, t.closed) {
            OfferKeeps(s.clients[k], s.output, s.closed, chunk);
          }
        }
      case Attach =>
        if !s.closed {
        }
      case Read(k, room) =>
        if k < |s.clients| {
          ReadKeeps(s.clients[k], s.output, s.closed, room);
        }
      case Detach(k) =>
      case Teardown =>
    }
  }

  lemma {:induction false} RunKeeps(s: Session, ops: seq<Op>)
    requires Inv(s)
    ensures Inv(RunFrom(s, ops))
    decreases |ops|
  {
    if ops != [] {
      StepKeeps(s, ops[0]);
      RunKeeps(Step(s, ops[0]), ops[1..]);
    }
  }

  /** Every reachable session satisfies the invariant. */
  lemma Reachable(ops: seq<Op>)
    ensures Inv(Run(ops))
  {
    RunKeeps(INITIAL, ops);
  }

  // ---- The promises ----

  /** No gap, no duplication: in any interleaving, a client for which nothing was
      dropped has read or still holds exactly the session's output from
      min(total, RING_CAP) bytes before its attach up to its cut-off. */
  lemma NoGapNoDuplicate(ops: seq<Op>, k: nat)
    requires k < |Run(ops).clients| && NothingDropped(Run(ops).clients[k])
    ensures var s := Run(ops); var c := s.clients[k];
      && c.rpos <= |c.replay|
      && c.born <= c.upto <= |s.output|
      && (c.subscribed ==> c.upto == |s.output|)
      && c.got + Pending(c) == s.output[c.born - Min(c.born, RING_CAP)..c.upto]
  {
    Reachable(ops);
    var s := Run(ops);
    var c := s.clients[k];
    AllAccepted(c.offers);
    var from := c.born - Min(c.born, RING_CAP);
    assert s.output[from..c.upto] == s.output[from..c.born] + s.output[c.born..c.upto];
    assert Tail(s.output[..c.born], RING_CAP) == s.output[from..c.born];
  }

  /** With drops: a client's bytes are its replay followed by whole chunks, in
      order, out of those pumped since its attach; the missing ones are exactly
      those offered while SUB_BUF chunks were waiting. */
  lemma DroppedOnlyWhenFull(ops: seq<Op>, k: nat)
    requires k < |Run(ops).clients|
    ensures var s := Run(ops); var c := s.clients[k];
      && c.rpos <= |c.replay|
      && c.born <= c.upto <= |s.output|
      && s.output[c.born..c.upto] == Flatten(Chunks(c.offers))
      && c.got + Pending(c) == Tail(s.output[..c.born], RING_CAP) + Flatten(Accepted(c.offers))
  {
    Reachable(ops);
  }

  /** What a client is owed in all: its replay, then the offers accepted for it. */
  ghost function Owed(s: Session, k: nat): Bytes
    requires k < |s.clients| && s.clients[k].born <= |s.output|
  {
    Tail(s.output[..s.clients[k].born], RING_CAP) + Flatten(Accepted(s.clients[k].offers))
  }

  /** Read reports the end exactly to a cut-off client that holds nothing more,
      and it has then been given all it is owed. */
  lemma EofMeansAll(ops: seq<Op>, k: nat, room: nat)
    requires k < |Run(ops).clients|
    ensures var s := Run(ops); var c := s.clients[k];
      && c.born <= |s.output|
      && (ReadOne(c, room).1 == Eof <==> !c.subscribed && c.rpos == |c.replay| && c.queue == [])
      && (ReadOne(c, room).1 == Eof ==> c.got == Owed(s, k))
  {
    Reachable(ops);
  }

  /** How often a run reads client k into a non-empty buffer. */
  function ReadsOf(k: nat, ops: seq<Op>): nat {
    if ops == [] then 0
    else (if ops[0].Read? && ops[0].k == k && ops[0].room > 0 then 1 else 0) + ReadsOf(k, ops[1..])
  }

  /** Nothing but its own reads touches a client that has been cut off, and
      what it is owed never changes again. */
  lemma CutOffStep(s: Session, op: Op, k: nat)
    requires Inv(s) && k < |s.clients| && !s.clients[k].subscribed
    ensures Inv(Step(s, op))
    ensures k < |Step(s, op).clients| && !Step(s, op).clients[k].subscribed
    ensures Owed(Step(s, op), k) == Owed(s, k)
    ensures !(op.Read? && op.k == k) ==> Step(s, op).clients[k] == s.clients[k]
  {
    StepKeeps(s, op);
    var t := Step(s, op);
    assert s.output <= t.output;
    assert t.output[..s.clients[k].born] == s.output[..s.clients[k].born];
  }

  /** Once cut off, a client that keeps reading into non-empty buffers reaches the
      end: whatever the buffer sizes and whatever else happens in between, it has
      by then read everything it is owed. */
  lemma {:induction false} Drains(s: Session, k: nat, ops: seq<Op>)
    requires Inv(s) && k < |s.clients| && !s.clients[k].subscribed
    requires ReadsOf(k, ops) >= |Pending(s.clients[k])|
    ensures var t := RunFrom(s, ops);
      && k < |t.clients| && t.clients[k].born <= |t.output|
      && ReadOne(t.clients[k], 1).1 == Eof
      && t.clients[k].got == Owed(t, k) == Owed(s, k)
    decreases |ops|
  {
    var c := s.clients[k];
    if ops == [] {
    } else {
      CutOffStep(s, ops[0], k);
      assert [ops[0]][1..] == [];
      Drains(Step(s, ops[0]), k, ops[1..]);
    }
  }
}
