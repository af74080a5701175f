/** The chat socket's reader and its one worker: jobs through a bounded channel,
    and the shared cancel function that Stop and a disconnect call. */
module ChatWorker {
  import opened Common

  const JOB_BUF: nat := 8

  /** Where the worker is with a job: received, registered for cancelling, back
      from the run, or unregistered again. */
  datatype Worker = Idle | Got(j: nat) | Registered(j: nat) | Returned(j: nat) | Cleared(j: nat) | Exited

  /** Reading, blocked sending a job, about to close the channel, or gone. */
  datatype Reader = Reading | Sending(j: nat) | Leaving | Gone

  datatype Mark = Started(j: nat) | Ended(j: nat)

  /** Jobs are numbered as they are accepted. The log and the set of jobs whose
      context was cancelled while they ran are history. */
  datatype State = State(accepted: nat, queue: seq<nat>, closed: bool, reader: Reader, worker: Worker,
                         cancelCur: Option<nat>, cancelled: set<nat>, finished: seq<nat>, log: seq<Mark>)

  const INITIAL := State(0, [], false, Reading, Idle, None, {}, [], [])

  datatype Op =
    | Message | Push | Stop | Disconnect | CloseJobs // the reader
    | Receive | Register | Return | Clear | Recycle | Exit // the worker

  // ---- Steps; one that is not enabled changes nothing ----

  function CancelNow(s: State): State {
    if s.cancelCur.Some? then s.(cancelled := s.cancelled + {s.cancelCur.value}) else s
  }

  function ReaderStep(s: State, op: Op): State {
    match op
    case Message => if s.reader == Reading then s.(accepted := s.accepted + 1, reader := Sending(s.accepted)) else s
    case Push =>
      if s.reader.Sending? && |s.queue| < JOB_BUF then s.(queue := s.queue + [s.reader.j], reader := Reading) else s
    case Stop => if s.reader == Reading then CancelNow(s) else s
    case Disconnect => if s.reader == Reading then CancelNow(s).(reader := Leaving) else s
    case CloseJobs => if s.reader == Leaving then s.(closed := true, reader := Gone) else s
    case _ => s
  }

  function WorkerStep(s: State, op: Op): State {
    match op
    case Receive =>
      if s.worker == Idle && s.queue != [] then s.(worker := Got(s.queue[0]), queue := s.queue[1..]) else s
    case Register =>
      if s.worker.Got? then
        s.(worker := Registered(s.worker.j), cancelCur := Some(s.worker.j), log := s.log + [Started(s.worker.j)])
      else s
    case Return =>
      if s.worker.Registered? then s.(worker := Returned(s.worker.j), log := s.log + [Ended(s.worker.j)]) else s
    case Clear => if s.worker.Returned? then s.(worker := Cleared(s.worker.j), cancelCur := None) else s
    case Recycle => if s.worker.Cleared? then s.(worker := Idle, finished := s.finished + [s.worker.j]) else s
    case Exit => if s.worker == Idle && s.queue == [] && s.closed then s.(worker := Exited) else s
    case _ => s
  }

  function Step(s: State, op: Op): State {
    if op.Message? || op.Push? || op.Stop? || op.Disconnect? || op.CloseJobs? then ReaderStep(s, op)
    else WorkerStep(s, op)
  }

  /** Any interleaving of reader and worker steps. */
  function RunFrom(s: State, ops: seq<Op>): State
    decreases |ops|
  {
    if ops == [] then s else RunFrom(Step(s, ops[0]), ops[1..])
  }

  function Run(ops: seq<Op>): State { RunFrom(INITIAL, ops) }

  // ---- The invariant ----

  function Upto(n: nat): seq<nat> {
    seq(n, i => i)
  }

  function InHand(w: Worker): seq<nat> {
    match w
    case Got(j) => [j]
    case Registered(j) => [j]
    case Returned(j) => [j]
    case Cleared(j) => [j]
    case _ => []
  }

  function BeingSent(r: Reader): seq<nat> {
    if r.Sending? then [r.j] else []
  }

  /** Start and end marks of the first n jobs, one job after the other. */
  function Rounds(n: nat): seq<Mark> {
    if n == 0 then [] else Rounds(n - 1) + [Started(n - 1), Ended(n - 1)]
  }

  ghost predicate Inv(s: State) {
    && Upto(s.accepted) == s.finished + InHand(s.worker) + s.queue + BeingSent(s.reader)
    && |s.queue| <= JOB_BUF
    && (s.closed <==> s.reader == Gone)
    && (s.worker == Exited ==> s.closed && s.queue == [])
    && s.cancelCur == (if s.worker.Registered? || s.worker.Returned? then Some(s.worker.j) else None)
    && s.log == (match s.worker
                 case Idle => Rounds(|s.finished|)
                 case Got(_) => Rounds(|s.finished|)
                 case Registered(j) => Rounds(|s.finished|) + [Started(j)]
                 case Returned(_) => Rounds(|s.finished| + 1)
                 case Cleared(_) => Rounds(|s.finished| + 1)
                 case Exited => Rounds(|s.finished|))
    && (forall j :: j in s.cancelled ==> j < |s.finished| + |InHand(s.worker)|)
    && (s.worker.Got? ==> s.worker.j !in s.cancelled)
  }

  /** The job in hand is the next one in order. */
  lemma InOrder(s: State)
    requires Inv(s)
    ensures InHand(s.worker) != [] ==> InHand(s.worker) == [|s.finished|]
    ensures forall k :: 0 <= k < |s.finished| ==> s.finished[k] == k
    ensures s.worker == Idle && s.queue != [] ==> s.queue[0] == |s.finished|
  {
    var all := s.finished + InHand(s.worker) + s.queue + BeingSent(s.reader);
    assert forall k :: 0 <= k < |all| ==> all[k] == k;
    forall k | 0 <= k < |s.finished| ensures s.finished[k] == k {
      assert all[k] == s.finished[k];
    }
    if InHand(s.worker) != [] {
      assert all[|s.finished|] == InHand(s.worker)[0];
    } else if s.queue != [] {
      assert all[|s.finished|] == s.queue[0];
    }
  }

  lemma MessageKeeps(s: State)
    requires Inv(s)
    ensures Inv(ReaderStep(s, Message))
  {
    hide Rounds;
    assert Upto(s.accepted + 1) == Upto(s.accepted) + [s.accepted];
  }

  lemma PushKeeps(s: State)
    requires Inv(s)
    ensures Inv(ReaderStep(s, Push))
  {
    hide Rounds, Upto;
    var t := ReaderStep(s, Push);
    if t != s {
      assert s.finished + InHand(s.worker) + s.queue + [s.reader.j] == t.finished + InHand(t.worker) + t.queue + [];
    }
  }

  lemma ReaderKeeps(s: State, op: Op)
    requires Inv(s)
    ensures Inv(ReaderStep(s, op))
  {
    match op {
      case Message => MessageKeeps(s);
      case Push => PushKeeps(s);
      case _ =>
        InOrder(s);
        hide Rounds, Upto;
    }
  }

  lemma WorkerKeeps(s: State, op: Op)
    requires Inv(s)
    ensures Inv(WorkerStep(s, op))
  {
    var t := WorkerStep(s, op);
    InOrder(s);
    match op {
      case Receive =>
        if t != s {
          assert s.finished + [] + s.queue == t.finished + [s.queue[0]] + t.queue;
        }
      case Recycle =>
        if t != s {
          assert s.finished + [s.worker.j] + s.queue == t.finished + [] + t.queue;
        }
      case Return =>
        if t != s {
          assert Rounds(|s.finished| + 1) == Rounds(|s.finished|) + [Started(s.worker.j), Ended(s.worker.j)];
          assert t.log == Rounds(|s.finished| + 1);
        }
      case _ =>
    }
  }

  lemma StepKeeps(s: State, op: Op)
    requires Inv(s)
    ensures Inv(Step(s, op))
  {
    ReaderKeeps(s, op);
    WorkerKeeps(s, op);
  }

  lemma {:induction false} RunKeeps(s: State, ops: seq<Op>)
    requires Inv(s)
    ensures Inv(RunFrom(s, ops))
    decreases |ops|
  {
    if ops != [] {
      StepKeeps(s, ops[0]);
      RunKeeps(Step(s, ops[0]), ops[1..]);
    }
  }

  // ---- The promises ----

  /** In any interleaving, the accepted jobs in order are the finished ones, then
      the one in hand, then the queued ones, then the one still being sent: none is
      lost, repeated or overtaken. */
  lemma Conserved(ops: seq<Op>)
    ensures var s := Run(ops);
      Upto(s.accepted) == s.finished + InHand(s.worker) + s.queue + BeingSent(s.reader)
  {
    RunKeeps(INITIAL, ops);
  }

  /** Runs are one after the other, in order of acceptance: the log is Started 0,
      Ended 0, Started 1, Ended 1, and so on. */
  lemma NeverOverlap(ops: seq<Op>)
    ensures exists n :: Run(ops).log == Rounds(n) || Run(ops).log == Rounds(n) + [Started(n)]
  {
    RunKeeps(INITIAL, ops);
    InOrder(Run(ops));
    var s := Run(ops);
    var n := if s.worker.Returned? || s.worker.Cleared? then |s.finished| + 1 else |s.finished|;
    assert s.log == Rounds(n) || s.log == Rounds(n) + [Started(n)];
  }

  /** Nothing is sent on the closed channel, and it is closed only once. */
  lemma NoSendAfterClose(ops: seq<Op>, op: Op)
    requires Run(ops).closed
    ensures Step(Run(ops), op).queue == Run(ops).queue
            || (Run(ops).queue != [] && Step(Run(ops), op).queue == Run(ops).queue[1..])
    ensures Step(Run(ops), op).accepted == Run(ops).accepted && Step(Run(ops), op).closed
    ensures !Run(ops).reader.Sending? && Run(ops).reader != Leaving
  {
    RunKeeps(INITIAL, ops);
  }

  // ---- What Stop reaches ----

  /** Somewhere in the run the reader cancelled while job j was registered. */
  ghost predicate StoppedWhileRegistered(s: State, ops: seq<Op>, j: nat)
    decreases |ops|
  {
    ops != [] &&
    ((s.reader == Reading && (ops[0].Stop? || ops[0].Disconnect?)
      && (s.worker == Registered(j) || s.worker == Returned(j)))
     || StoppedWhileRegistered(Step(s, ops[0]), ops[1..], j))
  }

  lemma {:induction false} CancelledIff(s: State, ops: seq<Op>, j: nat)
    requires Inv(s)
    ensures j in RunFrom(s, ops).cancelled <==> j in s.cancelled || StoppedWhileRegistered(s, ops, j)
    decreases |ops|
  {
    if ops != [] {
      StepKeeps(s, ops[0]);
      CancelledIff(Step(s, ops[0]), ops[1..], j);
    }
  }

  /** A run is cancelled if and only if a Stop or the disconnect came while it was
      the registered one; no stop reaches a later run. */
  lemma StopReaches(ops: seq<Op>, j: nat)
    ensures j in Run(ops).cancelled <==> StoppedWhileRegistered(INITIAL, ops, j)
  {
    CancelledIff(INITIAL, ops, j);
  }

  /** So a Stop between taking a job off the channel and registering it is lost:
      the run starts and is not cancelled. */
  lemma EarlyStopIsLost()
    ensures var s := Run([Message, Push, Receive, Stop, Register]);
      s.worker == Registered(0) && s.cancelled == {}
  {
    var s1 := Step(INITIAL, Message);
    var s2 := Step(s1, Push);
    assert s2.queue == [0];
    var s3 := Step(s2, Receive);
    var s4 := Step(s3, Stop);
    var s5 := Step(s4, Register);
    assert [Message, Push, Receive, Stop, Register][1..] == [Push, Receive, Stop, Register];
    assert [Push, Receive, Stop, Register][1..] == [Receive, Stop, Register];
    assert [Receive, Stop, Register][1..] == [Stop, Register];
    assert [Stop, Register][1..] == [Register];
    assert [Register][1..] == [];
    assert RunFrom(s4, [Register]) == RunFrom(s5, []);
    assert RunFrom(s3, [Stop, Register]) == RunFrom(s4, [Register]);
    assert RunFrom(s2, [Receive, Stop, Register]) == RunFrom(s3, [Stop, Register]);
    assert RunFrom(s1, [Push, Receive, Stop, Register]) == RunFrom(s2, [Receive, Stop, Register]);
  }

  // ---- Draining after the disconnect ----

  /** The worker's next step, if it has one. */
  function NextOp(s: State): Op {
    match s.worker
    case Idle => if s.queue != [] then Receive else Exit
    case Got(_) => Register
    case Registered(_) => Return
    case Returned(_) => Clear
    case Cleared(_) => Recycle
    case Exited => Exit
  }

  /** Worker steps left once the channel is closed. */
  function Left(s: State): nat {
    5 * |s.queue| +
    match s.worker
    case Idle => 1
    case Got(_) => 5
    case Registered(_) => 4
    case Returned(_) => 3
    case Cleared(_) => 2
    case Exited => 0
  }

  /** The worker alone, for n steps. */
  function Work(s: State, n: nat): State
    decreases n
  {
    if n == 0 then s else Work(Step(s, NextOp(s)), n - 1)
  }

  /** After the channel is closed the worker finishes every accepted job and exits,
      in exactly Left(s) steps of its own. */
  lemma {:induction false} Drains(s: State)
    requires Inv(s) && s.closed
    ensures var t := Work(s, Left(s));
      t.worker == Exited && t.finished == Upto(s.accepted)
    decreases Left(s)
  {
    if Left(s) == 0 {
      assert s.worker == Exited && s.queue == [];
      assert s.finished + [] + [] + [] == s.finished;
    } else {
      var t := Step(s, NextOp(s));
      StepKeeps(s, NextOp(s));
      assert Left(t) == Left(s) - 1;
      Drains(t);
    }
  }

  // ---- Never stuck ----

  lemma {:induction false} RunOn(s: State, a: seq<Op>, b: seq<Op>)
    ensures RunFrom(s, a + b) == RunFrom(RunFrom(s, a), b)
    decreases |a|
  {
    hide Step;
    if a == [] {
      assert a + b == b;
    } else {
      assert (a + b)[1..] == a[1..] + b;
      RunOn(Step(s, a[0]), a[1..], b);
    }
  }

  lemma RunOne(s: State, op: Op)
    ensures RunFrom(s, [op]) == Step(s, op)
  {
    assert [op][1..] == [];
    assert RunFrom(Step(s, op), []) == Step(s, op);
  }

  /** The worker alone gets the waiting job before it off the channel, in order. */
  lemma {:induction false} WorksOff(s: State, n: nat) returns (ops: seq<Op>)
    requires Inv(s)
    ensures RunFrom(s, ops) == Work(s, n)
    ensures forall k :: 0 <= k < |ops| ==> ops[k].Receive? || ops[k].Register? || ops[k].Return? || ops[k].Clear?
                                           || ops[k].Recycle? || ops[k].Exit?
    decreases n
  {
    if n == 0 {
      ops := [];
    } else {
      StepKeeps(s, NextOp(s));
      var rest := WorksOff(Step(s, NextOp(s)), n - 1);
      ops := [NextOp(s)] + rest;
      assert ops[1..] == rest;
    }
  }

  /** Steps of the worker until it is idle. */
  function ToIdle(w: Worker): nat {
    match w
    case Got(_) => 4
    case Registered(_) => 3
    case Returned(_) => 2
    case Cleared(_) => 1
    case _ => 0
  }

  lemma {:induction false} GetsIdle(s: State)
    requires Inv(s) && s.worker != Exited
    ensures var t := Work(s, ToIdle(s.worker));
      t.worker == Idle && t.queue == s.queue && t.reader == s.reader && t.accepted == s.accepted && t.closed == s.closed
    decreases ToIdle(s.worker)
  {
    if ToIdle(s.worker) > 0 {
      StepKeeps(s, NextOp(s));
      GetsIdle(Step(s, NextOp(s)));
    }
  }

  /** A reader that is blocked on the full channel gets its job through once the worker
      has taken the next one. */
  lemma GetsThrough(s: State) returns (ops: seq<Op>)
    requires Inv(s) && s.reader.Sending?
    ensures var t := RunFrom(s, ops); Inv(t) && t.reader == Reading && t.accepted == s.accepted
  {
    var u := s;
    ops := [];
    if |s.queue| >= JOB_BUF {
      GetsIdle(s);
      ops := WorksOff(s, ToIdle(s.worker));
      u := Work(s, ToIdle(s.worker));
      RunKeeps(s, ops);
      RunOn(s, ops, [Receive]);
      RunOne(u, Receive);
      u := Step(u, Receive);
      ops := ops + [Receive];
      RunKeeps(s, ops);
    }
    RunOn(s, ops, [Push]);
    RunOne(u, Push);
    ops := ops + [Push];
    RunKeeps(s, ops);
  }

  lemma Closes(s: State) returns (ops: seq<Op>)
    requires Inv(s)
    ensures var t := RunFrom(s, ops); Inv(t) && t.closed && t.accepted == s.accepted
  {
    var u := s;
    ops := [];
    if s.reader.Sending? {
      ops := GetsThrough(s);
      u := RunFrom(s, ops);
    }
    if u.reader == Reading {
      RunOn(s, ops, [Disconnect]);
      RunOne(u, Disconnect);
      u := Step(u, Disconnect);
      ops := ops + [Disconnect];
      RunKeeps(s, ops);
    }
    if u.reader == Leaving {
      RunOn(s, ops, [CloseJobs]);
      RunOne(u, CloseJobs);
      u := Step(u, CloseJobs);
      ops := ops + [CloseJobs];
      RunKeeps(s, ops);
    }
  }

  /** However reader and worker have interleaved so far, they can go on until every
      accepted job is finished, in order, and the worker has left. */
  lemma NeverStuck(ops: seq<Op>) returns (more: seq<Op>)
    ensures var t := Run(ops + more); t.worker == Exited && t.finished == Upto(Run(ops).accepted)
  {
    var s := Run(ops);
    RunKeeps(INITIAL, ops);
    var first := Closes(s);
    var t := RunFrom(s, first);
    Drains(t);
    var last := WorksOff(t, Left(t));
    more := first + last;
    RunOn(INITIAL, ops, more);
    RunOn(s, first, last);
  }

  /** A message is taken whenever the reader reads; it gets through exactly while fewer
      than eight jobs wait, and then waits last. */
  lemma MessageAccepted(ops: seq<Op>)
    ensures var s := Run(ops); var t := Run(ops + [Message]);
      s.reader == Reading ==> t.accepted == s.accepted + 1 && t.reader == Sending(s.accepted) && t.queue == s.queue
    ensures var s := Run(ops); var t := Run(ops + [Push]);
      s.reader.Sending? ==>
        && t.queue == (if |s.queue| < 8 then s.queue + [s.reader.j] else s.queue)
        && (t.reader == Reading <==> |s.queue| < 8)
  {
    var s := Run(ops);
    RunOn(INITIAL, ops, [Message]);
    RunOn(INITIAL, ops, [Push]);
    RunOne(s, Message);
    RunOne(s, Push);
  }

  // ---- The shared state, step by step ----

  class Socket {
    var jobs: seq<nat>
    var closed: bool
    var cancelCur: Option<nat>
    var reader: Reader
    var worker: Worker
    var accepted: nat
    ghost var cancelled: set<nat>
    ghost var finished: seq<nat>
    ghost var log: seq<Mark>

    constructor ()
      ensures St() == INITIAL
    {
      jobs, closed, cancelCur, reader, worker, accepted := [], false, None, Reading, Idle, 0;
      cancelled, finished, log := {}, [], [];
    }

    ghost function St(): State
      reads this
    {
      State(accepted, jobs, closed, reader, worker, cancelCur, cancelled, finished, log)
    }

    method CancelRegistered()
      modifies `cancelled
      ensures St() == CancelNow(old(St()))
    {
      if cancelCur.Some? {
        cancelled := cancelled + {cancelCur.value};
      }
    }

    /** One frame from the browser, or the end of the connection. */
    method ReadFrame(op: Op)
      requires reader == Reading && (op.Message? || op.Stop? || op.Disconnect?)
      modifies `cancelled, `reader, `accepted
      ensures St() == Step(old(St()), op)
    {
      match op
      case Message =>
        reader := Sending(accepted);
        accepted := accepted + 1;
      case Stop => CancelRegistered();
      case Disconnect =>
        CancelRegistered();
        reader := Leaving;
    }

    /** The blocking send, when it gets through; sending on a closed channel would panic. */
    method SendJob()
      requires Inv(St()) && reader.Sending? && |jobs| < JOB_BUF
      modifies `jobs, `reader
      ensures St() == Step(old(St()), Push)
    {
      assert !closed;
      jobs := jobs + [reader.j];
      reader := Reading;
    }

    method CloseChannel()
      requires Inv(St()) && reader == Leaving
      modifies `closed, `reader
      ensures St() == Step(old(St()), CloseJobs)
    {
      assert !closed;
      closed := true;
      reader := Gone;
    }

    /** The worker's next step; it blocks on an empty open channel. */
    method WorkOnce()
      requires Inv(St())
      modifies `jobs, `worker, `cancelCur, `finished, `log
      ensures St() == Step(old(St()), NextOp(old(St())))
    {
      match worker
      case Idle =>
        if jobs != [] {
          worker := Got(jobs[0]);
          jobs := jobs[1..];
        } else if closed {
          worker := Exited;
        }
      case Got(j) =>
        cancelCur, worker := Some(j), Registered(j);
        log := log + [Started(j)];
      case Registered(j) =>
        worker := Returned(j);
        log := log + [Ended(j)];
      case Returned(j) => cancelCur, worker := None, Cleared(j);
      case Cleared(j) =>
        worker := Idle;
        finished := finished + [j];
      case Exited =>
    }
  }
}
