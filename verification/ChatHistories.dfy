/** A chat over all its messages: when the history stays paired, when every response
    is answered, and the shortest runs after which it is not. */
module ChatHistories {
  import opened Common
  import opened Events
  import A = AnthropicRunner
  import C = ChatRuns
  import O = OpenAIRunner
  import T = Transcript

  // ---- Anthropic: pairing over a chat ----

  datatype JobA = JobA(user: string, steps: Steps, reply: nat -> A.Reply, tool: nat -> A.ToolOut)

  function RunA(msgs: seq<A.Message>, job: JobA): A.Trace {
    A.Run(msgs, job.user, job.steps, job.reply, job.tool)
  }

  /** The history after all the messages. */
  function AfterA(msgs: seq<A.Message>, jobs: seq<JobA>): seq<A.Message>
    decreases |jobs|
  {
    if jobs == [] then msgs else AfterA(RunA(msgs, jobs[0]).msgs, jobs[1..])
  }

  /** Every reply that was asked for was honest. */
  ghost predicate HonestA(msgs: seq<A.Message>, jobs: seq<JobA>)
    decreases |jobs|
  {
    jobs == [] ||
    (var t := RunA(msgs, jobs[0]);
     (forall k :: 0 <= k < |t.requests| ==> A.Honest(jobs[0].reply(k))) && HonestA(t.msgs, jobs[1..]))
  }

  /** What stands before a user message is paired if the whole is. */
  lemma {:induction false} PrefixA(h: seq<A.Message>, user: string, rest: seq<A.Message>)
    requires A.Paired(h + [A.User(user)] + rest)
    ensures A.Paired(h)
    decreases |h|
  {
    hide A.Calls, A.Answers;
    if h != [] {
      var s := h + [A.User(user)] + rest;
      if h[0].Assistant? && A.Calls(h[0].blocks) != [] {
        assert s[1].Results?;
        assert s[2..] == h[2..] + [A.User(user)] + rest;
        PrefixA(h[2..], user, rest);
      } else {
        assert s[1..] == h[1..] + [A.User(user)] + rest;
        PrefixA(h[1..], user, rest);
      }
    }
  }

  /** A history that is not paired never is again. */
  lemma {:induction false} NeverHealsA(msgs: seq<A.Message>, jobs: seq<JobA>)
    requires !A.Paired(msgs)
    ensures !A.Paired(AfterA(msgs, jobs))
    decreases |jobs|
  {
    if jobs != [] {
      var t := RunA(msgs, jobs[0]);
      A.RunShape(msgs, jobs[0].user, jobs[0].steps, jobs[0].reply, jobs[0].tool);
      hide A.Run, A.Paired;
      var before := msgs + [A.User(jobs[0].user)];
      assert before <= t.msgs by {
        assert t.requests[0] <= t.msgs;
      }
      assert t.msgs == before + t.msgs[|before|..];
      if A.Paired(t.msgs) {
        PrefixA(msgs, jobs[0].user, t.msgs[|before|..]);
      }
      NeverHealsA(t.msgs, jobs[1..]);
    }
  }

  /** After all its messages a chat's history is paired if and only if no reply held
      a tool call without the tool-use stop reason. */
  lemma {:induction false} ChatPairedIffA(msgs: seq<A.Message>, jobs: seq<JobA>)
    requires A.Paired(msgs)
    ensures A.Paired(AfterA(msgs, jobs)) <==> HonestA(msgs, jobs)
    decreases |jobs|
  {
    if jobs != [] {
      var t := RunA(msgs, jobs[0]);
      A.PairedIff(msgs, jobs[0].user, jobs[0].steps, jobs[0].reply, jobs[0].tool);
      hide A.Run, A.Paired, A.Honest;
      if A.Paired(t.msgs) {
        ChatPairedIffA(t.msgs, jobs[1..]);
      } else {
        NeverHealsA(t.msgs, jobs[1..]);
      }
    }
  }

  // ---- OpenAI: pairing over a chat ----

  datatype JobO = JobO(user: string, steps: Steps, world: O.World)

  function RunO(st: O.State, job: JobO): O.Trace { O.Run(st, job.user, job.steps, job.world) }

  function AfterO(st: O.State, jobs: seq<JobO>): O.State
    decreases |jobs|
  {
    if jobs == [] then st else AfterO(RunO(st, jobs[0]).st, jobs[1..])
  }

  ghost predicate HonestO(st: O.State, jobs: seq<JobO>)
    decreases |jobs|
  {
    jobs == [] ||
    (var t := RunO(st, jobs[0]);
     (forall k :: 0 <= k < |t.chats| ==> O.Honest(jobs[0].world.chat(k))) && HonestO(t.st, jobs[1..]))
  }

  lemma {:induction false} PrefixO(h: seq<O.Message>, m: O.Message, rest: seq<O.Message>)
    requires O.Paired(h + [m] + rest) && !m.ToolMsg?
    ensures O.Paired(h)
    decreases |h|
  {
    if h != [] {
      var s := h + [m] + rest;
      assert s[1..] == h[1..] + [m] + rest;
      if h[0].Assistant? {
        var n := |h[0].calls|;
        assert s[|h|] == m;
        forall j | 1 <= j <= n ensures s[j].ToolMsg? {
          assert s[1..][..n][j - 1] == s[j];
        }
        assert s[1..][n..] == h[1..][n..] + [m] + rest;
        assert s[1..][..n] == h[1..][..n];
        PrefixO(h[1..][n..], m, rest);
      } else {
        PrefixO(h[1..], m, rest);
      }
    }
  }

  /** A run leaves the history alone or goes on with the system prompt or the user. */
  lemma GoesOn(st: O.State, job: JobO)
    ensures var t := RunO(st, job);
            t.st.msgs == st.msgs
            || exists m: O.Message, rest :: !m.ToolMsg? && t.st.msgs == st.msgs + [m] + rest
  {
    var t := RunO(st, job);
    if st.useResponses {
      O.RespLoopKeepsChat(O.Trace(st, [], [], [], 0), [O.UserInput(job.user)], 0, job.steps, job.world);
    } else {
      var opening := O.Opening(st, job.user);
      O.ChatLoopGrows(O.Trace(st.(msgs := opening, started := true), [], [], [], 0), job.user, 0, job.steps, job.world);
      hide O.ChatLoop;
      assert opening <= t.st.msgs;
      var n := |st.msgs|;
      assert !opening[n].ToolMsg?;
      assert t.st.msgs == st.msgs + [opening[n]] + t.st.msgs[n + 1..];
    }
  }

  lemma {:induction false} NeverHealsO(st: O.State, jobs: seq<JobO>)
    requires !O.Paired(st.msgs)
    ensures !O.Paired(AfterO(st, jobs).msgs)
    decreases |jobs|
  {
    if jobs != [] {
      var t := RunO(st, jobs[0]);
      GoesOn(st, jobs[0]);
      hide O.Run, O.Paired;
      if O.Paired(t.st.msgs) {
        var m: O.Message, rest :| !m.ToolMsg? && t.st.msgs == st.msgs + [m] + rest;
        PrefixO(st.msgs, m, rest);
      }
      NeverHealsO(t.st, jobs[1..]);
    }
  }

  lemma {:induction false} ChatPairedIffO(st: O.State, jobs: seq<JobO>)
    requires O.Paired(st.msgs)
    ensures O.Paired(AfterO(st, jobs).msgs) <==> HonestO(st, jobs)
    decreases |jobs|
  {
    if jobs != [] {
      var t := RunO(st, jobs[0]);
      O.PairedIff(st, jobs[0].user, jobs[0].steps, jobs[0].world);
      hide O.Run, O.Paired, O.Honest;
      if O.Paired(t.st.msgs) {
        ChatPairedIffO(t.st, jobs[1..]);
      } else {
        NeverHealsO(t.st, jobs[1..]);
      }
    }
  }

  // ---- OpenAI: answers over a chat ----

  /** The calls of the last response before request k of a run: those of the response
      before it in the run, or the ones left open by earlier runs. */
  function OpenAt(w: O.World, k: nat, open: seq<O.Call>): seq<O.Call> {
    if k == 0 then open
    else if w.resp(k - 1).Responded? then w.resp(k - 1).calls
    else []
  }

  /** Every request of the run answers the calls of the response it chains. */
  ghost predicate Answers(t: O.Trace, w: O.World, open: seq<O.Call>) {
    forall k :: 0 <= k < |t.resps| ==> Settles(t.resps[k], OpenAt(w, k, open))
  }

  ghost predicate Settles(q: O.Request, calls: seq<O.Call>) {
    calls == [] || O.OutputsFor(calls, q.input)
  }

  /** The run's last response held calls: it ended by its budget, or the very next
      request failed. */
  predicate EndsOwing(t: O.Trace, w: O.World) {
    var n := |t.resps|;
    n > 0 && if w.resp(n - 1).Responded? then w.resp(n - 1).calls != [] else n >= 2
  }

  /** The calls a run leaves open. */
  function Leaves(t: O.Trace, w: O.World, open: seq<O.Call>): seq<O.Call> {
    var n := |t.resps|;
    if n == 0 then open
    else if w.resp(n - 1).Responded? then w.resp(n - 1).calls
    else OpenAt(w, n - 1, open)
  }

  lemma RunAnswersIff(st: O.State, job: JobO, open: seq<O.Call>)
    ensures var t := RunO(st, job); Answers(t, job.world, open) <==> t.resps == [] || open == []
  {
    O.RequestsChained(st, job.user, job.steps, job.world);
    var t, w := RunO(st, job), job.world;
    hide O.Run;
    forall k | 1 <= k < |t.resps| ensures Settles(t.resps[k], OpenAt(w, k, open)) {
      assert O.Link(t.resps[k], k, w.resp, O.Request(st.prev, [O.UserInput(job.user)]));
    }
    if t.resps != [] {
      assert O.Link(t.resps[0], 0, w.resp, O.Request(st.prev, [O.UserInput(job.user)]));
      assert !t.resps[0].input[0].Output?;
      assert OpenAt(w, 0, open) == open;
    }
  }

  lemma RunLeaves(st: O.State, job: JobO, open: seq<O.Call>)
    ensures var t := RunO(st, job);
            && (EndsOwing(t, job.world) ==> Leaves(t, job.world, open) != [] && t.resps != [])
            && (!EndsOwing(t, job.world) && open == [] ==> Leaves(t, job.world, open) == [])
  {
    O.RequestsChained(st, job.user, job.steps, job.world);
    var t, w := RunO(st, job), job.world;
    hide O.Run;
    var n := |t.resps|;
    if n >= 2 {
      assert O.Link(t.resps[n - 1], n - 1, w.resp, O.Request(st.prev, [O.UserInput(job.user)]));
    }
  }

  /** Every request of every run answers the response it chains. */
  ghost predicate AnswersAll(st: O.State, jobs: seq<JobO>, open: seq<O.Call>)
    decreases |jobs|
  {
    jobs == [] ||
    (var t := RunO(st, jobs[0]);
     Answers(t, jobs[0].world, open) && AnswersAll(t.st, jobs[1..], Leaves(t, jobs[0].world, open)))
  }

  /** No run but the last ends owing answers. */
  ghost predicate NoneOwing(st: O.State, jobs: seq<JobO>)
    decreases |jobs|
  {
    |jobs| <= 1 ||
    (var t := RunO(st, jobs[0]); !EndsOwing(t, jobs[0].world) && NoneOwing(t.st, jobs[1..]))
  }

  /** With calls left open, the next run does not answer them. */
  lemma OwingShows(st: O.State, jobs: seq<JobO>, open: seq<O.Call>)
    requires jobs != [] && st.useResponses && open != []
    ensures !AnswersAll(st, jobs, open)
  {
    O.RunShape(st, jobs[0].user, jobs[0].steps, jobs[0].world);
    RunAnswersIff(st, jobs[0], open);
  }

  /** Over all the runs of a chat every Responses request answers all calls of the
      response it chains if and only if no run but the last ended by its budget, or
      failed, right after a response with calls. */
  lemma {:induction false} ChatAnswersIff(st: O.State, jobs: seq<JobO>)
    ensures AnswersAll(st, jobs, []) <==> NoneOwing(st, jobs)
    decreases |jobs|
  {
    if jobs != [] {
      var t, w := RunO(st, jobs[0]), jobs[0].world;
      RunAnswersIff(st, jobs[0], []);
      RunLeaves(st, jobs[0], []);
      O.RunShape(st, jobs[0].user, jobs[0].steps, w);
      hide O.Run, Answers, EndsOwing, Leaves, Finished;
      if !EndsOwing(t, w) {
        ChatAnswersIff(t.st, jobs[1..]);
      } else if |jobs| > 1 {
        OwingShows(t.st, jobs[1..], Leaves(t, w, []));
      }
    }
  }

  // ---- Runs that break it ----

  /** One tool call without the tool-use stop reason leaves the history unpaired. */
  lemma DishonestReplyA(tool: nat -> A.ToolOut)
    ensures var reply := (k: nat) => A.Replied([], [A.ToolUseBlock("id", "tool", "{}")], false, 0, 0);
            !A.Paired(A.Run([], "hi", 1, reply, tool).msgs)
  {
    var block := A.ToolUseBlock("id", "tool", "{}");
    var reply := (k: nat) => A.Replied([], [block], false, 0, 0);
    A.RunShape([], "hi", 1, reply, tool);
    A.PairedIff([], "hi", 1, reply, tool);
    assert [block][..0] == [] && A.Calls([block]) == A.Calls([]) + [block];
    assert !A.Honest(reply(0));
  }

  lemma DishonestReplyO(w: O.World)
    requires w.chat(0) == O.ChatReplied([], "", [O.Call("id", "tool", "{}")], false, 0, 0)
    ensures !O.Paired(O.Run(O.State([], false, false, ""), "hi", 1, w).st.msgs)
  {
    var st := O.State([], false, false, "");
    O.PairedIff(st, "hi", 1, w);
    O.RunShape(st, "hi", 1, w);
    assert !O.Honest(w.chat(0));
  }

  /** With a budget of one, a response with a call ends the run, and the next run
      starts with the user's message alone. */
  lemma BudgetLeavesOpen(w: O.World)
    requires w.resp(0).Responded? && w.resp(0).calls != []
    ensures !AnswersAll(O.State([], true, true, ""), [JobO("hi", 1, w), JobO("go on", 1, w)], [])
  {
    var st, jobs := O.State([], true, true, ""), [JobO("hi", 1, w), JobO("go on", 1, w)];
    O.RunShape(st, "hi", 1, w);
    hide O.Run;
    assert EndsOwing(RunO(st, jobs[0]), w);
    ChatAnswersIff(st, jobs);
  }

  /** A provider error without a text reads differently stored and live. */
  lemma EmptyErrorA(tool: nat -> A.ToolOut)
    ensures var reply := (k: nat) => A.Failed([], false, "");
            !T.SameTranscript(A.Run([], "hi", 1, reply, tool).events)
  {
    var reply := (k: nat) => A.Failed([], false, "");
    A.RunShape([], "hi", 1, reply, tool);
    C.AnthropicTranscript([], "hi", 1, reply, tool);
    assert !C.SpeaksA(reply(0));
  }

  lemma EmptyErrorO(w: O.World)
    requires w.chat(0) == O.ChatFailed([], false, false, "")
    ensures !T.SameTranscript(O.Run(O.State([], false, false, ""), "hi", 1, w).events)
  {
    var st := O.State([], false, false, "");
    O.RunShape(st, "hi", 1, w);
    C.OpenAITranscript(st, "hi", 1, w);
    assert !C.SpeaksChat(w.chat(0), 0);
  }
}
