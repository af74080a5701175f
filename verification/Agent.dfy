/** A chat: which runner serves the next message, its step budget, and what a
    change of credential does to the history. */
module Agent {
  import opened Common
  import opened Decimal
  import opened Events
  import A = AnthropicRunner
  import O = OpenAIRunner

  // ---- The step budget ----

  const DEFAULT_MAX_STEPS: nat := 512

  /** The stored setting when it is a positive number, else the default. */
  function MaxSteps(setting: Option<string>): (n: nat)
    ensures n >= 1
  {
    if setting.Some? && Atoi(setting.value).Num? && Atoi(setting.value).n > 0
    then Atoi(setting.value).n
    else DEFAULT_MAX_STEPS
  }

  /** A budget n stored as its numeral is the budget used. */
  lemma StoredBudget(n: nat)
    requires 1 <= n <= MAX_INT
    ensures MaxSteps(Some(Print(n))) == n
  {
    AtoiPrinted(n);
  }

  /** The budget for any setting: the number it spells, if it spells a positive one
      that fits a machine integer; else 512. */
  lemma BudgetIs(setting: Option<string>, n: nat)
    ensures setting.Some? && 1 <= n <= MAX_INT && Spells(setting.value, n) ==> MaxSteps(setting) == n
    ensures (setting.Some? ==> forall m: nat :: 1 <= m <= MAX_INT ==> !Spells(setting.value, m)) ==>
              MaxSteps(setting) == 512
  {
    if setting.Some? {
      AtoiIff(setting.value, n);
      if Atoi(setting.value).Num? && Atoi(setting.value).n > 0 {
        AtoiIff(setting.value, Atoi(setting.value).n);
      }
    }
  }

  // ---- Which runner ----

  datatype Cred = Cred(provider: string, token: string, model: string)

  function Key(c: Cred): string {
    c.provider + "|" + c.token + "|" + c.model
  }

  /** A provider-bound runner with its own history. */
  datatype RunnerState = NoRunner | ForAnthropic(msgs: seq<A.Message>) | ForOpenAI(st: O.State)

  datatype ChatState = ChatState(runner: RunnerState, key: string)

  /** What the providers and tools do during one message. */
  datatype Env = Env(reply: nat -> A.Reply, tool: nat -> A.ToolOut, world: O.World)

  function NewRunner(c: Cred): RunnerState {
    if c.provider == "openai" then ForOpenAI(O.State([], false, false, "")) else ForAnthropic([])
  }

  /** The runner a message gets: the present one while the key is the same. */
  function Bind(s: ChatState, c: Cred): ChatState {
    if s.runner == NoRunner || s.key != Key(c) then ChatState(NewRunner(c), Key(c)) else s
  }

  const NO_TOKEN := Notice("🛈 No API token set. Open Settings, add an Anthropic or OpenAI token, "
                           + "and pick one as active — then chat again.")

  /** One operator message. */
  function Send(s: ChatState, cred: Option<Cred>, user: string, steps: nat, env: Env): (ChatState, seq<Event>) {
    if cred.None? then (s, [NO_TOKEN, Done])
    else
      var b := Bind(s, cred.value);
      match b.runner
      case ForAnthropic(msgs) =>
        var t := A.Run(msgs, user, steps, env.reply, env.tool);
        (b.(runner := ForAnthropic(t.msgs)), t.events)
      case ForOpenAI(st) =>
        var t := O.Run(st, user, steps, env.world);
        (b.(runner := ForOpenAI(t.st)), t.events)
      case NoRunner => (b, [])
  }

  /** Which runner serves a message: the present one, with its history, while there is
      one and provider, token and model give the key it was made for; else a new one with
      an empty history, for OpenAI if that is the provider and for Anthropic if not. The
      message gets that runner's run, and the chat keeps what the run leaves. */
  lemma Serves(s: ChatState, c: Cred, user: string, steps: nat, env: Env)
    ensures var (t, events) := Send(s, Some(c), user, steps, env);
      var kept := s.runner != NoRunner && s.key == c.provider + "|" + c.token + "|" + c.model;
      && t.key == c.provider + "|" + c.token + "|" + c.model
      && (kept && s.runner.ForAnthropic? ==> RunOfA(t, events, s.runner.msgs, user, steps, env))
      && (kept && s.runner.ForOpenAI? ==> RunOfO(t, events, s.runner.st, user, steps, env))
      && (!kept && c.provider == "openai" ==> RunOfO(t, events, O.State([], false, false, ""), user, steps, env))
      && (!kept && c.provider != "openai" ==> RunOfA(t, events, [], user, steps, env))
  {
    hide A.Run, O.Run;
  }

  ghost predicate RunOfA(t: ChatState, events: seq<Event>, msgs: seq<A.Message>, user: string, steps: nat, env: Env) {
    var run := A.Run(msgs, user, steps, env.reply, env.tool);
    t.runner == ForAnthropic(run.msgs) && events == run.events
  }

  ghost predicate RunOfO(t: ChatState, events: seq<Event>, st: O.State, user: string, steps: nat, env: Env) {
    var run := O.Run(st, user, steps, env.world);
    t.runner == ForOpenAI(run.st) && events == run.events
  }

  /** Without a credential nothing runs and nothing changes. */
  lemma NothingServes(s: ChatState, user: string, steps: nat, env: Env)
    ensures Send(s, None, user, steps, env) == (s, [NO_TOKEN, Done]) && NO_TOKEN.Notice?
  {
    hide A.Run, O.Run;
  }

  /** Every message, even one with no credential to serve it, ends with its one done. */
  lemma EveryMessageFinishes(s: ChatState, cred: Option<Cred>, user: string, setting: Option<string>, env: Env)
    ensures Finished(Send(s, cred, user, MaxSteps(setting), env).1)
  {
    if cred.None? {
      assert [NO_TOKEN, Done][..1] == [NO_TOKEN];
    } else {
      match Bind(s, cred.value).runner {
        case ForAnthropic(msgs) => A.RunShape(msgs, user, MaxSteps(setting), env.reply, env.tool);
        case ForOpenAI(st) => O.RunShape(st, user, MaxSteps(setting), env.world);
      }
    }
  }

  /** One history is another or goes on from it. */
  ghost predicate Extends(r: RunnerState, s: RunnerState) {
    match r
    case NoRunner => true
    case ForAnthropic(msgs) => s.ForAnthropic? && msgs <= s.msgs
    case ForOpenAI(st) => s.ForOpenAI? && st.msgs <= s.st.msgs && (st.useResponses ==> s.st.useResponses)
  }

  /** While the key stays the same the history only grows; a message under another
      key starts from an empty one. */
  lemma HistoryFollowsKey(s: ChatState, cred: Cred, user: string, steps: nat, env: Env)
    requires steps >= 1
    ensures var (t, _) := Send(s, Some(cred), user, steps, env);
      && t.key == Key(cred)
      && (s.key == Key(cred) ==> Extends(s.runner, t.runner))
      && (s.key != Key(cred) ==> t == Send(ChatState(NoRunner, ""), Some(cred), user, steps, env).0)
  {
    match s.runner {
      case NoRunner =>
      case ForAnthropic(msgs) =>
        A.RunShape(msgs, user, steps, env.reply, env.tool);
        var t := A.Run(msgs, user, steps, env.reply, env.tool);
        assert msgs <= t.requests[0] <= t.msgs;
      case ForOpenAI(st) =>
        O.HistoryGrows(st, user, steps, env.world);
        O.RunShape(st, user, steps, env.world);
    }
  }

  // ---- When two credentials share a runner ----

  lemma {:induction false} CutAtBar(a: string, b: string, c: string, d: string)
    requires '|' !in a && '|' !in c && a + "|" + b == c + "|" + d
    ensures a == c && b == d
  {
    var s, t := a + "|" + b, c + "|" + d;
    assert forall i :: 0 <= i < |a| ==> s[i] == a[i] && a[i] in a;
    assert forall i :: 0 <= i < |c| ==> t[i] == c[i] && c[i] in c;
    assert s[|a|] == '|' && t[|c|] == '|';
    assert |a| == |c|;
    assert a == s[..|a|] == t[..|c|] == c;
    assert b == s[|a| + 1..] == t[|c| + 1..] == d;
  }

  /** Keys tell credentials apart when neither provider nor token contains a bar. */
  lemma BarFreeTokens(c: Cred, d: Cred)
    requires '|' !in c.provider && '|' !in d.provider && '|' !in c.token && '|' !in d.token
    ensures Key(c) == Key(d) <==> c == d
  {
    if Key(c) == Key(d) {
      assert Key(c) == c.provider + "|" + (c.token + "|" + c.model);
      assert Key(d) == d.provider + "|" + (d.token + "|" + d.model);
      CutAtBar(c.provider, c.token + "|" + c.model, d.provider, d.token + "|" + d.model);
      CutAtBar(c.token, c.model, d.token, d.model);
    }
  }

  /** No other credential of a known provider has this one's key. */
  ghost predicate OwnKey(c: Cred) {
    forall d: Cred :: '|' !in d.provider && Key(d) == Key(c) ==> d == c
  }

  lemma SameKey(p: string, x: string, y: string, z: string)
    ensures Key(Cred(p, x + "|" + y, z)) == Key(Cred(p, x, y + "|" + z))
  {
    assert p + "|" + (x + "|" + y) + "|" + z == p + "|" + x + "|" + (y + "|" + z);
  }

  /** With a bar in token or model the bar can be moved to the other side. */
  lemma MovedBar(c: Cred) returns (d: Cred)
    requires '|' in c.token || '|' in c.model
    ensures d != c && d.provider == c.provider && Key(d) == Key(c)
  {
    if k :| 0 <= k < |c.token| && c.token[k] == '|' {
      var x, y := c.token[..k], c.token[k + 1..];
      assert c.token == x + "|" + y;
      d := c.(token := x, model := y + "|" + c.model);
      SameKey(c.provider, x, y, c.model);
    } else {
      var k :| 0 <= k < |c.model| && c.model[k] == '|';
      var x, y := c.model[..k], c.model[k + 1..];
      assert c.model == x + "|" + y;
      d := c.(token := c.token + "|" + x, model := y);
      SameKey(c.provider, c.token, x, y);
    }
  }

  /** A bar in the other credential's token would show in this one's token or model. */
  lemma OneBar(c: Cred, d: Cred)
    requires '|' !in c.provider && '|' !in d.provider && Key(c) == Key(d)
    requires '|' !in c.token && '|' !in c.model
    ensures '|' !in d.token
  {
    assert Key(c) == c.provider + "|" + (c.token + "|" + c.model);
    assert Key(d) == d.provider + "|" + (d.token + "|" + d.model);
    CutAtBar(c.provider, c.token + "|" + c.model, d.provider, d.token + "|" + d.model);
    var s, t := c.token + "|" + c.model, d.token + "|" + d.model;
    assert t[|d.token|] == '|';
    assert forall k :: 0 <= k < |s| && s[k] == '|' ==> k == |c.token|;
    forall k | 0 <= k < |d.token| ensures d.token[k] != '|' {
      assert t[k] == d.token[k];
    }
  }

  /** Among credentials of known providers a key belongs to one credential alone if
      and only if that credential has no bar in its token or model. */
  lemma KeyTellsApart(c: Cred)
    requires '|' !in c.provider
    ensures OwnKey(c) <==> '|' !in c.token && '|' !in c.model
  {
    if '|' in c.token || '|' in c.model {
      var d := MovedBar(c);
    } else {
      forall d: Cred | '|' !in d.provider && Key(d) == Key(c) ensures d == c {
        OneBar(c, d);
        BarFreeTokens(c, d);
      }
    }
  }

  /** With a bar in the token they need not: the second credential is then served
      by the runner, and the history, of the first. */
  lemma KeyCollision(msgs: seq<A.Message>)
    ensures var c, d := Cred("anthropic", "t", "x|y"), Cred("anthropic", "t|x", "y");
      c != d && Bind(ChatState(ForAnthropic(msgs), Key(c)), d).runner == ForAnthropic(msgs)
  {
    var c, d := Cred("anthropic", "t", "x|y"), Cred("anthropic", "t|x", "y");
    assert Key(c) == "anthropic|t|x|y" == Key(d);
  }

  // ---- The chat object ----

  class Chat {
    var a: A.Runner?
    var o: O.Runner?
    var key: string

    constructor ()
      ensures Valid() && State() == ChatState(NoRunner, "")
    {
      a, o, key := null, null, "";
    }

    ghost predicate Valid()
      reads this
    {
      a == null || o == null
    }

    ghost function State(): ChatState
      reads this, a, o
    {
      ChatState(if a != null then ForAnthropic(a.msgs) else if o != null then ForOpenAI(o.St()) else NoRunner, key)
    }

    method Deliver(cred: Option<Cred>, user: string, setting: Option<string>, env: Env) returns (events: seq<Event>)
      requires Valid()
      modifies this, a, o
      ensures Valid()
      ensures (State(), events) == Send(old(State()), cred, user, MaxSteps(setting), env)
    {
      if cred.None? {
        return [NO_TOKEN, Done];
      }
      var k := Key(cred.value);
      if (a == null && o == null) || key != k {
        a, o, key := null, null, k;
        if cred.value.provider == "openai" {
          o := new O.Runner();
        } else {
          a := new A.Runner();
        }
      }
      hide A.Run, O.Run;
      if a != null {
        ghost var requests;
        var dispatched;
        events, requests, dispatched := a.Send(user, MaxSteps(setting), env.reply, env.tool);
      } else {
        var log := o.Send(user, MaxSteps(setting), env.world);
        events := log.events;
      }
    }
  }
}
