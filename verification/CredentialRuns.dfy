/** Several clients at once: every credential operation as its SQL statements, and
    exactly which interleavings keep one credential active. */
module CredentialRuns {
  import opened Common
  import opened Credentials

  /** Between two statements of a client: an addition that has counted the rows and
      took them for none or not; a deletion that has removed its row; a deletion that
      has counted the active rows. */
  datatype Pending = Counted(none: bool) | Removed | Read(none: bool)

  datatype State = State(t: seq<Cred>, pend: map<nat, Pending>)

  /** One statement of client k, or a statement that is an operation by itself. A
      transaction holds the only connection, so a switch is one. */
  datatype Stmt =
    | CountRows(k: nat, fails: bool)
    | InsertRow(k: nat, name: string, provider: string, token: string, model: string, fails: bool)
    | RemoveRow(k: nat, id: int, fails: bool)
    | CountActive(k: nat, fails: bool)
    | Promote(k: nat, fails: bool)
    | Switch(id: int, fails: bool)
    | Edit(id: int, name: string, model: string, token: string, fails: bool)

  function Newest(t: seq<Cred>): seq<Cred> {
    if t == [] then t else Activate(t, Last(t).id)
  }

  /** A statement that is not the client's next one changes nothing. */
  function Step(s: State, st: Stmt): State {
    match st
    case CountRows(k, fails) => if k in s.pend then s else s.(pend := s.pend[k := Counted(fails || s.t == [])])
    case InsertRow(k, name, provider, token, model, fails) =>
      if k !in s.pend || !s.pend[k].Counted? then s
      else State(if fails then s.t else Insert(s.t, name, provider, token, model, s.pend[k].none), s.pend - {k})
    case RemoveRow(k, id, fails) =>
      if k in s.pend || fails then s else State(Remove(s.t, id), s.pend[k := Removed])
    case CountActive(k, fails) =>
      if k !in s.pend || s.pend[k] != Removed then s
      else s.(pend := s.pend[k := Read(fails || ActiveCount(s.t) == 0)])
    case Promote(k, fails) =>
      if k !in s.pend || !s.pend[k].Read? then s
      else State(if s.pend[k].none && !fails then Newest(s.t) else s.t, s.pend - {k})
    case Switch(id, fails) =>
      if fails || Find(s.t, id) == |s.t| then s else s.(t := Activate(ClearActive(s.t), id))
    case Edit(id, name, model, token, fails) =>
      if fails then s else s.(t := Relabel(s.t, id, name, model, token))
  }

  /** Any interleaving of the clients' statements. */
  function RunFrom(s: State, sched: seq<Stmt>): State
    decreases |sched|
  {
    if sched == [] then s else RunFrom(Step(s, sched[0]), sched[1..])
  }

  // ---- What is kept ----

  /** A deletion that is still going to activate the newest row, as far as it knows. */
  predicate WillPromote(p: Pending) { p == Removed || p == Read(true) }

  ghost predicate Mending(pend: map<nat, Pending>) {
    exists k :: k in pend && WillPromote(pend[k])
  }

  /** Never two active rows; and none among some only while a deletion is going to
      promote one. */
  ghost predicate Sound(s: State) {
    && ActiveCount(s.t) <= 1
    && (s.t != [] && ActiveCount(s.t) == 0 ==> Mending(s.pend))
  }

  /** The statements that break it, by the state they meet: an addition that counted
      none inserts beside an active row; one that counted some inserts into a table
      that has meanwhile been emptied, with nobody left to promote; a deletion that
      counted none promotes the newest beside another active row; the last deletion
      that could promote fails to. */
  ghost predicate Bad(s: State, st: Stmt) {
    match st
    case InsertRow(k, _, _, _, _, fails) =>
      && k in s.pend && s.pend[k].Counted? && !fails
      && (if s.pend[k].none then ActiveCount(s.t) > 0 else s.t == [] && !Mending(s.pend))
    case Promote(k, fails) =>
      && k in s.pend && s.pend[k] == Read(true) && s.t != []
      && (if fails then ActiveCount(s.t) == 0 && !Mending(s.pend - {k})
          else ActiveCount(s.t) > 0 && !Last(s.t).active)
    case _ => false
  }

  /** No statement of the schedule is bad when its turn comes. */
  ghost predicate Clean(s: State, sched: seq<Stmt>)
    decreases |sched|
  {
    sched == [] || (!Bad(s, sched[0]) && Clean(Step(s, sched[0]), sched[1..]))
  }

  // ---- Counting ----

  lemma {:induction false} CountAppend(a: seq<Cred>, b: seq<Cred>)
    ensures ActiveCount(a + b) == ActiveCount(a) + ActiveCount(b)
  {
    if a == [] {
      assert a + b == b;
    } else {
      CountAppend(a[1..], b);
      assert (a + b)[1..] == a[1..] + b;
    }
  }

  lemma CountSingle(c: Cred)
    ensures ActiveCount([c]) == if c.active then 1 else 0
  {
    assert [c][1..] == [];
  }

  lemma CountRemove(t: seq<Cred>, id: int)
    ensures ActiveCount(Remove(t, id)) <= ActiveCount(t)
  {
    var i := Find(t, id);
    if i < |t| {
      assert t == t[..i] + [t[i]] + t[i + 1..];
      CountAppend(t[..i] + [t[i]], t[i + 1..]);
      CountAppend(t[..i], [t[i]]);
      CountAppend(t[..i], t[i + 1..]);
    }
  }

  lemma CountUpdate(t: seq<Cred>, i: nat, c: Cred)
    requires i < |t|
    ensures ActiveCount(t[i := c]) + (if t[i].active then 1 else 0) == ActiveCount(t) + (if c.active then 1 else 0)
  {
    assert t == t[..i] + [t[i]] + t[i + 1..] && t[i := c] == t[..i] + [c] + t[i + 1..];
    CountAppend(t[..i] + [t[i]], t[i + 1..]);
    CountAppend(t[..i] + [c], t[i + 1..]);
    CountAppend(t[..i], [t[i]]);
    CountAppend(t[..i], [c]);
    CountSingle(t[i]);
    CountSingle(c);
  }

  /** One active credential, by its rows and by the count. */
  lemma CountOne(t: seq<Cred>)
    ensures OneActive(t) <==> t == [] || ActiveCount(t) == 1
  {
    CountZero(t);
    if i :| Only(t, i) {
      CountUpdate(t, i, t[i].(active := false));
      CountZero(t[i := t[i].(active := false)]);
    }
    if ActiveCount(t) == 1 {
      var i :| 0 <= i < |t| && t[i].active;
      CountUpdate(t, i, t[i].(active := false));
      CountZero(t[i := t[i].(active := false)]);
      var u := t[i := t[i].(active := false)];
      assert forall k :: 0 <= k < |t| && k != i ==> t[k] == u[k];
      assert Only(t, i);
    }
  }

  // ---- One statement ----

  lemma InsertEffect(t: seq<Cred>, name: string, provider: string, token: string, model: string, active: bool)
    requires Ordered(t)
    ensures var u := Insert(t, name, provider, token, model, active);
            Ordered(u) && u != [] && ActiveCount(u) == ActiveCount(t) + (if active then 1 else 0)
  {
    var c := Cred(NextId(t), name, provider, token, model, active);
    CountAppend(t, [c]);
    CountSingle(c);
  }

  lemma RemoveEffect(t: seq<Cred>, id: int)
    requires Ordered(t)
    ensures Ordered(Remove(t, id)) && ActiveCount(Remove(t, id)) <= ActiveCount(t)
  {
    CountRemove(t, id);
  }

  lemma NewestEffect(t: seq<Cred>)
    requires Ordered(t)
    ensures Ordered(Newest(t)) && (Newest(t) == [] <==> t == [])
    ensures t != [] ==> ActiveCount(Newest(t)) == ActiveCount(t) + (if Last(t).active then 0 else 1)
  {
    if t != [] {
      var n := |t| - 1;
      FindAt(t, n);
      CountUpdate(t, n, t[n].(active := true));
      ActivateIff(t, n);
    }
  }

  lemma LastCounts(t: seq<Cred>)
    ensures t != [] && Last(t).active ==> ActiveCount(t) > 0
  {
    CountZero(t);
  }

  lemma SwitchEffect(t: seq<Cred>, id: int)
    requires Ordered(t) && Find(t, id) < |t|
    ensures var u := Activate(ClearActive(t), id); Ordered(u) && u != [] && ActiveCount(u) == 1
  {
    SetActiveKeeps(t, id);
    CountOne(Activate(ClearActive(t), id));
  }

  lemma EditEffect(t: seq<Cred>, id: int, name: string, model: string, token: string)
    requires Ordered(t)
    ensures var u := Relabel(t, id, name, model, token);
            Ordered(u) && (u == [] <==> t == []) && ActiveCount(u) == ActiveCount(t)
  {
    var i, u := Find(t, id), Relabel(t, id, name, model, token);
    if i < |t| {
      CountUpdate(t, i, u[i]);
      assert u == t[i := u[i]];
    }
  }

  lemma MendingWith(pend: map<nat, Pending>, k: nat, p: Pending)
    ensures Mending(pend[k := p]) <==> WillPromote(p) || Mending(pend - {k})
  {
    var u, v := pend[k := p], pend - {k};
    if j :| j in u && WillPromote(u[j]) {
      assert j == k || (j in v && v[j] == u[j]);
    }
    if WillPromote(p) {
      assert k in u && WillPromote(u[k]);
    }
    if j :| j in v && WillPromote(v[j]) {
      assert j in u && WillPromote(u[j]);
    }
  }

  lemma MendingWithout(pend: map<nat, Pending>, k: nat)
    ensures k !in pend ==> (Mending(pend - {k}) <==> Mending(pend))
    ensures k in pend ==> (Mending(pend) <==> WillPromote(pend[k]) || Mending(pend - {k}))
  {
    if k in pend {
      MendingWith(pend, k, pend[k]);
      assert pend[k := pend[k]] == pend;
    } else {
      assert pend - {k} == pend;
    }
  }

  /** A statement keeps the invariant exactly when it is not a bad one. */
  lemma StepSoundIff(s: State, st: Stmt)
    requires Ordered(s.t) && Sound(s)
    ensures Ordered(Step(s, st).t) && (Sound(Step(s, st)) <==> !Bad(s, st))
  {
    hide Ordered, Mending, Insert, Remove, Activate, ClearActive, Relabel, ActiveCount, Find, Newest;
    Nothing();
    match st
    case CountRows(k, fails) =>
      MendingWith(s.pend, k, Counted(fails || s.t == []));
      MendingWithout(s.pend, k);
    case InsertRow(k, name, provider, token, model, fails) =>
      MendingWithout(s.pend, k);
      if k in s.pend && s.pend[k].Counted? {
        InsertEffect(s.t, name, provider, token, model, s.pend[k].none);
      }
    case RemoveRow(k, id, fails) =>
      MendingWith(s.pend, k, Removed);
      RemoveEffect(s.t, id);
    case CountActive(k, fails) =>
      MendingWith(s.pend, k, Read(fails || ActiveCount(s.t) == 0));
      MendingWithout(s.pend, k);
    case Promote(k, fails) =>
      MendingWithout(s.pend, k);
      NewestEffect(s.t);
      LastCounts(s.t);
    case Switch(id, fails) =>
      if Find(s.t, id) < |s.t| {
        SwitchEffect(s.t, id);
      } else {
        FindWithin(s.t, id);
      }
    case Edit(id, name, model, token, fails) =>
      EditEffect(s.t, id, name, model, token);
  }

  lemma Nothing()
    ensures ActiveCount([]) == 0
  {}

  lemma FindWithin(t: seq<Cred>, id: int)
    ensures Find(t, id) <= |t|
  {}

  // ---- Interleavings ----

  /** Whatever the clients do and whatever fails: the invariant holds all along a
      schedule if and only if none of its statements is bad when its turn comes. */
  lemma {:induction false} InterleavingIff(s: State, sched: seq<Stmt>)
    requires Ordered(s.t) && Sound(s)
    ensures (forall n :: 0 <= n <= |sched| ==> Sound(RunFrom(s, sched[..n]))) <==> Clean(s, sched)
    decreases |sched|
  {
    hide Ordered, Sound, Bad, Step;
    assert RunFrom(s, sched[..0]) == s;
    if sched != [] {
      var s', rest := Step(s, sched[0]), sched[1..];
      StepSoundIff(s, sched[0]);
      forall n | 0 < n <= |sched| ensures RunFrom(s, sched[..n]) == RunFrom(s', rest[..n - 1]) {
        assert sched[..n][0] == sched[0] && sched[..n][1..] == rest[..n - 1];
      }
      assert RunFrom(s', rest[..0]) == s';
      if Sound(s') {
        InterleavingIff(s', rest);
        if Clean(s, sched) {
          forall n | 0 <= n <= |sched| ensures Sound(RunFrom(s, sched[..n])) {
            assert n > 0 ==> RunFrom(s, sched[..n]) == RunFrom(s', rest[..n - 1]);
          }
        } else {
          var m :| 0 <= m <= |rest| && !Sound(RunFrom(s', rest[..m]));
          assert RunFrom(s, sched[..m + 1]) == RunFrom(s', rest[..m]);
        }
      } else {
        assert RunFrom(s, sched[..1]) == RunFrom(s', rest[..0]);
      }
    }
  }

  /** Whenever no deletion is on its way to promote, the invariant says that exactly
      one credential is active or there is none. */
  lemma SettledIff(s: State)
    requires !Mending(s.pend)
    ensures Sound(s) <==> OneActive(s.t)
  {
    CountOne(s.t);
    Nothing();
  }

  /** Why a count goes stale: between a moment without an active row, as when an
      addition or a deletion counts none, and a moment with one, some statement of
      the schedule inserted, promoted or switched to a row. */
  lemma {:induction false} Overtaken(s: State, sched: seq<Stmt>) returns (n: nat)
    requires Ordered(s.t) && ActiveCount(s.t) == 0 && ActiveCount(RunFrom(s, sched).t) > 0
    ensures n < |sched| && (sched[n].InsertRow? || sched[n].Promote? || sched[n].Switch?)
    ensures ActiveCount(RunFrom(s, sched[..n]).t) == 0 < ActiveCount(Step(RunFrom(s, sched[..n]), sched[n]).t)
    decreases |sched|
  {
    hide Ordered, Step;
    var s', rest := Step(s, sched[0]), sched[1..];
    QuietStep(s, sched[0]);
    if ActiveCount(s'.t) > 0 {
      n := 0;
    } else {
      n := Overtaken(s', rest);
      assert sched[..n + 1][0] == sched[0] && sched[..n + 1][1..] == rest[..n];
      n := n + 1;
    }
  }

  lemma QuietStep(s: State, st: Stmt)
    requires Ordered(s.t)
    ensures Ordered(Step(s, st).t)
    ensures !st.InsertRow? && !st.Promote? && !st.Switch? ==> ActiveCount(Step(s, st).t) <= ActiveCount(s.t)
  {
    hide Ordered, Insert, Remove, Activate, ClearActive, Relabel, ActiveCount, Find, Newest;
    match st
    case InsertRow(k, name, provider, token, model, fails) =>
      InsertEffect(s.t, name, provider, token, model, true);
      InsertEffect(s.t, name, provider, token, model, false);
    case RemoveRow(k, id, fails) => RemoveEffect(s.t, id);
    case Promote(k, fails) => NewestEffect(s.t);
    case Switch(id, fails) =>
      FindWithin(s.t, id);
      if Find(s.t, id) < |s.t| {
        SwitchEffect(s.t, id);
      }
    case Edit(id, name, model, token, fails) => EditEffect(s.t, id, name, model, token);
    case _ =>
  }

  // ---- One operation at a time ----

  function Statements(op: Op, k: nat): seq<Stmt> {
    match op
    case Add(name, provider, token, model, countFails, insertFails) =>
      [CountRows(k, countFails), InsertRow(k, name, provider, token, model, insertFails)]
    case SetActive(id, beginFails, clearFails, setFails, commitFails) =>
      [Switch(id, beginFails || clearFails || setFails || commitFails)]
    case Update(id, name, model, token, updateFails) => [Edit(id, name, model, token, updateFails)]
    case Delete(id, deleteFails, countFails, promoteFails) =>
      [RemoveRow(k, id, deleteFails), CountActive(k, countFails), Promote(k, promoteFails)]
  }

  lemma RunTwo(s: State, a: Stmt, b: Stmt)
    ensures RunFrom(s, [a, b]) == Step(Step(s, a), b)
    ensures RunFrom(s, [a]) == Step(s, a)
  {
    hide Step;
    assert [a, b][1..] == [b] && [b][1..] == [] && [a][1..] == [];
    assert RunFrom(Step(s, a), [b]) == Step(Step(s, a), b);
  }

  lemma RunMore(s: State, a: Stmt, rest: seq<Stmt>)
    ensures RunFrom(s, [a] + rest) == RunFrom(Step(s, a), rest)
  {
    assert ([a] + rest)[1..] == rest;
  }

  /** A client alone: its statements one after the other are the operation. */
  lemma AloneIsAtomic(t: seq<Cred>, op: Op, k: nat)
    ensures RunFrom(State(t, map[]), Statements(op, k)) == State(After(t, op), map[])
  {
    var s := State(t, map[]);
    hide Insert, Remove, Activate, ClearActive, Relabel, ActiveCount, Find, RunFrom;
    Nothing();
    match op
    case Add(name, provider, token, model, countFails, insertFails) =>
      RunTwo(s, CountRows(k, countFails), InsertRow(k, name, provider, token, model, insertFails));
      assert map[k := Counted(countFails || t == [])] - {k} == map[];
    case SetActive(id, beginFails, clearFails, setFails, commitFails) =>
      RunTwo(s, Switch(id, beginFails || clearFails || setFails || commitFails), CountRows(k, false));
    case Update(id, name, model, token, updateFails) =>
      RunTwo(s, Edit(id, name, model, token, updateFails), CountRows(k, false));
    case Delete(id, deleteFails, countFails, promoteFails) =>
      RunMore(s, RemoveRow(k, id, deleteFails), [CountActive(k, countFails), Promote(k, promoteFails)]);
      RunTwo(Step(s, RemoveRow(k, id, deleteFails)), CountActive(k, countFails), Promote(k, promoteFails));
      assert Statements(op, k)
          == [RemoveRow(k, id, deleteFails)] + [CountActive(k, countFails), Promote(k, promoteFails)];
      assert forall p: Pending :: map[k := p] - {k} == map[];
  }

  // ---- Schedules that break it ----

  function Row(id: int, active: bool): Cred { Cred(id, "", "anthropic", "", "", active) }

  function Adding(k: nat): Stmt { InsertRow(k, "", "anthropic", "", "", false) }

  /** Two additions that both count before either inserts: both are active. */
  lemma AdditionsMayInterleave()
    ensures RunFrom(State([], map[]), [CountRows(1, false), CountRows(2, false), Adding(1), Adding(2)])
         == State([Row(1, true), Row(2, true)], map[])
    ensures !OneActive([Row(1, true), Row(2, true)])
  {
    var s := State([], map[]);
    RunMore(s, CountRows(1, false), [CountRows(2, false), Adding(1), Adding(2)]);
    RunMore(Step(s, CountRows(1, false)), CountRows(2, false), [Adding(1), Adding(2)]);
    RunTwo(Step(Step(s, CountRows(1, false)), CountRows(2, false)), Adding(1), Adding(2));
    assert [Row(1, true), Row(2, true)][0].active && [Row(1, true), Row(2, true)][1].active;
  }

  lemma RemovedFirst()
    ensures var t, u := [Row(1, true), Row(2, false), Row(3, false)], [Row(2, false), Row(3, false)];
            && Step(State(t, map[]), RemoveRow(1, 1, false)) == State(u, map[1 := Removed])
            && Step(State(u, map[1 := Removed]), CountActive(1, false)) == State(u, map[1 := Read(true)])
  {
    FindAt([Row(1, true), Row(2, false), Row(3, false)], 0);
    CountZero([Row(2, false), Row(3, false)]);
  }

  lemma SwitchedThenPromoted()
    ensures var u, v := [Row(2, false), Row(3, false)], [Row(2, true), Row(3, false)];
            && Step(State(u, map[1 := Read(true)]), Switch(2, false)) == State(v, map[1 := Read(true)])
            && Step(State(v, map[1 := Read(true)]), Promote(1, false)) == State([Row(2, true), Row(3, true)], map[])
  {
    var u, v := [Row(2, false), Row(3, false)], [Row(2, true), Row(3, false)];
    assert ClearActive(u) == u;
    FindAt(u, 0);
    FindAt(v, 1);
  }

  /** A deletion that counted none promotes the newest after another client has
      switched to another row: both are active. */
  lemma DeletionMayInterleave()
    ensures RunFrom(State([Row(1, true), Row(2, false), Row(3, false)], map[]),
                    [RemoveRow(1, 1, false), CountActive(1, false), Switch(2, false), Promote(1, false)])
         == State([Row(2, true), Row(3, true)], map[])
    ensures !OneActive([Row(2, true), Row(3, true)])
  {
    assert [Row(2, true), Row(3, true)][0].active && [Row(2, true), Row(3, true)][1].active;
    RemovedFirst();
    SwitchedThenPromoted();
    hide Step, RunFrom;
    var s := State([Row(1, true), Row(2, false), Row(3, false)], map[]);
    var u := [Row(2, false), Row(3, false)];
    RunMore(s, RemoveRow(1, 1, false), [CountActive(1, false), Switch(2, false), Promote(1, false)]);
    RunMore(State(u, map[1 := Removed]), CountActive(1, false), [Switch(2, false), Promote(1, false)]);
    RunTwo(State(u, map[1 := Read(true)]), Switch(2, false), Promote(1, false));
  }

  /** An addition that counted a row inserts after the last row was deleted: its
      credential is the only one, and not active. */
  lemma AdditionAfterLast()
    ensures RunFrom(State([Row(1, true)], map[]),
                    [CountRows(2, false), RemoveRow(1, 1, false), CountActive(1, false), Promote(1, false), Adding(2)])
         == State([Row(1, false)], map[])
    ensures !OneActive([Row(1, false)])
  {
    var s := State([Row(1, true)], map[]);
    var s1 := State([Row(1, true)], map[2 := Counted(false)]);
    var s2 := State([], map[2 := Counted(false), 1 := Removed]);
    var s3 := State([], map[2 := Counted(false), 1 := Read(true)]);
    var s4 := State([], map[2 := Counted(false)]);
    assert Step(s, CountRows(2, false)) == s1;
    FindAt(s.t, 0);
    assert Step(s1, RemoveRow(1, 1, false)) == s2;
    assert Step(s2, CountActive(1, false)) == s3;
    assert Step(s3, Promote(1, false)) == s4;
    assert Step(s4, Adding(2)) == State([Row(1, false)], map[]);
    hide Step;
    RunMore(s, CountRows(2, false), [RemoveRow(1, 1, false), CountActive(1, false), Promote(1, false), Adding(2)]);
    RunMore(s1, RemoveRow(1, 1, false), [CountActive(1, false), Promote(1, false), Adding(2)]);
    RunMore(s2, CountActive(1, false), [Promote(1, false), Adding(2)]);
    RunTwo(s3, Promote(1, false), Adding(2));
    CountOne([Row(1, false)]);
    CountSingle(Row(1, false));
  }

  /** A count that fails makes a second credential active, with one client alone. */
  lemma FailedCountAddsActive()
    ensures RunFrom(State([Row(1, true)], map[]), [CountRows(1, true), Adding(1)])
         == State([Row(1, true), Row(2, true)], map[])
  {
    RunTwo(State([Row(1, true)], map[]), CountRows(1, true), Adding(1));
  }
}
