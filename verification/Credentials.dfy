/** The provider credentials and which of them is active. Every SQL statement of an
    operation may fail, as the flags of the operation say. */
module Credentials {

  datatype Cred = Cred(id: int, name: string, provider: string, token: string, model: string, active: bool)

  datatype Outcome = Done | NotFound | Failed

  // ---- The table and its statements ----

  /** Rows in id order; ids are the primary key. */
  ghost predicate Ordered(t: seq<Cred>) {
    forall i, j :: 0 <= i < j < |t| ==> t[i].id < t[j].id
  }

  /** Row i alone is active. */
  ghost predicate Only(t: seq<Cred>, i: int) {
    0 <= i < |t| && forall k :: 0 <= k < |t| ==> (t[k].active <==> k == i)
  }

  /** Exactly one credential is active, or there is none at all. */
  ghost predicate OneActive(t: seq<Cred>) {
    t == [] || exists i :: Only(t, i)
  }

  /** Where an id is; the length when it is nowhere. */
  function Find(t: seq<Cred>, id: int): (i: nat)
    ensures i <= |t| && (i < |t| ==> t[i].id == id)
    ensures forall k :: 0 <= k < i ==> t[k].id != id
  {
    if t == [] || t[0].id == id then 0 else 1 + Find(t[1..], id)
  }

  /** The id the database gives a new row. */
  function NextId(t: seq<Cred>): int { if t == [] then 1 else t[|t| - 1].id + 1 }

  function Insert(t: seq<Cred>, name: string, provider: string, token: string, model: string, active: bool): seq<Cred> {
    t + [Cred(NextId(t), name, provider, token, model, active)]
  }

  function ClearActive(t: seq<Cred>): seq<Cred> {
    seq(|t|, i requires 0 <= i < |t| => t[i].(active := false))
  }

  function Activate(t: seq<Cred>, id: int): seq<Cred> {
    var i := Find(t, id);
    if i < |t| then t[i := t[i].(active := true)] else t
  }

  function Remove(t: seq<Cred>, id: int): seq<Cred> {
    var i := Find(t, id);
    if i < |t| then t[..i] + t[i + 1..] else t
  }

  function ActiveCount(t: seq<Cred>): nat {
    if t == [] then 0 else (if t[0].active then 1 else 0) + ActiveCount(t[1..])
  }

  function Relabel(t: seq<Cred>, id: int, name: string, model: string, token: string): seq<Cred> {
    var i := Find(t, id);
    if i == |t| then t
    else t[i := t[i].(name := name, model := model, token := if token == "" then t[i].token else token)]
  }

  // ---- Operations ----

  datatype Op =
    | Add(name: string, provider: string, token: string, model: string, countFails: bool, insertFails: bool)
    | SetActive(id: int, beginFails: bool, clearFails: bool, setFails: bool, commitFails: bool)
    | Update(id: int, name: string, model: string, token: string, updateFails: bool)
    | Delete(id: int, deleteFails: bool, countFails: bool, promoteFails: bool)

  /** What an operation makes of the table. */
  function After(t: seq<Cred>, op: Op): seq<Cred> {
    match op
    case Add(name, provider, token, model, countFails, insertFails) =>
      if insertFails then t else Insert(t, name, provider, token, model, t == [] || countFails)
    case SetActive(id, beginFails, clearFails, setFails, commitFails) =>
      if beginFails || clearFails || setFails || commitFails || Find(t, id) == |t| then t
      else Activate(ClearActive(t), id)
    case Update(id, name, model, token, updateFails) =>
      if updateFails then t else Relabel(t, id, name, model, token)
    case Delete(id, deleteFails, countFails, promoteFails) =>
      if deleteFails then t
      else
        var rest := Remove(t, id);
        if promoteFails || rest == [] || (!countFails && ActiveCount(rest) > 0) then rest
        else Activate(rest, rest[|rest| - 1].id)
  }

  /** The statement failures that do no harm. A count that cannot be read is taken to
      be zero, and a failed promotion goes unnoticed. */
  predicate Harmless(t: seq<Cred>, op: Op) {
    match op
    case Add(_, _, _, _, countFails, insertFails) => countFails && !insertFails ==> t == []
    case Delete(id, deleteFails, countFails, promoteFails) =>
      var i, rest := Find(t, id), Remove(t, id);
      if deleteFails || rest == [] then true
      else
        var wasActive := i < |t| && t[i].active;
        if promoteFails then !wasActive
        else countFails ==> wasActive || rest[|rest| - 1].active
    case _ => true
  }

  predicate NoFaults(op: Op) {
    match op
    case Add(_, _, _, _, countFails, insertFails) => !countFails && !insertFails
    case SetActive(_, beginFails, clearFails, setFails, commitFails) =>
      !beginFails && !clearFails && !setFails && !commitFails
    case Update(_, _, _, _, updateFails) => !updateFails
    case Delete(_, deleteFails, countFails, promoteFails) => !deleteFails && !countFails && !promoteFails
  }

  // ---- Facts about the statements ----

  lemma {:induction false} CountZero(t: seq<Cred>)
    ensures ActiveCount(t) == 0 <==> forall k :: 0 <= k < |t| ==> !t[k].active
  {
    if t != [] {
      CountZero(t[1..]);
      assert forall k :: 1 <= k < |t| ==> t[k] == t[1..][k - 1];
    }
  }

  lemma FindAt(t: seq<Cred>, i: nat)
    requires Ordered(t) && i < |t|
    ensures Find(t, t[i].id) == i
  {
    var j := Find(t, t[i].id);
    assert j <= i;
  }

  /** Activating one row of a table keeps one active exactly when no other row was. */
  lemma ActivateIff(t: seq<Cred>, i: nat)
    requires Ordered(t) && i < |t|
    ensures Ordered(Activate(t, t[i].id))
    ensures OneActive(Activate(t, t[i].id)) <==> forall k :: 0 <= k < |t| && k != i ==> !t[k].active
  {
    FindAt(t, i);
    var u := Activate(t, t[i].id);
    assert u == t[i := t[i].(active := true)];
    if forall k :: 0 <= k < |t| && k != i ==> !t[k].active {
      assert Only(u, i);
    }
    if k :| 0 <= k < |t| && k != i && t[k].active {
      assert u[k].active && u[i].active;
    }
  }

  lemma RemoveKeeps(t: seq<Cred>, id: int)
    requires Ordered(t) && OneActive(t)
    ensures Ordered(Remove(t, id))
    ensures var i := Find(t, id);
            if i < |t| && t[i].active then ActiveCount(Remove(t, id)) == 0
            else OneActive(Remove(t, id)) && (Remove(t, id) != [] ==> ActiveCount(Remove(t, id)) > 0)
  {
    hide ActiveCount, Find;
    var i, rest := Find(t, id), Remove(t, id);
    CountZero(rest);
    if t != [] {
      var a :| Only(t, a);
      if i < |t| && i != a {
        RemoveOther(t, i, a);
      }
    }
  }

  lemma RemoveOther(t: seq<Cred>, i: nat, a: int)
    requires Only(t, a) && i < |t| && i != a
    ensures var rest := t[..i] + t[i + 1..];
            var b := if a < i then a else a - 1;
            Only(rest, b) && rest[b].active
  {}

  // ---- One operation ----

  lemma AddIff(t: seq<Cred>, op: Op)
    requires Ordered(t) && OneActive(t) && op.Add?
    ensures Ordered(After(t, op)) && (OneActive(After(t, op)) <==> Harmless(t, op))
  {
    var u := After(t, op);
    if !op.insertFails {
      var n := |t|;
      if t == [] {
        assert Only(u, 0);
      } else {
        var a :| Only(t, a);
        assert u[a] == t[a];
        if !op.countFails {
          assert Only(u, a);
        } else {
          assert u[n].active && u[a].active;
        }
      }
    }
  }

  lemma DeleteIff(t: seq<Cred>, op: Op)
    requires Ordered(t) && OneActive(t) && op.Delete?
    ensures Ordered(After(t, op)) && (OneActive(After(t, op)) <==> Harmless(t, op))
  {
    hide Find, Remove, Activate, Ordered, OneActive;
    if !op.deleteFails {
      var rest := Remove(t, op.id);
      RemoveKeeps(t, op.id);
      CountZero(rest);
      SomeActive(rest);
      if rest != [] {
        PromoteIff(rest);
      }
    }
  }

  lemma SomeActive(t: seq<Cred>)
    ensures OneActive([])
    ensures t != [] && OneActive(t) ==> ActiveCount(t) > 0
  {
    CountZero(t);
    if i :| Only(t, i) {
      assert t[i].active;
    }
  }

  lemma PromoteIff(t: seq<Cred>)
    requires Ordered(t) && t != []
    requires OneActive(t) || ActiveCount(t) == 0
    ensures var u := Activate(t, t[|t| - 1].id);
            Ordered(u) && (OneActive(u) <==> ActiveCount(t) == 0 || t[|t| - 1].active)
  {
    ActivateIff(t, |t| - 1);
    CountZero(t);
    if i :| Only(t, i) {
      assert t[i].active;
    }
  }

  lemma ClearedAt(t: seq<Cred>, i: nat)
    requires Ordered(t) && i < |t|
    ensures Ordered(ClearActive(t)) && |ClearActive(t)| == |t|
    ensures forall k :: 0 <= k < |t| ==> ClearActive(t)[k] == t[k].(active := false)
    ensures Find(ClearActive(t), t[i].id) == i
  {
    var c := ClearActive(t);
    assert forall k :: 0 <= k < |t| ==> c[k].id == t[k].id;
    assert c[i].id == t[i].id;
    FindAt(c, i);
  }

  lemma SetActiveKeeps(t: seq<Cred>, id: int)
    requires Ordered(t) && Find(t, id) < |t|
    ensures Ordered(Activate(ClearActive(t), id)) && OneActive(Activate(ClearActive(t), id))
    ensures Only(Activate(ClearActive(t), id), Find(t, id))
  {
    hide ClearActive, Find;
    var i := Find(t, id);
    ClearedAt(t, i);
    ActivateIff(ClearActive(t), i);
  }

  lemma RelabelKeeps(t: seq<Cred>, id: int, name: string, model: string, token: string)
    requires Ordered(t) && OneActive(t)
    ensures Ordered(Relabel(t, id, name, model, token)) && OneActive(Relabel(t, id, name, model, token))
  {
    var u := Relabel(t, id, name, model, token);
    assert |u| == |t| && forall k :: 0 <= k < |t| ==> u[k].id == t[k].id && u[k].active == t[k].active;
    if t != [] {
      var a :| Only(t, a);
      assert Only(u, a);
    }
  }

  /** An operation keeps exactly one credential active precisely when its statement
      failures, if any, are harmless. */
  lemma StepKeepsIff(t: seq<Cred>, op: Op)
    requires Ordered(t) && OneActive(t)
    ensures Ordered(After(t, op))
    ensures OneActive(After(t, op)) <==> Harmless(t, op)
  {
    hide Ordered, OneActive, Find, Activate, ClearActive, Relabel;
    match op
    case Add(_, _, _, _, _, _) => AddIff(t, op);
    case Delete(_, _, _, _) => DeleteIff(t, op);
    case Update(id, name, model, token, _) => RelabelKeeps(t, id, name, model, token);
    case SetActive(id, _, _, _, _) =>
      if Find(t, id) < |t| {
        SetActiveKeeps(t, id);
      }
  }

  // ---- What becomes of the other columns ----

  /** The same credential, active or not. */
  ghost predicate SameBut(c: Cred, d: Cred) { d == c.(active := d.active) }

  /** An addition puts its row last, under an id above all others; the rest stays. */
  lemma AddIs(t: seq<Cred>, op: Op)
    requires Ordered(t) && op.Add? && !op.insertFails
    ensures var u, n := After(t, op), |t|;
      && |u| == n + 1 && u[..n] == t && (forall k :: 0 <= k < n ==> t[k].id < u[n].id)
      && (u[n].name, u[n].provider, u[n].token, u[n].model) == (op.name, op.provider, op.token, op.model)
      && (u[n].active <==> t == [] || op.countFails)
  {
  }

  /** An update writes name and model of its row, and the token when one is given; the
      provider, the id and which row is active stay, and so do all other rows. */
  lemma UpdateIs(t: seq<Cred>, op: Op, k: nat)
    requires Ordered(t) && op.Update? && !op.updateFails && k < |t|
    ensures |After(t, op)| == |t|
    ensures t[k].id != op.id ==> After(t, op)[k] == t[k]
    ensures t[k].id == op.id ==>
              var d := After(t, op)[k];
              && (d.id, d.provider, d.active) == (t[k].id, t[k].provider, t[k].active)
              && d.name == op.name && d.model == op.model
              && (op.token == "" ==> d.token == t[k].token) && (op.token != "" ==> d.token == op.token)
  {
    if t[k].id == op.id {
      FindAt(t, k);
    }
  }

  /** A switch changes nothing but which row is active. */
  lemma SwitchKeeps(t: seq<Cred>, op: Op, k: nat)
    requires Ordered(t) && op.SetActive? && k < |t|
    ensures |After(t, op)| == |t| && SameBut(t[k], After(t, op)[k])
  {
  }

  /** A deletion takes out its row, if there is one, and changes nothing of the others
      but which is active: row k was row k, or row k + 1 if the deleted row came before. */
  lemma DeleteKeeps(t: seq<Cred>, op: Op, k: nat) returns (i: nat)
    requires Ordered(t) && op.Delete? && !op.deleteFails && k < |After(t, op)|
    ensures i < |t| && t[i].id != op.id && SameBut(t[i], After(t, op)[k])
    ensures i == k || (i == k + 1 && exists j :: 0 <= j <= k && t[j].id == op.id)
    ensures i == k ==> forall j :: 0 <= j <= k ==> t[j].id != op.id
  {
    var rest := Remove(t, op.id);
    AfterDelete(t, op);
    i := if Find(t, op.id) <= k then k + 1 else k;
    hide After, Activate, Find, Remove;
    if After(t, op) != rest {
      ActivateKeeps(rest, rest[|rest| - 1].id, k);
    }
    RestIs(t, op.id, k);
  }

  lemma AfterDelete(t: seq<Cred>, op: Op)
    requires op.Delete? && !op.deleteFails
    ensures var u, rest := After(t, op), Remove(t, op.id);
      u == rest || (rest != [] && u == Activate(rest, rest[|rest| - 1].id))
    ensures |After(t, op)| == |Remove(t, op.id)|
  {
    hide ActiveCount, Find, Remove;
  }

  lemma ActivateKeeps(t: seq<Cred>, id: int, k: nat)
    requires k < |t|
    ensures |Activate(t, id)| == |t| && SameBut(t[k], Activate(t, id)[k])
  {
  }

  lemma RestIs(t: seq<Cred>, id: int, k: nat)
    requires Ordered(t) && k < |Remove(t, id)|
    ensures var f, i := Find(t, id), if Find(t, id) <= k then k + 1 else k;
      && i < |t| && t[i].id != id && Remove(t, id)[k] == t[i] && (f <= k ==> t[f].id == id)
  {
  }

  lemma DeleteCounts(t: seq<Cred>, op: Op)
    requires op.Delete? && !op.deleteFails
    ensures |After(t, op)| == if exists i :: 0 <= i < |t| && t[i].id == op.id then |t| - 1 else |t|
  {
    hide ActiveCount;
  }

  // ---- Runs ----

  function Run(t: seq<Cred>, ops: seq<Op>): seq<Cred>
    decreases |ops|
  {
    if ops == [] then t else Run(After(t, ops[0]), ops[1..])
  }

  /** Whatever operations are asked for, in whatever order, as long as no statement
      fails there is exactly one active credential whenever there is any. */
  lemma {:induction false} RunKeepsOneActive(t: seq<Cred>, ops: seq<Op>)
    requires Ordered(t) && OneActive(t)
    requires forall k :: 0 <= k < |ops| ==> NoFaults(ops[k])
    ensures Ordered(Run(t, ops)) && OneActive(Run(t, ops))
    decreases |ops|
  {
    if ops != [] {
      hide Ordered, OneActive, After;
      StepKeepsIff(t, ops[0]);
      assert NoFaults(ops[0]);
      RunKeepsOneActive(After(t, ops[0]), ops[1..]);
    }
  }

  /** An activation is all or nothing: it is done exactly when the id exists and no
      statement fails, and then the id is the active one; otherwise nothing changed. */
  lemma ActivationAllOrNothing(t: seq<Cred>, op: Op)
    requires Ordered(t) && op.SetActive?
    ensures NoFaults(op) && Find(t, op.id) < |t| ==> Only(After(t, op), Find(t, op.id))
    ensures !(NoFaults(op) && Find(t, op.id) < |t|) ==> After(t, op) == t
  {
    if Find(t, op.id) < |t| {
      SetActiveKeeps(t, op.id);
    }
  }

  /** Deleting the active credential makes the newest that is left active; deleting
      another leaves the rest as they were. */
  lemma DeletePromotesNewest(t: seq<Cred>, op: Op)
    requires Ordered(t) && OneActive(t) && op.Delete? && NoFaults(op)
    ensures var i, u := Find(t, op.id), After(t, op);
            if i == |t| then u == t
            else if t[i].active then u != [] ==> Only(u, |u| - 1)
            else u == t[..i] + t[i + 1..]
  {
    hide Find, ActiveCount;
    var i, rest := Find(t, op.id), Remove(t, op.id);
    RemoveKeeps(t, op.id);
    CountZero(rest);
    if rest != [] {
      FindAt(rest, |rest| - 1);
    }
  }

  // ---- The store ----

  class Store {
    var creds: seq<Cred>

    constructor ()
      ensures creds == []
    {
      creds := [];
    }

    method AddLLMCredential(name: string, provider: string, token: string, model: string, countFails: bool,
                            insertFails: bool)
      returns (id: int, outcome: Outcome)
      modifies this
      ensures creds == After(old(creds), Add(name, provider, token, model, countFails, insertFails))
      ensures outcome == (if insertFails then Failed else Done)
      ensures outcome == Done ==> |creds| == |old(creds)| + 1 && creds[|old(creds)|].id == id
    {
      var count := 0;
      if !countFails {
        count := |creds|;
      }
      var active := count == 0;
      if insertFails {
        return 0, Failed;
      }
      id := NextId(creds);
      creds := Insert(creds, name, provider, token, model, active);
      outcome := Done;
    }

    method ActiveLLMCredential() returns (found: bool, c: Cred)
      ensures found <==> exists i :: 0 <= i < |creds| && creds[i].active
      ensures found ==> c in creds && c.active
      ensures OneActive(creds) ==> (found <==> creds != [])
    {
      c := Cred(0, "", "", "", "", false);
      found := false;
      for i := 0 to |creds|
        invariant forall k :: 0 <= k < i ==> !creds[k].active
      {
        if creds[i].active {
          return true, creds[i];
        }
      }
      CountZero(creds);
      SomeActive(creds);
    }

    /** One transaction, rolled back unless it is committed. */
    method SetActiveLLMCredential(id: int, beginFails: bool, clearFails: bool, setFails: bool, commitFails: bool)
      returns (outcome: Outcome)
      modifies this
      ensures creds == After(old(creds), SetActive(id, beginFails, clearFails, setFails, commitFails))
      ensures outcome == Done <==>
                !beginFails && !clearFails && !setFails && !commitFails && Find(old(creds), id) < |old(creds)|
      ensures outcome == NotFound <==>
                !beginFails && !clearFails && !setFails && Find(old(creds), id) == |old(creds)|
    {
      if beginFails {
        return Failed;
      }
      var rollback := creds;
      if clearFails {
        creds := rollback;
        return Failed;
      }
      creds := ClearActive(creds);
      if setFails {
        creds := rollback;
        return Failed;
      }
      SameIds(rollback, id);
      var affected := if Find(creds, id) < |creds| then 1 else 0;
      creds := Activate(creds, id);
      if affected == 0 {
        creds := rollback;
        return NotFound;
      }
      if commitFails {
        creds := rollback;
        return Failed;
      }
      return Done;
    }

    method UpdateLLMCredential(id: int, name: string, model: string, token: string, updateFails: bool)
      returns (outcome: Outcome)
      modifies this
      ensures creds == After(old(creds), Update(id, name, model, token, updateFails))
      ensures outcome == (if updateFails then Failed else Done)
    {
      if updateFails {
        return Failed;
      }
      var i := Find(creds, id);
      if i < |creds| {
        if token != "" {
          creds := creds[i := creds[i].(name := name, model := model, token := token)];
        } else {
          creds := creds[i := creds[i].(name := name, model := model)];
        }
      }
      return Done;
    }

    method DeleteLLMCredential(id: int, deleteFails: bool, countFails: bool, promoteFails: bool)
      returns (outcome: Outcome)
      modifies this
      ensures creds == After(old(creds), Delete(id, deleteFails, countFails, promoteFails))
      ensures outcome == (if deleteFails then Failed else Done)
    {
      hide Remove, Activate, ActiveCount, Find, Relabel, ClearActive, Insert;
      if deleteFails {
        return Failed;
      }
      creds := Remove(creds, id);
      var n := 0;
      if !countFails {
        n := ActiveCount(creds);
      }
      if n == 0 && !promoteFails && |creds| > 0 {
        creds := Activate(creds, creds[|creds| - 1].id);
      }
      return Done;
    }
  }

  lemma {:induction false} SameIds(t: seq<Cred>, id: int)
    ensures Find(ClearActive(t), id) == Find(t, id)
  {
    if t != [] {
      SameIds(t[1..], id);
      assert ClearActive(t)[1..] == ClearActive(t[1..]);
    }
  }
}
