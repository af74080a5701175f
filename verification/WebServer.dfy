/** The server's overlay handlers over the database table and the disk. */
module WebServer {
  import opened Common
  import Text
  import opened WebPath
  import opened WebOverlay

  datatype Extension = Extension(slug: string, entry: string)
  datatype Status = New | Override
  datatype Change = Change(path: string, status: Status, baseSize: nat)

  /** A listing names each key of the table once, in path order. */
  ghost predicate Lists(keys: seq<string>, db: map<string, Bytes>) {
    && (forall k :: k in db <==> k in keys)
    && (forall i, j :: 0 <= i < j < |keys| ==> keys[i] != keys[j] && Precedes(keys[i], keys[j]))
  }

  // ---- Path order ----

  /** Character by character, a shorter path before its extensions. */
  predicate Precedes(a: string, b: string) {
    a == "" || (b != "" && (a[0] < b[0] || (a[0] == b[0] && Precedes(a[1..], b[1..]))))
  }

  lemma {:induction false} PrecedesTotal(a: string, b: string)
    ensures Precedes(a, b) || Precedes(b, a)
  {
    if a != "" && b != "" && a[0] == b[0] {
      PrecedesTotal(a[1..], b[1..]);
    }
  }

  /** Which comes first: where two paths first differ the smaller character decides, and
      a path comes before its extensions. */
  lemma {:induction false} OrderIs(p: string, c: char, x: string, d: char, y: string)
    ensures Precedes(p, p + x) && (Precedes(p + x, p) <==> x == "")
    ensures c != d ==> (Precedes(p + [c] + x, p + [d] + y) <==> c < d)
  {
    if p == "" {
      assert p + x == x && p + [c] + x == [c] + x && p + [d] + y == [d] + y;
    } else {
      var q := p[1..];
      OrderIs(q, c, x, d, y);
      assert (p + x)[1..] == q + x;
      assert (p + [c] + x)[1..] == q + [c] + x && (p + [d] + y)[1..] == q + [d] + y;
    }
  }

  lemma {:induction false} PrecedesTransitive(a: string, b: string, c: string)
    requires Precedes(a, b) && Precedes(b, c)
    ensures Precedes(a, c)
  {
    if a != "" && a[0] == b[0] == c[0] {
      PrecedesTransitive(a[1..], b[1..], c[1..]);
    }
  }

  /** A set of paths has a first one. */
  lemma {:induction false} FirstPath(s: set<string>) returns (k: string)
    requires s != {}
    ensures k in s && forall x :: x in s ==> Precedes(k, x)
  {
    var a :| a in s;
    var rest := s - {a};
    PrecedesTotal(a, a);
    assert s == rest + {a};
    if rest == {} {
      k := a;
    } else {
      var b := FirstPath(rest);
      PrecedesTotal(a, b);
      k := if Precedes(a, b) then a else b;
      forall x | x in s ensures Precedes(k, x) {
        hide Precedes;
        if x in rest && k == a {
          PrecedesTransitive(a, b, x);
        }
      }
    }
  }

  function ChangeOf(embed: map<string, Bytes>, key: string): Change {
    if key in embed then Change(key, Override, |embed[key]|) else Change(key, New, 0)
  }

  /** A change to a file of the shell is an override, with the size of what it hides;
      any other file is new. */
  ghost predicate Tells(c: Change, key: string, embed: map<string, Bytes>) {
    && c.path == key
    && (key in embed ==> c.status == Override && c.baseSize == |embed[key]|)
    && (key !in embed ==> c.status == New && c.baseSize == 0)
  }

  /** The extensions whose entry module is still pending in the table. */
  function PendingOnly(exts: seq<Extension>, db: map<string, Bytes>): seq<Extension> {
    if exts == [] then []
    else
      var n := |exts| - 1;
      var key := Normalize(exts[n].entry);
      PendingOnly(exts[..n], db) + (if key.Some? && key.value in db then [exts[n]] else [])
  }

  /** An extension is shown exactly when its entry names a pending file, in its place. */
  lemma {:induction false} PendingLaw(a: seq<Extension>, b: seq<Extension>, e: Extension, db: map<string, Bytes>)
    ensures PendingOnly([], db) == [] && PendingOnly(a + b, db) == PendingOnly(a, db) + PendingOnly(b, db)
    ensures var key := Normalize(e.entry);
      PendingOnly([e], db) == if key.Some? && key.value in db then [e] else []
  {
    hide Normalize;
    assert [e][..0] == [];
    if b == [] {
      assert a + b == a;
    } else {
      var n := |b| - 1;
      PendingLaw(a, b[..n], e, db);
      assert (a + b)[..|a + b| - 1] == a + b[..n];
    }
  }

  /** With nothing pending there is nothing to show. */
  lemma {:induction false} NothingPending(exts: seq<Extension>)
    ensures PendingOnly(exts, map[]) == []
  {
    if exts != [] {
      NothingPending(exts[..|exts| - 1]);
    }
  }

  /** Fortunes of the first n rounds. */
  function Lucks(luck: nat -> Luck, n: nat): (l: seq<Luck>)
    ensures |l| == n
  {
    seq(n, i requires 0 <= i < n => luck(i))
  }

  lemma {:induction false} StaysFailed(w: Web, keys: seq<string>, luck: nat -> Luck, n: nat)
    requires n <= |keys| && !Save(w, keys[..n], Lucks(luck, n)).1
    ensures Save(w, keys, Lucks(luck, |keys|)) == Save(w, keys[..n], Lucks(luck, n))
    decreases |keys| - n
  {
    if n == |keys| {
      assert keys[..n] == keys;
    } else {
      NextRound(w, keys, luck, n);
      StaysFailed(w, keys, luck, n + 1);
    }
  }

  /** One more round of the loop. */
  lemma NextRound(w: Web, keys: seq<string>, luck: nat -> Luck, n: nat)
    requires n < |keys|
    ensures Save(w, keys[..n + 1], Lucks(luck, n + 1)) ==
            var (u, ok, count) := Save(w, keys[..n], Lucks(luck, n));
            if !ok then (u, false, count)
            else
              var (v, out) := SaveOne(u, keys[n], luck(n));
              (v, out != Failed, if out == Saved then count + 1 else count)
  {
    assert keys[..n + 1][..n] == keys[..n];
    assert Lucks(luck, n + 1)[..n] == Lucks(luck, n);
    hide SaveOne;
  }

  lemma NoRounds(w: Web, keys: seq<string>, luck: nat -> Luck)
    ensures Save(w, keys[..0], Lucks(luck, 0)) == (w, true, 0)
    ensures keys[..|keys|] == keys
  {
  }

  class Server {
    const dev: Option<Place>
    const exportDir: Place
    const embed: map<string, Bytes>
    var db: map<string, Bytes>
    var disk: map<Place, Node>

    constructor (dev: Option<Place>, exportDir: Place, embed: map<string, Bytes>,
                 db: map<string, Bytes>, disk: map<Place, Node>)
      ensures State() == Web(dev, db, exportDir, disk, embed)
    {
      this.dev, this.exportDir, this.embed, this.db, this.disk := dev, exportDir, embed, db, disk;
    }

    function State(): Web
      reads this
    {
      Web(dev, db, exportDir, disk, embed)
    }

    method PutWebFile(key: string, content: Bytes)
      modifies `db
      ensures State() == old(State()).(db := old(db)[key := content])
    {
      db := db[key := content];
    }

    method DeleteWebFile(key: string)
      modifies `db
      ensures State() == old(State()).(db := old(db) - {key})
    {
      db := db - {key};
    }

    /** The agent's write tool: a bad path is refused and nothing changes. */
    method WriteWebFile(p: string, content: Bytes) returns (key: Option<string>)
      requires ProperKeys(db)
      modifies `db
      ensures ProperKeys(db) && key == Normalize(p)
      ensures State() == (if key.None? then old(State()) else old(State()).(db := old(db)[key.value := content]))
    {
      key := NormalizeWebPath(p);
      NormalizeProper(p);
      if key.Some? {
        PutWebFile(key.value, content);
      }
    }

    method ListWebFiles() returns (keys: seq<string>)
      ensures Lists(keys, db)
    {
      keys := [];
      var todo := db.Keys;
      while todo != {}
        invariant todo <= db.Keys
        invariant forall k :: k in db <==> k in keys || k in todo
        invariant forall k, x :: k in keys && x in todo ==> k != x && Precedes(k, x)
        invariant forall i, j :: 0 <= i < j < |keys| ==> keys[i] != keys[j] && Precedes(keys[i], keys[j])
        decreases |todo|
      {
        ghost var first := FirstPath(todo);
        var k :| k in todo && forall x :: x in todo ==> Precedes(k, x);
        todo := todo - {k};
        keys := keys + [k];
      }
    }

    /** "Save to disk". */
    method HandleWebExport(luck: nat -> Luck) returns (ok: bool, count: nat, ghost keys: seq<string>)
      modifies `db, `disk
      ensures Lists(keys, old(db))
      ensures (State(), ok, count) == Save(old(State()), keys, Lucks(luck, |keys|))
    {
      var files := ListWebFiles();
      keys := files;
      ok, count := SaveAll(files, luck);
    }

    method SaveAll(files: seq<string>, luck: nat -> Luck) returns (ok: bool, count: nat)
      modifies `db, `disk
      ensures (State(), ok, count) == Save(old(State()), files, Lucks(luck, |files|))
    {
      ghost var w := State();
      ok, count := true, 0;
      NoRounds(w, files, luck);
      hide *;
      for i := 0 to |files|
        invariant State() == Save(w, files[..i], Lucks(luck, i)).0
        invariant Save(w, files[..i], Lucks(luck, i)).1 && count == Save(w, files[..i], Lucks(luck, i)).2
      {
        NextRound(w, files, luck, i);
        var out := SaveFile(files[i], luck(i));
        if out == Saved {
          count := count + 1;
        } else if out == Failed {
          ok := false;
          StaysFailed(w, files, luck, i + 1);
          return;
        }
      }
    }

    /** One round: read the row, check the place, make directories, write, delete the row. */
    method SaveFile(key: string, luck: Luck) returns (out: Outcome)
      modifies `db, `disk
      ensures (State(), out) == SaveOne(old(State()), key, luck)
    {
      var content := GetWebFile(db, key);
      if content.None? {
        return Skipped;
      }
      var full := CleanSegs(exportDir + Text.Split(key, '/'));
      if full != exportDir && !(exportDir != [] && exportDir <= full) {
        return Skipped;
      }
      if full == [] {
        return Failed;
      }
      var (after, result) := WriteAt(disk, full, content.value, luck.fault);
      disk, out := after, result;
      if out == Saved && luck.deleted {
        DeleteWebFile(key);
      }
    }

    /** What the "Changes" tab lists. */
    method HandleWebChanges(exts: seq<Extension>)
      returns (out: seq<Change>, shown: seq<Extension>, ghost keys: seq<string>)
      ensures Lists(keys, db)
      ensures |out| == |keys| && forall i :: 0 <= i < |keys| ==> Tells(out[i], keys[i], embed)
      ensures shown == PendingOnly(exts, db)
    {
      var files := ListWebFiles();
      keys := files;
      out, shown := [], [];
      var pending: map<string, bool> := map[];
      for i := 0 to |files|
        invariant |out| == i && forall j :: 0 <= j < i ==> Tells(out[j], keys[j], embed)
        invariant forall k :: k in pending <==> k in keys[..i]
      {
        out := out + [ChangeOf(embed, files[i])];
        pending := pending[files[i] := true];
      }
      assert keys[..|keys|] == keys;
      for i := 0 to |exts|
        invariant shown == PendingOnly(exts[..i], db)
      {
        var key := NormalizeWebPath(exts[i].entry);
        assert exts[..i + 1][..i] == exts[..i];
        if key.Some? && key.value in pending {
          shown := shown + [exts[i]];
        }
      }
      assert exts[..|exts|] == exts;
    }
  }
}
