/** The four layers a web asset is served from, and "Save to disk", which moves
    authored files from the database overlay to the export directory. */
module WebOverlay {
  import opened Common
  import opened Text
  import opened WebPath

  type Bytes = seq<nat>

  /** A place on disk, as the segments of its absolute path. */
  type Place = seq<string>

  datatype Node = File(content: Bytes) | Dir

  /** Everything that can be served: the optional dev overlay and the export
      directory on one disk, the database overlay by key, the embedded shell. */
  datatype Web = Web(dev: Option<Place>, db: map<string, Bytes>, exportDir: Place, disk: map<Place, Node>,
                     embed: map<string, Bytes>)

  // ---- Serving ----

  function Under(dir: Place, name: string): Place { dir + Split(name, '/') }

  function ReadFile(disk: map<Place, Node>, p: Place): Option<Bytes> {
    if p in disk && disk[p].File? then Some(disk[p].content) else None
  }

  function GetWebFile(db: map<string, Bytes>, key: string): Option<Bytes> {
    if key in db then Some(db[key]) else None
  }

  function First(a: Option<Bytes>, b: Option<Bytes>): Option<Bytes> {
    if a.Some? then a else b
  }

  function DevLayer(w: Web, name: string): Option<Bytes> {
    if w.dev.Some? then ReadFile(w.disk, Under(w.dev.value, name)) else None
  }

  /** The cascade for a cleaned name. */
  function Lookup(w: Web, name: string): Option<Bytes> {
    First(DevLayer(w, name),
          First(GetWebFile(w.db, name),
                First(ReadFile(w.disk, Under(w.exportDir, name)),
                      if name in w.embed then Some(w.embed[name]) else None)))
  }

  function ServedName(request: string): string {
    if CleanRooted(request) == "" then "index.html" else CleanRooted(request)
  }

  function ReadStatic(w: Web, request: string): Option<Bytes> {
    Lookup(w, ServedName(request))
  }

  lemma ServedNameProper(request: string)
    ensures Proper(ServedName(request))
  {
    CleanedIsProper(request);
    SplitFirst("index.html", "", '/');
    var n := "index.html";
    assert n[0] == 'i';
  }

  ghost predicate FileAt(w: Web, place: Place) { place in w.disk && w.disk[place].File? }

  /** What is served for a request, layer by layer: the file in the dev overlay; else
      the authored one; else the saved one; else the one that is built in; else nothing.
      A request that names nothing is one for the index page. */
  lemma ServedFrom(w: Web, request: string)
    ensures var clean := CleanRooted(request); var name := if clean == "" then "index.html" else clean;
      var segs := Split(name, '/'); var saved := w.exportDir + segs;
      && (w.dev.Some? && FileAt(w, w.dev.value + segs) ==>
            ReadStatic(w, request) == Some(w.disk[w.dev.value + segs].content))
      && (!(w.dev.Some? && FileAt(w, w.dev.value + segs)) ==>
            && (name in w.db ==> ReadStatic(w, request) == Some(w.db[name]))
            && (name !in w.db ==>
                  && (FileAt(w, saved) ==> ReadStatic(w, request) == Some(w.disk[saved].content))
                  && (!FileAt(w, saved) ==>
                        ReadStatic(w, request) == if name in w.embed then Some(w.embed[name]) else None)))
  {
  }

  /** So the built-in index page is always there to be served. */
  lemma IndexIsServed(w: Web, x: string)
    requires '/' !in x && x != "" && x != "." && x != ".."
    ensures ReadStatic(w, "") == ReadStatic(w, "/") == ReadStatic(w, x + "/..") == ReadStatic(w, "index.html")
    ensures "index.html" in w.embed ==> ReadStatic(w, "/").Some?
  {
    CleansToNothing(x);
    hide CleanRooted, Lookup;
    ServedNameProper("");
    ProperIsFixed("index.html");
  }

  lemma CleansToNothing(x: string)
    requires '/' !in x && x != "" && x != "." && x != ".."
    ensures CleanRooted("") == CleanRooted("/") == CleanRooted(x + "/..") == ""
  {
    SplitFirst("", "", '/');
    SplitFirst(x, "..", '/');
    SplitFirst("..", "", '/');
    assert x + "/.." == x + ['/'] + ".." && "" + ['/'] + "" == "/";
    var none: seq<string> := [];
    assert none + [""] + none == [""] && none + [x, ".."] + none == [x, ".."] && none + none == none;
    assert [""] + [""] + none == ["", ""] && [""] + none == [""] && [x] + [".."] == [x, ".."];
    assert CleanSegs(none) == none;
    hide CleanSegs, Split;
    CleanLaw(none, x, none);
    CleanLaw([""], x, none);
  }

  /** What an authored write stores is served at its key, unless the dev overlay
      has a file of that name. */
  lemma WrittenIsServed(w: Web, p: string, content: Bytes)
    requires Normalize(p).Some?
    ensures var key := Normalize(p).value; var after := w.(db := w.db[key := content]);
      && ServedName(key) == key
      && ReadStatic(after, key) == (if DevLayer(w, key).Some? then DevLayer(w, key) else Some(content))
  {
    NormalizeProper(p);
    ProperIsFixed(Normalize(p).value);
  }

  /** A proper key lands strictly below the export directory. */
  lemma LandsBelow(dir: Place, key: string)
    requires Proper(key)
    ensures dir < Under(dir, key) && CleanSegs(dir + Split(key, '/')) == CleanSegs(dir) + Split(key, '/')
  {
    CleanAppend(dir, Split(key, '/'));
  }

  lemma {:induction false} CleanAppend(dir: Place, segs: seq<string>)
    requires forall k :: 0 <= k < |segs| ==> segs[k] != "" && segs[k] != "." && segs[k] != ".."
    ensures CleanSegs(dir + segs) == CleanSegs(dir) + segs
  {
    if segs == [] {
      assert dir + segs == dir;
    } else {
      var n := |segs| - 1;
      CleanAppend(dir, segs[..n]);
      assert (dir + segs)[..|dir + segs| - 1] == dir + segs[..n];
    }
  }

  // ---- Saving to disk ----

  /** What goes wrong with one file, if anything: creating its directories stops
      after some of them, or writing leaves it with some other content or none. */
  datatype Fault = NoFault | MkdirFails(made: nat) | WriteFails(left: Option<Bytes>)

  /** Whether the row can be deleted afterwards; failing to is not noticed. */
  datatype Luck = Luck(fault: Fault, deleted: bool)

  /** Every directory down to p, for the first n of them; a file in the way stops it. */
  function MkdirAll(disk: map<Place, Node>, p: Place, n: nat): (map<Place, Node>, bool)
    requires n <= |p|
  {
    if n == 0 then (disk, true)
    else
      var (d, ok) := MkdirAll(disk, p, n - 1);
      if !ok then (d, false)
      else if p[..n] in d then (d, d[p[..n]].Dir?)
      else (d[p[..n] := Dir], true)
  }

  /** The containment check, on cleaned paths: the root directory passes nothing. */
  predicate Contained(dir: Place, full: Place) {
    full == dir || (dir != [] && dir <= full)
  }

  datatype Outcome = Saved | Skipped | Failed

  /** Make the directories of a file and write it. */
  function WriteAt(disk: map<Place, Node>, full: Place, content: Bytes, fault: Fault): (map<Place, Node>, Outcome)
    requires full != []
  {
    var n := |full| - 1;
    if fault.MkdirFails? then (MkdirAll(disk, full, if fault.made < n then fault.made else n).0, Failed)
    else
      var (made, ok) := MkdirAll(disk, full, n);
      if !ok || (full in made && made[full].Dir?) then (made, Failed)
      else if fault.WriteFails? then
        (if fault.left.Some? then made[full := File(fault.left.value)] else made, Failed)
      else (made[full := File(content)], Saved)
  }

  /** What that leaves in the file, when it touches it. */
  function LeftAt(disk: map<Place, Node>, full: Place, content: Bytes, fault: Fault): Option<Bytes>
    requires full != []
  {
    if fault.MkdirFails? then None
    else
      var (made, ok) := MkdirAll(disk, full, |full| - 1);
      if !ok || (full in made && made[full].Dir?) then None
      else if fault.WriteFails? then fault.left
      else Some(content)
  }

  /** One round of the export loop. */
  function SaveOne(w: Web, key: string, luck: Luck): (Web, Outcome) {
    if key !in w.db then (w, Skipped)
    else
      var full := CleanSegs(w.exportDir + Split(key, '/'));
      if !Contained(w.exportDir, full) then (w, Skipped)
      else if full == [] then (w, Failed)
      else
        var (disk, out) := WriteAt(w.disk, full, w.db[key], luck.fault);
        (w.(disk := disk, db := if out == Saved && luck.deleted then w.db - {key} else w.db), out)
  }

  /** The loop over the listed keys; it stops at the first failure. */
  function Save(w: Web, keys: seq<string>, luck: seq<Luck>): (Web, bool, nat)
    requires |luck| == |keys|
    decreases |keys|
  {
    if keys == [] then (w, true, 0)
    else
      var n := |keys| - 1;
      var (u, ok, count) := Save(w, keys[..n], luck[..n]);
      if !ok then (u, false, count)
      else
        var (v, out) := SaveOne(u, keys[n], luck[n]);
        match out
        case Saved => (v, true, count + 1)
        case Skipped => (v, true, count)
        case Failed => (v, false, count)
  }

  // ---- What saving does ----

  /** q is one of the first n directories down to p. */
  ghost predicate OnWay(p: Place, n: nat, q: Place)
    requires n <= |p|
  {
    0 < |q| <= n && q == p[..|q|]
  }

  ghost predicate Unchanged(before: map<Place, Node>, after: map<Place, Node>, q: Place) {
    (q in before <==> q in after) && (q in before ==> before[q] == after[q])
  }

  ghost predicate NoFileOnWay(disk: map<Place, Node>, p: Place, n: nat)
    requires n <= |p|
  {
    forall q :: OnWay(p, n, q) && q in disk ==> disk[q].Dir?
  }

  lemma {:induction false} MkdirMakes(disk: map<Place, Node>, p: Place, n: nat)
    requires n <= |p|
    ensures var (d, ok) := MkdirAll(disk, p, n);
      && (ok <==> NoFileOnWay(disk, p, n))
      && (ok ==> forall q :: OnWay(p, n, q) ==> q in d && d[q] == Dir)
      && (forall q :: !OnWay(p, n, q) ==> Unchanged(disk, d, q))
  {
    if n > 0 {
      var (d, ok) := MkdirAll(disk, p, n - 1);
      MkdirMakes(disk, p, n - 1);
      var here := p[..n];
      assert OnWay(p, n, here) && !OnWay(p, n - 1, here) && Unchanged(disk, d, here);
      assert forall q :: OnWay(p, n, q) <==> OnWay(p, n - 1, q) || q == here;
      hide OnWay;
    }
  }

  /** Nothing on the way to the file is a file, and it is no directory itself. */
  ghost predicate Clear(disk: map<Place, Node>, full: Place)
    requires full != []
  {
    NoFileOnWay(disk, full, |full| - 1) && (full in disk ==> disk[full].File?)
  }

  /** What is on disk once the content has been written there. */
  ghost predicate Stored(before: map<Place, Node>, after: map<Place, Node>, full: Place, content: Bytes)
    requires full != []
  {
    && full in after && after[full] == File(content)
    && (forall q :: OnWay(full, |full| - 1, q) ==> q in after && after[q] == Dir)
    && (forall q :: q != full && !OnWay(full, |full| - 1, q) ==> Unchanged(before, after, q))
  }

  lemma WriteWrites(disk: map<Place, Node>, full: Place, content: Bytes)
    requires full != []
    ensures var (after, out) := WriteAt(disk, full, content, NoFault);
      && (out == Saved <==> Clear(disk, full)) && (out != Saved ==> out == Failed)
      && (out == Saved ==> Stored(disk, after, full, content))
  {
    hide MkdirAll;
    MkdirMakes(disk, full, |full| - 1);
    assert !OnWay(full, |full| - 1, full);
    hide OnWay, NoFileOnWay;
    assert Unchanged(disk, MkdirAll(disk, full, |full| - 1).0, full);
  }

  /** A round in which nothing fails saves the file exactly when nothing is in the way:
      its directories and the content are there, nothing else on disk has changed, and
      its row, and no other, is gone. Otherwise no row is touched. */
  lemma RoundWrites(w: Web, key: string)
    requires Proper(key) && CleanPlace(w.exportDir) && key in w.db && w.exportDir != []
    ensures var (v, out) := SaveOne(w, key, Luck(NoFault, true)); var full := w.exportDir + Split(key, '/');
      && full != []
      && (out == Saved <==> Clear(w.disk, full)) && (out != Saved ==> out == Failed && v.db == w.db)
      && (out == Saved ==> v.db == w.db - {key} && Stored(w.disk, v.disk, full, w.db[key]))
  {
    SaveOneIs(w, key, Luck(NoFault, true));
    hide SaveOne, CleanSegs, Proper, CleanPlace, WriteAt, Split, Clear, Stored;
    WriteWrites(w.disk, Under(w.exportDir, key), w.db[key]);
  }

  function Rounds(out: seq<Outcome>): nat {
    if out == [] then 0 else Rounds(Init(out)) + if Last(out) == Saved then 1 else 0
  }

  /** The loop saves one listed file after the other, each on what the rounds before
      have left, and stops after the first round that fails; then it reports failure.
      What it counts is the files saved. */
  lemma {:induction false} SaveRuns(w: Web, keys: seq<string>, luck: seq<Luck>)
    returns (ws: seq<Web>, out: seq<Outcome>)
    requires |luck| == |keys|
    ensures |ws| == |out| + 1 && |out| <= |keys| && ws[0] == w
    ensures forall i :: 0 <= i < |out| ==> (ws[i + 1], out[i]) == SaveOne(ws[i], keys[i], luck[i])
    ensures forall i :: 0 <= i < |out| - 1 ==> out[i] != Failed
    ensures var (v, ok, count) := Save(w, keys, luck);
      && v == ws[|out|] && count == Rounds(out)
      && (ok <==> out == [] || Last(out) != Failed) && (ok ==> |out| == |keys|)
    decreases |keys|
  {
    if keys == [] {
      ws, out := [w], [];
    } else {
      var n := |keys| - 1;
      SaveLast(w, keys, luck);
      var (u, ok, count) := Save(w, keys[..n], luck[..n]);
      ws, out := SaveRuns(w, keys[..n], luck[..n]);
      hide Save, SaveOne, Rounds;
      if ok {
        var (v, o) := SaveOne(u, keys[n], luck[n]);
        RoundsMore(out, o);
        ws, out := ws + [v], out + [o];
      }
    }
  }

  lemma RoundsMore(out: seq<Outcome>, o: Outcome)
    ensures Rounds(out + [o]) == Rounds(out) + if o == Saved then 1 else 0
  {
    assert Init(out + [o]) == out;
  }

  lemma SaveLast(w: Web, keys: seq<string>, luck: seq<Luck>)
    requires |luck| == |keys| && keys != []
    ensures var n := |keys| - 1; var (u, ok, count) := Save(w, keys[..n], luck[..n]);
      && (!ok ==> Save(w, keys, luck) == (u, false, count))
      && (ok ==>
            var (v, out) := SaveOne(u, keys[n], luck[n]);
            Save(w, keys, luck) == (v, out != Failed, if out == Saved then count + 1 else count))
  {
    hide SaveOne;
  }

  // ---- Save is invisible ----

  ghost predicate ProperKeys(db: map<string, Bytes>) {
    forall k :: k in db ==> Proper(k)
  }

  /** The export directory is a cleaned place. */
  ghost predicate CleanPlace(p: Place) {
    forall k :: 0 <= k < |p| ==> p[k] != "" && p[k] != "." && p[k] != ".."
  }

  /** Neither directory contains the other. */
  ghost predicate Apart(w: Web) {
    w.dev.Some? ==> !(w.dev.value <= w.exportDir) && !(w.exportDir <= w.dev.value)
  }

  /** The two webs serve the same for every request. */
  ghost predicate SameServed(a: Web, b: Web) {
    forall request :: ReadStatic(a, request) == ReadStatic(b, request)
  }

  lemma {:induction false} MkdirReads(disk: map<Place, Node>, p: Place, n: nat, q: Place)
    requires n <= |p|
    ensures ReadFile(MkdirAll(disk, p, n).0, q) == ReadFile(disk, q)
    ensures q in disk ==> q in MkdirAll(disk, p, n).0 && MkdirAll(disk, p, n).0[q] == disk[q]
  {
    if n > 0 {
      MkdirReads(disk, p, n - 1, q);
    }
  }

  lemma WriteAtReads(disk: map<Place, Node>, full: Place, content: Bytes, fault: Fault, q: Place)
    requires full != []
    ensures q != full ==> ReadFile(WriteAt(disk, full, content, fault).0, q) == ReadFile(disk, q)
    ensures var left := LeftAt(disk, full, content, fault);
            ReadFile(WriteAt(disk, full, content, fault).0, full) == if left.Some? then left else ReadFile(disk, full)
    ensures WriteAt(disk, full, content, fault).1 == Saved ==> LeftAt(disk, full, content, fault) == Some(content)
  {
    var n := |full| - 1;
    MkdirReads(disk, full, n, q);
    MkdirReads(disk, full, n, full);
    if fault.MkdirFails? {
      MkdirReads(disk, full, if fault.made < n then fault.made else n, q);
      MkdirReads(disk, full, if fault.made < n then fault.made else n, full);
    }
  }

  /** A round for a proper key, with the cleaning and the containment check resolved. */
  lemma SaveOneIs(w: Web, key: string, luck: Luck)
    requires Proper(key) && CleanPlace(w.exportDir)
    ensures Under(w.exportDir, key) != []
    ensures SaveOne(w, key, luck) ==
            if key !in w.db || w.exportDir == [] then (w, Skipped)
            else
              var (disk, out) := WriteAt(w.disk, Under(w.exportDir, key), w.db[key], luck.fault);
              (w.(disk := disk, db := if out == Saved && luck.deleted then w.db - {key} else w.db), out)
  {
    LandsBelow(w.exportDir, key);
    CleanFixed(w.exportDir);
    hide WriteAt, CleanSegs;
  }

  /** A round touches no file but the one it saves. */
  lemma SaveOneReads(w: Web, key: string, luck: Luck, q: Place)
    requires Proper(key) && CleanPlace(w.exportDir) && q != Under(w.exportDir, key)
    ensures ReadFile(SaveOne(w, key, luck).0.disk, q) == ReadFile(w.disk, q)
  {
    SaveOneIs(w, key, luck);
    hide SaveOne, WriteAt, Under;
    if key in w.db {
      WriteAtReads(w.disk, Under(w.exportDir, key), w.db[key], luck.fault, q);
    }
  }

  /** What a round leaves in the file it saves, when it touches it. */
  function Left(w: Web, key: string, luck: Luck): Option<Bytes> {
    if key !in w.db || w.exportDir == [] then None
    else LeftAt(w.disk, Under(w.exportDir, key), w.db[key], luck.fault)
  }

  /** It changes the database only by taking out the key it saved. */
  lemma SaveOneKeeps(w: Web, key: string, luck: Luck)
    requires Proper(key) && CleanPlace(w.exportDir)
    ensures var (v, out) := SaveOne(w, key, luck);
      && v.dev == w.dev && v.exportDir == w.exportDir && v.embed == w.embed
      && v.db == (if out == Saved && luck.deleted then w.db - {key} else w.db)
      && ReadFile(v.disk, Under(w.exportDir, key))
         == (if Left(w, key, luck).Some? then Left(w, key, luck) else ReadFile(w.disk, Under(w.exportDir, key)))
      && (out == Saved ==> key in w.db && Left(w, key, luck) == Some(w.db[key]))
      && (out == Skipped ==> v == w && (key !in w.db || w.exportDir == []))
  {
    SaveOneIs(w, key, luck);
    hide SaveOne, Under;
    if key in w.db {
      WriteAtReads(w.disk, Under(w.exportDir, key), w.db[key], luck.fault, []);
    }
  }

  /** The dev overlay serves the saved file, as `name`. */
  ghost predicate Overlaid(w: Web, key: string, name: string) {
    w.dev.Some? && Under(w.dev.value, name) == Under(w.exportDir, key)
  }

  /** What a round leaves, if anything, is what was served already wherever the dev
      overlay serves the file. */
  ghost predicate Quiet(w: Web, key: string, luck: Luck) {
    Left(w, key, luck).Some? ==>
      forall name :: Proper(name) && Overlaid(w, key, name) ==> Lookup(w, name) == Left(w, key, luck)
  }

  /** A round shows in what the dev overlay serves of its file, and nowhere else. */
  lemma RoundServes(w: Web, key: string, luck: Luck, name: string)
    requires Proper(key) && Proper(name) && CleanPlace(w.exportDir)
    ensures Lookup(SaveOne(w, key, luck).0, name)
         == if Overlaid(w, key, name) && Left(w, key, luck).Some? then Left(w, key, luck) else Lookup(w, name)
  {
    var v := SaveOne(w, key, luck).0;
    SaveOneKeeps(w, key, luck);
    hide SaveOne, Proper, Left;
    if w.dev.Some? && !Overlaid(w, key, name) {
      SaveOneReads(w, key, luck, Under(w.dev.value, name));
    }
    if name != key {
      if Under(w.exportDir, name) == Under(w.exportDir, key) {
        assert Split(name, '/') == Under(w.exportDir, name)[|w.exportDir|..];
        SegsTellApart(name, key);
        assert false;
      }
      SaveOneReads(w, key, luck, Under(w.exportDir, name));
    }
  }

  lemma SameServedIff(a: Web, b: Web)
    ensures SameServed(a, b) <==> forall name :: Proper(name) ==> Lookup(a, name) == Lookup(b, name)
  {
    hide Lookup, Proper;
    if SameServed(a, b) {
      forall name | Proper(name) ensures Lookup(a, name) == Lookup(b, name) {
        ProperIsFixed(name);
        assert ReadStatic(a, name) == ReadStatic(b, name);
      }
    } else {
      var request :| ReadStatic(a, request) != ReadStatic(b, request);
      ServedNameProper(request);
    }
  }

  /** One round, whatever goes wrong in it, is invisible if and only if it is quiet. */
  lemma SavedUnderDev(w: Web, key: string, luck: Luck)
    requires Proper(key) && CleanPlace(w.exportDir)
    ensures SameServed(SaveOne(w, key, luck).0, w) <==> Quiet(w, key, luck)
  {
    var v := SaveOne(w, key, luck).0;
    SameServedIff(v, w);
    hide SaveOne, Proper, Left, Lookup, Overlaid, CleanPlace, SameServed;
    forall name | Proper(name)
      ensures Lookup(v, name)
           == if Overlaid(w, key, name) && Left(w, key, luck).Some? then Left(w, key, luck) else Lookup(w, name)
    {
      RoundServes(w, key, luck, name);
    }
  }

  lemma SaveNext(w: Web, keys: seq<string>, luck: seq<Luck>, r: nat)
    requires |luck| == |keys| && r < |keys|
    ensures var (u, ok, _) := Save(w, keys[..r], luck[..r]);
            Save(w, keys[..r + 1], luck[..r + 1]).0 == if ok then SaveOne(u, keys[r], luck[r]).0 else u
  {
    assert keys[..r + 1][..r] == keys[..r] && luck[..r + 1][..r] == luck[..r];
    hide SaveOne;
  }

  /** Saving touches neither directories nor embedded files. */
  lemma {:induction false} SaveFrame(w: Web, keys: seq<string>, luck: seq<Luck>, r: nat)
    requires |luck| == |keys| && r <= |keys| && CleanPlace(w.exportDir)
    requires forall k :: 0 <= k < |keys| ==> Proper(keys[k])
    ensures var v := Save(w, keys[..r], luck[..r]).0; v.dev == w.dev && v.exportDir == w.exportDir
  {
    if r > 0 {
      SaveFrame(w, keys, luck, r - 1);
      SaveNext(w, keys, luck, r - 1);
      var (u, ok, _) := Save(w, keys[..r - 1], luck[..r - 1]);
      hide Save, SaveOne;
      if ok {
        SaveOneKeeps(u, keys[r - 1], luck[r - 1]);
      }
    }
  }

  /** Every round that is run is quiet when its turn comes. */
  ghost predicate AllQuiet(w: Web, keys: seq<string>, luck: seq<Luck>)
    requires |luck| == |keys|
  {
    forall r :: 0 <= r < |keys| ==> RoundQuiet(w, keys, luck, r)
  }

  ghost predicate RoundQuiet(w: Web, keys: seq<string>, luck: seq<Luck>, r: nat)
    requires |luck| == |keys| && r < |keys|
  {
    var (u, ok, _) := Save(w, keys[..r], luck[..r]);
    ok ==> Quiet(u, keys[r], luck[r])
  }

  lemma RoundIff(w: Web, keys: seq<string>, luck: seq<Luck>, r: nat)
    requires |luck| == |keys| && r < |keys| && CleanPlace(w.exportDir)
    requires forall k :: 0 <= k < |keys| ==> Proper(keys[k])
    ensures SameServed(Save(w, keys[..r + 1], luck[..r + 1]).0, Save(w, keys[..r], luck[..r]).0)
       <==> RoundQuiet(w, keys, luck, r)
  {
    SaveFrame(w, keys, luck, r);
    SaveNext(w, keys, luck, r);
    var (u, ok, _) := Save(w, keys[..r], luck[..r]);
    hide Save, SaveOne, Quiet;
    if ok {
      SavedUnderDev(u, keys[r], luck[r]);
    }
  }

  lemma {:induction false} QuietSoFar(w: Web, keys: seq<string>, luck: seq<Luck>, r: nat)
    requires |luck| == |keys| && r <= |keys| && CleanPlace(w.exportDir) && AllQuiet(w, keys, luck)
    requires forall k :: 0 <= k < |keys| ==> Proper(keys[k])
    ensures SameServed(Save(w, keys[..r], luck[..r]).0, w)
  {
    hide ReadStatic, RoundQuiet;
    if r > 0 {
      QuietSoFar(w, keys, luck, r - 1);
      RoundIff(w, keys, luck, r - 1);
    }
  }

  /** The whole loop: what is served stays the same after every number of rounds if
      and only if every round that is run is quiet. */
  lemma SaveInvisibleIff(w: Web, keys: seq<string>, luck: seq<Luck>)
    requires |luck| == |keys| && CleanPlace(w.exportDir)
    requires forall k :: 0 <= k < |keys| ==> Proper(keys[k])
    ensures (forall r :: 0 <= r <= |keys| ==> SameServed(Save(w, keys[..r], luck[..r]).0, w))
       <==> AllQuiet(w, keys, luck)
  {
    hide ReadStatic, RoundQuiet, Save;
    if AllQuiet(w, keys, luck) {
      forall r | 0 <= r <= |keys| ensures SameServed(Save(w, keys[..r], luck[..r]).0, w) {
        QuietSoFar(w, keys, luck, r);
      }
    }
    if forall r :: 0 <= r <= |keys| ==> SameServed(Save(w, keys[..r], luck[..r]).0, w) {
      forall r | 0 <= r < |keys| ensures RoundQuiet(w, keys, luck, r) {
        RoundIff(w, keys, luck, r);
        assert SameServed(Save(w, keys[..r], luck[..r]).0, w);
        assert SameServed(Save(w, keys[..r + 1], luck[..r + 1]).0, w);
      }
    }
  }

  /** Two prefixes of one place are comparable. */
  lemma Comparable(a: Place, b: Place, q: Place)
    ensures a <= q && b <= q ==> a <= b || b <= a
  {
  }

  lemma ApartIsNotOverlaid(w: Web, key: string, name: string)
    requires Apart(w)
    ensures !Overlaid(w, key, name)
  {
    if w.dev.Some? {
      Comparable(w.dev.value, w.exportDir, Under(w.dev.value, name));
    }
  }

  /** Saving is invisible: after any number of rounds, whatever fails on the way,
      every request is served exactly what it was served before. */
  lemma SaveIsInvisible(w: Web, keys: seq<string>, luck: seq<Luck>, rounds: nat)
    requires |luck| == |keys| && rounds <= |keys| && CleanPlace(w.exportDir) && Apart(w)
    requires ProperKeys(w.db) && forall k :: 0 <= k < |keys| ==> keys[k] in w.db
    ensures SameServed(Save(w, keys[..rounds], luck[..rounds]).0, w)
  {
    hide Proper, Overlaid;
    forall r | 0 <= r < |keys| ensures RoundQuiet(w, keys, luck, r) {
      SaveFrame(w, keys, luck, r);
      var u := Save(w, keys[..r], luck[..r]).0;
      forall name | Proper(name) ensures !Overlaid(u, keys[r], name) {
        ApartIsNotOverlaid(u, keys[r], name);
      }
    }
    QuietSoFar(w, keys, luck, rounds);
  }

  /** With the root directory as export directory nothing passes the check:
      every file is skipped, and nothing changes. */
  lemma {:induction false} RootSavesNothing(w: Web, keys: seq<string>, luck: seq<Luck>)
    requires |luck| == |keys| && w.exportDir == [] && forall k :: 0 <= k < |keys| ==> Proper(keys[k])
    ensures Save(w, keys, luck) == (w, true, 0)
    decreases |keys|
  {
    if keys != [] {
      var n := |keys| - 1;
      RootSavesNothing(w, keys[..n], luck[..n]);
      SaveOneIs(w, keys[n], luck[n]);
      hide SaveOne;
    }
  }

  // ---- A save that goes through ----

  ghost predicate AllLucky(luck: seq<Luck>) {
    forall k :: 0 <= k < |luck| ==> luck[k].fault == NoFault && luck[k].deleted
  }

  lemma {:induction false} SavedAreGone(w: Web, keys: seq<string>, luck: seq<Luck>)
    requires |luck| == |keys| && CleanPlace(w.exportDir) && w.exportDir != [] && AllLucky(luck)
    requires (forall k :: 0 <= k < |keys| ==> Proper(keys[k]) && keys[k] in w.db)
    requires forall i, j :: 0 <= i < j < |keys| ==> keys[i] != keys[j]
    ensures var (v, ok, count) := Save(w, keys, luck);
      && v.exportDir == w.exportDir
      && (ok ==> count == |keys| && forall k :: k in v.db <==> k in w.db && k !in keys)
    decreases |keys|
  {
    if keys != [] {
      var n := |keys| - 1;
      SavedAreGone(w, keys[..n], luck[..n]);
      var (u, ok, count) := Save(w, keys[..n], luck[..n]);
      if ok {
        assert keys[n] !in keys[..n];
        SaveOneKeeps(u, keys[n], luck[n]);
        hide SaveOne;
        assert keys == keys[..n] + [keys[n]];
      }
    }
  }

  /** When every listed file goes through, the pending overlay is empty, the count
      is the number of files, and a later authored write is served again. */
  lemma SaveClears(w: Web, keys: seq<string>, luck: seq<Luck>, p: string, content: Bytes)
    requires |luck| == |keys| && CleanPlace(w.exportDir) && w.exportDir != [] && Apart(w) && AllLucky(luck)
    requires ProperKeys(w.db) && (forall k :: k in w.db <==> k in keys)
    requires forall i, j :: 0 <= i < j < |keys| ==> keys[i] != keys[j]
    requires Save(w, keys, luck).1 && Normalize(p).Some?
    ensures var (v, _, count) := Save(w, keys, luck); var key := Normalize(p).value;
      && v.db == map[] && count == |keys| && SameServed(v, w)
      && ReadStatic(v.(db := v.db[key := content]), key)
         == (if DevLayer(w, key).Some? then DevLayer(w, key) else Some(content))
  {
    SavedAreGone(w, keys, luck);
    SaveIsInvisible(w, keys, luck, |keys|);
    assert keys[..|keys|] == keys && luck[..|keys|] == luck;
    var v := Save(w, keys, luck).0;
    WrittenIsServed(v, p, content);
    NormalizeProper(p);
    SaveKeepsDev(w, keys, luck, Normalize(p).value, |keys|);
  }

  lemma {:induction false} SaveKeepsDev(w: Web, keys: seq<string>, luck: seq<Luck>, name: string, r: nat)
    requires |luck| == |keys| && r <= |keys| && CleanPlace(w.exportDir) && Apart(w)
    requires forall k :: 0 <= k < |keys| ==> Proper(keys[k])
    ensures DevLayer(Save(w, keys[..r], luck[..r]).0, name) == DevLayer(w, name)
  {
    if r > 0 {
      SaveKeepsDev(w, keys, luck, name, r - 1);
      SaveFrame(w, keys, luck, r - 1);
      SaveNext(w, keys, luck, r - 1);
      var (u, ok, _) := Save(w, keys[..r - 1], luck[..r - 1]);
      hide Save, SaveOne;
      if ok {
        SaveOneKeeps(u, keys[r - 1], luck[r - 1]);
        if w.dev.Some? {
          ApartIsNotOverlaid(u, keys[r - 1], name);
          SaveOneReads(u, keys[r - 1], luck[r - 1], Under(w.dev.value, name));
        }
      }
    }
  }

  // ---- When the dev overlay does contain the export directory ----

  /** One directory for both, which holds an older version of a pending file. */
  function SharedWeb(): Web {
    Web(Some(["d"]), map["a" := [2]], ["d"], map[["d"] := Dir, ["d", "a"] := File([1])], map[])
  }

  lemma SharedSave()
    ensures Proper("a") && CleanPlace(["d"]) && Under(["d"], "a") == ["d", "a"]
    ensures forall fault: Fault ::
              !fault.MkdirFails? ==>
              LeftAt(SharedWeb().disk, ["d", "a"], [2], fault) == if fault.WriteFails? then fault.left else Some([2])
  {
    SplitFirst("a", "", '/');
    assert ["d", "a"][..1] == ["d"] && ["d", "a"][..0] == [];
    assert MkdirAll(SharedWeb().disk, ["d", "a"], 0) == (SharedWeb().disk, true);
  }

  /** There the save replaces the version that was being served, and a write that
      fails half way shows too. */
  lemma SharedDirectory()
    ensures Lookup(SharedWeb(), "a") == Some([1])
    ensures Lookup(SaveOne(SharedWeb(), "a", Luck(NoFault, true)).0, "a") == Some([2])
    ensures Lookup(SaveOne(SharedWeb(), "a", Luck(WriteFails(Some([9])), false)).0, "a") == Some([9])
  {
    hide SaveOne, WriteAt, LeftAt, Proper, CleanPlace, Under;
    SharedSave();
    RoundServes(SharedWeb(), "a", Luck(NoFault, true), "a");
    RoundServes(SharedWeb(), "a", Luck(WriteFails(Some([9])), false), "a");
  }

  // ---- Authored writes while a file is being saved ----

  datatype Write = Write(key: string, content: Bytes)

  function Authored(db: map<string, Bytes>, ws: seq<Write>): map<string, Bytes> {
    if ws == [] then db else Authored(db, Init(ws))[Last(ws).key := Last(ws).content]
  }

  /** The last content written for a key, if any. */
  function LastFor(ws: seq<Write>, key: string): Option<Bytes> {
    if ws == [] then None
    else if Last(ws).key == key then Some(Last(ws).content)
    else LastFor(Init(ws), key)
  }

  lemma {:induction false} AuthoredAt(db: map<string, Bytes>, ws: seq<Write>, key: string)
    ensures GetWebFile(Authored(db, ws), key) == First(LastFor(ws, key), GetWebFile(db, key))
  {
    if ws != [] {
      AuthoredAt(db, Init(ws), key);
    }
  }

  /** A round that goes through, with writes between reading the row and deleting it. */
  function SaveAmid(w: Web, key: string, during: seq<Write>): Web
    requires key in w.db
  {
    var v := SaveOne(w, key, Luck(NoFault, false)).0;
    v.(db := Authored(v.db, during) - {key})
  }

  function ThenAuthored(w: Web, ws: seq<Write>): Web { w.(db := Authored(w.db, ws)) }

  /** With writes before, during and after a round that saves a key, what is served
      for it afterwards is the last content written unless that was written during
      the round and differs from what the round had read; then it is what was read. */
  lemma LostUpdateIff(w0: Web, key: string, before: seq<Write>, during: seq<Write>, after: seq<Write>)
    requires Proper(key) && CleanPlace(w0.exportDir) && DevLayer(w0, key) == None && !Overlaid(w0, key, key)
    requires key in ThenAuthored(w0, before).db
    requires SaveOne(ThenAuthored(w0, before), key, Luck(NoFault, false)).1 == Saved
    ensures var w := ThenAuthored(w0, before);
            var served := Lookup(ThenAuthored(SaveAmid(w, key, during), after), key);
            var newest := First(LastFor(after, key), First(LastFor(during, key), Some(w.db[key])));
            var lost := LastFor(after, key).None? && LastFor(during, key).Some?
                        && LastFor(during, key) != Some(w.db[key]);
            && (served == newest <==> !lost)
            && (lost ==> served == Some(w.db[key]))
  {
    var w := ThenAuthored(w0, before);
    var v := SaveAmid(w, key, during);
    var luck := Luck(NoFault, false);
    SaveOneKeeps(w, key, luck);
    AuthoredAt(v.db, after, key);
    hide SaveOne, Left, Proper, CleanPlace;
    if w.dev.Some? {
      SaveOneReads(w, key, luck, Under(w.dev.value, key));
    }
  }

  /** One pending file and an empty export directory. */
  function PendingWeb(): (w: Web)
    ensures "a" in w.db && w.db["a"] == [1]
  {
    Web(None, map["a" := [1]], ["d"], map[["d"] := Dir], map[])
  }

  /** "a" was read as [1] and written as [2] before its row was deleted: [1] it is. */
  lemma WriteIsLost()
    ensures Lookup(SaveAmid(PendingWeb(), "a", [Write("a", [2])]), "a") == Some([1])
  {
    var w, ws := PendingWeb(), [Write("a", [2])];
    SharedSave();
    assert ["d", "a"][..1] == ["d"] && ["d", "a"][..0] == [];
    assert MkdirAll(w.disk, ["d", "a"], 0) == (w.disk, true);
    SaveOneIs(w, "a", Luck(NoFault, false));
    assert LastFor(ws, "a") == Some([2]);
    LostUpdateIff(w, "a", [], ws, []);
  }

  /** No write to another key is lost. */
  lemma OtherWritesKept(w: Web, key: string, during: seq<Write>, after: seq<Write>, other: string)
    requires Proper(key) && CleanPlace(w.exportDir) && key in w.db && other != key
    ensures GetWebFile(ThenAuthored(SaveAmid(w, key, during), after).db, other)
         == First(LastFor(after, other), First(LastFor(during, other), GetWebFile(w.db, other)))
  {
    var v := SaveOne(w, key, Luck(NoFault, false)).0;
    SaveOneKeeps(w, key, Luck(NoFault, false));
    AuthoredAt(v.db, during, other);
    AuthoredAt(SaveAmid(w, key, during).db, after, other);
  }
}
