/** Whether an ssh runs below a session's shell, from a process listing: a
    breadth-first search over tables that may hold cycles, self-loops and the same
    pid twice. */
module PsTree {
  import opened Decimal
  import opened Text

  datatype Row = Row(pid: int, ppid: int, comm: string)

  // ---- The listing ----

  /** The rows of one line: none unless it has two numbers and a command. */
  function ParseLine(line: string): seq<Row> {
    var f := Fields(line);
    if |f| < 3 then []
    else match (Atoi(f[0]), Atoi(f[1]))
      case (Num(pid), Num(ppid)) => [Row(pid, ppid, Join(f[2..], ' '))]
      case _ => []
  }

  function ParseLines(lines: seq<string>): seq<Row> {
    if lines == [] then [] else ParseLines(lines[..|lines| - 1]) + ParseLine(lines[|lines| - 1])
  }

  function ParsePs(psout: string): seq<Row> { ParseLines(Split(psout, '\n')) }

  /** A line gives a row exactly when it has a third field and its first two spell
      machine integers; the command is the other fields, a space apart. */
  lemma LineIff(line: string, row: Row)
    ensures |ParseLine(line)| <= 1
    ensures ParseLine(line) == [row] <==>
              var f := Fields(line);
              && |f| >= 3 && Spells(f[0], row.pid) && Spells(f[1], row.ppid) && row.comm == Join(f[2..], ' ')
              && -MAX_INT - 1 <= row.pid <= MAX_INT && -MAX_INT - 1 <= row.ppid <= MAX_INT
  {
    var f := Fields(line);
    hide Fields, Atoi, Spells, Join;
    if |f| >= 3 {
      AtoiIff(f[0], row.pid);
      AtoiIff(f[1], row.ppid);
    }
  }

  /** A line as the listing prints it: two numbers and the words of the command. */
  function Printed(row: Row, words: seq<string>): string
    requires row.pid >= 0 && row.ppid >= 0
  {
    Join([Print(row.pid), Print(row.ppid)] + words, ' ')
  }

  ghost predicate Printable(row: Row, words: seq<string>) {
    && 0 <= row.pid <= MAX_INT && 0 <= row.ppid <= MAX_INT
    && words != [] && Words(words) && row.comm == Join(words, ' ')
  }

  lemma DigitsAreWords(n: nat)
    ensures Words([Print(n)])
  {
    PrintParses(n);
  }

  lemma ParsesLine(row: Row, words: seq<string>)
    requires Printable(row, words)
    ensures ParseLine(Printed(row, words)) == [row] && '\n' !in Printed(row, words)
  {
    hide Print, Atoi, Join, Fields;
    var f := [Print(row.pid), Print(row.ppid)] + words;
    DigitsAreWords(row.pid);
    DigitsAreWords(row.ppid);
    assert forall k :: 0 <= k < |f| ==> f[k] == [Print(row.pid)][0] || f[k] == [Print(row.ppid)][0] || f[k] in words;
    FieldsJoin(f);
    AtoiPrinted(row.pid);
    AtoiPrinted(row.ppid);
    assert f[2..] == words;
    NoNewline(f);
  }

  lemma {:induction false} NoNewline(ws: seq<string>)
    requires Words(ws)
    ensures '\n' !in Join(ws, ' ')
  {
    if ws != [] {
      NoNewline(ws[1..]);
      assert '\n' !in ws[0];
    }
  }

  /** A listing printed from rows is read back as those rows. */
  lemma {:induction false} ReadsBack(rows: seq<Row>, words: seq<seq<string>>, lines: seq<string>)
    requires |words| == |rows| == |lines|
    requires forall k :: 0 <= k < |rows| ==> Printable(rows[k], words[k]) && lines[k] == Printed(rows[k], words[k])
    ensures ParsePs(Join(lines, '\n')) == rows
  {
    hide Printed, Printable, ParseLine;
    forall k | 0 <= k < |lines| ensures '\n' !in lines[k] {
      ParsesLine(rows[k], words[k]);
    }
    if lines == [] {
      EmptyListing();
    } else {
      SplitJoin(lines, '\n');
      ReadsRows(rows, words, lines);
    }
  }

  lemma EmptyListing()
    ensures ParsePs("") == []
  {
    assert [""][..0] == [];
    assert ParseLines([""]) == ParseLines([]) + ParseLine("");
  }

  lemma {:induction false} ReadsRows(rows: seq<Row>, words: seq<seq<string>>, lines: seq<string>)
    requires |words| == |rows| == |lines|
    requires forall k :: 0 <= k < |rows| ==> Printable(rows[k], words[k]) && lines[k] == Printed(rows[k], words[k])
    ensures ParseLines(lines) == rows
  {
    hide Printed, Printable, ParseLine;
    if lines != [] {
      var n := |lines| - 1;
      ReadsRows(rows[..n], words[..n], lines[..n]);
      ParsesLine(rows[n], words[n]);
      assert rows == rows[..n] + [rows[n]];
    }
  }

  /** The place after the last slash, or the start. */
  function AfterSlash(s: string): (n: nat)
    ensures n <= |s| && (n > 0 ==> s[n - 1] == '/')
    ensures forall k :: n <= k < |s| ==> s[k] != '/'
  {
    if s == "" then 0 else if s[|s| - 1] == '/' then |s| else AfterSlash(s[..|s| - 1])
  }

  /** The part after the last slash. */
  function BaseName(s: string): string { s[AfterSlash(s)..] }

  /** The name is what follows the last slash, or all of it. */
  lemma BaseNameIs(dir: string, base: string)
    requires '/' !in base
    ensures BaseName(base) == base && BaseName(dir + "/" + base) == base
  {
    var s := dir + "/" + base;
    assert forall k :: 0 <= k < |base| ==> base[k] in base && s[|dir| + 1 + k] == base[k];
    SlashAt(s, |dir|);
    NoSlash(base);
  }

  lemma SlashAt(s: string, n: nat)
    requires n < |s| && s[n] == '/' && forall k :: n < k < |s| ==> s[k] != '/'
    ensures AfterSlash(s) == n + 1
  {
  }

  lemma NoSlash(s: string)
    requires '/' !in s
    ensures AfterSlash(s) == 0
  {
    assert forall k :: 0 <= k < |s| ==> s[k] in s;
  }

  /** The last command recorded for a pid. */
  function LastComm(rows: seq<Row>, pid: int): string {
    if rows == [] then ""
    else
      var n := |rows| - 1;
      if rows[n].pid == pid then rows[n].comm else LastComm(rows[..n], pid)
  }

  /** The pids recorded under a parent, in order, with repetitions. */
  function ChildrenOf(rows: seq<Row>, ppid: int): (cs: seq<int>)
    ensures forall c :: c in cs <==> exists i :: 0 <= i < |rows| && rows[i].pid == c && rows[i].ppid == ppid
  {
    if rows == [] then []
    else
      var n := |rows| - 1;
      if rows[n].ppid == ppid then ChildrenOf(rows[..n], ppid) + [rows[n].pid] else ChildrenOf(rows[..n], ppid)
  }

  // ---- What is being asked ----

  /** pid is reached from root along k recorded parent links. */
  ghost predicate ReachedIn(rows: seq<Row>, root: int, pid: int, k: nat)
    decreases k
  {
    if k == 0 then pid == root
    else exists i :: 0 <= i < |rows| && rows[i].pid == pid && ReachedIn(rows, root, rows[i].ppid, k - 1)
  }

  ghost predicate Reachable(rows: seq<Row>, root: int, pid: int) {
    exists k: nat :: ReachedIn(rows, root, pid, k)
  }

  predicate RunsSsh(rows: seq<Row>, pid: int) {
    BaseName(LastComm(rows, pid)) == "ssh"
  }

  ghost predicate SshBelow(rows: seq<Row>, root: int) {
    exists pid :: pid != root && Reachable(rows, root, pid) && RunsSsh(rows, pid)
  }

  // ---- The search's invariant ----

  ghost predicate Closed(rows: seq<Row>, seen: set<int>, queue: seq<int>) {
    forall p, c :: p in seen && p !in queue && c in ChildrenOf(rows, p) ==> c in seen
  }

  /** The recorded processes that run ssh. */
  ghost function Sshs(rows: seq<Row>): set<int> {
    set i | 0 <= i < |rows| && RunsSsh(rows, rows[i].pid) :: rows[i].pid
  }

  ghost predicate SearchInv(rows: seq<Row>, root: int, sshs: set<int>, seen: set<int>, queue: seq<int>) {
    && root in seen
    && (forall p :: p in queue ==> p in seen)
    && (forall p :: p in seen ==> Reachable(rows, root, p))
    && (forall p :: p in seen && p != root ==> p !in sshs)
  }

  ghost function Pids(rows: seq<Row>, root: int): set<int> {
    (set i | 0 <= i < |rows| :: rows[i].pid) + {root}
  }

  lemma ReachChild(rows: seq<Row>, root: int, p: int, c: int)
    requires Reachable(rows, root, p) && c in ChildrenOf(rows, p)
    ensures Reachable(rows, root, c) && c in Pids(rows, root)
  {
    var k: nat :| ReachedIn(rows, root, p, k);
    var i :| 0 <= i < |rows| && rows[i].pid == c && rows[i].ppid == p;
    assert ReachedIn(rows, root, c, k + 1);
  }

  /** A set closed under children that holds the root holds everything reachable. */
  lemma {:induction false} ClosedHolds(rows: seq<Row>, root: int, seen: set<int>, pid: int, k: nat)
    requires root in seen && Closed(rows, seen, []) && ReachedIn(rows, root, pid, k)
    ensures pid in seen
    decreases k
  {
    if k > 0 {
      var i :| 0 <= i < |rows| && rows[i].pid == pid && ReachedIn(rows, root, rows[i].ppid, k - 1);
      ClosedHolds(rows, root, seen, rows[i].ppid, k - 1);
      assert pid in ChildrenOf(rows, rows[i].ppid);
    }
  }

  lemma NothingFound(rows: seq<Row>, root: int, seen: set<int>)
    requires SearchInv(rows, root, Sshs(rows), seen, []) && Closed(rows, seen, [])
    ensures !SshBelow(rows, root)
  {
    hide RunsSsh, ChildrenOf, Closed, Sshs;
    forall pid | pid != root && Reachable(rows, root, pid) ensures !RunsSsh(rows, pid) {
      var k: nat :| ReachedIn(rows, root, pid, k);
      ClosedHolds(rows, root, seen, pid, k);
      SshListed(rows, pid);
    }
  }

  lemma SshListed(rows: seq<Row>, pid: int)
    ensures RunsSsh(rows, pid) <==> pid in Sshs(rows)
  {
    NamedIsListed(rows, pid);
    assert AfterSlash("") == 0;
    hide AfterSlash, LastComm;
  }

  lemma {:induction false} NamedIsListed(rows: seq<Row>, pid: int)
    ensures LastComm(rows, pid) == "" || exists i :: 0 <= i < |rows| && rows[i].pid == pid
  {
    if rows != [] && rows[|rows| - 1].pid != pid {
      NamedIsListed(rows[..|rows| - 1], pid);
    }
  }

  // ---- The tables ----

  function Under(children: map<int, seq<int>>, p: int): seq<int> { if p in children then children[p] else [] }

  function Named(comm: map<int, string>, p: int): string { if p in comm then comm[p] else "" }

  /** The two tables say of every pid what the rows say. */
  ghost predicate Tabulates(children: map<int, seq<int>>, comm: map<int, string>, rows: seq<Row>) {
    && (forall p :: Under(children, p) == ChildrenOf(rows, p))
    && (forall p :: Named(comm, p) == LastComm(rows, p))
  }

  lemma AddRow(rows: seq<Row>, row: Row, p: int)
    ensures ChildrenOf(rows + [row], p)
         == if row.ppid == p then ChildrenOf(rows, p) + [row.pid] else ChildrenOf(rows, p)
    ensures LastComm(rows + [row], p) == if row.pid == p then row.comm else LastComm(rows, p)
  {
    assert (rows + [row])[..|rows|] == rows;
  }

  lemma OneMoreRow(children: map<int, seq<int>>, comm: map<int, string>, rows: seq<Row>, row: Row)
    requires Tabulates(children, comm, rows)
    ensures Tabulates(children[row.ppid := Under(children, row.ppid) + [row.pid]], comm[row.pid := row.comm],
                      rows + [row])
  {
    hide ChildrenOf, LastComm;
    AddRow(rows, row, row.ppid);
    var after, named := children[row.ppid := Under(children, row.ppid) + [row.pid]], comm[row.pid := row.comm];
    forall p
      ensures Under(after, p) == ChildrenOf(rows + [row], p) && Named(named, p) == LastComm(rows + [row], p)
    {
      assert Under(children, p) == ChildrenOf(rows, p) && Named(comm, p) == LastComm(rows, p);
      AddRow(rows, row, p);
    }
  }

  lemma OneMoreLine(lines: seq<string>, i: nat)
    requires i < |lines|
    ensures ParseLines(lines[..i + 1]) == ParseLines(lines[..i]) + ParseLine(lines[i])
  {
    assert lines[..i + 1][..i] == lines[..i];
  }

  method Tables(psout: string) returns (children: map<int, seq<int>>, comm: map<int, string>)
    ensures Tabulates(children, comm, ParsePs(psout))
  {
    hide ChildrenOf, LastComm, ParseLines, Split, Fields, Atoi, Join;
    var lines := Split(psout, '\n');
    ghost var rows: seq<Row> := [];
    children, comm := map[], map[];
    NoRows();
    for i := 0 to |lines|
      invariant rows == ParseLines(lines[..i])
      invariant Tabulates(children, comm, rows)
    {
      OneMoreLine(lines, i);
      assert rows + [] == rows;
      var f := Fields(lines[i]);
      if |f| < 3 {
        continue;
      }
      var a, b := Atoi(f[0]), Atoi(f[1]);
      if a.NotANumber? || b.NotANumber? {
        continue;
      }
      ghost var row := Row(a.n, b.n, Join(f[2..], ' '));
      OneMoreRow(children, comm, rows, row);
      comm := comm[a.n := Join(f[2..], ' ')];
      children := children[b.n := Under(children, b.n) + [a.n]];
      rows := rows + [row];
    }
    assert lines[..|lines|] == lines;
  }

  lemma NoRows()
    ensures ParseLines([]) == [] && Tabulates(map[], map[], [])
  {}

  // ---- The search ----

  lemma Start(rows: seq<Row>, root: int, sshs: set<int>)
    ensures SearchInv(rows, root, sshs, {root}, [root]) && Closed(rows, {root}, [root]) && root in Pids(rows, root)
  {
    assert ReachedIn(rows, root, root, 0);
  }

  /** A child named ssh settles the question. */
  lemma Found(rows: seq<Row>, root: int, c: int)
    requires c != root && Reachable(rows, root, c) && RunsSsh(rows, c)
    ensures SshBelow(rows, root)
  {
    hide RunsSsh, Reachable;
  }

  /** Any other child is marked and queued. */
  lemma Marked(rows: seq<Row>, root: int, sshs: set<int>, seen: set<int>, queue: seq<int>, c: int)
    requires SearchInv(rows, root, sshs, seen, queue) && Reachable(rows, root, c) && c !in sshs
    ensures SearchInv(rows, root, sshs, seen + {c}, queue + [c])
  {
    hide Reachable;
  }

  lemma Queued(rows: seq<Row>, seen: set<int>, queue: seq<int>, pid: int, c: int)
    requires Closed(rows, seen, [pid] + queue)
    ensures Closed(rows, seen + {c}, [pid] + (queue + [c]))
  {
    hide ChildrenOf;
    assert forall p :: p in [pid] + (queue + [c]) <==> p in [pid] + queue || p == c;
  }

  /** A process whose children are all marked leaves the queue. */
  lemma Finished(rows: seq<Row>, seen: set<int>, queue: seq<int>, pid: int)
    requires Closed(rows, seen, [pid] + queue)
    requires forall c :: c in ChildrenOf(rows, pid) ==> c in seen
    ensures Closed(rows, seen, queue)
  {
    hide ChildrenOf;
    assert forall p :: p in [pid] + queue <==> p == pid || p in queue;
  }

  lemma FrontLeaves(rows: seq<Row>, root: int, sshs: set<int>, seen: set<int>, queue: seq<int>)
    requires SearchInv(rows, root, sshs, seen, queue) && queue != []
    ensures SearchInv(rows, root, sshs, seen, queue[1..]) && queue[0] in seen
    ensures queue == [queue[0]] + queue[1..]
    ensures root in seen && Reachable(rows, root, queue[0])
  {
    hide Reachable;
    assert queue[0] in queue;
    assert forall p :: p in queue ==> p in seen;
    assert queue[0] in seen;
  }

  lemma SameNames(children: map<int, seq<int>>, comm: map<int, string>, rows: seq<Row>, p: int)
    requires Tabulates(children, comm, rows)
    ensures Under(children, p) == ChildrenOf(rows, p)
    ensures BaseName(Named(comm, p)) == "ssh" <==> RunsSsh(rows, p)
  {}

  /** True exactly when some process other than the root is reachable from the root
      along recorded parent links and its last recorded command is named ssh. */
  method SshInPsOutput(psout: string, root: int) returns (found: bool)
    ensures found <==> SshBelow(ParsePs(psout), root)
  {
    hide *;
    var children, comm := Tables(psout);
    ghost var rows := ParsePs(psout);
    var queue := [root];
    var seen := {root};
    ghost var pids, sshs := Pids(rows, root), Sshs(rows);
    Start(rows, root, sshs);
    while |queue| > 0
      invariant SearchInv(rows, root, sshs, seen, queue) && Closed(rows, seen, queue)
      invariant seen <= pids
      decreases |pids - seen|, |queue|
    {
      var pid := queue[0];
      FrontLeaves(rows, root, sshs, seen, queue);
      ghost var left, waiting := |pids - seen|, |queue|;
      queue := queue[1..];
      var cs := Under(children, pid);
      SameNames(children, comm, rows, pid);
      for i := 0 to |cs|
        invariant SearchInv(rows, root, sshs, seen, queue) && Closed(rows, seen, [pid] + queue)
        invariant root in seen && seen <= pids
        invariant forall j :: 0 <= j < i ==> cs[j] in seen
        invariant |pids - seen| < left || (|pids - seen| == left && |queue| < waiting)
      {
        var c := cs[i];
        if c in seen {
          continue;
        }
        SameNames(children, comm, rows, c);
        ReachChild(rows, root, pid, c);
        if BaseName(Named(comm, c)) == "ssh" {
          Found(rows, root, c);
          return true;
        }
        SshListed(rows, c);
        Marked(rows, root, sshs, seen, queue, c);
        Queued(rows, seen, queue, pid, c);
        seen := seen + {c};
        queue := queue + [c];
      }
      Finished(rows, seen, queue, pid);
    }
    assert queue == [];
    NothingFound(rows, root, seen);
    return false;
  }
}
