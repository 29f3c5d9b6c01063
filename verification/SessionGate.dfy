/** internal/maintain/session_gate.go: which running OpenCode processes stop maintenance. */
module SessionGate {
  import opened Common
  import opened Picking

  datatype Process = Process(pid: int, ppid: int, name: string, cwd: string)

  datatype Code = CallerProcess | ActiveProcess

  datatype Blocker = Blocker(code: Code, pid: int)

  datatype Gate = Gate(blocked: bool, blockers: seq<Blocker>)

  // ---- Ancestors ---------------------------------------------------------

  /** The last record of a process wins. */
  function ByPid(processes: seq<Process>): map<int, Process> {
    if processes == [] then map[] else
      var last := processes[|processes| - 1];
      ByPid(processes[..|processes| - 1])[last.pid := last]
  }

  /** The parent of pid, when pid is known and its parent is a process. */
  function Parent(byPid: map<int, Process>, pid: int): Option<int> {
    if pid in byPid && byPid[pid].ppid > 0 then Some(byPid[pid].ppid) else None
  }

  /** The n-th generation above pid. */
  function Generation(byPid: map<int, Process>, pid: int, n: nat): Option<int> {
    if n == 0 then Some(pid) else
      var below := Generation(byPid, pid, n - 1);
      if below.None? then None else Parent(byPid, below.value)
  }

  ghost predicate IsAncestor(byPid: map<int, Process>, self: int, pid: int) {
    exists n: nat :: n > 0 && Generation(byPid, self, n) == Some(pid)
  }

  /** ancestors are the first n generations above self, and pid is the n-th. */
  ghost predicate Climbed(byPid: map<int, Process>, self: int, n: nat, pid: int, ancestors: set<int>) {
    && Generation(byPid, self, n) == Some(pid)
    && (forall i: nat | 0 < i <= n :: Generation(byPid, self, i).Some? && Generation(byPid, self, i).value in ancestors)
    && (forall a | a in ancestors :: exists i: nat :: 0 < i <= n && Generation(byPid, self, i) == Some(a))
  }

  lemma ClimbOne(byPid: map<int, Process>, self: int, n: nat, pid: int, ancestors: set<int>)
    requires Climbed(byPid, self, n, pid, ancestors) && Parent(byPid, pid).Some?
    ensures Climbed(byPid, self, n + 1, Parent(byPid, pid).value, ancestors + {Parent(byPid, pid).value})
  {
    var parent := Parent(byPid, pid).value;
    assert Generation(byPid, self, n + 1) == Some(parent);
    forall a | a in ancestors + {parent}
      ensures exists i: nat :: 0 < i <= n + 1 && Generation(byPid, self, i) == Some(a)
    {
      if a in ancestors {
        var i: nat :| 0 < i <= n && Generation(byPid, self, i) == Some(a);
      }
    }
  }

  /** Once the next parent is missing or known, every generation is among the ancestors. */
  lemma {:induction false} NothingBeyond(byPid: map<int, Process>, self: int, n: nat, pid: int, ancestors: set<int>, k: nat)
    requires Climbed(byPid, self, n, pid, ancestors) && k > 0
    requires Parent(byPid, pid).None? || Parent(byPid, pid).value in ancestors
    ensures Generation(byPid, self, k).Some? ==> Generation(byPid, self, k).value in ancestors
  {
    if k > n {
      if k == n + 1 {
        assert Generation(byPid, self, k - 1) == Some(pid);
      } else {
        NothingBeyond(byPid, self, n, pid, ancestors, k - 1);
        if Generation(byPid, self, k - 1).Some? {
          var below := Generation(byPid, self, k - 1).value;
          var i: nat :| 0 < i <= n && Generation(byPid, self, i) == Some(below);
          if i < n { assert Generation(byPid, self, i + 1) == Generation(byPid, self, k); }
        }
      }
    }
  }

  predicate ChildOf(byPid: map<int, Process>, child: int, parent: int) {
    child in byPid && byPid[child].ppid == parent > 0
  }

  /** A line of descent: each process is listed as a child of the next one. */
  predicate Descent(byPid: map<int, Process>, chain: seq<int>) {
    forall i | 0 < i < |chain| :: ChildOf(byPid, chain[i - 1], chain[i])
  }

  ghost predicate Descends(byPid: map<int, Process>, self: int, pid: int) {
    exists chain: seq<int> :: |chain| >= 2 && chain[0] == self && chain[|chain| - 1] == pid && Descent(byPid, chain)
  }

  lemma {:induction false} ChainTo(byPid: map<int, Process>, self: int, n: nat) returns (chain: seq<int>)
    requires Generation(byPid, self, n).Some?
    ensures |chain| == n + 1 && chain[0] == self && chain[n] == Generation(byPid, self, n).value && Descent(byPid, chain)
  {
    if n == 0 {
      chain := [self];
    } else {
      var below := ChainTo(byPid, self, n - 1);
      chain := below + [Generation(byPid, self, n).value];
    }
  }

  lemma {:induction false} ChainFrom(byPid: map<int, Process>, chain: seq<int>, n: nat)
    requires n < |chain| && Descent(byPid, chain)
    ensures Generation(byPid, chain[0], n) == Some(chain[n])
  {
    if n > 0 {
      ChainFrom(byPid, chain, n - 1);
      assert ChildOf(byPid, chain[n - 1], chain[n]);
    }
  }

  /** The ancestors are the processes at the top of a line of descent. */
  lemma AncestorsDescend(byPid: map<int, Process>, self: int, pid: int)
    ensures IsAncestor(byPid, self, pid) <==> Descends(byPid, self, pid)
  {
    if IsAncestor(byPid, self, pid) {
      var n: nat :| n > 0 && Generation(byPid, self, n) == Some(pid);
      var chain := ChainTo(byPid, self, n);
    }
    if Descends(byPid, self, pid) {
      var chain: seq<int> :| |chain| >= 2 && chain[0] == self && chain[|chain| - 1] == pid && Descent(byPid, chain);
      ChainFrom(byPid, chain, |chain| - 1);
    }
  }

  function Parents(byPid: map<int, Process>): set<int> {
    set pid | pid in byPid :: byPid[pid].ppid
  }

  method IndexByPid(processes: seq<Process>) returns (byPid: map<int, Process>)
    ensures byPid == ByPid(processes)
  {
    byPid := map[];
    for i := 0 to |processes|
      invariant byPid == ByPid(processes[..i])
    {
      assert processes[..i + 1][..i] == processes[..i];
      byPid := byPid[processes[i].pid := processes[i]];
    }
    assert processes[..|processes|] == processes;
  }

  /** Ends on any parent data, cyclic or not, with exactly the ancestors of self. */
  method CallerAncestorPids(processes: seq<Process>, self: int) returns (ancestors: set<int>)
    ensures forall pid :: pid in ancestors <==> IsAncestor(ByPid(processes), self, pid)
  {
    var byPid := IndexByPid(processes);
    ancestors := {};
    var pid := self;
    ghost var n: nat := 0;
    while pid in byPid && byPid[pid].ppid > 0 && byPid[pid].ppid !in ancestors
      invariant Climbed(byPid, self, n, pid, ancestors)
      invariant ancestors <= Parents(byPid)
      decreases Parents(byPid) - ancestors
    {
      ClimbOne(byPid, self, n, pid, ancestors);
      ancestors := ancestors + {byPid[pid].ppid};
      pid, n := byPid[pid].ppid, n + 1;
    }
    forall a
      ensures a in ancestors <==> IsAncestor(byPid, self, a)
    {
      if IsAncestor(byPid, self, a) {
        var k: nat :| k > 0 && Generation(byPid, self, k) == Some(a);
        NothingBeyond(byPid, self, n, pid, ancestors, k);
      }
    }
  }

  // ---- Processes of the project ------------------------------------------

  predicate IsPrefix(a: string, b: string) {
    a <= b
  }

  /** normal is the cleaned, link-free spelling of a path. */
  predicate ProcessInProject(p: Process, root: string, normal: string -> string) {
    if root == "" || root == "." || p.cwd == "" then false
    else
      var cwd := normal(p.cwd);
      cwd == root || IsPrefix(root + "/", cwd)
  }

  /** The components of a path. */
  function Components(path: string): seq<string> {
    if path == "" then [""]
    else
      var rest := Components(path[1..]);
      if path[0] == '/' then [""] + rest else [[path[0]] + rest[0]] + rest[1..]
  }

  lemma {:induction false} ComponentsSplit(a: string, b: string)
    ensures Components(a + "/" + b) == Components(a) + Components(b)
  {
    if a == "" {
      assert ("/" + b)[1..] == b && "" + "/" + b == "/" + b;
    } else {
      assert (a + "/" + b)[1..] == a[1..] + "/" + b;
      ComponentsSplit(a[1..], b);
    }
  }

  lemma {:induction false} ComponentsInjective(a: string, b: string)
    requires Components(a) == Components(b)
    ensures a == b
  {
    if a == "" || b == "" {
      ComponentsEmpty(a);
      ComponentsEmpty(b);
    } else {
      var x, y := Components(a[1..]), Components(b[1..]);
      assert a == [a[0]] + a[1..] && b == [b[0]] + b[1..];
      if a[0] == '/' {
        assert Components(a)[0] == "";
        assert Components(a)[1..] == x;
        assert b[0] == '/';
        assert Components(b)[1..] == y;
        ComponentsInjective(a[1..], b[1..]);
      } else {
        assert Components(a)[0] == [a[0]] + x[0];
        assert b[0] != '/' && Components(b)[0] == [b[0]] + y[0];
        assert a[0] == Components(a)[0][0] == b[0];
        assert x[0] == Components(a)[0][1..] == y[0];
        assert x == [x[0]] + Components(a)[1..] && y == [y[0]] + Components(b)[1..];
        ComponentsInjective(a[1..], b[1..]);
      }
    }
  }

  lemma {:induction false} ComponentsEmpty(a: string)
    ensures Components(a) != [] && (Components(a) == [""] <==> a == "")
  {
    if a != "" { ComponentsEmpty(a[1..]); }
  }

  /** A longer path whose components start with those of a continues a with a separator. */
  lemma {:induction false} ComponentsPrefix(a: string, b: string)
    requires |Components(a)| < |Components(b)| && Components(a) <= Components(b)
    ensures a + "/" <= b
  {
    ComponentsEmpty(a);
    if b == "" {
    } else {
      var y := Components(b[1..]);
      assert b == [b[0]] + b[1..];
      if a == "" {
        assert Components(b)[0] == "";
      } else {
        var x := Components(a[1..]);
        assert a == [a[0]] + a[1..];
        ComponentsEmpty(a[1..]);
        if a[0] == '/' {
          assert Components(b)[0] == "" && b[0] == '/';
          assert x == Components(a)[1..] && y == Components(b)[1..];
        } else {
          assert Components(b)[0] == Components(a)[0] == [a[0]] + x[0];
          assert b[0] != '/' && y[0] == Components(b)[0][1..] == x[0];
          assert x == [x[0]] + Components(a)[1..] && y == [y[0]] + Components(b)[1..];
        }
        assert x <= y;
        ComponentsPrefix(a[1..], b[1..]);
        assert a + "/" == [a[0]] + (a[1..] + "/");
      }
    }
  }

  /**
   * A process is in the project exactly when both have a path, the project one other
   * than ".", and the components of the working directory start with the project's.
   */
  lemma InsideByComponents(p: Process, root: string, normal: string -> string)
    ensures ProcessInProject(p, root, normal) <==>
      root != "" && root != "." && p.cwd != "" && Components(root) <= Components(normal(p.cwd))
  {
    var cwd := normal(p.cwd);
    if IsPrefix(root + "/", cwd) {
      var rest := cwd[|root| + 1..];
      assert cwd == root + "/" + rest;
      ComponentsSplit(root, rest);
    } else if Components(root) <= Components(cwd) {
      if |Components(root)| < |Components(cwd)| {
        ComponentsPrefix(root, cwd);
      } else {
        ComponentsInjective(root, cwd);
      }
    }
  }

  // ---- Blockers ----------------------------------------------------------

  predicate Blocks(p: Process, self: int, root: string, normal: string -> string) {
    p.pid != self && p.name == "opencode" && ProcessInProject(p, root, normal)
  }

  /** The blocker of a process: the caller's when it is an ancestor of self. */
  ghost function Tag(p: Process, self: int, byPid: map<int, Process>): Blocker {
    Blocker(if IsAncestor(byPid, self, p.pid) then CallerProcess else ActiveProcess, p.pid)
  }

  ghost function Report(processes: seq<Process>, self: int, root: string, normal: string -> string, byPid: map<int, Process>): seq<Blocker> {
    if processes == [] then [] else
      var front := Report(processes[..|processes| - 1], self, root, normal, byPid);
      var p := processes[|processes| - 1];
      if Blocks(p, self, root, normal) then front + [Tag(p, self, byPid)] else front
  }

  predicate DistinctPids(processes: seq<Process>) {
    forall i, j | 0 <= i < j < |processes| :: processes[i].pid != processes[j].pid
  }

  /** b is the blocker of one of the processes. */
  ghost predicate Owed(processes: seq<Process>, self: int, root: string, normal: string -> string, byPid: map<int, Process>, b: Blocker) {
    exists p :: p in processes && Blocks(p, self, root, normal) && b == Tag(p, self, byPid)
  }

  lemma OwedStep(processes: seq<Process>, p: Process, self: int, root: string, normal: string -> string, byPid: map<int, Process>, b: Blocker)
    ensures Owed(processes + [p], self, root, normal, byPid, b) <==>
      Owed(processes, self, root, normal, byPid, b) || (Blocks(p, self, root, normal) && b == Tag(p, self, byPid))
  {
    assert forall q :: q in processes + [p] <==> q in processes || q == p;
    if Owed(processes, self, root, normal, byPid, b) {
      var q :| q in processes && Blocks(q, self, root, normal) && b == Tag(q, self, byPid);
      assert q in processes + [p];
    }
    assert p in processes + [p];
  }

  /** A blocker for each other OpenCode process of the project, and for no other process. */
  lemma {:induction false} ReportIsExact(processes: seq<Process>, self: int, root: string, normal: string -> string, byPid: map<int, Process>)
    ensures forall b :: b in Report(processes, self, root, normal, byPid) <==> Owed(processes, self, root, normal, byPid, b)
  {
    if processes != [] {
      var front, p := processes[..|processes| - 1], processes[|processes| - 1];
      assert processes == front + [p];
      ReportIsExact(front, self, root, normal, byPid);
      forall b
        ensures Owed(processes, self, root, normal, byPid, b) <==>
          Owed(front, self, root, normal, byPid, b) || (Blocks(p, self, root, normal) && b == Tag(p, self, byPid))
      {
        OwedStep(front, p, self, root, normal, byPid, b);
      }
    }
  }

  lemma DistinctFront(processes: seq<Process>, p: Process)
    requires DistinctPids(processes + [p])
    ensures DistinctPids(processes)
  {
    assert forall i | 0 <= i < |processes| :: (processes + [p])[i] == processes[i];
  }

  predicate OncePerPid(report: seq<Blocker>) {
    forall i, j | 0 <= i < j < |report| :: report[i].pid != report[j].pid
  }

  /** And only one for each. */
  lemma {:induction false} ReportedOnce(processes: seq<Process>, self: int, root: string, normal: string -> string, byPid: map<int, Process>)
    requires DistinctPids(processes)
    ensures OncePerPid(Report(processes, self, root, normal, byPid))
  {
    if processes != [] {
      var front, p := processes[..|processes| - 1], processes[|processes| - 1];
      assert processes == front + [p];
      DistinctFront(front, p);
      ReportedOnce(front, self, root, normal, byPid);
      ReportIsExact(front, self, root, normal, byPid);
      var before := Report(front, self, root, normal, byPid);
      forall i | 0 <= i < |before|
        ensures before[i].pid != p.pid
      {
        assert before[i] in before;
        NewPid(front, p, self, root, normal, byPid, before[i]);
      }
      OncePerPidStep(before, Tag(p, self, byPid));
    }
  }

  lemma OncePerPidStep(report: seq<Blocker>, b: Blocker)
    requires OncePerPid(report) && forall i | 0 <= i < |report| :: report[i].pid != b.pid
    ensures OncePerPid(report + [b])
  {
  }

  lemma NewPid(processes: seq<Process>, p: Process, self: int, root: string, normal: string -> string, byPid: map<int, Process>, b: Blocker)
    requires DistinctPids(processes + [p]) && Owed(processes, self, root, normal, byPid, b)
    ensures b.pid != p.pid
  {
    var q :| q in processes && Blocks(q, self, root, normal) && b == Tag(q, self, byPid);
    var i :| 0 <= i < |processes| && processes[i] == q;
    assert (processes + [p])[i].pid != (processes + [p])[|processes|].pid;
  }

  /** The report follows the order of the processes. */
  lemma {:induction false} ReportPicks(processes: seq<Process>, self: int, root: string, normal: string -> string,
                                       byPid: map<int, Process>, chosen: Process -> bool, made: Process -> Blocker)
    requires forall p :: chosen(p) <==> Blocks(p, self, root, normal)
    requires forall p :: made(p) == Tag(p, self, byPid)
    ensures Report(processes, self, root, normal, byPid) == Picked(processes, chosen, made)
  {
    if processes != [] {
      ReportPicks(processes[..|processes| - 1], self, root, normal, byPid, chosen, made);
    }
  }

  ghost function CodeOf(byPid: map<int, Process>, self: int, pid: int): Code {
    if IsAncestor(byPid, self, pid) then CallerProcess else ActiveProcess
  }

  /** One blocker for each OpenCode process of the project but the caller itself, in the order of the list. */
  lemma ReportInOrder(processes: seq<Process>, self: int, root: string, normal: string -> string, byPid: map<int, Process>)
    ensures Report(processes, self, root, normal, byPid) ==
      Picked(processes, (p: Process) => p.name == "opencode" && p.pid != self && ProcessInProject(p, root, normal),
             (p: Process) => Blocker(CodeOf(byPid, self, p.pid), p.pid))
  {
    ReportPicks(processes, self, root, normal, byPid,
      (p: Process) => p.name == "opencode" && p.pid != self && ProcessInProject(p, root, normal),
      (p: Process) => Blocker(CodeOf(byPid, self, p.pid), p.pid));
  }

  /** Of several records of one process the last counts. */
  lemma {:induction false} LastRecordCounts(processes: seq<Process>, pid: int)
    ensures pid in ByPid(processes) <==> exists p :: p in processes && p.pid == pid
    ensures pid in ByPid(processes) ==>
      exists i | 0 <= i < |processes| :: processes[i].pid == pid && ByPid(processes)[pid] == processes[i]
        && forall j | i < j < |processes| :: processes[j].pid != pid
  {
    if processes != [] {
      var front, last := processes[..|processes| - 1], processes[|processes| - 1];
      assert processes == front + [last];
      LastRecordCounts(front, pid);
      if last.pid == pid {
        assert processes[|front|] == last;
      } else if pid in ByPid(front) {
        var i :| 0 <= i < |front| && front[i].pid == pid && ByPid(front)[pid] == front[i]
          && forall j | i < j < |front| :: front[j].pid != pid;
        assert processes[i] == front[i];
        assert forall j | i < j < |front| :: processes[j] == front[j];
      }
    }
  }

  method BuildOpenCodeProcessBlockers(processes: seq<Process>, self: int, root: string, normal: string -> string)
    returns (blockers: seq<Blocker>)
    ensures blockers == Report(processes, self, root, normal, ByPid(processes))
  {
    var ancestors := CallerAncestorPids(processes, self);
    blockers := [];
    for i := 0 to |processes|
      invariant blockers == Report(processes[..i], self, root, normal, ByPid(processes))
    {
      assert processes[..i + 1][..i] == processes[..i];
      var p := processes[i];
      if p.pid != self && p.name == "opencode" {
        if ProcessInProject(p, root, normal) {
          if p.pid in ancestors {
            blockers := blockers + [Blocker(CallerProcess, p.pid)];
          } else {
            blockers := blockers + [Blocker(ActiveProcess, p.pid)];
          }
        }
      }
    }
    assert processes[..|processes|] == processes;
  }

  method CheckSessionGate(processes: seq<Process>, self: int, root: string, normal: string -> string) returns (gate: Gate)
    ensures gate.blocked <==> gate.blockers != []
    ensures gate.blocked <==> exists p :: p in processes && Blocks(p, self, root, normal)
    ensures forall b :: b in gate.blockers <==>
      exists p :: p in processes && Blocks(p, self, root, normal) && b.pid == p.pid
        && (b.code == CallerProcess <==> IsAncestor(ByPid(processes), self, p.pid))
  {
    var blockers := BuildOpenCodeProcessBlockers(processes, self, root, normal);
    ghost var byPid := ByPid(processes);
    ReportIsExact(processes, self, root, normal, byPid);
    gate := Gate(|blockers| > 0, blockers);
    if p :| p in processes && Blocks(p, self, root, normal) {
      assert Owed(processes, self, root, normal, byPid, Tag(p, self, byPid));
    }
    if blockers != [] { assert blockers[0] in blockers; }
  }
}
