/** internal/maintain/plan.go and execute.go: a maintenance plan behind the session gate. */
module Maintain {
  import opened Common
  import opened Picking
  import opened SessionGate

  datatype Kind = Merge | Rebuild | Cleanup

  datatype Action = Action(kind: Kind, target: string, branch: string, path: string, allowed: bool, blockedBy: seq<Blocker>)

  /** An archived change of the advance plugin; releaseDone says its release gate is done. */
  datatype Candidate = Candidate(changeID: string, branch: string, eligible: bool, releaseDone: bool)

  datatype Drift = Fresh | Drifted | Failed

  /** A plugin of the stack, with what its drift check would say. */
  datatype Plugin = Plugin(name: string, enabled: bool, hasCheckout: bool, drift: Drift)

  datatype Worktree = Worktree(branch: string, path: string, clean: bool, merged: bool, processFree: bool, sessionFree: bool)

  datatype Options = Options(hasConfig: bool, execute: bool, merge: bool, rebuild: bool, cleanup: bool)

  /** What Build finds: the stack's plugins in the order they are visited, the archive report, the worktrees. */
  datatype Findings = Findings(
    plugins: Result<seq<Plugin>>,
    advance: Option<Plugin>,
    candidates: Result<seq<Candidate>>,
    worktrees: Result<seq<Worktree>>)

  // ---- Specification -----------------------------------------------------

  function BranchOf(c: Candidate): string {
    if c.branch == "" then "change/" + c.changeID else c.branch
  }

  predicate Mergeable(c: Candidate) {
    c.eligible && c.releaseDone
  }

  predicate Rebuildable(p: Plugin) {
    p.enabled && p.hasCheckout && p.drift == Drifted
  }

  predicate Removable(w: Worktree) {
    w.branch != "" && w.path != "" && w.clean && w.merged && w.processFree && w.sessionFree
  }

  function MergeAction(c: Candidate, gate: Gate): Action {
    Action(Merge, "advance", BranchOf(c), "", !gate.blocked, gate.blockers)
  }

  function RebuildAction(p: Plugin, gate: Gate): Action {
    Action(Rebuild, p.name, "", "", !gate.blocked, gate.blockers)
  }

  function CleanupAction(w: Worktree, gate: Gate): Action {
    Action(Cleanup, "", w.branch, w.path, !gate.blocked, gate.blockers)
  }

  function MergeActions(cs: seq<Candidate>, gate: Gate): seq<Action> {
    if cs == [] then [] else
      MergeActions(cs[..|cs| - 1], gate) + (if Mergeable(cs[|cs| - 1]) then [MergeAction(cs[|cs| - 1], gate)] else [])
  }

  /** Whether the drift check of a plugin fails, which ends the scan. */
  predicate ScanFails(p: Plugin) {
    p.enabled && p.hasCheckout && p.drift == Failed
  }

  function RebuildActions(ps: seq<Plugin>, gate: Gate): seq<Action> {
    if ps == [] then [] else
      RebuildActions(ps[..|ps| - 1], gate) + (if Rebuildable(ps[|ps| - 1]) then [RebuildAction(ps[|ps| - 1], gate)] else [])
  }

  function CleanupActions(ws: seq<Worktree>, gate: Gate): seq<Action> {
    if ws == [] then [] else
      CleanupActions(ws[..|ws| - 1], gate) + (if Removable(ws[|ws| - 1]) then [CleanupAction(ws[|ws| - 1], gate)] else [])
  }

  predicate Gated(actions: seq<Action>, gate: Gate) {
    forall a | a in actions :: a.allowed == !gate.blocked && a.blockedBy == gate.blockers
  }

  predicate AdvanceReady(found: Findings) {
    found.advance.Some? && found.advance.value.enabled && found.advance.value.hasCheckout
  }

  /** The plugins up to the first whose drift check fails. */
  function Scanned(ps: seq<Plugin>): seq<Plugin> {
    if ps == [] then [] else
      var n := |ps| - 1;
      var front := Scanned(ps[..n]);
      if |front| < n || ScanFails(ps[n]) then front else ps
  }

  lemma {:induction false} ScannedIs(ps: seq<Plugin>)
    ensures Scanned(ps) <= ps && (forall p | p in Scanned(ps) :: !ScanFails(p))
    ensures Scanned(ps) != ps ==> ScanFails(ps[|Scanned(ps)|])
  {
    if ps != [] {
      var n := |ps| - 1;
      ScannedIs(ps[..n]);
      assert ps == ps[..n] + [ps[n]];
    }
  }

  lemma {:induction false} ScanStops(ps: seq<Plugin>, i: nat)
    requires i < |ps| && Scanned(ps[..i + 1]) == ps[..i]
    ensures Scanned(ps) == ps[..i]
  {
    if i + 1 == |ps| {
      assert ps[..i + 1] == ps;
    } else {
      var front := ps[..|ps| - 1];
      assert front[..i + 1] == ps[..i + 1] && front[..i] == ps[..i];
      ScanStops(front, i);
    }
  }

  /** The actions a part of the plan adds, and whether it was finished. */
  datatype Part = Part(actions: seq<Action>, ok: bool)

  function MergePart(opts: Options, gate: Gate, found: Findings): Part {
    if !opts.hasConfig || !(opts.merge || opts.rebuild) then Part([], true)
    else if found.plugins.Err? then Part([], false)
    else if !opts.merge || !AdvanceReady(found) then Part([], true)
    else if found.candidates.Err? then Part([], false)
    else Part(MergeActions(found.candidates.value, gate), true)
  }

  function RebuildPart(opts: Options, gate: Gate, found: Findings): Part {
    if !opts.hasConfig || !opts.rebuild || found.plugins.Err? then Part([], true)
    else
      var scanned := Scanned(found.plugins.value);
      Part(RebuildActions(scanned, gate), scanned == found.plugins.value)
  }

  function CleanupPart(opts: Options, gate: Gate, found: Findings): Part {
    if !opts.cleanup then Part([], true)
    else if found.worktrees.Err? then Part([], false)
    else Part(CleanupActions(found.worktrees.value, gate), true)
  }

  function Then(first: Part, next: Part): Part {
    if first.ok then Part(first.actions + next.actions, next.ok) else first
  }

  /** The specification of Build: the parts in order, up to the first that could not be finished. */
  function Built(opts: Options, gate: Gate, found: Findings): Part {
    Then(Then(MergePart(opts, gate, found), RebuildPart(opts, gate, found)), CleanupPart(opts, gate, found))
  }

  lemma {:induction false} MergeActionsAre(cs: seq<Candidate>, gate: Gate)
    ensures forall a :: a in MergeActions(cs, gate) <==> exists c :: c in cs && Mergeable(c) && a == MergeAction(c, gate)
  {
    if cs != [] {
      var front, c := cs[..|cs| - 1], cs[|cs| - 1];
      assert cs == front + [c];
      MergeActionsAre(front, gate);
    }
  }

  lemma {:induction false} RebuildActionsAre(ps: seq<Plugin>, gate: Gate)
    ensures forall a :: a in RebuildActions(ps, gate) <==> exists p :: p in ps && Rebuildable(p) && a == RebuildAction(p, gate)
  {
    if ps != [] {
      var front, p := ps[..|ps| - 1], ps[|ps| - 1];
      assert ps == front + [p];
      RebuildActionsAre(front, gate);
    }
  }

  lemma {:induction false} CleanupActionsAre(ws: seq<Worktree>, gate: Gate)
    ensures forall a :: a in CleanupActions(ws, gate) <==> exists w :: w in ws && Removable(w) && a == CleanupAction(w, gate)
  {
    if ws != [] {
      var front, w := ws[..|ws| - 1], ws[|ws| - 1];
      assert ws == front + [w];
      CleanupActionsAre(front, gate);
    }
  }

  // ---- The planned actions, in order -------------------------------------

  lemma {:induction false} MergesPicked(cs: seq<Candidate>, gate: Gate, chosen: Candidate -> bool, made: Candidate -> Action)
    requires forall c :: chosen(c) <==> Mergeable(c)
    requires forall c :: made(c) == MergeAction(c, gate)
    ensures MergeActions(cs, gate) == Picked(cs, chosen, made)
  {
    if cs != [] { MergesPicked(cs[..|cs| - 1], gate, chosen, made); }
  }

  lemma {:induction false} RebuildsPicked(ps: seq<Plugin>, gate: Gate, chosen: Plugin -> bool, made: Plugin -> Action)
    requires forall p :: chosen(p) <==> Rebuildable(p)
    requires forall p :: made(p) == RebuildAction(p, gate)
    ensures RebuildActions(ps, gate) == Picked(ps, chosen, made)
  {
    if ps != [] { RebuildsPicked(ps[..|ps| - 1], gate, chosen, made); }
  }

  lemma {:induction false} CleanupsPicked(ws: seq<Worktree>, gate: Gate, chosen: Worktree -> bool, made: Worktree -> Action)
    requires forall w :: chosen(w) <==> Removable(w)
    requires forall w :: made(w) == CleanupAction(w, gate)
    ensures CleanupActions(ws, gate) == Picked(ws, chosen, made)
  {
    if ws != [] { CleanupsPicked(ws[..|ws| - 1], gate, chosen, made); }
  }

  /** The merges: of the advance plugin, on the branch the archive declares or else the one named after the change. */
  function MergesOf(cs: seq<Candidate>, gate: Gate): seq<Action> {
    Picked(cs, (c: Candidate) => c.eligible && c.releaseDone,
      (c: Candidate) => Action(Merge, "advance", if c.branch != "" then c.branch else "change/" + c.changeID, "",
                               !gate.blocked, gate.blockers))
  }

  function RebuildsOf(ps: seq<Plugin>, gate: Gate): seq<Action> {
    Picked(ps, (p: Plugin) => p.enabled && p.hasCheckout && p.drift == Drifted,
      (p: Plugin) => Action(Rebuild, p.name, "", "", !gate.blocked, gate.blockers))
  }

  /** No dirty, unmerged or occupied worktree is removed. */
  function CleanupsOf(ws: seq<Worktree>, gate: Gate): seq<Action> {
    Picked(ws, (w: Worktree) => w.clean && w.merged && w.processFree && w.sessionFree && w.branch != "" && w.path != "",
      (w: Worktree) => Action(Cleanup, "", w.branch, w.path, !gate.blocked, gate.blockers))
  }

  lemma ActionsInOrder(cs: seq<Candidate>, ps: seq<Plugin>, ws: seq<Worktree>, gate: Gate)
    ensures MergeActions(cs, gate) == MergesOf(cs, gate)
    ensures RebuildActions(ps, gate) == RebuildsOf(ps, gate)
    ensures CleanupActions(ws, gate) == CleanupsOf(ws, gate)
  {
    MergesPicked(cs, gate, (c: Candidate) => c.eligible && c.releaseDone,
      (c: Candidate) => Action(Merge, "advance", if c.branch != "" then c.branch else "change/" + c.changeID, "",
                               !gate.blocked, gate.blockers));
    RebuildsPicked(ps, gate, (p: Plugin) => p.enabled && p.hasCheckout && p.drift == Drifted,
      (p: Plugin) => Action(Rebuild, p.name, "", "", !gate.blocked, gate.blockers));
    CleanupsPicked(ws, gate, (w: Worktree) => w.clean && w.merged && w.processFree && w.sessionFree && w.branch != "" && w.path != "",
      (w: Worktree) => Action(Cleanup, "", w.branch, w.path, !gate.blocked, gate.blockers));
  }

  /** What each part finds to work on, and whether the part is done at all. */
  predicate LoadsStack(opts: Options) {
    opts.hasConfig && (opts.merge || opts.rebuild)
  }

  predicate ReadsArchive(opts: Options, found: Findings) {
    && opts.hasConfig && opts.merge
    && found.advance.Some? && found.advance.value.enabled && found.advance.value.hasCheckout
  }

  /** The drift of some enabled plugin with a checkout cannot be told. */
  predicate DriftUnknown(ps: seq<Plugin>) {
    exists p :: p in ps && p.enabled && p.hasCheckout && p.drift == Failed
  }

  lemma {:induction false} ScannedAll(ps: seq<Plugin>)
    ensures Scanned(ps) == ps <==> !DriftUnknown(ps)
  {
    ScannedIs(ps);
    if Scanned(ps) != ps { assert ps[|Scanned(ps)|] in ps; }
    if p :| p in ps && p.enabled && p.hasCheckout && p.drift == Failed { assert ScanFails(p); }
  }

  /** What is planned when nothing fails: the merges, rebuilds and cleanups that were asked for. */
  function PlannedMerges(opts: Options, gate: Gate, found: Findings): seq<Action> {
    if ReadsArchive(opts, found) && found.candidates.Ok? then MergesOf(found.candidates.value, gate) else []
  }

  function PlannedRebuilds(opts: Options, gate: Gate, found: Findings): seq<Action> {
    if opts.hasConfig && opts.rebuild && found.plugins.Ok? then RebuildsOf(found.plugins.value, gate) else []
  }

  function PlannedCleanups(opts: Options, gate: Gate, found: Findings): seq<Action> {
    if opts.cleanup && found.worktrees.Ok? then CleanupsOf(found.worktrees.value, gate) else []
  }

  /** The stack or the archive cannot be read. */
  predicate StackFails(opts: Options, found: Findings) {
    (LoadsStack(opts) && found.plugins.Err?) || (ReadsArchive(opts, found) && found.candidates.Err?)
  }

  predicate DriftFails(opts: Options, found: Findings) {
    opts.hasConfig && opts.rebuild && found.plugins.Ok? && DriftUnknown(found.plugins.value)
  }

  lemma MergesTell(opts: Options, gate: Gate, found: Findings)
    ensures MergePart(opts, gate, found) == Part(if StackFails(opts, found) then [] else PlannedMerges(opts, gate, found), !StackFails(opts, found))
  {
    if found.candidates.Ok? { ActionsInOrder(found.candidates.value, [], [], gate); }
  }

  lemma RebuildsTell(opts: Options, gate: Gate, found: Findings)
    ensures RebuildPart(opts, gate, found).ok <==> !DriftFails(opts, found)
    ensures !DriftFails(opts, found) ==> RebuildPart(opts, gate, found).actions == PlannedRebuilds(opts, gate, found)
    ensures DriftFails(opts, found) ==> RebuildPart(opts, gate, found).actions == RebuildsOf(Scanned(found.plugins.value), gate)
  {
    if found.plugins.Ok? {
      ScannedAll(found.plugins.value);
      ActionsInOrder([], Scanned(found.plugins.value), [], gate);
    }
  }

  lemma CleanupsTell(opts: Options, gate: Gate, found: Findings)
    ensures CleanupPart(opts, gate, found) == Part(PlannedCleanups(opts, gate, found), opts.cleanup ==> found.worktrees.Ok?)
  {
    if found.worktrees.Ok? { ActionsInOrder([], [], found.worktrees.value, gate); }
  }

  /**
   * Building succeeds exactly when nothing it looks at fails, and the plan is then
   * the merges, the rebuilds and the cleanups that were asked for, in this order. A
   * failure leaves what was found before it: nothing without the stack or the archive,
   * the merges and the rebuilds before the first plugin whose drift is unknown, or all
   * but the cleanups.
   */
  lemma BuiltTells(opts: Options, gate: Gate, found: Findings)
    ensures var built := Built(opts, gate, found);
      var merges, rebuilds := PlannedMerges(opts, gate, found), PlannedRebuilds(opts, gate, found);
      if StackFails(opts, found) then built == Part([], false)
      else if DriftFails(opts, found) then
        !built.ok && built.actions == merges + RebuildsOf(Scanned(found.plugins.value), gate)
      else if opts.cleanup && found.worktrees.Err? then built == Part(merges + rebuilds, false)
      else built == Part(merges + rebuilds + PlannedCleanups(opts, gate, found), true)
  {
    MergesTell(opts, gate, found);
    RebuildsTell(opts, gate, found);
    CleanupsTell(opts, gate, found);
    var merges, rebuilds := PlannedMerges(opts, gate, found), PlannedRebuilds(opts, gate, found);
    assert merges + rebuilds + [] == merges + rebuilds;
  }

  // ---- Execution ---------------------------------------------------------

  /**
   * Execution begins the commands of exactly the first n actions: each of them is
   * allowed, all but the last one surely worked, and it stops only at the end, before
   * an action that is not allowed, or after one that failed.
   */
  predicate Stops(actions: seq<Action>, works: Action -> bool, n: nat) {
    && n <= |actions|
    && (forall i | 0 <= i < n :: actions[i].allowed)
    && (forall i | 0 <= i < n - 1 :: works(actions[i]))
    && (n < |actions| ==> !actions[n].allowed || (n > 0 && !works(actions[n - 1])))
  }

  lemma StopsOnce(actions: seq<Action>, works: Action -> bool, m: nat, n: nat)
    requires Stops(actions, works, m) && Stops(actions, works, n)
    ensures m == n
  {
  }

  class Plan {
    const gate: Gate
    var blockers: seq<Blocker>
    var actions: seq<Action>

    constructor (gate: Gate)
      ensures this.gate == gate && actions == []
      ensures blockers == if gate.blocked then gate.blockers else []
    {
      this.gate, actions := gate, [];
      blockers := if gate.blocked then gate.blockers else [];
    }

    /** Every action carries the gate's verdict, and the gate's blockers block the plan. */
    predicate Valid()
      reads this
    {
      Gated(actions, gate) && blockers == if gate.blocked then gate.blockers else []
    }

    method AddMergeCandidates(found: Findings) returns (ok: bool)
      requires Valid()
      modifies this`actions
      ensures Valid()
      ensures ok == (!AdvanceReady(found) || found.candidates.Ok?)
      ensures actions == old(actions) +
        (if AdvanceReady(found) && found.candidates.Ok? then MergeActions(found.candidates.value, gate) else [])
    {
      if !AdvanceReady(found) { return true; }
      if found.candidates.Err? { return false; }
      var cs := found.candidates.value;
      for i := 0 to |cs|
        invariant Valid() && actions == old(actions) + MergeActions(cs[..i], gate)
      {
        assert cs[..i + 1][..i] == cs[..i];
        if Mergeable(cs[i]) {
          actions := actions + [Action(Merge, "advance", BranchOf(cs[i]), "", !gate.blocked, gate.blockers)];
        }
      }
      assert cs[..|cs|] == cs;
      return true;
    }

    method AddRebuildActions(plugins: seq<Plugin>) returns (ok: bool)
      requires Valid()
      modifies this`actions
      ensures Valid()
      ensures ok == (Scanned(plugins) == plugins)
      ensures actions == old(actions) + RebuildActions(Scanned(plugins), gate)
    {
      for i := 0 to |plugins|
        invariant Valid() && actions == old(actions) + RebuildActions(plugins[..i], gate)
        invariant Scanned(plugins[..i]) == plugins[..i]
      {
        assert plugins[..i + 1][..i] == plugins[..i];
        var p := plugins[i];
        if p.enabled && p.hasCheckout {
          if p.drift == Failed {
            ScanStops(plugins, i);
            return false;
          }
          if p.drift != Fresh {
            actions := actions + [Action(Rebuild, p.name, "", "", !gate.blocked, gate.blockers)];
          }
        }
      }
      assert plugins[..|plugins|] == plugins;
      return true;
    }

    method AddCleanupCandidates(worktrees: Result<seq<Worktree>>) returns (ok: bool)
      requires Valid()
      modifies this`actions
      ensures Valid()
      ensures ok == worktrees.Ok?
      ensures actions == old(actions) + (if worktrees.Ok? then CleanupActions(worktrees.value, gate) else [])
    {
      if worktrees.Err? { return false; }
      var ws := worktrees.value;
      for i := 0 to |ws|
        invariant Valid() && actions == old(actions) + CleanupActions(ws[..i], gate)
      {
        assert ws[..i + 1][..i] == ws[..i];
        if Removable(ws[i]) {
          actions := actions + [Action(Cleanup, "", ws[i].branch, ws[i].path, !gate.blocked, gate.blockers)];
        }
      }
      assert ws[..|ws|] == ws;
      return true;
    }

    /** Fills the plan; it is gated whether or not this succeeds. */
    method Build(opts: Options, found: Findings) returns (ok: bool)
      requires Valid() && actions == []
      modifies this`actions
      ensures Valid()
      ensures Part(actions, ok) == Built(opts, gate, found)
    {
      if opts.hasConfig && (opts.merge || opts.rebuild) {
        if found.plugins.Err? { return false; }
        if opts.merge {
          ok := AddMergeCandidates(found);
          if !ok { return false; }
        }
        assert Part(actions, true) == MergePart(opts, gate, found);
        if opts.rebuild {
          ok := AddRebuildActions(found.plugins.value);
          if !ok { return false; }
        }
      }
      assert Part(actions, true) == Then(MergePart(opts, gate, found), RebuildPart(opts, gate, found));
      if opts.cleanup {
        ok := AddCleanupCandidates(found.worktrees);
        if !ok { return false; }
      }
      return true;
    }

    /** works says which actions' commands succeed; attempted lists the actions whose commands were begun. */
    method ExecutePlan(opts: Options, loads: bool, works: Action -> bool) returns (ok: bool, attempted: seq<Action>)
      requires Valid()
      ensures attempted <= actions
      ensures gate.blocked ==> attempted == []
      ensures gate.blocked && opts.execute && (blockers != [] || !loads || actions != []) ==> !ok
      ensures !opts.execute ==> ok && attempted == []
      ensures opts.execute && !loads ==> !ok && attempted == []
      ensures opts.execute && !gate.blocked && loads ==>
        Stops(actions, works, |attempted|) && (ok <==> |attempted| == |actions| && forall a | a in actions :: works(a))
    {
      attempted := [];
      if !opts.execute { return true, []; }
      if |blockers| > 0 { return false, []; }
      if !loads { return false, []; }
      for i := 0 to |actions|
        invariant attempted == actions[..i]
        invariant forall j | 0 <= j < i :: works(actions[j]) && actions[j].allowed
        invariant gate.blocked ==> i == 0
      {
        assert actions[i] in actions;
        if !actions[i].allowed { return false, attempted; }
        attempted := attempted + [actions[i]];
        if !works(actions[i]) { return false, attempted; }
      }
      return true, attempted;
    }
  }

  /**
   * With another OpenCode process of the project running, whatever the plan is built
   * from and however far that gets, executing it attempts nothing and fails.
   */
  method MaintainBehindGate(processes: seq<Process>, self: int, root: string, normal: string -> string,
                            opts: Options, found: Findings, loads: bool, works: Action -> bool)
    returns (built: bool, ok: bool, attempted: seq<Action>)
    ensures (exists p :: p in processes && Blocks(p, self, root, normal)) ==> attempted == [] && (opts.execute ==> !ok)
  {
    var gate := CheckSessionGate(processes, self, root, normal);
    var plan := new Plan(gate);
    built := plan.Build(opts, found);
    ok, attempted := plan.ExecutePlan(opts, loads, works);
  }
}
