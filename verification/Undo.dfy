/** When the rollback of internal/render/apply.go undoes a failed apply, and when it cannot. */
module Undo {
  import opened Common
  import opened Ordering
  import opened Documents
  import opened AtomicFile
  import opened Apply

  // ---- When rollback itself succeeds -------------------------------------

  predicate Survives(w: World, r: TargetResult) {
    r.wrote && r.backup.Some? ==> r.backup.value in At(w.places, r.path).backups
  }

  /** Without faults, undoing fails exactly for the results whose backup is gone. */
  lemma {:induction false} RollbackClean(w: World, results: seq<TargetResult>, envs: seq<UndoEnv>)
    requires |results| <= |envs| && forall j | 0 <= j < |results| :: Faultless(envs[j])
    ensures Rollback(w, results, envs).errors == [] <==> forall j | 0 <= j < |results| :: Survives(w, results[j])
    decreases |results|
  {
    if results != [] {
      var last := |results| - 1;
      var u := UndoOne(w, results[last], envs[last]);
      UndoOneShape(w, results[last], envs[last]);
      RollbackClean(u.world, results[..last], envs);
      assert u.ok == Survives(w, results[last]);
      forall j | 0 <= j < last
        ensures Survives(u.world, results[j]) == Survives(w, results[j])
      {
      }
      assert forall j | 0 <= j < last :: results[..last][j] == results[j];
    }
  }

  /** The epochs of the backups a run has made for path, and how many there are. */
  function Made(results: seq<TargetResult>, path: string): set<int> {
    set j | 0 <= j < |results| && results[j].wrote && results[j].path == path && results[j].backup.Some?
      :: results[j].backup.value
  }

  lemma MadeAppend(results: seq<TargetResult>, r: TargetResult, path: string)
    ensures Made(results + [r], path) == Made(results, path) +
      (if r.wrote && r.path == path && r.backup.Some? then {r.backup.value} else {})
  {
    var all := results + [r];
    forall e | e in Made(results, path)
      ensures e in Made(all, path)
    {
      var j :| 0 <= j < |results| && results[j].wrote && results[j].path == path && results[j].backup == Some(e);
      assert all[j] == results[j];
    }
    if r.wrote && r.path == path && r.backup.Some? {
      assert all[|results|] == r;
    }
  }

  /**
   * The run's own backups of a path are its newest ones: all of them are there
   * while they fit the bound, and once it is exceeded there are too few files to
   * hold them all.
   */
  ghost predicate Tallied(start: int, max: int, made: set<int>, place: Place, clock: int) {
    && (forall e | e in made :: start <= e < clock)
    && (forall e | e in place.backups && start <= e :: e in made)
    && (made != {} ==> |place.backups.Keys| <= max)
    && (|made| <= max ==> made <= place.backups.Keys)
  }

  /** Room for one more keeps every backup of the run through a pruning. */
  lemma PruningKeepsRun(start: int, max: int, made: set<int>, place: Place, clock: int)
    requires Tallied(start, max, made, place, clock)
    requires |made| < max
    ensures made <= Kept(place.backups, max - 1)
  {
    var top := set e | e in place.backups.Keys && start <= e;
    SubsetCardinality(top, made);
    if max > 1 { NewestKeepsTop(place.backups.Keys, max - 1, start); }
  }

  lemma TalliedGrows(start: int, max: int, made: set<int>, place: Place, clock: int, after: Place, now: int)
    requires Past(place, clock) && start <= clock < now && max > 0
    requires Tallied(start, max, made, place, clock)
    requires after.backups.Keys == Kept(place.backups, max - 1) + {clock}
    ensures Tallied(start, max, made + {clock}, after, now)
  {
    var kept := Kept(place.backups, max - 1);
    KeptShape(place.backups, max - 1);
    if |made| < max { PruningKeepsRun(start, max, made, place, clock); }
    assert |after.backups.Keys| <= |kept| + 1;
    assert clock !in made && |made + {clock}| == |made| + 1;
  }

  lemma TalliedSame(start: int, max: int, made: set<int>, place: Place, clock: int, after: Place, now: int)
    requires Tallied(start, max, made, place, clock) && after.backups == place.backups && clock <= now
    ensures Tallied(start, max, made, after, now)
  {
  }

  /** The backup of a write, as a set. */
  function Saved(backup: Option<int>): set<int> {
    if backup.Some? then {backup.value} else {}
  }

  lemma TalliedStep(start: int, max: int, made: set<int>, place: Place, clock: int, t: TargetOp, out: Outcome)
    requires Past(place, clock) && start <= clock && Tallied(start, max, made, place, clock)
    requires Slides(place, clock, MaxFor(t, max), out)
    ensures Tallied(start, max, made + Saved(out.backup), out.place, out.clock)
  {
    if out.backup.Some? {
      TalliedGrows(start, max, made, place, clock, out.place, out.clock);
    } else {
      TalliedSame(start, max, made, place, clock, out.place, out.clock);
      assert made + {} == made;
    }
  }

  /** The backups of path one op adds. */
  lemma MadeStep(p: Progress, t: TargetOp, max: int, env: Env, path: string)
    requires !WriteOne(p, t, max, env).failed
    ensures var next := WriteOne(p, t, max, env);
      Made(next.results, path) ==
        if t.op != OpNoop && t.path == path
        then Made(p.results, path) + Saved(Write(p.world, t.path, t.after, MaxFor(t, max), env).backup)
        else Made(p.results, path)
  {
    var next := WriteOne(p, t, max, env);
    MadeAppend(p.results, next.results[|p.results|], path);
    assert Made(p.results, path) + {} == Made(p.results, path);
  }

  lemma {:induction false} WrittenTallied(w: World, plan: seq<TargetOp>, max: int, envs: seq<Env>, k: nat, path: string)
    requires Valid(w) && k <= |plan| == |envs|
    requires !Written(w, plan, max, envs, k).failed
    ensures var p := Written(w, plan, max, envs, k);
      && Valid(p.world) && w.clock <= p.world.clock
      && Tallied(w.clock, max, Made(p.results, path), At(p.world.places, path), p.world.clock)
  {
    if k == 0 {
      assert Made([], path) == {};
    } else {
      WrittenTallied(w, plan, max, envs, k - 1, path);
      var p, t := Written(w, plan, max, envs, k - 1), plan[k - 1];
      WriteOneValid(p, t, max, envs[k - 1]);
      MadeStep(p, t, max, envs[k - 1], path);
      if t.op != OpNoop {
        var place := At(p.world.places, t.path);
        var out := Write(p.world, t.path, t.after, MaxFor(t, max), envs[k - 1]);
        PutElsewhere(p.world, t.path, out, path);
        if t.path == path {
          SuccessEpochs(place, p.world.clock, t.after, MaxFor(t, max), envs[k - 1]);
          TalliedStep(w.clock, max, Made(p.results, path), place, p.world.clock, t, out);
        } else {
          TalliedSame(w.clock, max, Made(p.results, path), At(p.world.places, path), p.world.clock,
            At(p.world.places, path), out.clock);
        }
      }
    }
  }

  // ---- How many backups a plan makes -------------------------------------

  /** How many of the ops write to path over different bytes with backups on, starting from the given content. */
  function BackupCount(ops: seq<TargetOp>, path: string, initial: Option<Bytes>, max: int): nat {
    if ops == [] then 0 else
      var front, t := ops[..|ops| - 1], ops[|ops| - 1];
      BackupCount(front, path, initial, max) + (if Saves(front, t, path, initial, max) then 1 else 0)
  }

  /** After the ops, t writes to path and backs up what it replaces. */
  predicate Saves(ops: seq<TargetOp>, t: TargetOp, path: string, initial: Option<Bytes>, max: int) {
    t.op != OpNoop && t.path == path && BacksUp(t, LastContent(ops, path, initial), max)
  }

  /** The run has made n backups of path, and if any, its writes have left no half-written ones. */
  ghost predicate HasMade(p: Progress, path: string, n: nat) {
    |Made(p.results, path)| == n && (n > 0 ==> At(p.world.places, path).temps == map[])
  }

  lemma HasMadeStep(p: Progress, t: TargetOp, max: int, env: Env, path: string, n: nat)
    requires HasMade(p, path, n) && !WriteOne(p, t, max, env).failed
    requires Past(At(p.world.places, path), p.world.clock) && forall e | e in Made(p.results, path) :: e < p.world.clock
    ensures HasMade(WriteOne(p, t, max, env), path,
      n + (if t.op != OpNoop && t.path == path && BacksUp(t, ContentOf(p.world, path), max) then 1 else 0))
  {
    MadeStep(p, t, max, env, path);
    if t.op != OpNoop {
      var out := Write(p.world, t.path, t.after, MaxFor(t, max), env);
      PutElsewhere(p.world, t.path, out, path);
      if t.path == path {
        OneBackup(At(p.world.places, path), p.world.clock, t, max, env);
        MadeGrows(Made(p.results, path), out.backup, p.world.clock);
      }
    }
  }

  /** A run makes exactly as many backups as its plan says, and no write leaves half-written ones. */
  lemma {:induction false} MadeCount(w: World, plan: seq<TargetOp>, max: int, envs: seq<Env>, k: nat, path: string)
    requires Valid(w) && k <= |plan| == |envs| && !Written(w, plan, max, envs, k).failed
    ensures HasMade(Written(w, plan, max, envs, k), path, BackupCount(plan[..k], path, ContentOf(w, path), max))
  {
    if k == 0 {
      assert Made([], path) == {};
    } else {
      MadeCount(w, plan, max, envs, k - 1, path);
      WrittenTallied(w, plan, max, envs, k - 1, path);
      WrittenContent(w, plan, max, envs, k - 1, path);
      assert plan[..k][..k - 1] == plan[..k - 1];
      HasMadeStep(Written(w, plan, max, envs, k - 1), plan[k - 1], max, envs[k - 1], path,
        BackupCount(plan[..k - 1], path, ContentOf(w, path), max));
    }
  }

  /** A successful write makes a backup exactly when it has something to save, and leaves no half-written one. */
  lemma OneBackup(p: Place, clock: int, t: TargetOp, max: int, env: Env)
    requires Past(p, clock) && !WritePlace(p, clock, t.after, MaxFor(t, max), env).failed
    ensures var out := WritePlace(p, clock, t.after, MaxFor(t, max), env);
      && (out.backup.Some? <==> BacksUp(t, p.target, max)) && (out.backup.Some? ==> out.backup.value == clock)
      && out.place.temps == map[]
  {
    WriteBackups(p, clock, t.after, MaxFor(t, max), env);
    SuccessTemps(p, clock, t.after, MaxFor(t, max), env);
  }

  lemma MadeGrows(made: set<int>, backup: Option<int>, clock: int)
    requires forall e | e in made :: e < clock
    requires backup.Some? ==> backup.value == clock
    ensures |made + Saved(backup)| == |made| + (if backup.Some? then 1 else 0)
  {
    if backup.Some? { assert clock !in made; } else { assert made + {} == made; }
  }

  // ---- When all of a run's backups survive the failing write -------------

  /** The oldest backup of the run could not be unlinked. */
  ghost predicate OldestStuck(made: set<int>, stuck: set<int>) {
    exists e :: e in made && e in stuck && forall f | f in made :: e <= f
  }

  /** Of n backups in all, keeping the newest n - 1 dooms the oldest. */
  lemma OldestDoomed(made: set<int>, n: nat, e: int)
    requires |made| == n > 0 && e in made && forall f | f in made :: e <= f
    ensures made - Newest(made, n - 1) == {e}
  {
    var top := set f | f in made && e + 1 <= f;
    assert top == made - {e};
    NewestKeepsTop(made, n - 1, e + 1);
    NewestSubset(made, n - 1);
    var kept := Newest(made, n - 1);
    SubsetSame(top, kept);
  }

  lemma OldestOf(made: set<int>) returns (e: int)
    requires made != {}
    ensures e in made && forall f | f in made :: e <= f
  {
    AscendingElements(made);
    AscendingSorted(made);
    e := Ascending(made)[0];
    assert Ascending(made)[0] in Ascending(made);
    forall f | f in made
      ensures e <= f
    {
      assert f in Ascending(made);
    }
  }

  /** When the bound is reached, pruning dooms exactly the oldest backup of the run. */
  lemma FullDecides(start: int, max: int, made: set<int>, place: Place, clock: int, stuck: set<int>)
    requires Tallied(start, max, made, place, clock) && |made| == max > 0
    ensures made <= Left(place.backups, max - 1, stuck) <==> OldestStuck(made, stuck)
  {
    var keys := place.backups.Keys;
    SubsetSame(made, keys);
    var e := OldestOf(made);
    OldestDoomed(made, max, e);
    assert Kept(place.backups, max - 1) == Newest(keys, max - 1);
    assert Doomed(place.backups, max - 1) == {e};
    assert forall f | f in made && f != e :: f in Left(place.backups, max - 1, stuck);
    if OldestStuck(made, stuck) {
      var g :| g in made && g in stuck && forall f | f in made :: g <= f;
      assert g == e;
    }
  }

  lemma KeptAreLeft(backups: map<int, Bytes>, keep: int, stuck: set<int>)
    ensures Kept(backups, keep) <= Left(backups, keep, stuck)
  {
    KeptShape(backups, keep);
  }

  /** The epochs after a write that pruned, apart from its own, or did not. */
  ghost predicate AfterPruning(place: Place, clock: int, max: int, pruned: bool, stuck: set<int>, after: set<int>) {
    if pruned then max > 0 && after - {clock} == Left(place.backups, max - 1, stuck)
    else after == place.backups.Keys
  }

  /** With n backups made, there is room for them and for one more if the next write prunes. */
  predicate Fits(n: nat, pruned: bool, max: int) {
    n == 0 || n + (if pruned then 1 else 0) <= max
  }

  lemma RoomDecides(start: int, max: int, made: set<int>, place: Place, clock: int, after: set<int>, pruned: bool, stuck: set<int>)
    requires Past(place, clock) && Tallied(start, max, made, place, clock)
    requires AfterPruning(place, clock, max, pruned, stuck, after)
    ensures made <= after <==> Fits(|made|, pruned, max) || (pruned && |made| == max && OldestStuck(made, stuck))
  {
    if pruned {
      assert forall e | e in made :: e in after <==> e in after - {clock};
      if |made| < max {
        PruningKeepsRun(start, max, made, place, clock);
        KeptAreLeft(place.backups, max - 1, stuck);
      } else if |made| == max {
        FullDecides(start, max, made, place, clock, stuck);
      } else if made <= after {
        assert forall e | e in made :: e in Left(place.backups, max - 1, stuck);
        SubsetCardinality(made, place.backups.Keys);
      }
    } else if made <= after {
      SubsetCardinality(made, place.backups.Keys);
    }
  }

  /** The failing write gets as far as looking at the target: nothing before that goes wrong. */
  predicate Arrives(env: Env) {
    MakeDir !in env.broken && ReadTarget !in env.broken
  }

  /** The backups the plan makes for path before op i, and the pruning of op i if it arrives there, fit the bound. */
  predicate Room(w: World, plan: seq<TargetOp>, max: int, i: nat, path: string, arrives: bool)
    requires i < |plan|
  {
    Fits(BackupCount(plan[..i], path, ContentOf(w, path), max),
         arrives && Saves(plan[..i], plan[i], path, ContentOf(w, path), max), max)
  }

  /** The bound is exactly reached, and the one backup to be pruned is one that cannot be unlinked. */
  ghost predicate Spared(w: World, plan: seq<TargetOp>, max: int, envs: seq<Env>, i: nat, path: string)
    requires i < |plan| == |envs|
  {
    var made := Made(Written(w, plan, max, envs, i).results, path);
    |made| == max && OldestStuck(made, envs[i].stuckBackups)
  }

  /** Whether a write prunes can be told from the plan once a backup of the path has been made. */
  lemma SurvivorsHere(made: set<int>, place: Place, t: TargetOp, max: int, env: Env, survive: bool, spared: bool)
    requires made != {} ==> place.temps == map[]
    requires var pruned := Prunes(place, t.after, MaxFor(t, max), env);
      survive <==> Fits(|made|, pruned, max) || (pruned && |made| == max && spared)
    ensures survive <==> Fits(|made|, Arrives(env) && BacksUp(t, place.target, max), max) || (|made| == max && spared)
  {
    if made != {} { ArrivesToPrune(place, t, max, env); }
  }

  lemma ArrivesToPrune(place: Place, t: TargetOp, max: int, env: Env)
    requires place.temps == map[]
    ensures Prunes(place, t.after, MaxFor(t, max), env) == (Arrives(env) && BacksUp(t, place.target, max))
  {
    assert place.temps.Keys * env.stuckTemps == {};
  }

  lemma EpochsAfter(place: Place, clock: int, t: TargetOp, max: int, env: Env, after: map<int, Bytes>)
    requires Past(place, clock) && after == WritePlace(place, clock, t.after, MaxFor(t, max), env).place.backups
    ensures AfterPruning(place, clock, max, Prunes(place, t.after, MaxFor(t, max), env), env.stuckBackups, after.Keys)
  {
    EpochsLeft(place, clock, t.after, MaxFor(t, max), env);
  }

  lemma SurvivorsOfPath(w: World, plan: seq<TargetOp>, max: int, envs: seq<Env>, i: nat, path: string)
    requires Valid(w) && i < |plan| == |envs|
    requires !Written(w, plan, max, envs, i).failed && plan[i].op != OpNoop
    ensures var pre := Written(w, plan, max, envs, i);
      var after := At(WriteOne(pre, plan[i], max, envs[i]).world.places, path).backups.Keys;
      Made(pre.results, path) <= after <==>
        Room(w, plan, max, i, path, Arrives(envs[i])) || Spared(w, plan, max, envs, i, path)
  {
    var pre, t := Written(w, plan, max, envs, i), plan[i];
    var place := At(pre.world.places, path);
    var made := Made(pre.results, path);
    var out := Write(pre.world, t.path, t.after, MaxFor(t, max), envs[i]);
    WrittenTallied(w, plan, max, envs, i, path);
    WrittenContent(w, plan, max, envs, i, path);
    MadeCount(w, plan, max, envs, i, path);
    PutElsewhere(pre.world, t.path, out, path);
    if t.path == path {
      var pruned := Prunes(place, t.after, MaxFor(t, max), envs[i]);
      EpochsAfter(place, pre.world.clock, t, max, envs[i], out.place.backups);
      RoomDecides(w.clock, max, made, place, pre.world.clock, out.place.backups.Keys, pruned, envs[i].stuckBackups);
      SurvivorsHere(made, place, t, max, envs[i], made <= out.place.backups.Keys, OldestStuck(made, envs[i].stuckBackups));
    } else {
      RoomDecides(w.clock, max, made, place, pre.world.clock, place.backups.Keys, false, {});
    }
  }

  lemma SurvivalByPath(w: World, results: seq<TargetResult>)
    ensures (forall j | 0 <= j < |results| :: Survives(w, results[j]))
      <==> forall path :: Made(results, path) <= At(w.places, path).backups.Keys
  {
    if forall path :: Made(results, path) <= At(w.places, path).backups.Keys {
      forall j | 0 <= j < |results|
        ensures Survives(w, results[j])
      {
        if results[j].wrote && results[j].backup.Some? {
          assert results[j].backup.value in Made(results, results[j].path);
        }
      }
    }
  }

  /** The failing target is the last one with a result. */
  lemma {:induction false} FailingPoint(w: World, plan: seq<TargetOp>, max: int, envs: seq<Env>, k: nat) returns (i: nat)
    requires k <= |plan| == |envs| && Written(w, plan, max, envs, k).failed
    ensures i < k && |Written(w, plan, max, envs, k).results| == i + 1
    ensures var pre := Written(w, plan, max, envs, i);
      && !pre.failed && |pre.results| == i && plan[i].op != OpNoop
      && Written(w, plan, max, envs, k) == WriteOne(pre, plan[i], max, envs[i])
  {
    var before := Written(w, plan, max, envs, k - 1);
    if before.failed {
      i := FailingPoint(w, plan, max, envs, k - 1);
    } else {
      i := k - 1;
      ProgressLength(w, plan, max, envs, i);
    }
  }

  /** A run that fails and then rolls back, meeting no fault while it does. */
  ghost predicate FailsAndUndoes(w: World, plan: seq<TargetOp>, opts: Options, envs: seq<Env>, undoEnvs: seq<UndoEnv>) {
    && |plan| == |envs| == |undoEnvs| && !opts.dryRun && !opts.noRollback
    && (forall j | 0 <= j < |undoEnvs| :: Faultless(undoEnvs[j]))
    && Run(w, plan, opts, true, envs, undoEnvs).failed
  }

  /**
   * Without faults of its own, rollback after a failure at target i reports no
   * error exactly when, for every path, the backups the plan makes before i, and one
   * more if the failing write gets as far as pruning, fit MaxBackups; or, when they
   * are one too many, the one to be pruned could not be unlinked.
   */
  lemma RollbackSucceedsWhen(w: World, plan: seq<TargetOp>, opts: Options, envs: seq<Env>, undoEnvs: seq<UndoEnv>) returns (i: nat)
    requires Valid(w) && FailsAndUndoes(w, plan, opts, envs, undoEnvs)
    ensures i < |plan| && plan[i].op != OpNoop && |Run(w, plan, opts, true, envs, undoEnvs).results| == i + 1
    ensures Run(w, plan, opts, true, envs, undoEnvs).undoErrors == [] <==>
      forall path :: Room(w, plan, EffectiveMax(opts), i, path, Arrives(envs[i])) || Spared(w, plan, EffectiveMax(opts), envs, i, path)
  {
    var max := EffectiveMax(opts);
    i := FailingPoint(w, plan, max, envs, |plan|);
    var pre := Written(w, plan, max, envs, i);
    var p := WriteOne(pre, plan[i], max, envs[i]);
    assert p.results[..i] == pre.results;
    RollbackClean(p.world, pre.results, undoEnvs);
    SurvivalByPath(p.world, pre.results);
    forall path
      ensures Made(pre.results, path) <= At(p.world.places, path).backups.Keys <==>
        Room(w, plan, max, i, path, Arrives(envs[i])) || Spared(w, plan, max, envs, i, path)
    {
      SurvivorsOfPath(w, plan, max, envs, i, path);
    }
  }

  /** Rollback reports no error and every path has its original content. */
  ghost predicate IsUndone(w: World, r: Report) {
    r.undoErrors == [] && forall path :: ContentOf(r.world, path) == ContentOf(w, path)
  }

  /** A failed apply is undone exactly when every path is recoverable and its backups had room. */
  lemma UndoneWhen(w: World, plan: seq<TargetOp>, opts: Options, envs: seq<Env>, undoEnvs: seq<UndoEnv>) returns (i: nat)
    requires Valid(w) && FailsAndUndoes(w, plan, opts, envs, undoEnvs)
    ensures i < |plan| && plan[i].op != OpNoop && |Run(w, plan, opts, true, envs, undoEnvs).results| == i + 1
    ensures IsUndone(w, Run(w, plan, opts, true, envs, undoEnvs)) <==>
      forall path ::
        && Recoverable(w, plan, EffectiveMax(opts), i, path)
        && (Room(w, plan, EffectiveMax(opts), i, path, Arrives(envs[i])) || Spared(w, plan, EffectiveMax(opts), envs, i, path))
  {
    i := RollbackSucceedsWhen(w, plan, opts, envs, undoEnvs);
    var r := Run(w, plan, opts, true, envs, undoEnvs);
    if r.undoErrors == [] {
      forall path
        ensures ContentOf(r.world, path) == ContentOf(w, path) <==> Recoverable(w, plan, EffectiveMax(opts), i, path)
      {
        FailedApplyRestores(w, plan, opts, envs, undoEnvs, path);
      }
    }
  }

  // ---- What a caller can check before the call ---------------------------

  /** Wherever the plan may fail, path is recoverable and its backups have room even if the failing write prunes. */
  predicate Undoable(w: World, plan: seq<TargetOp>, max: int, path: string) {
    forall i | 0 <= i < |plan| && plan[i].op != OpNoop ::
      Recoverable(w, plan, max, i, path) && Room(w, plan, max, i, path, true)
  }

  const CLEAN := Env({}, {}, {}, false, Empty)

  /** Everything goes well up to op i, which fails as late as it can. */
  function FailAt(n: nat, i: nat, late: bool): seq<Env> {
    seq(n, k => if k != i then CLEAN else CLEAN.(broken := {if late then RenameScratch else MakeDir}))
  }

  lemma CleanWrite(p: Place, clock: int, data: Bytes, maxBackups: int)
    ensures !WritePlace(p, clock, data, maxBackups, CLEAN).failed
  {
  }

  lemma {:induction false} CleanRun(w: World, plan: seq<TargetOp>, max: int, envs: seq<Env>, k: nat)
    requires k <= |plan| == |envs| && forall j | 0 <= j < k :: envs[j] == CLEAN
    ensures !Written(w, plan, max, envs, k).failed
  {
    if k > 0 {
      CleanRun(w, plan, max, envs, k - 1);
      var p, t := Written(w, plan, max, envs, k - 1), plan[k - 1];
      CleanWrite(At(p.world.places, t.path), p.world.clock, t.after, MaxFor(t, max));
    }
  }

  lemma {:induction false} FailureStays(w: World, plan: seq<TargetOp>, max: int, envs: seq<Env>, i: nat, k: nat)
    requires i <= k <= |plan| == |envs| && Written(w, plan, max, envs, i).failed
    ensures Written(w, plan, max, envs, k) == Written(w, plan, max, envs, i)
  {
    if i < k { FailureStays(w, plan, max, envs, i, k - 1); }
  }

  lemma BrokenWrite(p: Place, clock: int, data: Bytes, maxBackups: int, late: bool)
    requires late ==> p.target != Some(data)
    ensures WritePlace(p, clock, data, maxBackups, FailAt(1, 0, late)[0]).failed
  {
  }

  /** Any op that writes may be the one that fails, after pruning if it has something to save. */
  lemma FailsThere(w: World, plan: seq<TargetOp>, opts: Options, i: nat, late: bool) returns (envs: seq<Env>, undoEnvs: seq<UndoEnv>)
    requires i < |plan| && plan[i].op != OpNoop && !opts.dryRun && !opts.noRollback
    requires late ==> LastContent(plan[..i], plan[i].path, ContentOf(w, plan[i].path)) != Some(plan[i].after)
    ensures FailsAndUndoes(w, plan, opts, envs, undoEnvs)
    ensures |Run(w, plan, opts, true, envs, undoEnvs).results| == i + 1
    ensures Arrives(envs[i]) == late && envs[i].stuckBackups == {}
  {
    var max := EffectiveMax(opts);
    envs := FailAt(|plan|, i, late);
    undoEnvs := seq(|plan|, k => UndoEnv(false, false, false, Empty));
    CleanRun(w, plan, max, envs, i);
    ProgressLength(w, plan, max, envs, i);
    WrittenContent(w, plan, max, envs, i, plan[i].path);
    var p, t := Written(w, plan, max, envs, i), plan[i];
    BrokenWrite(At(p.world.places, t.path), p.world.clock, t.after, MaxFor(t, max), late);
    FailureStays(w, plan, max, envs, i + 1, |plan|);
  }

  /** Every failing run whose rollback meets no fault is undone. */
  ghost predicate AlwaysUndone(w: World, plan: seq<TargetOp>, opts: Options) {
    forall envs: seq<Env>, undoEnvs: seq<UndoEnv> | FailsAndUndoes(w, plan, opts, envs, undoEnvs) ::
      IsUndone(w, Run(w, plan, opts, true, envs, undoEnvs))
  }

  /** A plan that is not undoable has a run that fails and is not undone. */
  lemma NotUndoable(w: World, plan: seq<TargetOp>, opts: Options, i: nat, path: string) returns (envs: seq<Env>, undoEnvs: seq<UndoEnv>)
    requires Valid(w) && !opts.dryRun && !opts.noRollback && i < |plan| && plan[i].op != OpNoop
    requires !Recoverable(w, plan, EffectiveMax(opts), i, path) || !Room(w, plan, EffectiveMax(opts), i, path, true)
    ensures FailsAndUndoes(w, plan, opts, envs, undoEnvs)
    ensures |Run(w, plan, opts, true, envs, undoEnvs).results| == i + 1
    ensures !IsUndone(w, Run(w, plan, opts, true, envs, undoEnvs))
  {
    var max := EffectiveMax(opts);
    var late := Saves(plan[..i], plan[i], plan[i].path, ContentOf(w, plan[i].path), max);
    envs, undoEnvs := FailsThere(w, plan, opts, i, late);
    var at := UndoneWhen(w, plan, opts, envs, undoEnvs);
    assert Room(w, plan, max, i, path, late) == Room(w, plan, max, i, path, true);
    assert !Spared(w, plan, max, envs, i, path);
  }

  /**
   * Wherever and however it fails, a plan is undone by a rollback that meets no
   * fault of its own if and only if every path is undoable, a condition on the plan,
   * the files before the call and MaxBackups.
   */
  lemma FailedApplyIsUndone(w: World, plan: seq<TargetOp>, opts: Options)
    requires Valid(w) && !opts.dryRun && !opts.noRollback
    ensures AlwaysUndone(w, plan, opts) <==> forall path :: Undoable(w, plan, EffectiveMax(opts), path)
  {
    var max := EffectiveMax(opts);
    if path :| !Undoable(w, plan, max, path) {
      var i :| 0 <= i < |plan| && plan[i].op != OpNoop
        && !(Recoverable(w, plan, max, i, path) && Room(w, plan, max, i, path, true));
      var envs, undoEnvs := NotUndoable(w, plan, opts, i, path);
    } else {
      forall envs: seq<Env>, undoEnvs: seq<UndoEnv> | FailsAndUndoes(w, plan, opts, envs, undoEnvs)
        ensures IsUndone(w, Run(w, plan, opts, true, envs, undoEnvs))
      {
        var i := UndoneWhen(w, plan, opts, envs, undoEnvs);
        forall path
          ensures Recoverable(w, plan, max, i, path) && Room(w, plan, max, i, path, Arrives(envs[i]))
        {
          assert Undoable(w, plan, max, path);
        }
      }
    }
  }

  // ---- Plans that cannot be undone ---------------------------------------

  /**
   * A first write whose backup is suppressed, or that rewrites the bytes already
   * there, makes the rollback of a later failure delete the file.
   */
  lemma FirstWriteIsLost(w: World, first: TargetOp, second: TargetOp, opts: Options) returns (envs: seq<Env>, undoEnvs: seq<UndoEnv>)
    requires Valid(w) && !opts.dryRun && !opts.noRollback
    requires first.op != OpNoop && second.op != OpNoop && first.path != second.path
    requires ContentOf(w, first.path).Some? && (first.suppress || ContentOf(w, first.path) == Some(first.after))
    ensures FailsAndUndoes(w, [first, second], opts, envs, undoEnvs)
    ensures var r := Run(w, [first, second], opts, true, envs, undoEnvs);
      r.undoErrors == [] && ContentOf(r.world, first.path) == None
  {
    var plan, max := [first, second], EffectiveMax(opts);
    envs, undoEnvs := FailsThere(w, plan, opts, 1, false);
    assert plan[..1] == [first] && plan[..1][..0] == [];
    assert FirstOp(plan, 1, first.path) == Some(0);
    var at := RollbackSucceedsWhen(w, plan, opts, envs, undoEnvs);
    forall path
      ensures Room(w, plan, max, 1, path, false)
    {
      assert BackupCount(plan[..1], path, ContentOf(w, path), max) <= 1;
    }
    FailedApplyRestores(w, plan, opts, envs, undoEnvs, first.path);
  }

  /** Writes path n times, alternating between two contents. */
  function Alternating(path: string, a: Bytes, b: Bytes, n: nat): seq<TargetOp> {
    seq(n, k => TargetOp(path, OpWrite, if k % 2 == 0 then a else b, if k % 2 == 0 then b else a, false))
  }

  lemma {:induction false} AlternatingSaves(path: string, a: Bytes, b: Bytes, n: nat, max: int)
    requires a != b && max > 0
    ensures LastContent(Alternating(path, a, b, n), path, Some(a)) == Some(if n % 2 == 0 then a else b)
    ensures BackupCount(Alternating(path, a, b, n), path, Some(a), max) == n
  {
    if n > 0 {
      AlternatingSaves(path, a, b, n - 1, max);
      assert Alternating(path, a, b, n)[..n - 1] == Alternating(path, a, b, n - 1);
    }
  }

  /** One more backed-up write than backups are kept: when it fails, rollback no longer finds the first backup. */
  lemma OneWriteTooMany(w: World, path: string, b: Bytes, opts: Options) returns (envs: seq<Env>, undoEnvs: seq<UndoEnv>)
    requires Valid(w) && !opts.dryRun && !opts.noRollback && EffectiveMax(opts) > 0
    requires ContentOf(w, path).Some? && ContentOf(w, path).value != b
    ensures var plan := Alternating(path, ContentOf(w, path).value, b, EffectiveMax(opts) + 1);
      && FailsAndUndoes(w, plan, opts, envs, undoEnvs)
      && Run(w, plan, opts, true, envs, undoEnvs).undoErrors != []
  {
    var a, max := ContentOf(w, path).value, EffectiveMax(opts);
    var plan := Alternating(path, a, b, max + 1);
    assert plan[..max] == Alternating(path, a, b, max);
    AlternatingSaves(path, a, b, max, max);
    envs, undoEnvs := FailsThere(w, plan, opts, max, true);
    var i := RollbackSucceedsWhen(w, plan, opts, envs, undoEnvs);
    assert !Room(w, plan, max, max, path, true);
    assert !Spared(w, plan, max, envs, max, path);
  }
}
