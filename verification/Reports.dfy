/** What a run of internal/render/apply.go tells its caller, and what it leaves alone. */
module Reports {
  import opened Common
  import opened AtomicFile
  import opened Apply
  import opened Undo

  /** A dry run, or one that did not get the lock, writes nothing: the one lists every target, the other fails. */
  lemma NothingWritten(w: World, plan: seq<TargetOp>, opts: Options, locked: bool, envs: seq<Env>, undoEnvs: seq<UndoEnv>)
    requires |plan| == |envs| == |undoEnvs| && (opts.dryRun || !locked)
    ensures var r := Run(w, plan, opts, locked, envs, undoEnvs);
      && r.world == w && r.undoErrors == []
      && (if opts.dryRun then
            !r.failed && |r.results| == |plan|
            && forall i | 0 <= i < |plan| :: r.results[i] == TargetResult(plan[i].path, false, None)
          else r.failed && r.results == [])
  {
  }

  /** Without a bound of its own a run keeps three backups. */
  lemma ThreeBackupsByDefault(w: World, plan: seq<TargetOp>, opts: Options, locked: bool, envs: seq<Env>, undoEnvs: seq<UndoEnv>)
    requires |plan| == |envs| == |undoEnvs|
    ensures Run(w, plan, opts.(maxBackups := 0), locked, envs, undoEnvs)
      == Run(w, plan, opts.(maxBackups := 3), locked, envs, undoEnvs)
  {
  }

  /** The results name the targets in order; each but a failing last one says whether its target was written. */
  lemma ResultsTell(w: World, plan: seq<TargetOp>, opts: Options, envs: seq<Env>, undoEnvs: seq<UndoEnv>)
    requires |plan| == |envs| == |undoEnvs| && !opts.dryRun
    ensures var r := Run(w, plan, opts, true, envs, undoEnvs);
      var done := if r.failed then |r.results| - 1 else |r.results|;
      && (!r.failed ==> |r.results| == |plan|) && (r.failed ==> 1 <= |r.results| <= |plan|)
      && (forall j | 0 <= j < |r.results| :: r.results[j].path == plan[j].path)
      && (forall j | 0 <= j < done :: r.results[j].wrote <==> plan[j].op != OpNoop)
      && (r.failed ==> plan[done].op != OpNoop && !r.results[done].wrote)
  {
    WrittenMatches(w, plan, EffectiveMax(opts), envs, |plan|);
    ProgressLength(w, plan, EffectiveMax(opts), envs, |plan|);
  }

  /** A result names a backup exactly when its op replaced other bytes, unsuppressed, with backups on. */
  lemma {:induction false} BackupsTell(w: World, plan: seq<TargetOp>, max: int, envs: seq<Env>, k: nat, j: nat)
    requires Valid(w) && j < k <= |plan| == |envs| && !Written(w, plan, max, envs, k).failed
    ensures j < |Written(w, plan, max, envs, k).results|
    ensures Written(w, plan, max, envs, k).results[j].backup.Some? <==>
      var before := LastContent(plan[..j], plan[j].path, ContentOf(w, plan[j].path));
      plan[j].op != OpNoop && before.Some? && before.value != plan[j].after && !plan[j].suppress && max > 0
  {
    var p := Written(w, plan, max, envs, k - 1);
    ProgressLength(w, plan, max, envs, k - 1);
    if j < k - 1 {
      BackupsTell(w, plan, max, envs, k - 1, j);
    } else {
      WrittenContent(w, plan, max, envs, j, plan[j].path);
      WrittenTallied(w, plan, max, envs, j, plan[j].path);
      if plan[j].op != OpNoop {
        WriteBackups(At(p.world.places, plan[j].path), p.world.clock, plan[j].after, MaxFor(plan[j], max), envs[j]);
      }
    }
  }

  /** What stays of a run that is not rolled back: every write before the failing one, or all of them. */
  lemma WritesStay(w: World, plan: seq<TargetOp>, opts: Options, envs: seq<Env>, undoEnvs: seq<UndoEnv>, path: string)
    requires |plan| == |envs| == |undoEnvs| && !opts.dryRun
    requires Run(w, plan, opts, true, envs, undoEnvs).failed ==> opts.noRollback
    ensures var r := Run(w, plan, opts, true, envs, undoEnvs);
      var done := if r.failed then |r.results| - 1 else |plan|;
      0 <= done <= |plan| && r.undoErrors == []
      && ContentOf(r.world, path) == LastContent(plan[..done], path, ContentOf(w, path))
  {
    var max := EffectiveMax(opts);
    ProgressLength(w, plan, max, envs, |plan|);
    if Written(w, plan, max, envs, |plan|).failed {
      var i := FailingPoint(w, plan, max, envs, |plan|);
      var pre, t := Written(w, plan, max, envs, i), plan[i];
      WrittenContent(w, plan, max, envs, i, path);
      var out := Write(pre.world, t.path, t.after, MaxFor(t, max), envs[i]);
      WriteTarget(At(pre.world.places, t.path), pre.world.clock, t.after, MaxFor(t, max), envs[i]);
      PutElsewhere(pre.world, t.path, out, path);
    } else {
      WrittenContent(w, plan, max, envs, |plan|, path);
    }
  }

  /** A run leaves no scratch file behind unless one could not be unlinked, and writes to no path outside its plan. */
  lemma {:induction false} NoLitter(w: World, plan: seq<TargetOp>, max: int, envs: seq<Env>, k: nat, path: string)
    requires k <= |plan| == |envs|
    ensures var end := Written(w, plan, max, envs, k).world;
      && ((forall j | 0 <= j < k :: !envs[j].stuckScratch) ==> end.scratch == w.scratch)
      && ((forall j | 0 <= j < k && plan[j].op != OpNoop :: plan[j].path != path) ==> At(end.places, path) == At(w.places, path))
  {
    if k > 0 {
      NoLitter(w, plan, max, envs, k - 1, path);
      var p, t := Written(w, plan, max, envs, k - 1), plan[k - 1];
      if !p.failed && t.op != OpNoop {
        var out := Write(p.world, t.path, t.after, MaxFor(t, max), envs[k - 1]);
        ScratchIsGone(At(p.world.places, t.path), p.world.clock, t.after, MaxFor(t, max), envs[k - 1]);
        PutElsewhere(p.world, t.path, out, path);
      }
    }
  }
}
