/** internal/render/apply.go: sequential writes, and rollback when one fails. */
module Apply {
  import opened Common
  import opened Ordering
  import opened Documents
  import opened AtomicFile

  datatype Op = OpMerge | OpWrite | OpNoop

  datatype TargetOp = TargetOp(path: string, op: Op, before: Bytes, after: Bytes, suppress: bool)

  datatype TargetResult = TargetResult(path: string, wrote: bool, backup: Option<int>)

  datatype Options = Options(dryRun: bool, maxBackups: int, noRollback: bool)

  /** What goes wrong while one result is undone. */
  datatype UndoEnv = UndoEnv(readFails: bool, writeFails: bool, removeFails: bool, torn: Bytes)

  predicate Faultless(env: UndoEnv) {
    !env.readFails && !env.writeFails && !env.removeFails
  }

  // ---- Specification -----------------------------------------------------

  function EffectiveMax(opts: Options): int {
    if opts.maxBackups == 0 then 3 else opts.maxBackups
  }

  function MaxFor(t: TargetOp, max: int): int {
    if t.suppress then 0 else max
  }

  datatype Progress = Progress(world: World, results: seq<TargetResult>, failed: bool)

  ghost function WriteOne(p: Progress, t: TargetOp, max: int, env: Env): Progress {
    if t.op == OpNoop then p.(results := p.results + [TargetResult(t.path, false, None)])
    else
      var out := Write(p.world, t.path, t.after, MaxFor(t, max), env);
      Progress(Put(p.world, t.path, out), p.results + [TargetResult(t.path, !out.failed, out.backup)], out.failed)
  }

  /** After the first k targets, or after the first failure among them. */
  ghost function Written(w: World, plan: seq<TargetOp>, max: int, envs: seq<Env>, k: nat): Progress
    requires k <= |plan| == |envs|
  {
    if k == 0 then Progress(w, [], false) else
      var p := Written(w, plan, max, envs, k - 1);
      if p.failed then p else WriteOne(p, plan[k - 1], max, envs[k - 1])
  }

  function Retarget(w: World, path: string, content: Option<Bytes>): World {
    w.(places := w.places[path := At(w.places, path).(target := content)])
  }

  datatype Undoing = Undoing(world: World, ok: bool)

  function UndoOne(w: World, r: TargetResult, env: UndoEnv): Undoing {
    var place := At(w.places, r.path);
    if !r.wrote then Undoing(w, true)
    else if r.backup.Some? then
      if r.backup.value !in place.backups || env.readFails then Undoing(w, false)
      else if env.writeFails then Undoing(Retarget(w, r.path, Some(env.torn)), false)
      else Undoing(Retarget(w, r.path, Some(place.backups[r.backup.value])), true)
    else if place.target.None? then Undoing(w, true)
    else if env.removeFails then Undoing(w, false)
    else Undoing(Retarget(w, r.path, None), true)
  }

  datatype Undone = Undone(world: World, errors: seq<nat>)

  /** Undoes the results from the last to the first; errors lists the ones that could not be undone. */
  function Rollback(w: World, results: seq<TargetResult>, envs: seq<UndoEnv>): Undone
    requires |results| <= |envs|
    decreases |results|
  {
    if results == [] then Undone(w, []) else
      var last := |results| - 1;
      var u := UndoOne(w, results[last], envs[last]);
      var rest := Rollback(u.world, results[..last], envs);
      Undone(rest.world, (if u.ok then [] else [last]) + rest.errors)
  }

  datatype Report = Report(world: World, results: seq<TargetResult>, failed: bool, undoErrors: seq<nat>)

  /** A run of Apply; locked says whether the lock was acquired in time. */
  ghost function Run(w: World, plan: seq<TargetOp>, opts: Options, locked: bool, envs: seq<Env>, undoEnvs: seq<UndoEnv>): Report
    requires |plan| == |envs| == |undoEnvs|
  {
    if opts.dryRun then
      Report(w, seq(|plan|, i requires 0 <= i < |plan| => TargetResult(plan[i].path, false, None)), false, [])
    else if !locked then Report(w, [], true, [])
    else
      var p := Written(w, plan, EffectiveMax(opts), envs, |plan|);
      ProgressLength(w, plan, EffectiveMax(opts), envs, |plan|);
      if !p.failed || opts.noRollback then Report(p.world, p.results, p.failed, [])
      else
        var u := Rollback(p.world, p.results[..|p.results| - 1], undoEnvs);
        Report(u.world, p.results, true, u.errors)
  }

  lemma {:induction false} ProgressLength(w: World, plan: seq<TargetOp>, max: int, envs: seq<Env>, k: nat)
    requires k <= |plan| == |envs|
    ensures var p := Written(w, plan, max, envs, k);
      && |p.results| <= k && (!p.failed ==> |p.results| == k) && (p.failed ==> 0 < |p.results|)
  {
    if k > 0 { ProgressLength(w, plan, max, envs, k - 1); }
  }

  // ---- The first write to a path -----------------------------------------

  /** The first result that wrote to path. */
  function First(results: seq<TargetResult>, path: string): Option<nat> {
    if results == [] then None else
      var last := |results| - 1;
      var prev := First(results[..last], path);
      if prev.Some? then prev
      else if results[last].wrote && results[last].path == path then Some(last)
      else None
  }

  lemma {:induction false} FirstIs(results: seq<TargetResult>, path: string)
    ensures First(results, path).Some? ==>
      var j := First(results, path).value;
      j < |results| && results[j].wrote && results[j].path == path
  {
    if results != [] { FirstIs(results[..|results| - 1], path); }
  }

  /** What undoing leaves at path: the backup of the first write, or nothing if that write had none. */
  ghost predicate RestoredTo(w: World, results: seq<TargetResult>, path: string, content: Option<Bytes>) {
    match First(results, path)
    case None => content == ContentOf(w, path)
    case Some(j) =>
      FirstIs(results, path);
      if results[j].backup.Some? then
        results[j].backup.value in At(w.places, path).backups
        && content == Some(At(w.places, path).backups[results[j].backup.value])
      else content == None
  }

  lemma UndoOneShape(w: World, r: TargetResult, env: UndoEnv)
    ensures forall q :: At(UndoOne(w, r, env).world.places, q).backups == At(w.places, q).backups
    ensures forall q | q != r.path || !r.wrote :: ContentOf(UndoOne(w, r, env).world, q) == ContentOf(w, q)
    ensures UndoOne(w, r, env).ok && r.wrote ==>
      if r.backup.Some? then
        r.backup.value in At(w.places, r.path).backups
        && ContentOf(UndoOne(w, r, env).world, r.path) == Some(At(w.places, r.path).backups[r.backup.value])
      else ContentOf(UndoOne(w, r, env).world, r.path) == None
  {
  }

  /** None of the results that could not be undone is about path. */
  predicate UndoneAt(results: seq<TargetResult>, errors: seq<nat>, path: string) {
    forall j | j in errors :: j < |results| ==> results[j].path != path
  }

  /**
   * Where no undo of a path fails, only the first write to it decides what is left
   * there: an undo that fails does not stop the others.
   */
  lemma {:induction false} RollbackView(w: World, results: seq<TargetResult>, envs: seq<UndoEnv>, path: string)
    requires |results| <= |envs|
    requires UndoneAt(results, Rollback(w, results, envs).errors, path)
    ensures RestoredTo(w, results, path, ContentOf(Rollback(w, results, envs).world, path))
    decreases |results|
  {
    if results != [] {
      var last := |results| - 1;
      var u := UndoOne(w, results[last], envs[last]);
      var rest := Rollback(u.world, results[..last], envs).errors;
      UndoOneShape(w, results[last], envs[last]);
      assert forall j | j in rest :: j in Rollback(w, results, envs).errors;
      if !u.ok { assert last in Rollback(w, results, envs).errors; }
      RollbackView(u.world, results[..last], envs, path);
      FirstIs(results[..last], path);
    }
  }

  /** Why undoing a result fails: its backup is gone or unreadable, the file cannot be written, or not be removed. */
  predicate MayFail(w: World, r: TargetResult, env: UndoEnv) {
    r.wrote && if r.backup.Some? then r.backup.value !in At(w.places, r.path).backups || env.readFails || env.writeFails
               else env.removeFails
  }

  lemma UndoFails(w: World, r: TargetResult, env: UndoEnv)
    ensures !UndoOne(w, r, env).ok ==> MayFail(w, r, env)
    ensures MayFail(w, r, env) && r.backup.Some? ==> !UndoOne(w, r, env).ok
  {
  }

  /** Each error has a reason, and nothing that goes wrong with a backup is missed. */
  predicate ErrorsFit(w: World, results: seq<TargetResult>, envs: seq<UndoEnv>, errors: set<nat>)
    requires |results| <= |envs|
  {
    && (forall j | j in errors :: j < |results| && MayFail(w, results[j], envs[j]))
    && (forall j | 0 <= j < |results| && MayFail(w, results[j], envs[j]) && results[j].backup.Some? :: j in errors)
  }

  lemma ErrorsStep(w: World, results: seq<TargetResult>, envs: seq<UndoEnv>, rest: set<nat>, ok: bool)
    requires 0 < |results| <= |envs|
    requires var last := |results| - 1;
      && ErrorsFit(w, results[..last], envs, rest)
      && (!ok ==> MayFail(w, results[last], envs[last]))
      && (MayFail(w, results[last], envs[last]) && results[last].backup.Some? ==> !ok)
    ensures ErrorsFit(w, results, envs, if ok then rest else rest + {|results| - 1})
  {
    assert forall j | 0 <= j < |results| - 1 :: results[..|results| - 1][j] == results[j];
  }

  lemma SameReasons(w: World, u: World, results: seq<TargetResult>, envs: seq<UndoEnv>, errors: set<nat>)
    requires |results| <= |envs| && ErrorsFit(u, results, envs, errors)
    requires forall q :: At(u.places, q).backups == At(w.places, q).backups
    ensures ErrorsFit(w, results, envs, errors)
  {
    assert forall j | 0 <= j < |results| :: MayFail(u, results[j], envs[j]) == MayFail(w, results[j], envs[j]);
  }

  /** Positions below n, falling. */
  predicate Falling(errors: seq<nat>, n: nat) {
    && (forall k | 0 <= k < |errors| :: errors[k] < n)
    && (forall i, j | 0 <= i < j < |errors| :: errors[i] > errors[j])
  }

  lemma FallingStep(rest: seq<nat>, n: nat)
    requires Falling(rest, n)
    ensures Falling(rest, n + 1) && Falling([n] + rest, n + 1)
  {
    var errors := [n] + rest;
    forall i, j | 0 <= i < j < |errors|
      ensures errors[i] > errors[j]
    {
      assert errors[j] == rest[j - 1];
    }
  }

  /** Rollback reports its errors from the last result to the first. */
  lemma {:induction false} ErrorsDescend(w: World, results: seq<TargetResult>, envs: seq<UndoEnv>)
    requires |results| <= |envs|
    ensures Falling(Rollback(w, results, envs).errors, |results|)
    decreases |results|
  {
    if results != [] {
      var last := |results| - 1;
      var u := UndoOne(w, results[last], envs[last]);
      var rest := Rollback(u.world, results[..last], envs).errors;
      ErrorsDescend(u.world, results[..last], envs);
      FallingStep(rest, last);
      assert [] + rest == rest;
    }
  }

  /** And what they are. */
  lemma {:induction false} RollbackTells(w: World, results: seq<TargetResult>, envs: seq<UndoEnv>)
    requires |results| <= |envs|
    ensures ErrorsFit(w, results, envs, Elements(Rollback(w, results, envs).errors))
    decreases |results|
  {
    if results != [] {
      var last := |results| - 1;
      var u := UndoOne(w, results[last], envs[last]);
      var rest := Rollback(u.world, results[..last], envs).errors;
      UndoOneShape(w, results[last], envs[last]);
      UndoFails(w, results[last], envs[last]);
      RollbackTells(u.world, results[..last], envs);
      SameReasons(w, u.world, results[..last], envs, Elements(rest));
      ErrorsStep(w, results, envs, Elements(rest), u.ok);
      assert Elements([] + rest) == Elements(rest) && Elements([last] + rest) == Elements(rest) + {last};
    }
  }

  // ---- What a run of writes leaves for rollback --------------------------

  /** The first op among the first k that will write to path. */
  function FirstOp(plan: seq<TargetOp>, k: nat, path: string): Option<nat>
    requires k <= |plan|
  {
    if k == 0 then None else
      var prev := FirstOp(plan, k - 1, path);
      if prev.Some? then prev
      else if plan[k - 1].op != OpNoop && plan[k - 1].path == path then Some(k - 1)
      else None
  }

  /** The results of a run so far answer to the ops. */
  ghost predicate Matches(plan: seq<TargetOp>, p: Progress)
  {
    var done := if p.failed then |p.results| - 1 else |p.results|;
    && |p.results| <= |plan| && 0 <= done
    && (forall j | 0 <= j < |p.results| :: p.results[j].path == plan[j].path)
    && (forall j | 0 <= j < done :: p.results[j].wrote == (plan[j].op != OpNoop))
    && (p.failed ==> !p.results[done].wrote && plan[done].op != OpNoop)
  }

  lemma MatchesStep(plan: seq<TargetOp>, p: Progress, max: int, env: Env)
    requires Matches(plan, p) && !p.failed && |p.results| < |plan|
    ensures Matches(plan, WriteOne(p, plan[|p.results|], max, env))
  {
  }

  lemma {:induction false} WrittenMatches(w: World, plan: seq<TargetOp>, max: int, envs: seq<Env>, k: nat)
    requires k <= |plan| == |envs|
    ensures Matches(plan, Written(w, plan, max, envs, k))
  {
    if k > 0 {
      var p := Written(w, plan, max, envs, k - 1);
      WrittenMatches(w, plan, max, envs, k - 1);
      ProgressLength(w, plan, max, envs, k - 1);
      if !p.failed { MatchesStep(plan, p, max, envs[k - 1]); }
    }
  }

  /** Whether a write of t over content will leave a backup. */
  predicate BacksUp(t: TargetOp, content: Option<Bytes>, max: int) {
    content.Some? && content.value != t.after && MaxFor(t, max) > 0
  }

  /**
   * A path not yet written holds what it held; for a path written to, the first
   * write's backup, if it survives, holds what the path held at the start.
   */
  ghost predicate Recorded(w: World, plan: seq<TargetOp>, max: int, p: Progress, path: string)
    requires |p.results| <= |plan|
  {
    match First(p.results, path)
    case None => ContentOf(p.world, path) == ContentOf(w, path)
    case Some(j) =>
      FirstIs(p.results, path);
      && (p.results[j].backup.Some? <==> BacksUp(plan[j], ContentOf(w, path), max))
      && (p.results[j].backup.Some? ==>
            var e := p.results[j].backup.value;
            && e < p.world.clock
            && (e in At(p.world.places, path).backups ==>
                  At(p.world.places, path).backups[e] == ContentOf(w, path).value))
  }

  lemma PutElsewhere(w: World, path: string, out: Outcome, q: string)
    ensures At(Put(w, path, out).places, q) == if q == path then out.place else At(w.places, q)
  {
  }

  /** A write keeps the clock ahead of every epoch. */
  lemma WriteOneValid(p: Progress, t: TargetOp, max: int, env: Env)
    requires Valid(p.world)
    ensures Valid(WriteOne(p, t, max, env).world) && p.world.clock <= WriteOne(p, t, max, env).world.clock
  {
    if t.op != OpNoop {
      WriteBackups(At(p.world.places, t.path), p.world.clock, t.after, MaxFor(t, max), env);
      var out := Write(p.world, t.path, t.after, MaxFor(t, max), env);
      forall q
        ensures Past(At(Put(p.world, t.path, out).places, q), out.clock)
      {
        PutElsewhere(p.world, t.path, out, q);
      }
    }
  }

  lemma FirstAppend(results: seq<TargetResult>, r: TargetResult, path: string)
    ensures First(results + [r], path) ==
      if First(results, path).Some? then First(results, path)
      else if r.wrote && r.path == path then Some(|results|)
      else None
  {
    assert (results + [r])[..|results|] == results;
  }

  lemma RecordedStep(w: World, plan: seq<TargetOp>, max: int, p: Progress, env: Env, path: string)
    requires Valid(p.world) && !p.failed && |p.results| < |plan|
    requires Recorded(w, plan, max, p, path)
    ensures Recorded(w, plan, max, WriteOne(p, plan[|p.results|], max, env), path)
  {
    var t := plan[|p.results|];
    var next := WriteOne(p, t, max, env);
    FirstAppend(p.results, next.results[|p.results|], path);
    FirstIs(p.results, path);
    if t.op != OpNoop {
      var place := At(p.world.places, t.path);
      var out := Write(p.world, t.path, t.after, MaxFor(t, max), env);
      WriteBackups(place, p.world.clock, t.after, MaxFor(t, max), env);
      WriteTarget(place, p.world.clock, t.after, MaxFor(t, max), env);
      PutElsewhere(p.world, t.path, out, path);
    }
  }

  lemma {:induction false} WrittenRecords(w: World, plan: seq<TargetOp>, max: int, envs: seq<Env>, k: nat, path: string)
    requires Valid(w) && k <= |plan| == |envs|
    ensures var p := Written(w, plan, max, envs, k);
      && Valid(p.world) && w.clock <= p.world.clock
      && |p.results| <= |plan| && Recorded(w, plan, max, p, path)
  {
    ProgressLength(w, plan, max, envs, k);
    if k > 0 {
      ProgressLength(w, plan, max, envs, k - 1);
      WrittenRecords(w, plan, max, envs, k - 1, path);
      var p := Written(w, plan, max, envs, k - 1);
      if !p.failed {
        WriteOneValid(p, plan[k - 1], max, envs[k - 1]);
        RecordedStep(w, plan, max, p, envs[k - 1], path);
      }
    }
  }

  lemma {:induction false} FirstIsFirstOp(plan: seq<TargetOp>, results: seq<TargetResult>, path: string)
    requires |results| <= |plan|
    requires forall j | 0 <= j < |results| ::
      results[j].path == plan[j].path && results[j].wrote == (plan[j].op != OpNoop)
    ensures First(results, path) == FirstOp(plan, |results|, path)
  {
    if results != [] { FirstIsFirstOp(plan, results[..|results| - 1], path); }
  }

  // ---- A failed apply restores the world, and when exactly ---------------

  /** Nothing was written to path, or it was absent, or the first write to it left a backup. */
  predicate Recoverable(w: World, plan: seq<TargetOp>, max: int, i: nat, path: string)
    requires i <= |plan|
  {
    var j := FirstOp(plan, i, path);
    j.None? || ContentOf(w, path).None? || (FirstOpBound(plan, i, path); BacksUp(plan[j.value], ContentOf(w, path), max))
  }

  lemma {:induction false} FirstOpBound(plan: seq<TargetOp>, k: nat, path: string)
    requires k <= |plan|
    ensures FirstOp(plan, k, path).Some? ==> FirstOp(plan, k, path).value < k
  {
    if k > 0 { FirstOpBound(plan, k - 1, path); }
  }

  /** What rollback restores of a run that failed at target i, from what its results record. */
  lemma RestoredIsOriginal(w: World, plan: seq<TargetOp>, max: int, p: Progress, i: nat, path: string, content: Option<Bytes>)
    requires i < |plan| && |p.results| == i + 1 && !p.results[i].wrote
    requires forall j | 0 <= j < i :: p.results[j].path == plan[j].path && p.results[j].wrote == (plan[j].op != OpNoop)
    requires Recorded(w, plan, max, p, path) && RestoredTo(p.world, p.results[..i], path, content)
    ensures content == ContentOf(w, path) <==> Recoverable(w, plan, max, i, path)
    ensures !Recoverable(w, plan, max, i, path) ==> content == None
  {
    var undone := p.results[..i];
    FirstIsFirstOp(plan, undone, path);
    assert p.results == undone + [p.results[i]];
    FirstAppend(undone, p.results[i], path);
    FirstIs(undone, path);
    FirstOpBound(plan, i, path);
  }

  /**
   * When Apply fails at target i and rollback reports no error, a path has its
   * original content (or is absent as before) exactly when the first write to it
   * found it absent or backed it up. A first write that is suppressed, unchanged
   * or made with backups off makes rollback delete the file instead.
   */
  lemma FailedApplyRestores(w: World, plan: seq<TargetOp>, opts: Options, envs: seq<Env>, undoEnvs: seq<UndoEnv>, path: string)
    requires Valid(w) && |plan| == |envs| == |undoEnvs|
    requires !opts.dryRun && !opts.noRollback
    requires var r := Run(w, plan, opts, true, envs, undoEnvs); r.failed && r.undoErrors == []
    ensures var r := Run(w, plan, opts, true, envs, undoEnvs);
      && 1 <= |r.results| <= |plan|
      && (ContentOf(r.world, path) == ContentOf(w, path) <==>
          Recoverable(w, plan, EffectiveMax(opts), |r.results| - 1, path))
      && (!Recoverable(w, plan, EffectiveMax(opts), |r.results| - 1, path) ==> ContentOf(r.world, path) == None)
  {
    var max := EffectiveMax(opts);
    var p := Written(w, plan, max, envs, |plan|);
    ProgressLength(w, plan, max, envs, |plan|);
    WrittenMatches(w, plan, max, envs, |plan|);
    WrittenRecords(w, plan, max, envs, |plan|, path);
    var i := |p.results| - 1;
    RollbackView(p.world, p.results[..i], undoEnvs, path);
    RestoredIsOriginal(w, plan, max, p, i, path, ContentOf(Rollback(p.world, p.results[..i], undoEnvs).world, path));
  }

  // ---- What a run of writes leaves in the files --------------------------

  /** The content of path after the ops, from a given one. */
  function LastContent(ops: seq<TargetOp>, path: string, initial: Option<Bytes>): Option<Bytes> {
    if ops == [] then initial else
      var op := ops[|ops| - 1];
      if op.path == path && op.op != OpNoop then Some(op.after)
      else LastContent(ops[..|ops| - 1], path, initial)
  }

  lemma {:induction false} WrittenContent(w: World, plan: seq<TargetOp>, max: int, envs: seq<Env>, k: nat, path: string)
    requires k <= |plan| == |envs| && !Written(w, plan, max, envs, k).failed
    ensures ContentOf(Written(w, plan, max, envs, k).world, path) == LastContent(plan[..k], path, ContentOf(w, path))
  {
    if k > 0 {
      WrittenContent(w, plan, max, envs, k - 1, path);
      assert plan[..k][..k - 1] == plan[..k - 1];
      var p, t := Written(w, plan, max, envs, k - 1), plan[k - 1];
      if t.op != OpNoop {
        var out := Write(p.world, t.path, t.after, MaxFor(t, max), envs[k - 1]);
        WriteTarget(At(p.world.places, t.path), p.world.clock, t.after, MaxFor(t, max), envs[k - 1]);
        PutElsewhere(p.world, t.path, out, path);
      }
    }
  }
}
