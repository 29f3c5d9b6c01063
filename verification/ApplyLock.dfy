/** internal/render/lock_unix.go, and any number of Apply runs sharing the lock. */
module ApplyLock {
  import opened Common
  import opened AtomicFile
  import opened Apply

  /** Milliseconds between two attempts. */
  const RETRY_INTERVAL := 50

  /**
   * Tries the lock every RETRY_INTERVAL until an attempt succeeds or one fails
   * after the deadline; free(i) says whether attempt i finds the lock free.
   */
  method AcquireApplyLock(timeout: nat, free: nat -> bool) returns (acquired: bool)
    ensures acquired <==> exists i: nat :: (i - 1) * 50 <= timeout && free(i)
  {
    var i: nat := 0;
    while true
      invariant (i - 1) * RETRY_INTERVAL <= timeout
      invariant forall j: nat | j < i :: !free(j)
      decreases timeout - (i - 1) * RETRY_INTERVAL
    {
      if free(i) { return true; }
      if i * RETRY_INTERVAL > timeout { return false; }
      i := i + 1;
    }
  }

  datatype JobSpec = JobSpec(plan: seq<TargetOp>, opts: Options, envs: seq<Env>, undoEnvs: seq<UndoEnv>)

  /** A run that will ask for the lock: a dry run does not. */
  type Job = j: JobSpec | |j.plan| == |j.envs| == |j.undoEnvs| && !j.opts.dryRun
    witness JobSpec([], Options(false, 3, false), [], [])

  /** Where a run that holds the lock has got to. */
  datatype Local = Writing(results: seq<TargetResult>) | UndoingRest(pending: seq<TargetResult>) | Finished

  datatype Moment = Moment(world: World, local: Local)

  /** One step of the holder: the next write, or the next undo after a failed write. */
  ghost function Advance(job: Job, m: Moment): Moment
  {
    match m.local
    case Finished => m
    case Writing(results) =>
      if |results| >= |job.plan| then m.(local := Finished)
      else
        var k := |results|;
        var p := WriteOne(Progress(m.world, results, false), job.plan[k], EffectiveMax(job.opts), job.envs[k]);
        if !p.failed then Moment(p.world, Writing(p.results))
        else if job.opts.noRollback then Moment(p.world, Finished)
        else Moment(p.world, UndoingRest(results))
    case UndoingRest(pending) =>
      if pending == [] || |pending| > |job.undoEnvs| then m.(local := Finished)
      else
        var last := |pending| - 1;
        Moment(UndoOne(m.world, pending[last], job.undoEnvs[last]).world, UndoingRest(pending[..last]))
  }

  ghost function AdvanceBy(job: Job, w: World, n: nat): Moment
  {
    if n == 0 then Moment(w, Writing([])) else Advance(job, AdvanceBy(job, w, n - 1))
  }

  ghost function RunOf(job: Job, w: World): World
  {
    Run(w, job.plan, job.opts, true, job.envs, job.undoEnvs).world
  }

  /** Every moment of a run is on the way to the result of Apply. */
  ghost predicate OnTheWay(job: Job, w: World, m: Moment)
  {
    match m.local
    case Writing(results) =>
      |results| <= |job.plan|
      && Written(w, job.plan, EffectiveMax(job.opts), job.envs, |results|) == Progress(m.world, results, false)
    case UndoingRest(pending) =>
      |pending| <= |job.undoEnvs| && Rollback(m.world, pending, job.undoEnvs).world == RunOf(job, w)
    case Finished => m.world == RunOf(job, w)
  }

  lemma {:induction false} WrittenFailed(w: World, job: Job, k: nat, n: nat)
    requires k <= n <= |job.plan|
    requires Written(w, job.plan, EffectiveMax(job.opts), job.envs, k).failed
    ensures Written(w, job.plan, EffectiveMax(job.opts), job.envs, n)
      == Written(w, job.plan, EffectiveMax(job.opts), job.envs, k)
  {
    if k < n { WrittenFailed(w, job, k, n - 1); }
  }

  lemma WriteOnTheWay(job: Job, w: World, m: Moment, results: seq<TargetResult>)
    requires OnTheWay(job, w, m) && m.local == Writing(results) && |results| < |job.plan|
    ensures OnTheWay(job, w, Advance(job, m))
  {
    var k, max := |results|, EffectiveMax(job.opts);
    var p := WriteOne(Progress(m.world, results, false), job.plan[k], max, job.envs[k]);
    assert Written(w, job.plan, max, job.envs, k + 1) == p;
    if p.failed {
      WrittenFailed(w, job, k + 1, |job.plan|);
      assert p.results[..|p.results| - 1] == results;
    }
  }

  lemma AdvanceOnTheWay(job: Job, w: World, m: Moment)
    requires OnTheWay(job, w, m)
    ensures OnTheWay(job, w, Advance(job, m))
  {
    match m.local {
      case Finished =>
      case UndoingRest(pending) =>
      case Writing(results) => if |results| < |job.plan| { WriteOnTheWay(job, w, m, results); }
    }
  }

  lemma {:induction false} StaysOnTheWay(job: Job, w: World, n: nat)
    ensures OnTheWay(job, w, AdvanceBy(job, w, n))
  {
    if n > 0 {
      StaysOnTheWay(job, w, n - 1);
      AdvanceOnTheWay(job, w, AdvanceBy(job, w, n - 1));
    }
  }

  // ---- The shared system -------------------------------------------------

  datatype Stage = Waiting | Holding(local: Local) | Released | Crashed | TimedOut

  /** The n-th holder of the lock and how many steps it has taken. */
  datatype Turn = Turn(run: nat, steps: nat)

  datatype System = System(world: World, stages: seq<Stage>, holder: Option<nat>, turns: seq<Turn>)

  ghost predicate Start(s: System, jobs: seq<Job>, w: World) {
    s == System(w, seq(|jobs|, i => Waiting), None, [])
  }

  /** One step of any run: acquire, time out, write or undo while holding, release when finished, or die. */
  ghost predicate Next(jobs: seq<Job>, s: System, t: System, r: nat)
  {
    && |s.stages| == |jobs| && r < |jobs|
    && match s.stages[r]
       case Waiting =>
         || t == s.(stages := s.stages[r := TimedOut])
         || (s.holder.None? && t == s.(stages := s.stages[r := Holding(Writing([]))],
               holder := Some(r), turns := s.turns + [Turn(r, 0)]))
       case Holding(local) =>
         || (var m := Advance(jobs[r], Moment(s.world, local));
             local != Finished && s.turns != [] &&
             t == System(m.world, s.stages[r := Holding(m.local)], s.holder,
               s.turns[|s.turns| - 1 := Turn(r, s.turns[|s.turns| - 1].steps + 1)]))
         || t == s.(stages := s.stages[r := if local == Finished then Released else Crashed], holder := None)
       case _ => false
  }

  ghost predicate Steps(jobs: seq<Job>, s: System, t: System) {
    exists r :: Next(jobs, s, t, r)
  }

  /** An execution: it starts with every run waiting, and every state follows from the one before by a step of some run. */
  ghost predicate Execution(jobs: seq<Job>, w: World, states: seq<System>) {
    var last := |states| - 1;
    && states != []
    && if last == 0 then Start(states[0], jobs, w)
       else Execution(jobs, w, states[..last]) && Steps(jobs, states[last - 1], states[last])
  }

  /** The turns carried out one after the other, each alone. */
  ghost function Serial(jobs: seq<Job>, w: World, turns: seq<Turn>): World
  {
    if turns == [] then w else
      var last := turns[|turns| - 1];
      var before := Serial(jobs, w, turns[..|turns| - 1]);
      if last.run < |jobs| then AdvanceBy(jobs[last.run], before, last.steps).world else before
  }

  /** The n-th turn has run to the end of Apply. */
  ghost predicate Completed(jobs: seq<Job>, w: World, turns: seq<Turn>, n: nat)
    requires n < |turns|
  {
    turns[n].run < |jobs|
    && AdvanceBy(jobs[turns[n].run], Serial(jobs, w, turns[..n]), turns[n].steps).local == Finished
  }

  /** Each turn is by a different run, the lock is held by the last one, and a run that released it had finished. */
  ghost predicate TurnsInv(jobs: seq<Job>, w: World, s: System) {
    && |s.stages| == |jobs|
    && (forall n | 0 <= n < |s.turns| ::
          s.turns[n].run < |jobs| && !s.stages[s.turns[n].run].Waiting? && !s.stages[s.turns[n].run].TimedOut?)
    && (forall n, m | 0 <= n < m < |s.turns| :: s.turns[n].run != s.turns[m].run)
    && (forall n | 0 <= n < |s.turns| :: s.stages[s.turns[n].run].Released? ==> Completed(jobs, w, s.turns, n))
  }

  ghost predicate HolderInv(jobs: seq<Job>, w: World, s: System) {
    var last := |s.turns| - 1;
    && |s.stages| == |jobs|
    && (forall r | 0 <= r < |jobs| :: s.stages[r].Holding? ==> s.holder == Some(r))
    && (s.holder.Some? ==>
          && s.turns != [] && s.turns[last].run == s.holder.value < |jobs|
          && s.stages[s.holder.value].Holding?
          && Moment(s.world, s.stages[s.holder.value].local)
               == AdvanceBy(jobs[s.holder.value], Serial(jobs, w, s.turns[..last]), s.turns[last].steps))
  }

  ghost predicate Inv(jobs: seq<Job>, w: World, s: System) {
    TurnsInv(jobs, w, s) && HolderInv(jobs, w, s) && s.world == Serial(jobs, w, s.turns)
  }

  /** Changing the last turn, or adding one, leaves the earlier ones completed. */
  lemma EarlierCompleted(jobs: seq<Job>, w: World, a: seq<Turn>, b: seq<Turn>, n: nat)
    requires n < |a| && n < |b| && a[n] == b[n] && a[..n] == b[..n]
    ensures Completed(jobs, w, a, n) == Completed(jobs, w, b, n)
  {
  }

  lemma AcquireKeepsTurns(jobs: seq<Job>, w: World, s: System, t: System, r: nat)
    requires Inv(jobs, w, s) && r < |jobs| && s.stages[r].Waiting?
    requires t.stages == s.stages[r := Holding(Writing([]))] && t.turns == s.turns + [Turn(r, 0)]
    ensures TurnsInv(jobs, w, t)
  {
    var last := |s.turns|;
    forall n | 0 <= n < last
      ensures t.turns[n] == s.turns[n] && s.turns[n].run != r
      ensures Completed(jobs, w, t.turns, n) == Completed(jobs, w, s.turns, n)
    {
      assert t.turns[..n] == s.turns[..n];
      EarlierCompleted(jobs, w, s.turns, t.turns, n);
    }
  }

  lemma AcquireKeepsInv(jobs: seq<Job>, w: World, s: System, t: System, r: nat)
    requires Inv(jobs, w, s) && r < |jobs| && s.stages[r].Waiting? && s.holder.None?
    requires t == s.(stages := s.stages[r := Holding(Writing([]))], holder := Some(r), turns := s.turns + [Turn(r, 0)])
    ensures Inv(jobs, w, t)
  {
    assert t.turns[..|s.turns|] == s.turns;
    AcquireKeepsTurns(jobs, w, s, t, r);
  }

  lemma HoldKeepsTurns(jobs: seq<Job>, w: World, s: System, t: System, r: nat, local: Local)
    requires Inv(jobs, w, s) && r < |jobs| && s.stages[r].Holding? && s.turns != []
    requires t.stages == s.stages[r := Holding(local)]
    requires t.turns == s.turns[|s.turns| - 1 := Turn(r, s.turns[|s.turns| - 1].steps + 1)]
    ensures TurnsInv(jobs, w, t)
  {
    hide Serial, Completed;
    var last := |s.turns| - 1;
    forall n | 0 <= n < last
      ensures t.turns[n] == s.turns[n] && Completed(jobs, w, t.turns, n) == Completed(jobs, w, s.turns, n)
    {
      assert t.turns[..n] == s.turns[..n];
      EarlierCompleted(jobs, w, s.turns, t.turns, n);
    }
  }

  lemma HoldKeepsInv(jobs: seq<Job>, w: World, s: System, t: System, r: nat)
    requires Inv(jobs, w, s) && r < |jobs| && s.stages[r].Holding? && s.turns != []
    requires var m := Advance(jobs[r], Moment(s.world, s.stages[r].local));
      t == System(m.world, s.stages[r := Holding(m.local)], s.holder,
        s.turns[|s.turns| - 1 := Turn(r, s.turns[|s.turns| - 1].steps + 1)])
    ensures Inv(jobs, w, t)
  {
    hide Advance, TurnsInv;
    var last := |s.turns| - 1;
    assert t.turns[..last] == s.turns[..last];
    HoldKeepsTurns(jobs, w, s, t, r, t.stages[r].local);
  }

  lemma LeaveKeepsInv(jobs: seq<Job>, w: World, s: System, t: System, r: nat)
    requires Inv(jobs, w, s) && r < |jobs| && s.stages[r].Holding?
    requires t == s.(stages := s.stages[r := if s.stages[r].local == Finished then Released else Crashed], holder := None)
    ensures Inv(jobs, w, t)
  {
  }

  lemma NextKeepsInv(jobs: seq<Job>, w: World, s: System, t: System, r: nat)
    requires Inv(jobs, w, s) && Next(jobs, s, t, r)
    ensures Inv(jobs, w, t)
  {
    match s.stages[r] {
      case Waiting =>
        if t != s.(stages := s.stages[r := TimedOut]) { AcquireKeepsInv(jobs, w, s, t, r); }
      case Holding(local) =>
        if t == s.(stages := s.stages[r := if local == Finished then Released else Crashed], holder := None) {
          LeaveKeepsInv(jobs, w, s, t, r);
        } else {
          HoldKeepsInv(jobs, w, s, t, r);
        }
      case _ =>
    }
  }

  lemma {:induction false} ExecutionKeepsInv(jobs: seq<Job>, w: World, states: seq<System>)
    requires Execution(jobs, w, states)
    ensures Inv(jobs, w, states[|states| - 1])
  {
    var last := |states| - 1;
    if last > 0 {
      ExecutionKeepsInv(jobs, w, states[..last]);
      var r :| Next(jobs, states[last - 1], states[last], r);
      NextKeepsInv(jobs, w, states[last - 1], states[last], r);
    }
  }

  /** Apply by the given runs, one after the other. */
  ghost function InOrder(jobs: seq<Job>, w: World, turns: seq<Turn>): World
  {
    if turns == [] then w else
      var before := InOrder(jobs, w, turns[..|turns| - 1]);
      var run := turns[|turns| - 1].run;
      if run < |jobs| then RunOf(jobs[run], before) else before
  }

  lemma {:induction false} SerialIsInOrder(jobs: seq<Job>, w: World, turns: seq<Turn>)
    requires forall n | 0 <= n < |turns| :: Completed(jobs, w, turns, n)
    ensures Serial(jobs, w, turns) == InOrder(jobs, w, turns)
  {
    if turns != [] {
      var last := |turns| - 1;
      var front := turns[..last];
      forall n | 0 <= n < |front|
        ensures Completed(jobs, w, front, n)
      {
        assert Completed(jobs, w, turns, n) && front[..n] == turns[..n];
      }
      SerialIsInOrder(jobs, w, front);
      assert Completed(jobs, w, turns, last);
      StaysOnTheWay(jobs[turns[last].run], Serial(jobs, w, front), turns[last].steps);
    }
  }

  /**
   * In every execution of any number of runs the world is what the runs that
   * acquired the lock make of it one after the other, in the order in which they
   * acquired it; a run that timed out is not among them, so it wrote nothing; and
   * once no run holds the lock or has crashed, each of them has carried out the
   * whole of Apply on the result of the previous one.
   */
  lemma Serialisable(jobs: seq<Job>, w: World, states: seq<System>)
    requires Execution(jobs, w, states)
    ensures var s := states[|states| - 1];
      && |s.stages| == |jobs|
      && s.world == Serial(jobs, w, s.turns)
      && (forall n | 0 <= n < |s.turns| :: s.turns[n].run < |jobs| && !s.stages[s.turns[n].run].TimedOut?)
      && (forall n, m | 0 <= n < m < |s.turns| :: s.turns[n].run != s.turns[m].run)
      && ((forall r | 0 <= r < |jobs| :: s.stages[r].Waiting? || s.stages[r].TimedOut? || s.stages[r].Released?) ==>
            s.world == InOrder(jobs, w, s.turns))
  {
    var s := states[|states| - 1];
    ExecutionKeepsInv(jobs, w, states);
    if forall r | 0 <= r < |jobs| :: s.stages[r].Waiting? || s.stages[r].TimedOut? || s.stages[r].Released? {
      SerialIsInOrder(jobs, w, s.turns);
    }
  }
}
