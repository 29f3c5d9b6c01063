/** Apply and rollback as they change the disk. */
module Disk {
  import opened Common
  import opened Documents
  import opened AtomicFile
  import opened Apply
  import Slot

  /** One file operation: the place it touched and the files there afterwards. */
  datatype Entry = Entry(path: string, place: Place)

  function Entries(path: string, log: seq<Place>): seq<Entry> {
    seq(|log|, i requires 0 <= i < |log| => Entry(path, log[i]))
  }

  /** A content that path may have while a plan is carried out: the original, or one the plan gives it. */
  ghost predicate Whole(w: World, plan: seq<TargetOp>, path: string, content: Option<Bytes>) {
    content == ContentOf(w, path) || exists t :: t in plan && t.path == path && content == Some(t.after)
  }

  /** The outcome of a rollback that already met the given errors. */
  function Carry(errors: seq<nat>, rest: Undone): Undone {
    Undone(rest.world, errors + rest.errors)
  }

  lemma RollbackUnfolds(w: World, results: seq<TargetResult>, envs: seq<UndoEnv>, i: nat, errors: seq<nat>)
    requires i < |results| <= |envs|
    ensures var u := UndoOne(w, results[i], envs[i]);
      Carry(errors, Apply.Rollback(w, results[..i + 1], envs))
        == Carry(if u.ok then errors else errors + [i], Apply.Rollback(u.world, results[..i], envs))
  {
    assert results[..i + 1][..i] == results[..i];
  }

  /** While a result is undone, its target holds one of the backups beside it, is gone, or holds what an interrupted write leaves. */
  predicate RollingBack(e: Entry, env: UndoEnv) {
    match e.place.target
    case None => true
    case Some(b) => b == env.torn || exists epoch :: epoch in e.place.backups && e.place.backups[epoch] == b
  }

  class Disk {
    var places: map<string, Place>
    var scratch: map<int, Bytes>
    var clock: int
    /** Every file operation on the places, oldest first. */
    ghost var journal: seq<Entry>

    constructor (w: World)
      ensures World() == w && journal == []
    {
      places, scratch, clock := w.places, w.scratch, w.clock;
      journal := [];
    }

    ghost function World(): World
      reads this
    {
      AtomicFile.World(places, scratch, clock)
    }

    method WriteAtomic(path: string, data: Bytes, maxBackups: int, env: Env) returns (backup: Option<int>, failed: bool)
      modifies this
      ensures var out := Write(old(World()), path, data, maxBackups, env);
        World() == AtomicFile.Put(old(World()), path, out) && backup == out.backup && failed == out.failed
      ensures old(journal) <= journal
      ensures forall k | |old(journal)| <= k < |journal| ::
        journal[k].path == path && Slot.CrashSafe(At(old(places), path), journal[k].place, data, maxBackups)
    {
      var slot := new Slot.Slot(At(places, path), clock);
      backup, failed := slot.WriteAtomic(data, maxBackups, env);
      places := places[path := Place(slot.target, slot.backups, slot.temps)];
      if slot.scratch.Some? {
        scratch := scratch[slot.scratch.value.0 := slot.scratch.value.1];
      }
      clock := slot.clock;
      journal := journal + Entries(path, slot.journal);
    }

    /** os.WriteFile on a target: not atomic, an interruption leaves any bytes. */
    method WriteFile(path: string, content: Bytes, env: UndoEnv) returns (ok: bool)
      modifies this`places, this`journal
      ensures ok == !env.writeFails
      ensures World() == Retarget(old(World()), path, Some(if ok then content else env.torn))
      ensures old(journal) <= journal
      ensures forall k | |old(journal)| <= k < |journal| ::
        journal[k] == Entry(path, At(old(places), path).(target := Some(content)))
        || journal[k] == Entry(path, At(old(places), path).(target := Some(env.torn)))
    {
      ghost var was := places;
      places := places[path := At(places, path).(target := Some(env.torn))];
      journal := journal + [Entry(path, places[path])];
      if env.writeFails { return false; }
      places := places[path := At(places, path).(target := Some(content))];
      journal := journal + [Entry(path, places[path])];
      assert places == was[path := At(was, path).(target := Some(content))];
      return true;
    }

    method RemoveTarget(path: string)
      modifies this`places, this`journal
      ensures World() == Retarget(old(World()), path, None)
      ensures journal == old(journal) + [Entry(path, At(old(places), path).(target := None))]
    {
      places := places[path := At(places, path).(target := None)];
      journal := journal + [Entry(path, places[path])];
    }

    method UndoResult(r: TargetResult, env: UndoEnv) returns (ok: bool)
      modifies this`places, this`journal
      ensures Undoing(World(), ok) == UndoOne(old(World()), r, env)
      ensures old(journal) <= journal
      ensures forall k | |old(journal)| <= k < |journal| :: RollingBack(journal[k], env)
    {
      if !r.wrote { return true; }
      var place := At(places, r.path);
      if r.backup.Some? {
        if r.backup.value !in place.backups || env.readFails { return false; }
        ghost var restored := Entry(r.path, place.(target := Some(place.backups[r.backup.value])));
        assert RollingBack(restored, env) by {
          var epoch: int := r.backup.value;
          assert epoch in restored.place.backups && restored.place.backups[epoch] == restored.place.target.value;
        }
        ghost var torn := Entry(r.path, place.(target := Some(env.torn)));
        ok := WriteFile(r.path, place.backups[r.backup.value], env);
        forall k | |old(journal)| <= k < |journal|
          ensures RollingBack(journal[k], env)
        {
          assert journal[k] == restored || journal[k] == torn;
        }
        return;
      }
      if place.target.None? { return true; }
      if env.removeFails { return false; }
      RemoveTarget(r.path);
      return true;
    }

    /** Since position n every target that changed was being undone. */
    ghost predicate RollsBackSince(n: nat, envs: seq<UndoEnv>)
      reads this`journal
    {
      n <= |journal| && forall k | n <= k < |journal| :: exists i | 0 <= i < |envs| :: RollingBack(journal[k], envs[i])
    }

    /** Walks the results backwards, carrying on past failures and collecting them. */
    method Rollback(results: seq<TargetResult>, envs: seq<UndoEnv>) returns (errors: seq<nat>)
      requires |results| <= |envs|
      modifies this`places, this`journal
      ensures Undone(World(), errors) == Apply.Rollback(old(World()), results, envs)
      ensures old(journal) <= journal && RollsBackSince(|old(journal)|, envs)
    {
      errors := [];
      var i := |results|;
      assert results[..i] == results;
      while i > 0
        invariant 0 <= i <= |results|
        invariant Carry(errors, Apply.Rollback(World(), results[..i], envs)) == Apply.Rollback(old(World()), results, envs)
        invariant old(journal) <= journal && RollsBackSince(|old(journal)|, envs)
      {
        i := i - 1;
        RollbackUnfolds(World(), results, envs, i, errors);
        var ok := UndoResult(results[i], envs[i]);
        if !ok { errors := errors + [i]; }
      }
    }

    /** Since position n every target had its original content or one that the plan gives it. */
    ghost predicate WholeSince(n: nat, w: World, plan: seq<TargetOp>)
      reads this`journal
    {
      n <= |journal| && forall k | n <= k < |journal| :: Whole(w, plan, journal[k].path, journal[k].place.target)
    }

    /** The write loop of Apply, up to the first failure. */
    method WriteTargets(plan: seq<TargetOp>, max: int, envs: seq<Env>) returns (results: seq<TargetResult>, failed: bool)
      requires |plan| == |envs|
      modifies this
      ensures Progress(World(), results, failed) == Written(old(World()), plan, max, envs, |plan|)
      ensures old(journal) <= journal && WholeSince(|old(journal)|, old(World()), plan)
    {
      ghost var start := World();
      results, failed := [], false;
      var i := 0;
      while i < |plan| && !failed
        invariant 0 <= i <= |plan|
        invariant Progress(World(), results, failed) == Written(start, plan, max, envs, i)
        invariant old(journal) <= journal && WholeSince(|old(journal)|, start, plan)
        invariant forall path :: Whole(start, plan, path, ContentOf(World(), path))
      {
        var t := plan[i];
        if t.op == OpNoop {
          results := results + [TargetResult(t.path, false, None)];
        } else {
          ghost var before := World();
          var backup, failure := WriteAtomic(t.path, t.after, MaxFor(t, max), envs[i]);
          WriteTarget(At(before.places, t.path), before.clock, t.after, MaxFor(t, max), envs[i]);
          results, failed := results + [TargetResult(t.path, !failure, backup)], failure;
          assert Whole(start, plan, t.path, Some(t.after)) by { assert t in plan; }
          forall path
            ensures Whole(start, plan, path, ContentOf(World(), path))
          {
            assert Whole(start, plan, path, ContentOf(before, path));
            PutElsewhere(before, t.path, Write(before, t.path, t.after, MaxFor(t, max), envs[i]), path);
          }
          forall k | |old(journal)| <= k < |journal|
            ensures Whole(start, plan, journal[k].path, journal[k].place.target)
          {
            assert Whole(start, plan, t.path, ContentOf(before, t.path));
          }
        }
        i := i + 1;
      }
      WrittenStops(start, plan, max, envs, i);
    }

    /**
     * Apply. Up to position n of the journal, no crash leaves a target with anything
     * but its original content or one the plan gives it; after it, only while a failed
     * apply is rolled back, a target may also hold a backup, be gone, or be torn.
     */
    method ApplyPlan(plan: seq<TargetOp>, opts: Options, locked: bool, envs: seq<Env>, undoEnvs: seq<UndoEnv>)
      returns (results: seq<TargetResult>, failed: bool, undoErrors: seq<nat>, ghost n: nat)
      requires |plan| == |envs| == |undoEnvs|
      modifies this
      ensures Report(World(), results, failed, undoErrors) == Run(old(World()), plan, opts, locked, envs, undoEnvs)
      ensures old(journal) <= journal && |old(journal)| <= n <= |journal|
      ensures forall k | |old(journal)| <= k < n :: Whole(old(World()), plan, journal[k].path, journal[k].place.target)
      ensures RollsBackSince(n, undoEnvs)
      ensures !failed || opts.noRollback ==> n == |journal|
      ensures opts.dryRun || !locked ==> World() == old(World()) && journal == old(journal) && undoErrors == []
      ensures !opts.dryRun && !locked ==> failed && results == []
      ensures opts.dryRun ==> !failed && |results| == |plan|
      ensures opts.dryRun ==> forall i | 0 <= i < |plan| :: results[i] == TargetResult(plan[i].path, false, None)
    {
      results, failed, undoErrors, n := [], false, [], |journal|;
      if opts.dryRun {
        results := seq(|plan|, i requires 0 <= i < |plan| => TargetResult(plan[i].path, false, None));
        return;
      }
      if !locked { failed := true; return; }
      ghost var start := World();
      results, failed := WriteTargets(plan, EffectiveMax(opts), envs);
      n := |journal|;
      ProgressLength(start, plan, EffectiveMax(opts), envs, |plan|);
      if failed && !opts.noRollback {
        undoErrors := Rollback(results[..|results| - 1], undoEnvs);
      }
    }
  }

  lemma {:induction false} WrittenStops(w: World, plan: seq<TargetOp>, max: int, envs: seq<Env>, i: nat)
    requires i <= |plan| == |envs|
    requires i == |plan| || Written(w, plan, max, envs, i).failed
    ensures Written(w, plan, max, envs, |plan|) == Written(w, plan, max, envs, i)
    decreases |plan| - i
  {
    if i < |plan| {
      assert Written(w, plan, max, envs, i + 1) == Written(w, plan, max, envs, i);
      WrittenStops(w, plan, max, envs, i + 1);
    }
  }
}
