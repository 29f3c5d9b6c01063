/** The write protocol of internal/render/atomic.go and backup.go, one file operation at a time. */
module Slot {
  import opened Common
  import opened Ordering
  import opened Documents
  import opened AtomicFile

  /**
   * What a crash may leave while a place is being rewritten: the target holds
   * exactly the old or exactly the new bytes, and new bytes that replaced
   * different ones are accompanied by a finished backup of the old ones.
   */
  ghost predicate CrashSafe(was: Place, now: Place, data: Bytes, maxBackups: int) {
    && (now.target == was.target || now.target == Some(data))
    && (now.target != was.target && was.target.Some? && maxBackups > 0 ==>
          exists e :: e in now.backups && now.backups[e] == was.target.value)
  }

  /** The files around one target, changed one file operation at a time. */
  class Slot {
    var target: Option<Bytes>
    var backups: map<int, Bytes>
    var temps: map<int, Bytes>
    /** The scratch file of the write in progress, and the one an earlier write could not remove. */
    var scratch: Option<(int, Bytes)>
    var clock: int
    /** The state after each file operation, oldest first: every state a crash can leave. */
    ghost var journal: seq<Place>

    constructor (p: Place, now: int)
      ensures Files() == p && clock == now && scratch == None && journal == []
    {
      target, backups, temps := p.target, p.backups, p.temps;
      scratch, clock, journal := None, now, [];
    }

    ghost function Files(): Place
      reads this
    {
      Place(target, backups, temps)
    }

    /** From position n on the target never changed. */
    ghost predicate UntouchedSince(n: nat, was: Option<Bytes>)
      reads this`journal
    {
      n <= |journal| && forall k | n <= k < |journal| :: journal[k].target == was
    }

    ghost method Log()
      modifies this`journal
      ensures journal == old(journal) + [Files()]
    {
      journal := journal + [Files()];
    }

    method Now() returns (t: int)
      modifies this`clock
      ensures t == old(clock) && clock == old(clock) + 1
    {
      t := clock;
      clock := clock + 1;
    }

    /** Unlinks the given backups one at a time, carrying on past failures. */
    method RemoveBackups(doomed: set<int>, stuck: set<int>) returns (failed: bool)
      requires doomed <= backups.Keys
      modifies this`backups, this`journal
      ensures backups == old(backups) - (doomed - stuck)
      ensures failed <==> doomed * stuck != {}
      ensures old(journal) <= journal && UntouchedSince(|old(journal)|, target)
    {
      var todo := doomed;
      var start := backups;
      var gone: set<int> := {};
      failed := false;
      assert start - gone == start;
      while todo != {}
        invariant gone <= doomed - stuck <= gone + todo && todo <= doomed
        invariant failed ==> doomed * stuck != {}
        invariant !failed ==> doomed * stuck <= todo
        invariant backups == start - gone
        invariant old(journal) <= journal && UntouchedSince(|old(journal)|, target)
        decreases |todo|
      {
        var e :| e in todo by { var _ := Pick(todo); }
        todo := todo - {e};
        if e in stuck {
          assert e in doomed * stuck;
          failed := true;
        } else {
          gone := gone + {e};
          backups := start - gone;
          Log();
        }
      }
      assert gone == doomed - stuck;
    }

    /** The same for half-written backups. */
    method RemoveTemps(doomed: set<int>, stuck: set<int>) returns (failed: bool)
      requires doomed <= temps.Keys
      modifies this`temps, this`journal
      ensures temps == old(temps) - (doomed - stuck)
      ensures failed <==> doomed * stuck != {}
      ensures old(journal) <= journal && UntouchedSince(|old(journal)|, target)
    {
      var todo := doomed;
      var start := temps;
      var gone: set<int> := {};
      failed := false;
      assert start - gone == start;
      while todo != {}
        invariant gone <= doomed - stuck <= gone + todo && todo <= doomed
        invariant failed ==> doomed * stuck != {}
        invariant !failed ==> doomed * stuck <= todo
        invariant temps == start - gone
        invariant old(journal) <= journal && UntouchedSince(|old(journal)|, target)
        decreases |todo|
      {
        var e :| e in todo by { var _ := Pick(todo); }
        todo := todo - {e};
        if e in stuck {
          assert e in doomed * stuck;
          failed := true;
        } else {
          gone := gone + {e};
          temps := start - gone;
          Log();
        }
      }
      assert gone == doomed - stuck;
    }

    /** Unlinks the half-written backups that a crashed run left behind. */
    method CleanupOrphanBackupTemps(env: Env) returns (failed: bool)
      modifies this`temps, this`journal
      ensures Files() == SweptTemps(old(Files()), env)
      ensures failed <==> old(temps).Keys * env.stuckTemps != {}
      ensures old(journal) <= journal && UntouchedSince(|old(journal)|, target)
    {
      failed := RemoveTemps(temps.Keys, env.stuckTemps);
    }

    /** Sorts the epochs newest first and unlinks all but the first keep. */
    method PruneBackups(keep: int, env: Env) returns (failed: bool)
      modifies this`backups, this`journal
      ensures Files() == Prune(old(Files()), keep, env)
      ensures failed == PruneFails(old(Files()), keep, env)
      ensures old(journal) <= journal && UntouchedSince(|old(journal)|, target)
    {
      var victims := VictimsOf(backups, keep);
      failed := RemoveBackups(victims, env.stuckBackups);
    }

    /** Copies the current target to a backup: prune, write a temporary, rename it. */
    method BackUp(maxBackups: int, env: Env) returns (backup: Option<int>, failed: bool)
      requires target.Some? && temps == map[]
      modifies this`backups, this`temps, this`journal, this`clock
      ensures AtomicFile.BackUp(old(Files()), old(clock), maxBackups, env)
        == Outcome(Files(), clock, None, backup, failed)
      ensures !failed ==> backup.Some? && backup.value in backups && backups[backup.value] == target.value
      ensures old(journal) <= journal && UntouchedSince(|old(journal)|, target)
    {
      var pruneFailed := PruneBackups(maxBackups - 1, env);
      if pruneFailed { return None, true; }
      var epoch := Now();
      // the temporary is created and filled; an interruption leaves any bytes in it
      temps := temps[epoch := env.torn];
      Log();
      if WriteBackup in env.broken { return None, true; }
      temps := temps[epoch := target.value];
      Log();
      if RenameBackup in env.broken { return None, true; }
      temps, backups := temps - {epoch}, backups[epoch := target.value];
      Log();
      return Some(epoch), false;
    }

    /** Writes the scratch file and renames it over the target; nothing else touches the target. */
    method Install(data: Bytes, ghost backup: Option<int>, env: Env) returns (failed: bool)
      modifies this`target, this`scratch, this`journal, this`clock
      ensures AtomicFile.Install(old(Files()), old(clock), data, backup, env)
        == Outcome(Files(), clock, scratch, backup, failed)
      ensures journal == old(journal) + (if failed then [] else [Files()])
    {
      scratch := None;
      if CreateScratch in env.broken { return true; }
      var id := Now();
      scratch := Some((id, env.torn));
      if WriteScratch !in env.broken {
        scratch := Some((id, data));
        if CloseScratch !in env.broken && ChmodScratch !in env.broken && RenameScratch !in env.broken {
          scratch, target := None, Some(data);
          Log();
          return false;
        }
      }
      // the deferred unlink
      if !env.stuckScratch { scratch := None; }
      return true;
    }

    /** Every operation since position n left the slot crash-safe. */
    ghost predicate CrashSafeSince(n: nat, was: Place, data: Bytes, maxBackups: int)
      reads this`journal
    {
      n <= |journal| && forall k | n <= k < |journal| :: CrashSafe(was, journal[k], data, maxBackups)
    }

    method Replace(data: Bytes, maxBackups: int, env: Env) returns (backup: Option<int>, failed: bool)
      requires temps == map[] && scratch == None
      modifies this
      ensures AtomicFile.Replace(old(Files()), old(clock), data, maxBackups, env)
        == Outcome(Files(), clock, scratch, backup, failed)
      ensures old(journal) <= journal
      ensures CrashSafeSince(|old(journal)|, old(Files()), data, maxBackups)
    {
      backup := None;
      if target.Some? && maxBackups > 0 {
        backup, failed := BackUp(maxBackups, env);
        if failed { return; }
      }
      failed := Install(data, backup, env);
    }

    /**
     * The write as a whole, and what a crash after any of its file operations
     * can leave behind.
     */
    method WriteAtomic(data: Bytes, maxBackups: int, env: Env) returns (backup: Option<int>, failed: bool)
      requires scratch == None
      modifies this
      ensures WritePlace(old(Files()), old(clock), data, maxBackups, env)
        == Outcome(Files(), clock, scratch, backup, failed)
      ensures old(journal) <= journal
      ensures CrashSafeSince(|old(journal)|, old(Files()), data, maxBackups)
    {
      var cleanupFailed := CleanupOrphanBackupTemps(env);
      if cleanupFailed || MakeDir in env.broken || ReadTarget in env.broken { return None, true; }
      if target == Some(data) { return None, false; }
      SweptClean(old(Files()), env);
      backup, failed := Replace(data, maxBackups, env);
    }
  }

  /** The epochs to unlink, found by sorting. */
  method VictimsOf(backups: map<int, Bytes>, keep: int) returns (victims: set<int>)
    ensures victims == Doomed(backups, keep)
  {
    var epochs := backups.Keys;
    if keep <= 0 { return epochs; }
    var items := NewestFirst(epochs);
    if |items| <= keep {
      NewestAll(epochs, keep);
      return {};
    }
    DescendingNewest(items, epochs, keep);
    VictimsAreTheRest(items, epochs, keep);
    victims := set e | e in items[keep..];
  }

  method NewestFirst(epochs: set<int>) returns (items: seq<int>)
    ensures Descending(items) && |items| == |epochs|
    ensures forall e :: e in items <==> e in epochs
  {
    items := [];
    var todo := epochs;
    ghost var done: set<int> := {};
    while todo != {}
      invariant todo !! done && todo + done == epochs
      invariant Descending(items) && |items| == |done|
      invariant forall e :: e in items <==> e in done
      decreases |todo|
    {
      var e :| e in todo by { var _ := Pick(todo); }
      todo := todo - {e};
      items := InsertDescending(items, e);
      done := done + {e};
    }
  }

  lemma NewestAll(epochs: set<int>, keep: nat)
    requires |epochs| <= keep
    ensures epochs - Newest(epochs, keep) == {}
  {
    NewestSubset(epochs, keep);
    var missing := epochs - Newest(epochs, keep);
    assert |epochs| == |Newest(epochs, keep)| + |missing| by {
      assert epochs == Newest(epochs, keep) + missing;
    }
  }

  lemma VictimsAreTheRest(items: seq<int>, epochs: set<int>, keep: nat)
    requires Descending(items) && keep <= |items|
    requires forall e :: e in items <==> e in epochs
    requires forall e :: e in Newest(epochs, keep) <==> e in items[..keep]
    ensures (set e | e in items[keep..]) == epochs - Newest(epochs, keep)
  {
    assert items == items[..keep] + items[keep..];
    forall e | e in items[keep..]
      ensures e !in items[..keep]
    {
      var j :| 0 <= j < |items[keep..]| && items[keep..][j] == e;
      assert items[keep + j] == e;
    }
  }
}
