/** internal/render/atomic.go and backup.go: atomic writes with bounded backups. */
module AtomicFile {
  import opened Common
  import opened Ordering
  import opened Documents

  /**
   * A rendered target and the files named after it: finished backups
   * (path.bak.epoch) and half-written ones (path.bak.epoch.tmp).
   */
  datatype Place = Place(
    target: Option<Bytes>,
    backups: map<int, Bytes>,
    temps: map<int, Bytes>)

  const NOTHING := Place(None, map[], map[])

  /** All places, the scratch files left in their directories, and a clock that every reading advances. */
  datatype World = World(places: map<string, Place>, scratch: map<int, Bytes>, clock: int)

  function At(places: map<string, Place>, path: string): Place {
    if path in places then places[path] else NOTHING
  }

  function ContentOf(w: World, path: string): Option<Bytes> {
    At(w.places, path).target
  }

  ghost predicate Past(p: Place, clock: int) {
    forall e | e in p.backups :: e < clock
  }

  /** Every backup epoch lies in the past. */
  ghost predicate Valid(w: World) {
    forall path :: Past(At(w.places, path), w.clock)
  }

  /** The steps of a write that can fail. */
  datatype Step =
    | MakeDir | ReadTarget | WriteBackup | RenameBackup
    | CreateScratch | WriteScratch | CloseScratch | ChmodScratch | RenameScratch

  /**
   * What goes wrong during one write: failing steps, names that cannot be
   * unlinked, and the bytes an interrupted write leaves behind.
   */
  datatype Env = Env(
    broken: set<Step>,
    stuckBackups: set<int>,
    stuckTemps: set<int>,
    stuckScratch: bool,
    torn: Bytes)

  /** The place after a write, the clock, a scratch file that could not be removed, and what the caller is told. */
  datatype Outcome = Outcome(place: Place, clock: int, leftover: Option<(int, Bytes)>, backup: Option<int>, failed: bool)

  // ---- Specification -----------------------------------------------------

  ghost function Kept(backups: map<int, Bytes>, keep: int): set<int> {
    if keep <= 0 then {} else Newest(backups.Keys, keep)
  }

  ghost function Doomed(backups: map<int, Bytes>, keep: int): set<int> {
    backups.Keys - Kept(backups, keep)
  }

  ghost predicate PruneFails(p: Place, keep: int, env: Env) {
    Doomed(p.backups, keep) * env.stuckBackups != {}
  }

  /** Removes the backups beyond the newest keep, all of them with keep <= 0. */
  ghost function Prune(p: Place, keep: int, env: Env): Place {
    p.(backups := p.backups - (Doomed(p.backups, keep) - env.stuckBackups))
  }

  /** Prunes, then copies the old bytes to a new backup by way of a temporary file. */
  ghost function BackUp(p: Place, clock: int, maxBackups: int, env: Env): Outcome
    requires p.target.Some?
  {
    var pruned := Prune(p, maxBackups - 1, env);
    var previous := p.target.value;
    if PruneFails(p, maxBackups - 1, env) then Outcome(pruned, clock, None, None, true)
    else if WriteBackup in env.broken then
      Outcome(pruned.(temps := pruned.temps[clock := env.torn]), clock + 1, None, None, true)
    else if RenameBackup in env.broken then
      Outcome(pruned.(temps := pruned.temps[clock := previous]), clock + 1, None, None, true)
    else
      Outcome(pruned.(backups := pruned.backups[clock := previous]), clock + 1, None, Some(clock), false)
  }

  /** Writes a scratch file and renames it over the target. */
  function Install(p: Place, clock: int, data: Bytes, backup: Option<int>, env: Env): Outcome {
    if CreateScratch in env.broken then Outcome(p, clock, None, backup, true)
    else if WriteScratch in env.broken || CloseScratch in env.broken
         || ChmodScratch in env.broken || RenameScratch in env.broken then
      var content := if WriteScratch in env.broken then env.torn else data;
      Outcome(p, clock + 1, if env.stuckScratch then Some((clock, content)) else None, backup, true)
    else Outcome(p.(target := Some(data)), clock + 1, None, backup, false)
  }

  /** Backs up if there is something to back up and room for it, then installs. */
  ghost function Replace(p: Place, clock: int, data: Bytes, maxBackups: int, env: Env): Outcome {
    if p.target.None? || maxBackups <= 0 then Install(p, clock, data, None, env)
    else
      var saved := BackUp(p, clock, maxBackups, env);
      if saved.failed then saved else Install(saved.place, saved.clock, data, saved.backup, env)
  }

  function SweptTemps(p: Place, env: Env): Place {
    p.(temps := p.temps - (p.temps.Keys - env.stuckTemps))
  }

  predicate Readable(p: Place, env: Env) {
    p.temps.Keys * env.stuckTemps == {} && MakeDir !in env.broken && ReadTarget !in env.broken
  }

  ghost function WritePlace(p: Place, clock: int, data: Bytes, maxBackups: int, env: Env): Outcome {
    var swept := SweptTemps(p, env);
    if !Readable(p, env) then Outcome(swept, clock, None, None, true)
    else if p.target == Some(data) then Outcome(swept, clock, None, None, false)
    else Replace(swept, clock, data, maxBackups, env)
  }

  function Put(w: World, path: string, out: Outcome): World {
    World(w.places[path := out.place],
          if out.leftover.Some? then w.scratch[out.leftover.value.0 := out.leftover.value.1] else w.scratch,
          out.clock)
  }

  ghost function Write(w: World, path: string, data: Bytes, maxBackups: int, env: Env): Outcome {
    WritePlace(At(w.places, path), w.clock, data, maxBackups, env)
  }

  // ---- What one write does -----------------------------------------------

  /** The target changes only when the write succeeds, and then to exactly the data. */
  lemma WriteTarget(p: Place, clock: int, data: Bytes, maxBackups: int, env: Env)
    ensures var out := WritePlace(p, clock, data, maxBackups, env);
      out.place.target == if out.failed then p.target else Some(data)
  {
  }

  lemma InstallShape(p: Place, clock: int, data: Bytes, backup: Option<int>, env: Env)
    ensures var out := Install(p, clock, data, backup, env);
      && out.place.backups == p.backups && out.backup == backup && clock <= out.clock
  {
  }

  lemma KeptShape(backups: map<int, Bytes>, keep: int)
    ensures Kept(backups, keep) <= backups.Keys && (keep >= 0 ==> |Kept(backups, keep)| <= keep)
  {
    if keep > 0 { NewestSubset(backups.Keys, keep); }
  }

  lemma PruneShape(p: Place, keep: int, env: Env)
    ensures var q := Prune(p, keep, env);
      && (forall e | e in q.backups :: e in p.backups && q.backups[e] == p.backups[e])
      && Kept(p.backups, keep) <= q.backups.Keys
      && (env.stuckBackups == {} || !PruneFails(p, keep, env) ==> q.backups.Keys == Kept(p.backups, keep))
  {
    KeptShape(p.backups, keep);
  }

  /** Pruned backups keep their content; the one new backup has a new epoch and holds the old target. */
  lemma BackUpShape(p: Place, clock: int, maxBackups: int, env: Env)
    requires p.target.Some? && Past(p, clock)
    ensures var out := BackUp(p, clock, maxBackups, env);
      && clock <= out.clock
      && (forall e | e in out.place.backups && e != clock ::
            e in p.backups && out.place.backups[e] == p.backups[e])
      && out.failed == out.backup.None?
      && (out.failed ==> clock !in out.place.backups)
      && (!out.failed ==> (out.backup == Some(clock) && clock < out.clock
            && clock in out.place.backups && out.place.backups[clock] == p.target.value))
      && (!PruneFails(p, maxBackups - 1, env) ==>
            out.place.backups.Keys == Kept(p.backups, maxBackups - 1) + (if out.failed then {} else {clock}))
      && (PruneFails(p, maxBackups - 1, env) ==> out.failed)
  {
    PruneShape(p, maxBackups - 1, env);
  }

  /** Whether a write gets as far as pruning. */
  predicate Prunes(p: Place, data: Bytes, maxBackups: int, env: Env) {
    Readable(p, env) && p.target.Some? && p.target != Some(data) && maxBackups > 0
  }

  lemma WriteByCases(p: Place, clock: int, data: Bytes, maxBackups: int, env: Env)
    requires Past(p, clock)
    ensures var out := WritePlace(p, clock, data, maxBackups, env);
      var swept := SweptTemps(p, env);
      if !Prunes(p, data, maxBackups, env) then
        out.place.backups == p.backups && out.backup.None? && clock <= out.clock
      else
        var saved := BackUp(swept, clock, maxBackups, env);
        && out.place.backups == saved.place.backups && out.backup == saved.backup && saved.clock <= out.clock
        && (saved.failed ==> out.failed)
  {
    var swept := SweptTemps(p, env);
    if Prunes(p, data, maxBackups, env) {
      var saved := BackUp(swept, clock, maxBackups, env);
      InstallShape(saved.place, saved.clock, data, saved.backup, env);
    } else {
      InstallShape(swept, clock, data, None, env);
    }
  }

  /**
   * A finished backup is never altered and never appears except as the reported
   * one, which has a new epoch and holds the old target. It is reported exactly
   * when different bytes are replaced while backups are on.
   */
  lemma WriteBackups(p: Place, clock: int, data: Bytes, maxBackups: int, env: Env)
    requires Past(p, clock)
    ensures var out := WritePlace(p, clock, data, maxBackups, env);
      && clock <= out.clock && Past(out.place, out.clock)
      && (forall e | e in out.place.backups && e != clock ::
            e in p.backups && out.place.backups[e] == p.backups[e])
      && (clock in out.place.backups <==> out.backup == Some(clock))
      && (out.backup.Some? ==> (out.backup.value == clock && clock < out.clock
            && p.target == Some(out.place.backups[clock]) && p.target != Some(data) && maxBackups > 0))
      && (!out.failed && p.target.Some? && p.target != Some(data) && maxBackups > 0 ==> out.backup.Some?)
  {
    WriteByCases(p, clock, data, maxBackups, env);
    if Prunes(p, data, maxBackups, env) {
      BackUpShape(SweptTemps(p, env), clock, maxBackups, env);
    }
  }

  /** The epochs after a write: untouched unless it prunes, and then the newest ones and the new one. */
  lemma WriteEpochs(p: Place, clock: int, data: Bytes, maxBackups: int, env: Env)
    requires Past(p, clock)
    ensures var out := WritePlace(p, clock, data, maxBackups, env);
      && (!Prunes(p, data, maxBackups, env) ==> out.place.backups == p.backups && out.backup.None?)
      && (Prunes(p, data, maxBackups, env) && (!out.failed || !PruneFails(SweptTemps(p, env), maxBackups - 1, env)) ==>
            out.place.backups.Keys == Kept(p.backups, maxBackups - 1)
              + (if out.backup.Some? then {clock} else {}))
  {
    WriteByCases(p, clock, data, maxBackups, env);
    if Prunes(p, data, maxBackups, env) {
      BackUpShape(SweptTemps(p, env), clock, maxBackups, env);
    }
  }

  /** What a success does to the backups: nothing, or pruning to the newest ones and adding one. */
  ghost predicate Slides(p: Place, clock: int, maxBackups: int, out: Outcome) {
    && clock <= out.clock
    && (out.backup.None? ==> out.place.backups == p.backups)
    && (out.backup.Some? ==> (out.backup.value == clock < out.clock && maxBackups > 0
          && out.place.backups.Keys == Kept(p.backups, maxBackups - 1) + {clock}))
  }

  lemma SuccessEpochs(p: Place, clock: int, data: Bytes, maxBackups: int, env: Env)
    requires Past(p, clock) && !WritePlace(p, clock, data, maxBackups, env).failed
    ensures Slides(p, clock, maxBackups, WritePlace(p, clock, data, maxBackups, env))
  {
    WriteBackups(p, clock, data, maxBackups, env);
    WriteEpochs(p, clock, data, maxBackups, env);
  }

  /** The epochs that are left when the doomed ones are removed, except those that cannot be. */
  ghost function Left(backups: map<int, Bytes>, keep: int, stuck: set<int>): set<int> {
    backups.Keys - (Doomed(backups, keep) - stuck)
  }

  /** The backups after any write, failing or not: those left after pruning if it got that far, and the new one. */
  ghost predicate Leaves(p: Place, clock: int, data: Bytes, maxBackups: int, env: Env, after: map<int, Bytes>) {
    if Prunes(p, data, maxBackups, env) then
      after.Keys - {clock} == Left(p.backups, maxBackups - 1, env.stuckBackups)
    else after == p.backups
  }

  lemma EpochsLeft(p: Place, clock: int, data: Bytes, maxBackups: int, env: Env)
    requires Past(p, clock)
    ensures Leaves(p, clock, data, maxBackups, env, WritePlace(p, clock, data, maxBackups, env).place.backups)
  {
    WriteByCases(p, clock, data, maxBackups, env);
    if Prunes(p, data, maxBackups, env) {
      assert clock !in p.backups;
    }
  }

  /** A failing write keeps at least the newest maxBackups - 1 backups. */
  lemma FailureEpochs(p: Place, clock: int, data: Bytes, maxBackups: int, env: Env)
    requires Past(p, clock)
    ensures var after := WritePlace(p, clock, data, maxBackups, env).place.backups;
      if Prunes(p, data, maxBackups, env) then
        && Kept(p.backups, maxBackups - 1) <= after.Keys
        && (env.stuckBackups == {} ==> after.Keys <= Kept(p.backups, maxBackups - 1) + {clock})
      else after == p.backups
  {
    EpochsLeft(p, clock, data, maxBackups, env);
    if Prunes(p, data, maxBackups, env) {
      var after := WritePlace(p, clock, data, maxBackups, env).place.backups.Keys;
      LeftBounds(p.backups, maxBackups - 1, env.stuckBackups, after, clock);
    }
  }

  lemma LeftBounds(backups: map<int, Bytes>, keep: int, stuck: set<int>, after: set<int>, clock: int)
    requires after - {clock} == Left(backups, keep, stuck)
    ensures Kept(backups, keep) <= after && (stuck == {} ==> after <= Kept(backups, keep) + {clock})
  {
    KeptShape(backups, keep);
    forall e | e in Kept(backups, keep)
      ensures e in after
    {
      assert e in Left(backups, keep, stuck);
      assert e in after - {clock};
    }
    forall e | e in after && e != clock && stuck == {}
      ensures e in Kept(backups, keep)
    {
      assert e in after - {clock};
    }
  }

  /** A successful write leaves no half-written backups. */
  lemma SuccessTemps(p: Place, clock: int, data: Bytes, maxBackups: int, env: Env)
    requires !WritePlace(p, clock, data, maxBackups, env).failed
    ensures WritePlace(p, clock, data, maxBackups, env).place.temps == map[]
  {
    SweptClean(p, env);
  }

  lemma SweptClean(p: Place, env: Env)
    requires p.temps.Keys * env.stuckTemps == {}
    ensures SweptTemps(p, env).temps == map[]
  {
    forall e | e in p.temps
      ensures e !in env.stuckTemps
    {
      assert e in env.stuckTemps ==> e in p.temps.Keys * env.stuckTemps;
    }
  }

  // ---- When a write fails, and what it leaves behind ---------------------

  /** Some backup beyond the newest keep cannot be unlinked. */
  ghost predicate StuckVictim(backups: map<int, Bytes>, keep: nat, stuck: set<int>) {
    exists e :: e in backups && e in stuck && e !in Newest(backups.Keys, keep)
  }

  /** The old bytes cannot be saved. */
  ghost predicate SavingFails(p: Place, maxBackups: nat, env: Env)
    requires maxBackups > 0
  {
    StuckVictim(p.backups, maxBackups - 1, env.stuckBackups) || WriteBackup in env.broken || RenameBackup in env.broken
  }

  /** One of the steps from creating the scratch file to renaming it fails. */
  predicate InstallingFails(env: Env) {
    || CreateScratch in env.broken || WriteScratch in env.broken || CloseScratch in env.broken
    || ChmodScratch in env.broken || RenameScratch in env.broken
  }

  lemma PruneFailsWhen(p: Place, keep: nat, env: Env)
    ensures PruneFails(p, keep, env) <==> StuckVictim(p.backups, keep, env.stuckBackups)
  {
    KeptZero(p.backups);
    if StuckVictim(p.backups, keep, env.stuckBackups) {
      var e :| e in p.backups && e in env.stuckBackups && e !in Newest(p.backups.Keys, keep);
      assert e in Doomed(p.backups, keep) * env.stuckBackups;
    }
  }

  /** A half-written backup of an earlier run cannot be unlinked. */
  ghost predicate StuckTemp(p: Place, env: Env) {
    exists e :: e in p.temps && e in env.stuckTemps
  }

  lemma ReadableWhen(p: Place, env: Env)
    ensures Readable(p, env) <==> !StuckTemp(p, env) && MakeDir !in env.broken && ReadTarget !in env.broken
  {
    var both := p.temps.Keys * env.stuckTemps;
    if both != {} {
      var e := Pick(both);
      assert e in p.temps && e in env.stuckTemps;
    }
    if e :| e in p.temps && e in env.stuckTemps { assert e in both; }
  }

  /**
   * A write fails exactly when a step it needs does: reading what is there; saving it, if
   * it is there, differs, and backups are on; and writing the new bytes if they differ.
   */
  lemma WriteFailsWhen(p: Place, clock: int, data: Bytes, maxBackups: int, env: Env)
    ensures WritePlace(p, clock, data, maxBackups, env).failed <==>
      || StuckTemp(p, env) || MakeDir in env.broken || ReadTarget in env.broken
      || (p.target != Some(data) &&
            (InstallingFails(env) || (p.target.Some? && maxBackups > 0 && SavingFails(p, maxBackups, env))))
  {
    if maxBackups > 0 { PruneFailsWhen(SweptTemps(p, env), maxBackups - 1, env); }
    ReadableWhen(p, env);
  }

  /** A backup is made, and stays and is reported even if the write then fails, exactly when there is something to save and saving works. */
  lemma BackupMadeWhen(p: Place, clock: int, data: Bytes, maxBackups: int, env: Env)
    ensures WritePlace(p, clock, data, maxBackups, env).backup.Some? <==>
      && !StuckTemp(p, env) && MakeDir !in env.broken && ReadTarget !in env.broken
      && p.target.Some? && p.target.value != data && maxBackups > 0 && !SavingFails(p, maxBackups, env)
  {
    if maxBackups > 0 { PruneFailsWhen(SweptTemps(p, env), maxBackups - 1, env); }
    ReadableWhen(p, env);
  }

  /** The write gets as far as creating its scratch file. */
  ghost predicate ReachesScratch(p: Place, data: Bytes, maxBackups: int, env: Env) {
    && Readable(p, env) && p.target != Some(data)
    && (p.target.Some? && maxBackups > 0 ==> !SavingFails(p, maxBackups, env)) && CreateScratch !in env.broken
  }

  /**
   * The scratch file of a write is gone, unless the write failed and it could not be
   * unlinked; then it holds the new bytes, or whatever an interrupted write left.
   */
  lemma ScratchIsGone(p: Place, clock: int, data: Bytes, maxBackups: int, env: Env)
    ensures var out := WritePlace(p, clock, data, maxBackups, env);
      && (out.leftover.Some? <==> out.failed && ReachesScratch(p, data, maxBackups, env) && env.stuckScratch)
      && (out.leftover.Some? ==> clock <= out.leftover.value.0 < out.clock)
      && (out.leftover.Some? ==> out.leftover.value.1 == if WriteScratch in env.broken then env.torn else data)
  {
    if maxBackups > 0 { PruneFailsWhen(SweptTemps(p, env), maxBackups - 1, env); }
  }

  /**
   * The half-written backups after a write are those of earlier runs that could not be
   * unlinked, or the one it could not finish.
   */
  lemma TempsLeft(p: Place, clock: int, data: Bytes, maxBackups: int, env: Env)
    ensures var temps := WritePlace(p, clock, data, maxBackups, env).place.temps;
      var halfway := Prunes(p, data, maxBackups, env) && !StuckVictim(p.backups, maxBackups - 1, env.stuckBackups)
        && (WriteBackup in env.broken || RenameBackup in env.broken);
      if halfway then temps == map[clock := if WriteBackup in env.broken then env.torn else p.target.value]
      else (forall e :: e in temps <==> e in p.temps && e in env.stuckTemps) && forall e | e in temps :: temps[e] == p.temps[e]
  {
    if maxBackups > 0 { PruneFailsWhen(SweptTemps(p, env), maxBackups - 1, env); }
    if Readable(p, env) { SweptClean(p, env); }
  }

  // ---- Backups are a sliding window --------------------------------------

  ghost function ContentsAt(backups: map<int, Bytes>, epochs: seq<int>): seq<Bytes> {
    seq(|epochs|, i requires 0 <= i < |epochs| => if epochs[i] in backups then backups[epochs[i]] else Empty)
  }

  /** The contents of the finished backups, oldest first. */
  ghost function History(p: Place): seq<Bytes> {
    ContentsAt(p.backups, Ascending(p.backups.Keys))
  }

  lemma ContentsSuffix(backups: map<int, Bytes>, epochs: seq<int>, keep: nat)
    ensures ContentsAt(backups, LastN(epochs, keep)) == LastN(ContentsAt(backups, epochs), keep)
  {
  }

  lemma ContentsAppend(before: map<int, Bytes>, after: map<int, Bytes>, epochs: seq<int>, now: int)
    requires forall i | 0 <= i < |epochs| ::
      epochs[i] in before && epochs[i] in after && after[epochs[i]] == before[epochs[i]]
    requires now in after
    ensures ContentsAt(after, epochs + [now]) == ContentsAt(before, epochs) + [after[now]]
  {
  }

  /** Keeping the newest keep backups and adding one drops all but the last keep contents. */
  lemma WindowAdvance(before: map<int, Bytes>, after: map<int, Bytes>, keep: nat, now: int)
    requires forall e | e in before :: e < now
    requires after.Keys == Newest(before.Keys, keep) + {now}
    requires forall e | e in after && e != now :: e in before && after[e] == before[e]
    ensures ContentsAt(after, Ascending(after.Keys))
      == LastN(ContentsAt(before, Ascending(before.Keys)), keep) + [after[now]]
  {
    var kept := Newest(before.Keys, keep);
    NewestSubset(before.Keys, keep);
    NewestIsSuffix(before.Keys, keep);
    AscendingAppend(kept, now);
    ContentsSuffix(before, Ascending(before.Keys), keep);
    SurvivorsAgree(before, after, kept, now);
    ContentsAppend(before, after, Ascending(kept), now);
  }

  lemma SurvivorsAgree(before: map<int, Bytes>, after: map<int, Bytes>, kept: set<int>, now: int)
    requires kept <= before.Keys && kept <= after.Keys && now !in kept
    requires forall e | e in after && e != now :: e in before && after[e] == before[e]
    ensures forall i | 0 <= i < |Ascending(kept)| :: var e := Ascending(kept)[i];
      e in before && e in after && after[e] == before[e]
  {
    AscendingElements(kept);
    forall i | 0 <= i < |Ascending(kept)|
      ensures Ascending(kept)[i] in kept
    {
      assert Ascending(kept)[i] in Ascending(kept);
    }
  }

  /** One successful write slides the window by one, or leaves it alone. */
  lemma WindowStep(p: Place, clock: int, data: Bytes, maxBackups: int, env: Env)
    requires Past(p, clock) && maxBackups >= 1
    requires !WritePlace(p, clock, data, maxBackups, env).failed
    ensures History(WritePlace(p, clock, data, maxBackups, env).place) ==
      if p.target.Some? && p.target.value != data
      then LastN(History(p), maxBackups - 1) + [p.target.value]
      else History(p)
  {
    var after := WritePlace(p, clock, data, maxBackups, env).place.backups;
    WriteEpochs(p, clock, data, maxBackups, env);
    WriteBackups(p, clock, data, maxBackups, env);
    if p.target.Some? && p.target.value != data {
      KeptZero(p.backups);
      WindowAdvance(p.backups, after, maxBackups - 1, clock);
    }
  }

  lemma KeptZero(backups: map<int, Bytes>)
    ensures Newest(backups.Keys, 0) == {}
  {
  }

  /** Writes each content in turn; stops at the first failure. */
  ghost function WriteAll(p: Place, clock: int, contents: seq<Bytes>, maxBackups: int, envs: seq<Env>): Outcome
    requires |envs| == |contents|
  {
    if contents == [] then Outcome(p, clock, None, None, false) else
      var n := |contents| - 1;
      var before := WriteAll(p, clock, contents[..n], maxBackups, envs[..n]);
      if before.failed then before else WritePlace(before.place, before.clock, contents[n], maxBackups, envs[n])
  }

  /** The contents that a run of writes replaces by different ones. */
  function Replaced(initial: Option<Bytes>, contents: seq<Bytes>): seq<Bytes> {
    if contents == [] then [] else
      var n := |contents| - 1;
      var current := if n == 0 then initial else Some(contents[n - 1]);
      Replaced(initial, contents[..n])
      + (if current.Some? && current.value != contents[n] then [current.value] else [])
  }

  /** What holds after a run of writes that replaced the given contents. */
  ghost predicate WindowIs(out: Outcome, replaced: seq<Bytes>, maxBackups: nat, target: Option<Bytes>) {
    Past(out.place, out.clock) && History(out.place) == LastN(replaced, maxBackups) && out.place.target == target
  }

  lemma WindowSlides(before: Outcome, replaced: seq<Bytes>, maxBackups: nat, target: Option<Bytes>, data: Bytes, env: Env)
    requires maxBackups >= 1 && WindowIs(before, replaced, maxBackups, target)
    requires !WritePlace(before.place, before.clock, data, maxBackups, env).failed
    ensures WindowIs(
      WritePlace(before.place, before.clock, data, maxBackups, env),
      replaced + (if target.Some? && target.value != data then [target.value] else []),
      maxBackups, Some(data))
  {
    WriteBackups(before.place, before.clock, data, maxBackups, env);
    WriteTarget(before.place, before.clock, data, maxBackups, env);
    WindowStep(before.place, before.clock, data, maxBackups, env);
    LastNSlides(replaced, maxBackups);
  }

  /**
   * From a start without backups, any number of successful writes with the same
   * bound leaves exactly the last maxBackups replaced contents, oldest first.
   */
  lemma {:induction false} SlidingWindow(p: Place, clock: int, contents: seq<Bytes>, maxBackups: int, envs: seq<Env>)
    requires maxBackups >= 1 && |envs| == |contents|
    requires p.backups == map[]
    requires !WriteAll(p, clock, contents, maxBackups, envs).failed
    ensures WindowIs(WriteAll(p, clock, contents, maxBackups, envs), Replaced(p.target, contents), maxBackups,
      if contents == [] then p.target else Some(contents[|contents| - 1]))
  {
    if contents != [] {
      var n := |contents| - 1;
      SlidingWindow(p, clock, contents[..n], maxBackups, envs[..n]);
      WindowSlides(WriteAll(p, clock, contents[..n], maxBackups, envs[..n]), Replaced(p.target, contents[..n]),
        maxBackups, if n == 0 then p.target else Some(contents[n - 1]), contents[n], envs[n]);
    }
  }

  lemma LastNSlides<T>(s: seq<T>, n: nat)
    requires n >= 1
    ensures forall x :: LastN(LastN(s, n), n - 1) + [x] == LastN(s + [x], n)
  {
  }
}
