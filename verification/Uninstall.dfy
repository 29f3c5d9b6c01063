/** internal/install/flow.go: the rc files during install and the two-phase uninstall. */
module Uninstall {
  import opened Common
  import opened Ordering
  import opened Picking
  import opened ShellBlock

  type Files = map<string, string>

  /** Files that exist but cannot be read, and files that cannot be replaced. */
  datatype Faults = Faults(unreadable: set<string>, unwritable: set<string>)

  datatype Answer =
    | Removed(rcs: seq<string>)
    | BlockEdited(rc: string)
    | BlockUnreadable(rc: string)
    | NotRemoved(rc: string)

  function TextOf(files: Files, rc: string): string {
    if rc in files then files[rc] else ""
  }

  function ReadBlock(m: Sentinels, files: Files, rc: string, env: Faults): Result<string> {
    if rc !in files then Ok("")
    else if rc in env.unreadable then Err("read")
    else ExtractBlock(m, files[rc])
  }

  // ---- Specification -----------------------------------------------------

  datatype Progress = Progress(files: Files, done: seq<string>, failed: Option<string>)

  function InstallOne(m: Sentinels, p: Progress, rc: string, c: string, env: Faults): Progress {
    if p.failed.Some? then p
    else if (rc in p.files && rc in env.unreadable) || rc in env.unwritable then p.(failed := Some(rc))
    else Progress(p.files[rc := ReplaceOrAppendBlock(m, TextOf(p.files, rc), c)], p.done + [rc], None)
  }

  function Installed(m: Sentinels, files: Files, rcs: seq<string>, c: string, env: Faults): Progress {
    if rcs == [] then Progress(files, [], None)
    else InstallOne(m, Installed(m, files, rcs[..|rcs| - 1], c, env), rcs[|rcs| - 1], c, env)
  }

  /** Why a non-forced uninstall stops at rc. */
  function Obstacle(m: Sentinels, files: Files, rc: string, expected: string, env: Faults): Option<Answer> {
    match ReadBlock(m, files, rc, env)
    case Err(_) => Some(BlockUnreadable(rc))
    case Ok(block) => if block != "" && block != expected then Some(BlockEdited(rc)) else None
  }

  function FirstObstacle(m: Sentinels, files: Files, rcs: seq<string>, expected: string, env: Faults): Option<Answer> {
    if rcs == [] then None else
      var before := FirstObstacle(m, files, rcs[..|rcs| - 1], expected, env);
      if before.Some? then before else Obstacle(m, files, rcs[|rcs| - 1], expected, env)
  }

  predicate HasBlock(m: Sentinels, files: Files, rc: string, env: Faults) {
    var block := ReadBlock(m, files, rc, env);
    block.Ok? && block.value != ""
  }

  function RemoveOne(m: Sentinels, p: Progress, rc: string, env: Faults): Progress {
    if p.failed.Some? || !HasBlock(m, p.files, rc, env) then p
    else if rc in env.unwritable then p.(failed := Some(rc))
    else Progress(p.files[rc := WithoutBlock(m, TextOf(p.files, rc))], p.done + [rc], None)
  }

  function Swept(m: Sentinels, files: Files, rcs: seq<string>, env: Faults): Progress {
    if rcs == [] then Progress(files, [], None)
    else RemoveOne(m, Swept(m, files, rcs[..|rcs| - 1], env), rcs[|rcs| - 1], env)
  }

  function Outcome(m: Sentinels, files: Files, rcs: seq<string>, expected: string, force: bool, env: Faults): (Answer, Files) {
    var obstacle := FirstObstacle(m, files, rcs, expected, env);
    if !force && obstacle.Some? then (obstacle.value, files)
    else
      var p := Swept(m, files, rcs, env);
      (if p.failed.Some? then NotRemoved(p.failed.value) else Removed(p.done), p.files)
  }

  // ---- What holds --------------------------------------------------------

  lemma {:induction false} ObstacleAnywhere(m: Sentinels, files: Files, rcs: seq<string>, expected: string, env: Faults)
    ensures FirstObstacle(m, files, rcs, expected, env).Some? <==>
      exists rc :: rc in rcs && Obstacle(m, files, rc, expected, env).Some?
  {
    if rcs != [] {
      var front := rcs[..|rcs| - 1];
      assert rcs == front + [rcs[|rcs| - 1]];
      ObstacleAnywhere(m, files, front, expected, env);
    }
  }

  /** The rc file is there, and cannot be read, is malformed, or holds an edited block. */
  predicate Guards(m: Sentinels, files: Files, rc: string, expected: string, env: Faults) {
    rc in files && (rc in env.unreadable || IsEdited(m, files[rc], expected) != Ok(false))
  }

  /**
   * Without force, one unreadable, malformed or edited block anywhere keeps every
   * rc file as it is; and only such a block stops the removal.
   */
  lemma GuardedUninstall(m: Sentinels, files: Files, rcs: seq<string>, expected: string, env: Faults)
    ensures var (answer, after) := Outcome(m, files, rcs, expected, false, env);
      var guarded := exists rc :: rc in rcs && Guards(m, files, rc, expected, env);
      && (guarded ==> after == files && (answer.BlockEdited? || answer.BlockUnreadable?))
      && (!guarded ==> (answer, after) == Outcome(m, files, rcs, expected, true, env))
  {
    ObstacleAnywhere(m, files, rcs, expected, env);
    assert forall rc :: Obstacle(m, files, rc, expected, env).Some? <==> Guards(m, files, rc, expected, env);
    ObstacleKind(m, files, rcs, expected, env);
  }

  lemma {:induction false} ObstacleKind(m: Sentinels, files: Files, rcs: seq<string>, expected: string, env: Faults)
    ensures var obstacle := FirstObstacle(m, files, rcs, expected, env);
      obstacle.Some? ==> obstacle.value.BlockEdited? || obstacle.value.BlockUnreadable?
  {
    if rcs != [] { ObstacleKind(m, files, rcs[..|rcs| - 1], expected, env); }
  }

  /** An rc file the sweep reached without failing lost its block; the others are as before. */
  predicate SweptAs(m: Sentinels, files: Files, rcs: seq<string>, env: Faults, p: Progress) {
    && p.files.Keys == files.Keys
    && (forall rc | rc in files ::
          p.files[rc] == if rc in p.done then WithoutBlock(m, files[rc]) else files[rc])
    && (forall rc | rc in p.done :: rc in rcs && HasBlock(m, files, rc, env) && rc !in env.unwritable)
    && (p.failed.None? ==> forall rc | rc in rcs && HasBlock(m, files, rc, env) :: rc in p.done)
    && (p.failed.Some? ==> p.failed.value in rcs && HasBlock(m, files, p.failed.value, env) && p.failed.value in env.unwritable)
  }

  lemma SweepStep(m: Sentinels, files: Files, rcs: seq<string>, rc: string, env: Faults, p: Progress)
    requires SweptAs(m, files, rcs, env, p) && rc !in rcs
    ensures SweptAs(m, files, rcs + [rc], env, RemoveOne(m, p, rc, env))
  {
    assert HasBlock(m, p.files, rc, env) == HasBlock(m, files, rc, env);
  }

  lemma {:induction false} SweepEffect(m: Sentinels, files: Files, rcs: seq<string>, env: Faults)
    requires NoDup(rcs)
    ensures SweptAs(m, files, rcs, env, Swept(m, files, rcs, env))
  {
    if rcs != [] {
      var front, rc := rcs[..|rcs| - 1], rcs[|rcs| - 1];
      assert rcs == front + [rc];
      SweepEffect(m, files, front, env);
      SweepStep(m, files, front, rc, env, Swept(m, files, front, env));
    }
  }

  // ---- What the caller is told -------------------------------------------

  /** The rc file can be read and holds a block with something in it. */
  predicate Shows(m: Sentinels, files: Files, env: Faults, rc: string) {
    rc in files && rc !in env.unreadable && ExtractBlock(m, files[rc]).Ok? && ExtractBlock(m, files[rc]).value != ""
  }

  predicate NoneGuards(m: Sentinels, files: Files, rcs: seq<string>, expected: string, env: Faults) {
    forall rc | rc in rcs :: !Guards(m, files, rc, expected, env)
  }

  /** The answer is about the i-th rc file, the first that stops a non-forced uninstall, and says why it does. */
  predicate StoppedAt(m: Sentinels, files: Files, rcs: seq<string>, expected: string, env: Faults, answer: Answer, i: nat) {
    && i < |rcs| && Guards(m, files, rcs[i], expected, env) && NoneGuards(m, files, rcs[..i], expected, env)
    && match answer
       case BlockUnreadable(rc) => rc == rcs[i] && (rc in env.unreadable || ExtractBlock(m, files[rc]).Err?)
       case BlockEdited(rc) => rc == rcs[i] && Shows(m, files, env, rc) && ExtractBlock(m, files[rc]).value != expected
       case _ => false
  }

  ghost predicate Stopped(m: Sentinels, files: Files, rcs: seq<string>, expected: string, env: Faults, answer: Answer) {
    exists i: nat :: StoppedAt(m, files, rcs, expected, env, answer, i)
  }

  /** The answer names the first rc file that stops the uninstall. */
  lemma {:induction false} NamesFirstGuard(m: Sentinels, files: Files, rcs: seq<string>, expected: string, env: Faults)
    ensures match FirstObstacle(m, files, rcs, expected, env)
      case None => NoneGuards(m, files, rcs, expected, env)
      case Some(answer) => Stopped(m, files, rcs, expected, env, answer)
  {
    if rcs != [] {
      var front, last := rcs[..|rcs| - 1], rcs[|rcs| - 1];
      assert rcs == front + [last];
      NamesFirstGuard(m, files, front, expected, env);
      var before, now := FirstObstacle(m, files, front, expected, env), FirstObstacle(m, files, rcs, expected, env);
      if before.Some? {
        var i: nat :| StoppedAt(m, files, front, expected, env, before.value, i);
        assert front[..i] == rcs[..i];
        assert StoppedAt(m, files, rcs, expected, env, now.value, i);
      } else if now.Some? {
        assert StoppedAt(m, files, rcs, expected, env, now.value, |front|);
      }
    }
  }

  /** The sweep goes through the rc files up to the one it cannot write, and reports those whose block it took out, in order. */
  predicate SweptTo(m: Sentinels, files: Files, rcs: seq<string>, env: Faults, p: Progress, n: nat) {
    && n <= |rcs|
    && p.done == Picked(rcs[..n], rc => Shows(m, files, env, rc), rc => rc)
    && (forall rc | rc in rcs[..n] && Shows(m, files, env, rc) :: rc !in env.unwritable)
    && (if p.failed.None? then n == |rcs|
        else n < |rcs| && p.failed.value == rcs[n] && Shows(m, files, env, rcs[n]) && rcs[n] in env.unwritable)
  }

  lemma ShowsBlock(m: Sentinels, files: Files, rc: string, env: Faults)
    ensures HasBlock(m, files, rc, env) <==> Shows(m, files, env, rc)
  {
  }

  lemma SweptToStep(m: Sentinels, files: Files, front: seq<string>, last: string, env: Faults, p: Progress, q: Progress)
    requires SweptTo(m, files, front, env, p, |front|) && p.failed.None?
    requires q.failed == (if Shows(m, files, env, last) && last in env.unwritable then Some(last) else None)
    requires q.done == p.done + (if Shows(m, files, env, last) && last !in env.unwritable then [last] else [])
    ensures SweptTo(m, files, front + [last], env, q, if q.failed.Some? then |front| else |front| + 1)
  {
    var all := front + [last];
    assert all[..|front|] == front && all[..|all|] == all && front[..|front|] == front;
    PickedStep(front, last, rc => Shows(m, files, env, rc), rc => rc);
  }

  lemma {:induction false} SweepTells(m: Sentinels, files: Files, rcs: seq<string>, env: Faults) returns (n: nat)
    requires NoDup(rcs)
    ensures SweptTo(m, files, rcs, env, Swept(m, files, rcs, env), n)
  {
    if rcs == [] {
      n := 0;
    } else {
      var front, last := rcs[..|rcs| - 1], rcs[|rcs| - 1];
      assert rcs == front + [last];
      var before := Swept(m, files, front, env);
      n := SweepTells(m, files, front, env);
      if before.failed.None? {
        SweepEffect(m, files, front, env);
        assert HasBlock(m, before.files, last, env) == HasBlock(m, files, last, env);
        ShowsBlock(m, files, last, env);
        SweptToStep(m, files, front, last, env, before, RemoveOne(m, before, last, env));
        n := if RemoveOne(m, before, last, env).failed.Some? then |front| else |rcs|;
      } else {
        assert rcs[..n] == front[..n];
      }
    }
  }

  /** The files after taking the blocks of done out. */
  predicate TakenOut(m: Sentinels, files: Files, done: seq<string>, after: Files) {
    && after.Keys == files.Keys
    && forall rc | rc in files :: after[rc] == if rc in done then WithoutBlock(m, files[rc]) else files[rc]
  }

  /** The blocks of done, all that the sweep reaches, were taken out; failed is the rc file it could not write. */
  ghost predicate SweptAll(m: Sentinels, files: Files, rcs: seq<string>, env: Faults, after: Files, done: seq<string>, failed: Option<string>) {
    TakenOut(m, files, done, after) && exists n: nat :: SweptTo(m, files, rcs, env, Progress(after, done, failed), n)
  }

  /**
   * What an uninstall answers and what it does to the rc files: it names the first one
   * that stops it, with the kind of obstacle; or it takes the block out of exactly the
   * ones it reports, in order, up to the first it cannot write.
   */
  lemma UninstallTells(m: Sentinels, files: Files, rcs: seq<string>, expected: string, force: bool, env: Faults)
    requires NoDup(rcs)
    ensures var (answer, after) := Outcome(m, files, rcs, expected, force, env);
      if !force && !NoneGuards(m, files, rcs, expected, env) then
        Stopped(m, files, rcs, expected, env, answer) && after == files
      else
        match answer
        case Removed(done) => SweptAll(m, files, rcs, env, after, done, None)
        case NotRemoved(rc) => exists done :: SweptAll(m, files, rcs, env, after, done, Some(rc))
        case _ => false
  {
    NamesFirstGuard(m, files, rcs, expected, env);
    var p := Swept(m, files, rcs, env);
    var n := SweepTells(m, files, rcs, env);
    SweepEffect(m, files, rcs, env);
    assert SweptAll(m, files, rcs, env, p.files, p.done, p.failed);
    if answer :| FirstObstacle(m, files, rcs, expected, env) == Some(answer) {
      var i: nat :| StoppedAt(m, files, rcs, expected, env, answer, i);
      assert rcs[i] in rcs;
    }
  }

  // ---- Install, then uninstall -------------------------------------------

  const NO_FAULTS := Faults({}, {})

  predicate InstalledAs(m: Sentinels, files: Files, rcs: seq<string>, c: string, after: Files) {
    && after.Keys == files.Keys + Elements(rcs)
    && (forall rc | rc in after ::
          after[rc] == if rc in rcs then ReplaceOrAppendBlock(m, TextOf(files, rc), c) else files[rc])
  }

  lemma {:induction false} InstallEffect(m: Sentinels, files: Files, rcs: seq<string>, c: string)
    requires NoDup(rcs)
    ensures var p := Installed(m, files, rcs, c, NO_FAULTS);
      p.failed.None? && p.done == rcs && InstalledAs(m, files, rcs, c, p.files)
  {
    if rcs != [] {
      var front, rc := rcs[..|rcs| - 1], rcs[|rcs| - 1];
      assert rcs == front + [rc];
      InstallEffect(m, files, front, c);
      InstallStep(m, files, front, rc, c, Installed(m, files, front, c, NO_FAULTS).files);
    }
  }

  lemma InstallStep(m: Sentinels, files: Files, rcs: seq<string>, rc: string, c: string, before: Files)
    requires InstalledAs(m, files, rcs, c, before) && rc !in rcs
    ensures InstalledAs(m, files, rcs + [rc], c, before[rc := ReplaceOrAppendBlock(m, TextOf(before, rc), c)])
  {
    assert TextOf(before, rc) == TextOf(files, rc);
    assert Elements(rcs + [rc]) == Elements(rcs) + {rc};
  }

  /** The rc file cannot be read, or cannot be replaced. */
  predicate Refuses(files: Files, rc: string, env: Faults) {
    (rc in files && rc in env.unreadable) || rc in env.unwritable
  }

  /** An install writes the block into the rc files before the first that refuses it, and into no other. */
  lemma {:induction false} InstallTells(m: Sentinels, files: Files, rcs: seq<string>, c: string, env: Faults)
    requires NoDup(rcs)
    ensures var p := Installed(m, files, rcs, c, env);
      && p.done <= rcs && (forall rc | rc in p.done :: !Refuses(files, rc, env))
      && (match p.failed
          case None => p.done == rcs
          case Some(rc) => |p.done| < |rcs| && rcs[|p.done|] == rc && Refuses(files, rc, env))
      && InstalledAs(m, files, p.done, c, p.files)
  {
    if rcs != [] {
      var front, rc := rcs[..|rcs| - 1], rcs[|rcs| - 1];
      assert rcs == front + [rc];
      InstallTells(m, files, front, c, env);
      var before := Installed(m, files, front, c, env);
      if before.failed.None? {
        assert rc in before.files <==> rc in files;
        if !Refuses(files, rc, env) { InstallStep(m, files, front, rc, c, before.files); }
      }
    }
  }

  predicate Clean(m: Sentinels, files: Files, rcs: seq<string>) {
    forall rc | rc in rcs :: !Contains(TextOf(files, rc), m.start)
  }

  /**
   * Over rc files without a block, install and then a non-forced uninstall with the
   * same content removes every block and gives back each file up to its trailing
   * newlines; a file that was absent is left empty.
   */
  lemma InstallThenUninstall(m: Sentinels, files: Files, rcs: seq<string>, c: string)
    requires WellMarked(m) && NoDup(rcs) && Clean(m, files, rcs)
    requires c != "" && c[|c| - 1] != '\n' && !Contains(c, m.end)
    ensures var (answer, after) := Outcome(m, Installed(m, files, rcs, c, NO_FAULTS).files, rcs, c, false, NO_FAULTS);
      && answer.Removed? && (forall rc :: rc in answer.rcs <==> rc in rcs)
      && after.Keys == files.Keys + Elements(rcs)
      && (forall rc | rc in after ::
            after[rc] == if rc in rcs then Collapse(TextOf(files, rc)) else files[rc])
  {
    hide Installed, ExtractBlock, WithoutBlock, ReplaceOrAppendBlock, Collapse;
    var full := Installed(m, files, rcs, c, NO_FAULTS).files;
    InstallEffect(m, files, rcs, c);
    forall rc | rc in rcs
      ensures ReadBlock(m, full, rc, NO_FAULTS) == Ok(c) && WithoutBlock(m, full[rc]) == Collapse(TextOf(files, rc))
    {
      FreshBlock(m, TextOf(files, rc), c);
    }
    ObstacleAnywhere(m, full, rcs, c, NO_FAULTS);
    SweepEffect(m, full, rcs, NO_FAULTS);
    SweepOfFresh(m, files, full, rcs, c, Swept(m, full, rcs, NO_FAULTS));
  }

  lemma FreshBlock(m: Sentinels, file: string, c: string)
    requires WellMarked(m) && !Contains(file, m.start)
    requires c != "" && c[|c| - 1] != '\n' && !Contains(c, m.end)
    ensures ExtractBlock(m, ReplaceOrAppendBlock(m, file, c)) == Ok(c)
    ensures WithoutBlock(m, ReplaceOrAppendBlock(m, file, c)) == Collapse(file)
  {
    NotContained(file, m.start);
    ReadsBackWhatWasWritten(m, file, c);
    RemoveUndoesInstall(m, file, c);
  }

  lemma SweepOfFresh(m: Sentinels, files: Files, full: Files, rcs: seq<string>, c: string, p: Progress)
    requires c != "" && InstalledAs(m, files, rcs, c, full) && SweptAs(m, full, rcs, NO_FAULTS, p)
    requires forall rc | rc in rcs ::
      ReadBlock(m, full, rc, NO_FAULTS) == Ok(c) && WithoutBlock(m, full[rc]) == Collapse(TextOf(files, rc))
    ensures p.failed.None? && (forall rc :: rc in p.done <==> rc in rcs)
    ensures p.files.Keys == files.Keys + Elements(rcs)
    ensures forall rc | rc in p.files ::
      p.files[rc] == if rc in rcs then Collapse(TextOf(files, rc)) else files[rc]
  {
  }

  // ---- The loops ---------------------------------------------------------

  class Home {
    const m: Sentinels
    var files: Files

    constructor (m: Sentinels, files: Files)
      ensures this.m == m && this.files == files
    {
      this.m, this.files := m, files;
    }

    method WriteBlock(rc: string, content: string, env: Faults) returns (ok: bool)
      modifies this`files
      ensures ok == !((rc in old(files) && rc in env.unreadable) || rc in env.unwritable)
      ensures files == if ok then old(files)[rc := ReplaceOrAppendBlock(m, TextOf(old(files), rc), content)] else old(files)
      ensures var text := TextOf(old(files), rc);
        ok && !Contains(text, m.start) ==>
          files[rc] == (if LacksNewline(text) then text + "\n" else text) + m.start + "\n" + content + "\n" + m.end + "\n"
    {
      if !Contains(TextOf(files, rc), m.start) { AppendKeepsFile(m, TextOf(files, rc), content); }
      if rc in files && rc in env.unreadable { return false; }
      var existing := TextOf(files, rc);
      var newContent := ReplaceOrAppendBlock(m, existing, content);
      if rc in env.unwritable { return false; }
      files := files[rc := newContent];
      return true;
    }

    method Install(rcs: seq<string>, content: string, env: Faults) returns (wrote: seq<string>, failed: Option<string>)
      modifies this`files
      ensures Progress(files, wrote, failed) == Installed(m, old(files), rcs, content, env)
    {
      wrote, failed := [], None;
      for i := 0 to |rcs|
        invariant failed.None? && Progress(files, wrote, None) == Installed(m, old(files), rcs[..i], content, env)
      {
        assert rcs[..i + 1][..i] == rcs[..i];
        var ok := WriteBlock(rcs[i], content, env);
        if !ok {
          failed := Some(rcs[i]);
          InstallStops(m, old(files), rcs, i + 1, content, env);
          return;
        }
        wrote := wrote + [rcs[i]];
      }
      assert rcs[..|rcs|] == rcs;
    }

    method RemoveBlock(rc: string, env: Faults) returns (ok: bool)
      requires HasBlock(m, files, rc, env)
      modifies this`files
      ensures ok == (rc !in env.unwritable)
      ensures files == if ok then old(files)[rc := WithoutBlock(m, TextOf(old(files), rc))] else old(files)
    {
      var newContent := WithoutBlock(m, files[rc]);
      if rc in env.unwritable { return false; }
      files := files[rc := newContent];
      return true;
    }

    method CheckBlocks(rcs: seq<string>, expected: string, env: Faults) returns (obstacle: Option<Answer>)
      ensures obstacle == FirstObstacle(m, files, rcs, expected, env)
    {
      for i := 0 to |rcs|
        invariant FirstObstacle(m, files, rcs[..i], expected, env) == None
      {
        assert rcs[..i + 1][..i] == rcs[..i];
        var rc := rcs[i];
        if rc in files {
          var block := ReadBlock(m, files, rc, env);
          if block.Err? {
            ObstacleStops(m, files, rcs, i + 1, expected, env);
            return Some(BlockUnreadable(rc));
          }
          if block.value != "" {
            var edited := IsEdited(m, files[rc], expected);
            if edited == Ok(true) {
              ObstacleStops(m, files, rcs, i + 1, expected, env);
              return Some(BlockEdited(rc));
            }
          }
        }
      }
      assert rcs[..|rcs|] == rcs;
      return None;
    }

    /** The second phase takes the blocks out, up to the first rc file that cannot be written. */
    method TakeOutBlocks(rcs: seq<string>, env: Faults) returns (removed: seq<string>, failed: Option<string>)
      modifies this`files
      ensures Progress(files, removed, failed) == Swept(m, old(files), rcs, env)
    {
      removed, failed := [], None;
      for i := 0 to |rcs|
        invariant failed.None? && Progress(files, removed, None) == Swept(m, old(files), rcs[..i], env)
      {
        assert rcs[..i + 1][..i] == rcs[..i];
        if HasBlock(m, files, rcs[i], env) {
          var ok := RemoveBlock(rcs[i], env);
          if !ok {
            SweepStops(m, old(files), rcs, i + 1, env);
            failed := Some(rcs[i]);
            return;
          }
          removed := removed + [rcs[i]];
        }
      }
      assert rcs[..|rcs|] == rcs;
    }

    method Uninstall(rcs: seq<string>, expected: string, force: bool, env: Faults) returns (answer: Answer)
      modifies this`files
      ensures (answer, files) == Outcome(m, old(files), rcs, expected, force, env)
    {
      if !force {
        var obstacle := CheckBlocks(rcs, expected, env);
        if obstacle.Some? { return obstacle.value; }
      }
      var removed, failed := TakeOutBlocks(rcs, env);
      return if failed.Some? then NotRemoved(failed.value) else Removed(removed);
    }
  }

  lemma {:induction false} InstallStops(m: Sentinels, files: Files, rcs: seq<string>, k: nat, c: string, env: Faults)
    requires k <= |rcs| && Installed(m, files, rcs[..k], c, env).failed.Some?
    ensures Installed(m, files, rcs, c, env) == Installed(m, files, rcs[..k], c, env)
  {
    if k < |rcs| {
      assert rcs[..|rcs| - 1][..k] == rcs[..k];
      InstallStops(m, files, rcs[..|rcs| - 1], k, c, env);
    } else {
      assert rcs[..k] == rcs;
    }
  }

  lemma {:induction false} ObstacleStops(m: Sentinels, files: Files, rcs: seq<string>, k: nat, expected: string, env: Faults)
    requires k <= |rcs| && FirstObstacle(m, files, rcs[..k], expected, env).Some?
    ensures FirstObstacle(m, files, rcs, expected, env) == FirstObstacle(m, files, rcs[..k], expected, env)
  {
    if k < |rcs| {
      assert rcs[..|rcs| - 1][..k] == rcs[..k];
      ObstacleStops(m, files, rcs[..|rcs| - 1], k, expected, env);
    } else {
      assert rcs[..k] == rcs;
    }
  }

  lemma {:induction false} SweepStops(m: Sentinels, files: Files, rcs: seq<string>, k: nat, env: Faults)
    requires k <= |rcs| && Swept(m, files, rcs[..k], env).failed.Some?
    ensures Swept(m, files, rcs, env) == Swept(m, files, rcs[..k], env)
  {
    if k < |rcs| {
      assert rcs[..|rcs| - 1][..k] == rcs[..k];
      SweepStops(m, files, rcs[..|rcs| - 1], k, env);
    } else {
      assert rcs[..k] == rcs;
    }
  }
}
