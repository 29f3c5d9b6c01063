/** Which of the plans that internal/render/plan.go makes can be undone wherever they fail. */
module ComposedUndo {
  import opened Common
  import opened Documents
  import opened ArrayMerge
  import opened Sections
  import opened AtomicFile
  import opened Apply
  import opened Undo
  import opened Plan
  import opened Reapply
  import opened OneByOne

  // ---- The document ------------------------------------------------------

  predicate Changes(ops: seq<TargetOp>, path: string) {
    exists op :: op in ops && op.path == path && op.op != OpNoop
  }

  /** The op changes path, its backup is not suppressed, and there is something to back up. */
  predicate SavesChange(ops: seq<TargetOp>, op: TargetOp, path: string, present: bool) {
    op.path == path && op.op != OpNoop && !op.suppress && (present || Changes(ops, path))
  }

  /** How many of the ops back up what they change; present says whether the file was there at the start. */
  function SavedChanges(ops: seq<TargetOp>, path: string, present: bool): nat {
    if ops == [] then 0 else
      var front, op := ops[..|ops| - 1], ops[|ops| - 1];
      SavedChanges(front, path, present) + (if SavesChange(front, op, path, present) then 1 else 0)
  }

  /** Whether the first change of path, if any, is backed up or finds no file. */
  predicate FirstChangeSaved(ops: seq<TargetOp>, path: string, present: bool) {
    ops == [] ||
      (var front, op := ops[..|ops| - 1], ops[|ops| - 1];
       && FirstChangeSaved(front, path, present)
       && (op.path == path && op.op != OpNoop && !Changes(front, path) ==> !present || !op.suppress))
  }

  lemma ChangesAppend(ops: seq<TargetOp>, op: TargetOp, path: string)
    ensures Changes(ops + [op], path) <==> Changes(ops, path) || (op.path == path && op.op != OpNoop)
  {
    assert forall o :: o in ops + [op] <==> o in ops || o == op;
    if Changes(ops, path) {
      var o :| o in ops && o.path == path && o.op != OpNoop;
      assert o in ops + [op];
    }
    assert op in ops + [op];
  }

  lemma {:induction false} LastPresent(ops: seq<TargetOp>, path: string, initial: Option<Bytes>)
    ensures LastContent(ops, path, initial).Some? <==> initial.Some? || Changes(ops, path)
    ensures !Changes(ops, path) ==> LastContent(ops, path, initial) == initial
  {
    if ops != [] {
      var front, op := ops[..|ops| - 1], ops[|ops| - 1];
      assert ops == front + [op];
      LastPresent(front, path, initial);
      ChangesAppend(front, op, path);
    }
  }

  /** In a chain of ops every op finds the bytes it was planned from. */
  lemma LinkedSaves(ops: seq<TargetOp>, op: TargetOp, path: string, initial: Option<Bytes>, last: Bytes, max: int)
    requires max > 0 && op.path == path && Linked(OpsOn(ops, path) + [op], AsBytes(initial), last)
    ensures Linked(OpsOn(ops, path), AsBytes(initial), op.before)
    ensures Saves(ops, op, path, initial, max) <==> SavesChange(ops, op, path, initial.Some?)
  {
    LinkedFront(OpsOn(ops, path), op, AsBytes(initial), last);
    LinkedLast(ops, path, initial, op.before);
    LastPresent(ops, path, initial);
  }

  /** Along a chain of ops the backups are the changes that are not suppressed, but for one that finds no file. */
  lemma {:induction false} ChainBackups(ops: seq<TargetOp>, path: string, initial: Option<Bytes>, last: Bytes, max: int)
    requires max > 0 && Linked(OpsOn(ops, path), AsBytes(initial), last)
    ensures BackupCount(ops, path, initial, max) == SavedChanges(ops, path, initial.Some?)
  {
    if ops != [] {
      var front, op := ops[..|ops| - 1], ops[|ops| - 1];
      if op.path == path {
        LinkedSaves(front, op, path, initial, last, max);
        ChainBackups(front, path, initial, op.before, max);
      } else {
        ChainBackups(front, path, initial, last, max);
      }
    }
  }

  lemma {:induction false} FirstOpChanges(plan: seq<TargetOp>, i: nat, path: string)
    requires i <= |plan|
    ensures FirstOp(plan, i, path).Some? <==> Changes(plan[..i], path)
  {
    if i > 0 {
      FirstOpChanges(plan, i - 1, path);
      assert plan[..i] == plan[..i - 1] + [plan[i - 1]];
      ChangesAppend(plan[..i - 1], plan[i - 1], path);
    }
  }

  /** The first change of a chain is recoverable exactly when it is saved or found no file. */
  lemma {:induction false} ChainRecoverable(w: World, plan: seq<TargetOp>, i: nat, path: string, last: Bytes, max: int)
    requires i <= |plan| && max > 0 && Linked(OpsOn(plan[..i], path), AsBytes(ContentOf(w, path)), last)
    ensures Recoverable(w, plan, max, i, path) <==> FirstChangeSaved(plan[..i], path, ContentOf(w, path).Some?)
  {
    if i > 0 {
      var front, op := plan[..i - 1], plan[i - 1];
      assert plan[..i][..i - 1] == front;
      FirstOpChanges(plan, i - 1, path);
      FirstOpBound(plan, i - 1, path);
      FirstOpBound(plan, i, path);
      if op.path == path {
        LinkedSaves(front, op, path, ContentOf(w, path), last, max);
        ChainRecoverable(w, plan, i - 1, path, op.before, max);
        LastPresent(front, path, ContentOf(w, path));
      } else {
        ChainRecoverable(w, plan, i - 1, path, last, max);
      }
    }
  }

  /** The condition on the document: told from the ops, whether the file was there, and the bound. */
  predicate DocUndoable(plan: seq<TargetOp>, path: string, present: bool, max: int) {
    forall i | 0 <= i < |plan| && plan[i].op != OpNoop ::
      && FirstChangeSaved(plan[..i], path, present)
      && Fits(SavedChanges(plan[..i], path, present), SavesChange(plan[..i], plan[i], path, present), max)
  }

  lemma {:induction false} LinkedPrefix(ops: seq<TargetOp>, first: Bytes, last: Bytes, n: nat) returns (mid: Bytes)
    requires n <= |ops| && Linked(ops, first, last)
    ensures Linked(ops[..n], first, mid)
    ensures n < |ops| ==> mid == ops[n].before
  {
    if n == |ops| {
      assert ops[..n] == ops;
      mid := last;
    } else {
      var front, op := ops[..|ops| - 1], ops[|ops| - 1];
      assert ops == front + [op];
      LinkedFront(front, op, first, last);
      assert front[..n] == ops[..n];
      mid := LinkedPrefix(front, first, op.before, n);
    }
  }

  lemma {:induction false} OpsOnPrefix(plan: seq<TargetOp>, path: string, i: nat) returns (n: nat)
    requires i <= |plan|
    ensures n <= |OpsOn(plan, path)| && OpsOn(plan[..i], path) == OpsOn(plan, path)[..n]
    ensures i < |plan| && plan[i].path == path ==> n < |OpsOn(plan, path)| && OpsOn(plan, path)[n] == plan[i]
  {
    if i == |plan| {
      assert plan[..i] == plan;
      n := |OpsOn(plan, path)|;
    } else {
      var front := plan[..|plan| - 1];
      assert front[..i] == plan[..i];
      n := OpsOnPrefix(front, path, i);
    }
  }

  lemma DocIsUndoable(w: World, plan: seq<TargetOp>, path: string, last: Bytes, max: int)
    requires max > 0 && Linked(OpsOn(plan, path), AsBytes(ContentOf(w, path)), last)
    ensures Undoable(w, plan, max, path) <==> DocUndoable(plan, path, ContentOf(w, path).Some?, max)
  {
    var present := ContentOf(w, path).Some?;
    forall i | 0 <= i < |plan|
      ensures Recoverable(w, plan, max, i, path) <==> FirstChangeSaved(plan[..i], path, present)
      ensures Room(w, plan, max, i, path, true) <==>
        Fits(SavedChanges(plan[..i], path, present), SavesChange(plan[..i], plan[i], path, present), max)
    {
      DocPrefix(w, plan, path, last, max, i);
    }
  }

  lemma DocPrefix(w: World, plan: seq<TargetOp>, path: string, last: Bytes, max: int, i: nat)
    requires i < |plan| && max > 0 && Linked(OpsOn(plan, path), AsBytes(ContentOf(w, path)), last)
    ensures var present := ContentOf(w, path).Some?;
      && (Recoverable(w, plan, max, i, path) <==> FirstChangeSaved(plan[..i], path, present))
      && (Room(w, plan, max, i, path, true) <==>
            Fits(SavedChanges(plan[..i], path, present), SavesChange(plan[..i], plan[i], path, present), max))
  {
    var n := OpsOnPrefix(plan, path, i);
    var mid := LinkedPrefix(OpsOn(plan, path), AsBytes(ContentOf(w, path)), last, n);
    ChainRecoverable(w, plan, i, path, mid, max);
    ChainBackups(plan[..i], path, ContentOf(w, path), mid, max);
    if plan[i].path == path {
      var next := LinkedPrefix(OpsOn(plan, path), AsBytes(ContentOf(w, path)), last, n + 1);
      assert OpsOn(plan, path)[..n + 1] == OpsOn(plan[..i], path) + [plan[i]];
      LinkedSaves(plan[..i], plan[i], path, ContentOf(w, path), next, max);
    }
  }

  // ---- Files written whole -----------------------------------------------

  predicate OverwrittenBy(ops: seq<TargetOp>, path: string, before: Bytes, after: Bytes) {
    forall op | op in ops && op.path == path :: Overwrites(op, before, after)
  }

  /** Overwriting a file with the same content again and again backs it up at most once. */
  lemma {:induction false} WholeBackups(ops: seq<TargetOp>, path: string, initial: Option<Bytes>, after: Bytes, max: int)
    requires OverwrittenBy(ops, path, AsBytes(initial), after)
    ensures BackupCount(ops, path, initial, max) <= 1
    ensures BackupCount(ops, path, initial, max) == 1 ==> LastContent(ops, path, initial) == Some(after)
    ensures LastContent(ops, path, initial) == initial || LastContent(ops, path, initial) == Some(after)
  {
    if ops != [] {
      var front, op := ops[..|ops| - 1], ops[|ops| - 1];
      assert ops == front + [op];
      WholeBackups(front, path, initial, after, max);
    }
  }

  lemma {:induction false} FirstOpIn(plan: seq<TargetOp>, i: nat, path: string)
    requires i <= |plan|
    ensures FirstOp(plan, i, path).Some? ==>
      var j := FirstOp(plan, i, path).value;
      j < i && plan[j] in plan && plan[j].path == path && plan[j].op != OpNoop
  {
    if i > 0 { FirstOpIn(plan, i - 1, path); }
  }

  /** So a file written whole is always undoable. */
  lemma WholeIsUndoable(w: World, plan: seq<TargetOp>, path: string, after: Bytes, max: int)
    requires max > 0 && OverwrittenBy(plan, path, AsBytes(ContentOf(w, path)), after)
    ensures Undoable(w, plan, max, path)
  {
    forall i | 0 <= i < |plan| && plan[i].op != OpNoop
      ensures Recoverable(w, plan, max, i, path) && Room(w, plan, max, i, path, true)
    {
      FirstOpBound(plan, i, path);
      FirstOpIn(plan, i, path);
      assert forall op | op in plan[..i] :: op in plan;
      WholeBackups(plan[..i], path, ContentOf(w, path), after, max);
      assert plan[i] in plan;
    }
  }

  // ---- Composed plans ----------------------------------------------------

  /**
   * A composed plan is undoable exactly when its ops on the document are: every other
   * file it writes always is.
   */
  lemma ComposedUndoable(stack: Stack, site: Site, paths: Paths, w: World, ts: seq<Target>, max: int)
    requires Tidy(stack, paths) && Compose(stack, site, paths, w, ts).Ok? && max > 0
    ensures var plan := Compose(stack, site, paths, w, ts).value.ops;
      (forall path :: Undoable(w, plan, max, path)) <==>
        DocUndoable(plan, paths.opencode, ContentOf(w, paths.opencode).Some?, max)
  {
    var c := Compose(stack, site, paths, w, ts).value;
    ComposeLinks(stack, site, paths, w, ts);
    DocIsUndoable(w, c.ops, paths.opencode, c.doc, max);
    WholeFileOps(stack, site, paths, w, ts);
    forall path | path != paths.opencode
      ensures Undoable(w, c.ops, max, path)
    {
      var after := OneAfter(stack, paths, w, ts, c.ops, path);
      WholeIsUndoable(w, c.ops, path, after, max);
    }
  }

  lemma OneAfter(stack: Stack, paths: Paths, w: World, ts: seq<Target>, ops: seq<TargetOp>, path: string) returns (after: Bytes)
    requires Tidy(stack, paths) && path != paths.opencode
    requires forall op | op in ops && op.path != paths.opencode ::
      WholeFile(stack, paths, ts, op.path, op.after) && Overwrites(op, ReadIfExists(w, op.path), op.after)
    ensures OverwrittenBy(ops, path, AsBytes(ContentOf(w, path)), after)
  {
    if first :| first in ops && first.path == path {
      after := first.after;
      forall op | op in ops && op.path == path
        ensures Overwrites(op, AsBytes(ContentOf(w, path)), after)
      {
        OneContent(stack, paths, ts, ts, path, op.after, after);
      }
    } else {
      after := Empty;
    }
  }

  /** A failed apply of a composed plan is always undone exactly when its document ops are undoable. */
  lemma ComposedApplyIsUndone(stack: Stack, site: Site, paths: Paths, w: World, ts: seq<Target>, opts: Options)
    requires Tidy(stack, paths) && Compose(stack, site, paths, w, ts).Ok?
    requires Valid(w) && !opts.dryRun && !opts.noRollback && EffectiveMax(opts) > 0
    ensures var plan := Compose(stack, site, paths, w, ts).value.ops;
      AlwaysUndone(w, plan, opts) <==>
        DocUndoable(plan, paths.opencode, ContentOf(w, paths.opencode).Some?, EffectiveMax(opts))
  {
    FailedApplyIsUndone(w, Compose(stack, site, paths, w, ts).value.ops, opts);
    ComposedUndoable(stack, site, paths, w, ts, EffectiveMax(opts));
  }

  /** More backed-up changes than backups are kept: the plan has a failure that is not undone. */
  lemma {:induction false} TooManyChanges(plan: seq<TargetOp>, path: string, present: bool, max: int)
    requires max > 0 && SavedChanges(plan, path, present) > max
    ensures !DocUndoable(plan, path, present, max)
  {
    var n := |plan| - 1;
    if SavedChanges(plan[..n], path, present) > max {
      TooManyChanges(plan[..n], path, present, max);
      var i :| 0 <= i < n && plan[..n][i].op != OpNoop
        && !(FirstChangeSaved(plan[..n][..i], path, present)
             && Fits(SavedChanges(plan[..n][..i], path, present), SavesChange(plan[..n][..i], plan[..n][i], path, present), max));
      assert plan[..n][..i] == plan[..i] && plan[..n][i] == plan[i];
    } else {
      assert !Fits(SavedChanges(plan[..n], path, present), SavesChange(plan[..n], plan[n], path, present), max);
    }
  }

  // ---- The plans of single targets ---------------------------------------

  /** The plans that the apply command makes, one for each target, are undone wherever they fail. */
  lemma TargetApplyIsUndone(stack: Stack, site: Site, paths: Paths, w: World, t: Target, opts: Options)
    requires Tidy(stack, paths) && PlanTarget(stack, site, paths, w, t).Ok?
    requires Valid(w) && !opts.dryRun && !opts.noRollback && EffectiveMax(opts) > 0
    ensures AlwaysUndone(w, PlanTarget(stack, site, paths, w, t).value, opts)
  {
    var plan := PlanTarget(stack, site, paths, w, t).value;
    PlanIsCompose(stack, site, paths, w, t);
    ComposedApplyIsUndone(stack, site, paths, w, [t], opts);
    var present, max := ContentOf(w, paths.opencode).Some?, EffectiveMax(opts);
    forall i | 0 <= i < |plan| && plan[i].op != OpNoop
      ensures FirstChangeSaved(plan[..i], paths.opencode, present)
      ensures Fits(SavedChanges(plan[..i], paths.opencode, present),
                   SavesChange(plan[..i], plan[i], paths.opencode, present), max)
    {
      AtMostOneChange(stack, paths, w, t, plan, i, present);
    }
  }

  lemma {:induction false} NoChange(ops: seq<TargetOp>, path: string, present: bool)
    requires forall op | op in ops :: op.path != path
    ensures SavedChanges(ops, path, present) == 0 && FirstChangeSaved(ops, path, present)
  {
    if ops != [] {
      assert ops == ops[..|ops| - 1] + [ops[|ops| - 1]];
      NoChange(ops[..|ops| - 1], path, present);
    }
  }

  lemma AtMostOneChange(stack: Stack, paths: Paths, w: World, t: Target, plan: seq<TargetOp>, i: nat, present: bool)
    requires Tidy(stack, paths) && i < |plan|
    requires exists doc, next :: plan == OpsOf(stack, paths, w, t, doc, next)
    ensures FirstChangeSaved(plan[..i], paths.opencode, present)
    ensures SavedChanges(plan[..i], paths.opencode, present) <= 1
    ensures SavedChanges(plan[..i], paths.opencode, present) == 1 ==> plan[i].path != paths.opencode
  {
    if t.Skills? {
      forall op | op in plan[..i]
        ensures op.path != paths.opencode
      {
        var j :| 0 <= j < i && plan[j] == op;
        assert stack.skills[j] in stack.skills;
      }
      NoChange(plan[..i], paths.opencode, present);
    } else if i == 1 {
      assert plan[..1][..0] == [];
    }
  }
}
