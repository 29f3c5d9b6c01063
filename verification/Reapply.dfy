/** Planning again over what a successful apply left: every op is a noop. */
module Reapply {
  import opened Common
  import opened Documents
  import opened ArrayMerge
  import opened Sections
  import opened Overlap
  import opened AtomicFile
  import opened Apply
  import opened Plan

  /** The document, the vision file and the skill files are different files, and no skill file has two contents. */
  predicate Tidy(stack: Stack, paths: Paths) {
    && Apart(stack, paths)
    && (forall s | s in stack.skills :: s.0 != paths.vision)
    && (forall s, t | s in stack.skills && t in stack.skills && s.0 == t.0 :: s.1 == t.1)
  }

  // ---- Files written whole -----------------------------------------------

  /** A file a target writes whole, with the content it should have. */
  predicate WholeFile(stack: Stack, paths: Paths, ts: seq<Target>, path: string, content: Bytes) {
    || (MCP in ts && path == paths.vision && content == stack.vision)
    || (Skills in ts && (path, content) in stack.skills)
  }

  predicate Overwrites(op: TargetOp, before: Bytes, after: Bytes) {
    op.before == before && op.after == after && (op.op == OpNoop <==> before == after) && !op.suppress
  }

  lemma {:induction false} OverwritesLast(ops: seq<TargetOp>, path: string, initial: Option<Bytes>, after: Bytes)
    requires forall op | op in ops && op.path == path :: Overwrites(op, AsBytes(initial), after)
    ensures (exists op :: op in ops && op.path == path) ==> AsBytes(LastContent(ops, path, initial)) == after
    ensures AsBytes(initial) == after ==> AsBytes(LastContent(ops, path, initial)) == after
  {
    if ops != [] {
      var front, last := ops[..|ops| - 1], ops[|ops| - 1];
      assert ops == front + [last];
      OverwritesLast(front, path, initial, after);
    }
  }

  /** Every op off the document overwrites one of the whole files, and each of those files has an op. */
  lemma {:induction false} WholeFileOps(stack: Stack, site: Site, paths: Paths, w: World, ts: seq<Target>)
    requires Tidy(stack, paths) && Compose(stack, site, paths, w, ts).Ok?
    ensures var ops := Compose(stack, site, paths, w, ts).value.ops;
      && (forall op | op in ops && op.path != paths.opencode ::
            WholeFile(stack, paths, ts, op.path, op.after) && Overwrites(op, ReadIfExists(w, op.path), op.after))
      && (forall path, content | WholeFile(stack, paths, ts, path, content) :: exists op :: op in ops && op.path == path)
  {
    if ts != [] {
      var front, t := ts[..|ts| - 1], ts[|ts| - 1];
      assert ts == front + [t];
      WholeFileOps(stack, site, paths, w, front);
      var c := Compose(stack, site, paths, w, front).value;
      var next := NextDoc(stack, site, t, c.doc).value;
      var ops := OpsOf(stack, paths, w, t, c.doc, next);
      WholeFileOpsOf(stack, paths, w, t, c.doc, next);
      forall path, content | WholeFile(stack, paths, ts, path, content)
        ensures exists op :: op in c.ops + ops && op.path == path
      {
        if WholeFile(stack, paths, front, path, content) {
          var op :| op in c.ops && op.path == path;
          assert op in c.ops + ops;
        } else {
          assert WholeFile(stack, paths, [t], path, content);
          var op :| op in ops && op.path == path;
          assert op in c.ops + ops;
        }
      }
      forall op | op in ops && op.path != paths.opencode
        ensures WholeFile(stack, paths, ts, op.path, op.after)
      {
        assert WholeFile(stack, paths, [t], op.path, op.after);
      }
    }
  }

  lemma WholeFileOpsOf(stack: Stack, paths: Paths, w: World, t: Target, current: Bytes, next: Bytes)
    requires Tidy(stack, paths)
    ensures var ops := OpsOf(stack, paths, w, t, current, next);
      && (forall op | op in ops && op.path != paths.opencode ::
            WholeFile(stack, paths, [t], op.path, op.after) && Overwrites(op, ReadIfExists(w, op.path), op.after))
      && (forall path, content | WholeFile(stack, paths, [t], path, content) :: exists op :: op in ops && op.path == path)
  {
    var ops := OpsOf(stack, paths, w, t, current, next);
    if t.Skills? {
      forall op | op in ops
        ensures WholeFile(stack, paths, [t], op.path, op.after) && Overwrites(op, ReadIfExists(w, op.path), op.after)
      {
        var i :| 0 <= i < |ops| && ops[i] == op;
        assert stack.skills[i] in stack.skills;
        assert stack.skills[i] == (op.path, op.after);
      }
      forall path, content | WholeFile(stack, paths, [t], path, content)
        ensures exists op :: op in ops && op.path == path
      {
        var i :| 0 <= i < |stack.skills| && stack.skills[i] == (path, content);
        assert ops[i] in ops && ops[i].path == path;
      }
    } else if t.MCP? {
      assert ops[1].path == paths.vision && ops[1] in ops;
    }
  }

  /** After a successful apply each whole file holds its content. */
  lemma ApplyLeavesFiles(stack: Stack, site: Site, paths: Paths, w: World, ts: seq<Target>, w2: World, path: string, content: Bytes)
    requires Tidy(stack, paths) && Compose(stack, site, paths, w, ts).Ok?
    requires Applied(w, Compose(stack, site, paths, w, ts).value.ops, w2)
    requires WholeFile(stack, paths, ts, path, content)
    ensures ReadIfExists(w2, path) == content
  {
    var ops := Compose(stack, site, paths, w, ts).value.ops;
    WholeFileOps(stack, site, paths, w, ts);
    assert path != paths.opencode;
    forall op | op in ops && op.path == path
      ensures Overwrites(op, AsBytes(ContentOf(w, path)), content)
    {
      assert WholeFile(stack, paths, ts, path, op.after);
    }
    OverwritesLast(ops, path, ContentOf(w, path), content);
    AppliedContent(w, ops, w2, path);
  }

  // ---- Composing again ---------------------------------------------------

  predicate AllNoop(ops: seq<TargetOp>) {
    forall op | op in ops :: op.op == OpNoop
  }

  /** No op on the document exactly when every target leaves it alone. */
  lemma {:induction false} StableExactly(stack: Stack, site: Site, paths: Paths, w: World, ts: seq<Target>)
    requires Apart(stack, paths)
    ensures var doc, c := ReadIfExists(w, paths.opencode), Compose(stack, site, paths, w, ts);
      c.Ok? && AllNoop(OpsOn(c.value.ops, paths.opencode)) <==>
        forall t | t in ts :: NextDoc(stack, site, t, doc) == Ok(doc)
    ensures var doc, c := ReadIfExists(w, paths.opencode), Compose(stack, site, paths, w, ts);
      c.Ok? && AllNoop(OpsOn(c.value.ops, paths.opencode)) ==> c.value.doc == doc
  {
    if ts != [] {
      var front, t := ts[..|ts| - 1], ts[|ts| - 1];
      assert ts == front + [t];
      StableExactly(stack, site, paths, w, front);
      var c := Compose(stack, site, paths, w, front);
      if c.Ok? && NextDoc(stack, site, t, c.value.doc).Ok? {
        StableStep(stack, site, paths, w, t, c.value, NextDoc(stack, site, t, c.value.doc).value);
      }
    }
  }

  /** One target adds no op that changes the document exactly when it leaves it alone. */
  lemma StableStep(stack: Stack, site: Site, paths: Paths, w: World, t: Target, c: Composed, next: Bytes)
    requires Apart(stack, paths) && NextDoc(stack, site, t, c.doc) == Ok(next)
    ensures AllNoop(OpsOn(c.ops + OpsOf(stack, paths, w, t, c.doc, next), paths.opencode)) <==>
      AllNoop(OpsOn(c.ops, paths.opencode)) && next == c.doc
  {
    var ops := OpsOf(stack, paths, w, t, c.doc, next);
    OwnNoop(stack, paths, w, t, c.doc, next);
    OpsOnAppend(c.ops, ops, paths.opencode);
    NoopAppend(OpsOn(c.ops, paths.opencode), OpsOn(ops, paths.opencode));
  }

  lemma NoopAppend(a: seq<TargetOp>, b: seq<TargetOp>)
    ensures AllNoop(a + b) <==> AllNoop(a) && AllNoop(b)
  {
    assert forall op :: op in a + b <==> op in a || op in b;
  }

  lemma OwnNoop(stack: Stack, paths: Paths, w: World, t: Target, current: Bytes, next: Bytes)
    requires Apart(stack, paths) && (!Touches(stack, t) ==> next == current)
    ensures AllNoop(OpsOn(OpsOf(stack, paths, w, t, current, next), paths.opencode)) <==> next == current
  {
    OpsOfOnDoc(stack, paths, w, t, current, next);
    var own := OpsOn(OpsOf(stack, paths, w, t, current, next), paths.opencode);
    if own != [] { assert own[0] in own; }
  }

  lemma {:induction false} OpsOnIs(ops: seq<TargetOp>, path: string)
    ensures forall op :: op in OpsOn(ops, path) <==> op in ops && op.path == path
  {
    if ops != [] {
      OpsOnIs(ops[..|ops| - 1], path);
      assert ops == ops[..|ops| - 1] + [ops[|ops| - 1]];
    }
  }

  /**
   * Re-apply is a fixpoint exactly when the sections are consistent: planning the
   * same targets over the files a successful apply left succeeds with a noop for every
   * op, on the document and on every other file, if and only if no two sections
   * declare conflicting values; whatever the files held before.
   */
  lemma ReapplyIsNoop(stack: Stack, site: Site, paths: Paths, w: World, ts: seq<Target>, w2: World)
    requires Tidy(stack, paths)
    requires Compose(stack, site, paths, w, ts).Ok?
    requires Applied(w, Compose(stack, site, paths, w, ts).value.ops, w2)
    ensures var again := Compose(stack, site, paths, w2, ts);
      again.Ok? && AllNoop(again.value.ops) <==> Consistent(stack, site, ts)
    ensures Consistent(stack, site, ts) ==>
      Compose(stack, site, paths, w2, ts).value.doc == Compose(stack, site, paths, w, ts).value.doc
  {
    ApplyLeavesDoc(stack, site, paths, w, ts, w2);
    ComposeFixpointExactly(stack, site, paths, w, ts);
    StableExactly(stack, site, paths, w2, ts);
    var again := Compose(stack, site, paths, w2, ts);
    if again.Ok? {
      WholeFileOps(stack, site, paths, w2, ts);
      OpsOnIs(again.value.ops, paths.opencode);
      forall op | op in again.value.ops && op.path != paths.opencode
        ensures op.op == OpNoop
      {
        ApplyLeavesFiles(stack, site, paths, w, ts, w2, op.path, op.after);
      }
    }
  }

  /** Sections that own different keys are always consistent. */
  lemma DisjointReapplyIsNoop(stack: Stack, site: Site, paths: Paths, w: World, ts: seq<Target>, w2: World)
    requires Disjoint(stack) && Tidy(stack, paths)
    requires Compose(stack, site, paths, w, ts).Ok?
    requires Applied(w, Compose(stack, site, paths, w, ts).value.ops, w2)
    ensures var again := Compose(stack, site, paths, w2, ts);
      again.Ok? && AllNoop(again.value.ops)
  {
    DisjointIsConsistent(stack, site, ts);
    ReapplyIsNoop(stack, site, paths, w, ts, w2);
  }

  /** And applying that second plan changes no file and no backup. */
  lemma {:induction false} NoopsWriteNothing(w: World, plan: seq<TargetOp>, max: int, envs: seq<Env>, k: nat)
    requires k <= |plan| == |envs| && AllNoop(plan)
    ensures var p := Written(w, plan, max, envs, k); p.world == w && !p.failed
  {
    if k > 0 {
      NoopsWriteNothing(w, plan, max, envs, k - 1);
      assert plan[k - 1] in plan;
    }
  }

  lemma SecondApplyIsIdentity(stack: Stack, site: Site, paths: Paths, w: World, ts: seq<Target>, w2: World, w3: World)
    requires Consistent(stack, site, ts) && Tidy(stack, paths)
    requires Compose(stack, site, paths, w, ts).Ok?
    requires Applied(w, Compose(stack, site, paths, w, ts).value.ops, w2)
    requires Compose(stack, site, paths, w2, ts).Ok? ==> Applied(w2, Compose(stack, site, paths, w2, ts).value.ops, w3)
    ensures w3 == w2
  {
    ReapplyIsNoop(stack, site, paths, w, ts, w2);
    var plan := Compose(stack, site, paths, w2, ts).value.ops;
    var opts, envs, undoEnvs :| AppliedBy(w2, plan, w3, opts, envs, undoEnvs);
    NoopsWriteNothing(w2, plan, EffectiveMax(opts), envs, |plan|);
  }
}
