/** Planning and applying one target at a time, as cmd/oca/apply.go does, against the composed plan. */
module OneByOne {
  import opened Common
  import opened Documents
  import opened ArrayMerge
  import opened Sections
  import opened AtomicFile
  import opened Apply
  import opened Plan
  import opened Reapply

  /** PlanMCP, PlanPlugins and the others: the plan of one target over the files on disk. */
  function PlanTarget(stack: Stack, site: Site, paths: Paths, w: World, t: Target): Result<seq<TargetOp>> {
    var doc := ReadIfExists(w, paths.opencode);
    match NextDoc(stack, site, t, doc)
    case Err(m) => Err(m)
    case Ok(next) => Ok(OpsOf(stack, paths, w, t, doc, next))
  }

  /** An op that gives path the content after, from what is on disk. */
  predicate GivesFile(op: TargetOp, w: World, path: string, after: Bytes) {
    var before := ReadIfExists(w, path);
    op == TargetOp(path, if before == after then OpNoop else OpWrite, before, after, false)
  }

  /** The plan of one target, op by op, and when there is none. */
  lemma PlanTells(stack: Stack, site: Site, paths: Paths, w: World, t: Target)
    ensures var doc := ReadIfExists(w, paths.opencode);
      var idle := t.Skills? || (t.Toggles? && stack.toggles == map[]);
      match PlanTarget(stack, site, paths, w, t)
      case Err(_) => !idle && (Parse(doc).Err? || Transform(stack, site, t, Parse(doc).value).Err?)
      case Ok(ops) =>
        && |ops| == (if t.Skills? then |stack.skills| else if idle then 0 else if t.MCP? then 2 else 1)
        && (t.Skills? ==> forall i | 0 <= i < |ops| :: GivesFile(ops[i], w, stack.skills[i].0, stack.skills[i].1))
        && (t.MCP? ==> GivesFile(ops[1], w, paths.vision, stack.vision))
        && (!idle ==>
              && Parse(doc).Ok? && Transform(stack, site, t, Parse(doc).value) == Parse(ops[0].after)
              && ops[0].after.Printed? && ops[0].path == paths.opencode && ops[0].before == doc
              && ops[0].op == (if ops[0].before == ops[0].after then OpNoop else OpMerge)
              && ops[0].suppress == (t == Plugins && stack.pluginSync))
  {
  }

  /** Each target is planned from disk and applied before the next one is planned; worlds are the states in between. */
  ghost predicate InTurn(stack: Stack, site: Site, paths: Paths, ts: seq<Target>, worlds: seq<World>) {
    if ts == [] then |worlds| == 1
    else
      var n := |ts| - 1;
      && |worlds| == n + 2
      && InTurn(stack, site, paths, ts[..n], worlds[..n + 1])
      && PlanTarget(stack, site, paths, worlds[n], ts[n]).Ok?
      && Applied(worlds[n], PlanTarget(stack, site, paths, worlds[n], ts[n]).value, worlds[n + 1])
  }

  // ---- The document ------------------------------------------------------

  /** Planning a single target from disk is composing it alone. */
  lemma PlanIsCompose(stack: Stack, site: Site, paths: Paths, w: World, t: Target)
    ensures var p, c := PlanTarget(stack, site, paths, w, t), Compose(stack, site, paths, w, [t]);
      && p.Ok? == c.Ok?
      && (p.Ok? ==> p.value == c.value.ops && NextDoc(stack, site, t, ReadIfExists(w, paths.opencode)) == Ok(c.value.doc))
  {
    assert [t][..0] == [];
    assert Compose(stack, site, paths, w, []) == Ok(Composed([], ReadIfExists(w, paths.opencode)));
    var p := PlanTarget(stack, site, paths, w, t);
    if p.Ok? { assert [] + p.value == p.value; }
  }

  /** The composed plan ends with the document that taking the targets in turn ends with. */
  lemma {:induction false} ComposeRefinesOneByOne(stack: Stack, site: Site, paths: Paths, ts: seq<Target>, worlds: seq<World>)
    requires Apart(stack, paths) && InTurn(stack, site, paths, ts, worlds)
    ensures var c := Compose(stack, site, paths, worlds[0], ts);
      c.Ok? && c.value.doc == ReadIfExists(worlds[|ts|], paths.opencode)
  {
    if ts != [] {
      var n := |ts| - 1;
      ComposeRefinesOneByOne(stack, site, paths, ts[..n], worlds[..n + 1]);
      PlanIsCompose(stack, site, paths, worlds[n], ts[n]);
      ApplyLeavesDoc(stack, site, paths, worlds[n], [ts[n]], worlds[n + 1]);
    }
  }

  /** The first target that cannot be planned in turn is the first that cannot be composed. */
  lemma FailuresAgree(stack: Stack, site: Site, paths: Paths, ts: seq<Target>, worlds: seq<World>, t: Target)
    requires Apart(stack, paths) && InTurn(stack, site, paths, ts, worlds)
    ensures PlanTarget(stack, site, paths, worlds[|ts|], t).Ok? == Compose(stack, site, paths, worlds[0], ts + [t]).Ok?
  {
    ComposeRefinesOneByOne(stack, site, paths, ts, worlds);
    ComposeSnoc(stack, site, paths, worlds[0], ts, t);
  }

  // ---- The other files ---------------------------------------------------

  lemma {:induction false} NoOpsLast(ops: seq<TargetOp>, path: string, initial: Option<Bytes>)
    requires forall op | op in ops :: op.path != path
    ensures LastContent(ops, path, initial) == initial
  {
    if ops != [] {
      assert ops == ops[..|ops| - 1] + [ops[|ops| - 1]];
      NoOpsLast(ops[..|ops| - 1], path, initial);
    }
  }

  /** Some target of ts writes path whole. */
  ghost predicate Whole(stack: Stack, paths: Paths, ts: seq<Target>, path: string) {
    exists content :: WholeFile(stack, paths, ts, path, content)
  }

  lemma OneContent(stack: Stack, paths: Paths, ts: seq<Target>, us: seq<Target>, path: string, a: Bytes, b: Bytes)
    requires Tidy(stack, paths) && WholeFile(stack, paths, ts, path, a) && WholeFile(stack, paths, us, path, b)
    ensures a == b
  {
    if (path, a) in stack.skills && (path, b) in stack.skills {
      assert (path, a).0 == (path, b).0;
    }
  }

  /** One target leaves its own whole files with their content and every other file but the document as it was. */
  lemma OneTargetLeaves(stack: Stack, site: Site, paths: Paths, w: World, t: Target, w2: World, path: string)
    requires Tidy(stack, paths) && path != paths.opencode
    requires PlanTarget(stack, site, paths, w, t).Ok? && Applied(w, PlanTarget(stack, site, paths, w, t).value, w2)
    ensures Holds(stack, paths, [t], path, ReadIfExists(w, path), ReadIfExists(w2, path))
  {
    PlanIsCompose(stack, site, paths, w, t);
    ComposedLeaves(stack, site, paths, w, [t], w2, path);
  }

  lemma ComposedLeaves(stack: Stack, site: Site, paths: Paths, w: World, ts: seq<Target>, w2: World, path: string)
    requires Tidy(stack, paths) && path != paths.opencode
    requires Compose(stack, site, paths, w, ts).Ok? && Applied(w, Compose(stack, site, paths, w, ts).value.ops, w2)
    ensures Holds(stack, paths, ts, path, ReadIfExists(w, path), ReadIfExists(w2, path))
  {
    forall content | WholeFile(stack, paths, ts, path, content)
      ensures ReadIfExists(w2, path) == content
    {
      ApplyLeavesFiles(stack, site, paths, w, ts, w2, path, content);
    }
    if !Whole(stack, paths, ts, path) {
      var ops := Compose(stack, site, paths, w, ts).value.ops;
      WholeFileOps(stack, site, paths, w, ts);
      forall op | op in ops
        ensures op.path != path
      {
        assert op.path == path ==> WholeFile(stack, paths, ts, path, op.after);
      }
      NoOpsLast(ops, path, ContentOf(w, path));
      AppliedContent(w, ops, w2, path);
    }
  }

  /** What path holds once the targets of ts are done, when it held initial before. */
  ghost predicate Holds(stack: Stack, paths: Paths, ts: seq<Target>, path: string, initial: Bytes, now: Bytes) {
    && (forall content | WholeFile(stack, paths, ts, path, content) :: now == content)
    && (!Whole(stack, paths, ts, path) ==> now == initial)
  }

  lemma WholeAppend(stack: Stack, paths: Paths, ts: seq<Target>, t: Target, path: string, content: Bytes)
    ensures WholeFile(stack, paths, ts + [t], path, content) <==>
      WholeFile(stack, paths, ts, path, content) || WholeFile(stack, paths, [t], path, content)
  {
    assert forall u :: u in ts + [t] <==> u in ts || u in [t];
  }

  lemma HoldsStep(stack: Stack, paths: Paths, ts: seq<Target>, t: Target, path: string, initial: Bytes, before: Bytes, now: Bytes)
    requires Tidy(stack, paths)
    requires Holds(stack, paths, ts, path, initial, before) && Holds(stack, paths, [t], path, before, now)
    ensures Holds(stack, paths, ts + [t], path, initial, now)
  {
    forall content
      ensures WholeFile(stack, paths, ts + [t], path, content) <==>
        WholeFile(stack, paths, ts, path, content) || WholeFile(stack, paths, [t], path, content)
    {
      WholeAppend(stack, paths, ts, t, path, content);
    }
    forall content | WholeFile(stack, paths, ts + [t], path, content)
      ensures now == content
    {
      if own :| WholeFile(stack, paths, [t], path, own) {
        OneContent(stack, paths, [t], ts + [t], path, own, content);
      }
    }
  }

  /** One more target. */
  lemma LeavesStep(stack: Stack, site: Site, paths: Paths, ts: seq<Target>, t: Target, initial: Bytes, w: World, w2: World, path: string)
    requires Tidy(stack, paths) && path != paths.opencode
    requires Holds(stack, paths, ts, path, initial, ReadIfExists(w, path))
    requires PlanTarget(stack, site, paths, w, t).Ok? && Applied(w, PlanTarget(stack, site, paths, w, t).value, w2)
    ensures Holds(stack, paths, ts + [t], path, initial, ReadIfExists(w2, path))
  {
    OneTargetLeaves(stack, site, paths, w, t, w2, path);
    HoldsStep(stack, paths, ts, t, path, initial, ReadIfExists(w, path), ReadIfExists(w2, path));
  }

  lemma InTurnFront(stack: Stack, site: Site, paths: Paths, ts: seq<Target>, worlds: seq<World>)
    requires InTurn(stack, site, paths, ts, worlds) && ts != []
    ensures var n := |ts| - 1;
      && |worlds| == n + 2 && InTurn(stack, site, paths, ts[..n], worlds[..n + 1])
      && worlds[..n + 1][0] == worlds[0] && worlds[..n + 1][n] == worlds[n] && ts == ts[..n] + [ts[n]]
      && PlanTarget(stack, site, paths, worlds[n], ts[n]).Ok?
      && Applied(worlds[n], PlanTarget(stack, site, paths, worlds[n], ts[n]).value, worlds[n + 1])
  {
    hide PlanTarget, Applied;
  }

  lemma InTurnCount(stack: Stack, site: Site, paths: Paths, ts: seq<Target>, worlds: seq<World>)
    requires InTurn(stack, site, paths, ts, worlds)
    ensures |worlds| == |ts| + 1
  {
    hide PlanTarget, Applied;
  }

  lemma {:induction false} InTurnLeaves(stack: Stack, site: Site, paths: Paths, ts: seq<Target>, worlds: seq<World>, path: string)
    requires Tidy(stack, paths) && InTurn(stack, site, paths, ts, worlds) && path != paths.opencode
    ensures |worlds| == |ts| + 1 && Holds(stack, paths, ts, path, ReadIfExists(worlds[0], path), ReadIfExists(worlds[|ts|], path))
    decreases |ts|
  {
    InTurnCount(stack, site, paths, ts, worlds);
    if ts != [] {
      var n := |ts| - 1;
      InTurnFront(stack, site, paths, ts, worlds);
      InTurnLeaves(stack, site, paths, ts[..n], worlds[..n + 1], path);
      LeavesStep(stack, site, paths, ts[..n], ts[n], ReadIfExists(worlds[0], path), worlds[n], worlds[n + 1], path);
    }
  }

  /**
   * Applying the composed plan leaves every file as taking the targets in turn does,
   * an absent file counting as an empty one.
   */
  lemma ComposedEqualsInTurn(stack: Stack, site: Site, paths: Paths, ts: seq<Target>, worlds: seq<World>, w2: World, path: string)
    requires Tidy(stack, paths) && InTurn(stack, site, paths, ts, worlds)
    requires Compose(stack, site, paths, worlds[0], ts).Ok? ==>
      Applied(worlds[0], Compose(stack, site, paths, worlds[0], ts).value.ops, w2)
    ensures ReadIfExists(w2, path) == ReadIfExists(worlds[|ts|], path)
  {
    ComposeRefinesOneByOne(stack, site, paths, ts, worlds);
    if path == paths.opencode {
      ApplyLeavesDoc(stack, site, paths, worlds[0], ts, w2);
    } else {
      InTurnLeaves(stack, site, paths, ts, worlds, path);
      ComposedLeaves(stack, site, paths, worlds[0], ts, w2, path);
      if content :| WholeFile(stack, paths, ts, path, content) {
        assert ReadIfExists(w2, path) == content;
      }
    }
  }
}
