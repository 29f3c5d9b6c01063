/** internal/render/plan.go: composing a plan, applying it, and composing again. */
module Plan {
  import opened Common
  import opened Documents
  import opened Merge
  import opened ArrayMerge
  import opened Sections
  import opened Overlap
  import opened AtomicFile
  import opened Apply
  import opened Picking

  datatype Paths = Paths(opencode: string, vision: string)

  /** Reading a file that may be absent. */
  function ReadIfExists(w: World, path: string): Bytes {
    match ContentOf(w, path)
    case Some(b) => b
    case None => Empty
  }

  function OpFor(path: string, before: Bytes, after: Bytes, op: Op, suppress: bool): TargetOp {
    TargetOp(path, if before == after then OpNoop else op, before, after, suppress)
  }

  /** The document a target makes of the current one; nothing changes where the target has no JSON section. */
  function NextDoc(stack: Stack, site: Site, t: Target, current: Bytes): Result<Bytes> {
    if !Touches(stack, t) then Ok(current)
    else
      match Parse(current)
      case Err(m) => Err(m)
      case Ok(root) =>
        match Transform(stack, site, t, root)
        case Err(m) => Err(m)
        case Ok(r) => Ok(Printed(r))
  }

  function SkillOps(w: World, skills: seq<(string, Bytes)>): seq<TargetOp> {
    seq(|skills|, i requires 0 <= i < |skills| =>
      OpFor(skills[i].0, ReadIfExists(w, skills[i].0), skills[i].1, OpWrite, false))
  }

  /** The ops of one target on the current document. */
  function OpsOf(stack: Stack, paths: Paths, w: World, t: Target, current: Bytes, next: Bytes): seq<TargetOp> {
    if t.Skills? then SkillOps(w, stack.skills)
    else if !Touches(stack, t) then []
    else
      [OpFor(paths.opencode, current, next, OpMerge, t.Plugins? && stack.pluginSync)]
      + (if t.MCP? then [OpFor(paths.vision, ReadIfExists(w, paths.vision), stack.vision, OpWrite, false)] else [])
  }

  datatype Composed = Composed(ops: seq<TargetOp>, doc: Bytes)

  /** The specification of ComposeApplyPlan: each target starts from the document the one before it left. */
  function Compose(stack: Stack, site: Site, paths: Paths, w: World, ts: seq<Target>): Result<Composed> {
    if ts == [] then Ok(Composed([], ReadIfExists(w, paths.opencode))) else
      var t := ts[|ts| - 1];
      match Compose(stack, site, paths, w, ts[..|ts| - 1])
      case Err(m) => Err(m)
      case Ok(c) =>
        match NextDoc(stack, site, t, c.doc)
        case Err(m) => Err(m)
        case Ok(next) => Ok(Composed(c.ops + OpsOf(stack, paths, w, t, c.doc, next), next))
  }

  lemma ComposeSnoc(stack: Stack, site: Site, paths: Paths, w: World, ts: seq<Target>, t: Target)
    ensures Compose(stack, site, paths, w, ts + [t]).Ok? <==>
      Compose(stack, site, paths, w, ts).Ok? && NextDoc(stack, site, t, Compose(stack, site, paths, w, ts).value.doc).Ok?
  {
    assert (ts + [t])[..|ts|] == ts;
  }

  // ---- Before and After chain --------------------------------------------

  /** The ops on one path, in order. */
  function OpsOn(ops: seq<TargetOp>, path: string): seq<TargetOp> {
    if ops == [] then [] else
      var front := OpsOn(ops[..|ops| - 1], path);
      if ops[|ops| - 1].path == path then front + [ops[|ops| - 1]] else front
  }

  /** Each op starts where the one before ended, from first to last, and is a noop exactly when it changes nothing. */
  predicate Linked(ops: seq<TargetOp>, first: Bytes, last: Bytes) {
    && (ops == [] ==> first == last)
    && (ops != [] ==> ops[0].before == first && ops[|ops| - 1].after == last)
    && (forall i | 0 < i < |ops| :: ops[i].before == ops[i - 1].after)
    && (forall op | op in ops :: op.op == OpNoop <==> op.before == op.after)
  }

  /** The vision file and the skill files are not the document itself. */
  predicate Apart(stack: Stack, paths: Paths) {
    paths.vision != paths.opencode && forall s | s in stack.skills :: s.0 != paths.opencode
  }

  lemma {:induction false} OpsOnAppend(a: seq<TargetOp>, b: seq<TargetOp>, path: string)
    ensures OpsOn(a + b, path) == OpsOn(a, path) + OpsOn(b, path)
  {
    if b == [] {
      assert a + b == a;
    } else {
      OpsOnAppend(a, b[..|b| - 1], path);
      assert (a + b)[..|a + b| - 1] == a + b[..|b| - 1];
    }
  }

  lemma {:induction false} OpsElsewhere(ops: seq<TargetOp>, path: string)
    requires forall op | op in ops :: op.path != path
    ensures OpsOn(ops, path) == []
  {
    if ops != [] {
      assert forall op | op in ops[..|ops| - 1] :: op in ops;
      OpsElsewhere(ops[..|ops| - 1], path);
    }
  }

  /** What one target contributes on the document: its own op, if it has one. */
  lemma OpsOfOnDoc(stack: Stack, paths: Paths, w: World, t: Target, current: Bytes, next: Bytes)
    requires Apart(stack, paths)
    ensures OpsOn(OpsOf(stack, paths, w, t, current, next), paths.opencode) ==
      if Touches(stack, t) then [OpFor(paths.opencode, current, next, OpMerge, t.Plugins? && stack.pluginSync)] else []
  {
    if t.Skills? {
      var ops := SkillOps(w, stack.skills);
      forall op | op in ops
        ensures op.path != paths.opencode
      {
        var i :| 0 <= i < |ops| && ops[i] == op;
        assert stack.skills[i] in stack.skills;
      }
      OpsElsewhere(ops, paths.opencode);
    } else if Touches(stack, t) {
      var doc := [OpFor(paths.opencode, current, next, OpMerge, t.Plugins? && stack.pluginSync)];
      var rest := if t.MCP? then [OpFor(paths.vision, ReadIfExists(w, paths.vision), stack.vision, OpWrite, false)] else [];
      OpsOnAppend(doc, rest, paths.opencode);
      OpsElsewhere(rest, paths.opencode);
      assert doc[..0] == [];
    }
  }

  lemma LinkedAppend(ops: seq<TargetOp>, op: TargetOp, first: Bytes)
    requires Linked(ops, first, op.before) && (op.op == OpNoop <==> op.before == op.after)
    ensures Linked(ops + [op], first, op.after)
  {
    var all := ops + [op];
    forall i | 0 < i < |all|
      ensures all[i].before == all[i - 1].after
    {
      if i == |ops| { assert all[i - 1] == ops[i - 1]; }
    }
  }

  /** The ops on the document form one chain from the disk to the final document. */
  lemma {:induction false} ComposeLinks(stack: Stack, site: Site, paths: Paths, w: World, ts: seq<Target>)
    requires Apart(stack, paths) && Compose(stack, site, paths, w, ts).Ok?
    ensures var c := Compose(stack, site, paths, w, ts).value;
      Linked(OpsOn(c.ops, paths.opencode), ReadIfExists(w, paths.opencode), c.doc)
  {
    if ts != [] {
      var front, t := ts[..|ts| - 1], ts[|ts| - 1];
      ComposeLinks(stack, site, paths, w, front);
      var c := Compose(stack, site, paths, w, front).value;
      var next := NextDoc(stack, site, t, c.doc).value;
      var ops := OpsOf(stack, paths, w, t, c.doc, next);
      OpsOnAppend(c.ops, ops, paths.opencode);
      OpsOfOnDoc(stack, paths, w, t, c.doc, next);
      if Touches(stack, t) {
        LinkedAppend(OpsOn(c.ops, paths.opencode),
          OpFor(paths.opencode, c.doc, next, OpMerge, t.Plugins? && stack.pluginSync), ReadIfExists(w, paths.opencode));
      } else {
        assert OpsOn(c.ops, paths.opencode) + [] == OpsOn(c.ops, paths.opencode);
      }
    }
  }

  /** Which of the ops suppress their backup. */
  function Suppressions(ops: seq<TargetOp>): seq<bool> {
    seq(|ops|, i requires 0 <= i < |ops| => ops[i].suppress)
  }

  /** The ops are merges or noops on path, and these suppress their backups. */
  predicate DocOps(ops: seq<TargetOp>, path: string, suppressions: seq<bool>) {
    (forall i | 0 <= i < |ops| :: ops[i].path == path && ops[i].op in {OpMerge, OpNoop}) && Suppressions(ops) == suppressions
  }

  lemma DocOpsAppend(a: seq<TargetOp>, b: seq<TargetOp>, path: string, x: seq<bool>, y: seq<bool>)
    requires DocOps(a, path, x) && DocOps(b, path, y)
    ensures DocOps(a + b, path, x + y)
  {
  }

  lemma OwnDocOps(stack: Stack, paths: Paths, w: World, t: Target, current: Bytes, next: Bytes)
    requires Apart(stack, paths)
    ensures DocOps(OpsOn(OpsOf(stack, paths, w, t, current, next), paths.opencode), paths.opencode,
      if Touches(stack, t) then [t.Plugins? && stack.pluginSync] else [])
  {
    OpsOfOnDoc(stack, paths, w, t, current, next);
  }

  lemma {:induction false} DocOpsPicked(stack: Stack, site: Site, paths: Paths, w: World, ts: seq<Target>,
                                        chosen: Target -> bool, made: Target -> bool)
    requires Apart(stack, paths) && Compose(stack, site, paths, w, ts).Ok?
    requires forall t :: chosen(t) <==> Touches(stack, t)
    requires forall t :: made(t) <==> t.Plugins? && stack.pluginSync
    ensures DocOps(OpsOn(Compose(stack, site, paths, w, ts).value.ops, paths.opencode), paths.opencode, Picked(ts, chosen, made))
  {
    if ts != [] {
      var front, t := ts[..|ts| - 1], ts[|ts| - 1];
      DocOpsPicked(stack, site, paths, w, front, chosen, made);
      var c := Compose(stack, site, paths, w, front).value;
      var next := NextDoc(stack, site, t, c.doc).value;
      var ops := OpsOf(stack, paths, w, t, c.doc, next);
      var own := if Touches(stack, t) then [t.Plugins? && stack.pluginSync] else [];
      OpsOnAppend(c.ops, ops, paths.opencode);
      OwnDocOps(stack, paths, w, t, c.doc, next);
      DocOpsAppend(OpsOn(c.ops, paths.opencode), OpsOn(ops, paths.opencode), paths.opencode, Picked(front, chosen, made), own);
      assert Picked(ts, chosen, made) == Picked(front, chosen, made) + own;
    }
  }

  /**
   * The document gets one op, a merge or a noop, from each target in turn but the skills
   * and an empty toggles section; only that of the plugins suppresses its backup, when
   * one of them has a sync command.
   */
  lemma DocOpsFollowTargets(stack: Stack, site: Site, paths: Paths, w: World, ts: seq<Target>)
    requires Apart(stack, paths) && Compose(stack, site, paths, w, ts).Ok?
    ensures DocOps(OpsOn(Compose(stack, site, paths, w, ts).value.ops, paths.opencode), paths.opencode,
      Picked(ts, (t: Target) => !t.Skills? && (t.Toggles? ==> stack.toggles != map[]), (t: Target) => t == Plugins && stack.pluginSync))
  {
    DocOpsPicked(stack, site, paths, w, ts,
      (t: Target) => !t.Skills? && (t.Toggles? ==> stack.toggles != map[]), (t: Target) => t == Plugins && stack.pluginSync);
  }

  // ---- The composed document ---------------------------------------------

  predicate AnyTouches(stack: Stack, ts: seq<Target>) {
    exists t :: t in ts && Touches(stack, t)
  }

  lemma UntouchedIsIdentity(stack: Stack, site: Site, t: Target, root: Fields)
    requires !Touches(stack, t)
    ensures Transform(stack, site, t, root) == Ok(root)
  {
    if t.Toggles? {
      forall k
        ensures SameAt(MergeRoot(root, map[]), root, k)
      {
        MergeRootAt(root, map[], k);
      }
      SameEverywhere(MergeRoot(root, map[]), root);
    }
  }

  /** Composing the documents is chaining the transformers on what the first one parses to. */
  lemma {:induction false} ComposeIsChain(stack: Stack, site: Site, paths: Paths, w: World, ts: seq<Target>)
    ensures var first := ReadIfExists(w, paths.opencode);
      var c := Compose(stack, site, paths, w, ts);
      if Parse(first).Ok? then
        var r := Chain(stack, site, Parse(first).value, ts);
        && c.Ok? == r.Ok?
        && (c.Ok? ==> Parse(c.value.doc) == r)
        && (c.Ok? ==> c.value.doc == if AnyTouches(stack, ts) then Printed(r.value) else first)
      else
        && c.Ok? == !AnyTouches(stack, ts)
        && (c.Ok? ==> c.value.doc == first)
  {
    if ts != [] {
      var front, t := ts[..|ts| - 1], ts[|ts| - 1];
      assert ts == front + [t];
      ComposeIsChain(stack, site, paths, w, front);
      assert AnyTouches(stack, ts) == (AnyTouches(stack, front) || Touches(stack, t)) by {
        if AnyTouches(stack, front) {
          var u :| u in front && Touches(stack, u);
          assert u in ts;
        }
        if Touches(stack, t) { assert t in ts; }
      }
      if Parse(ReadIfExists(w, paths.opencode)).Ok? && !Touches(stack, t) {
        var r := Chain(stack, site, Parse(ReadIfExists(w, paths.opencode)).value, front);
        if r.Ok? { UntouchedIsIdentity(stack, site, t, r.value); }
      }
    }
  }

  /** With disjoint sections the final document does not depend on the order of the targets. */
  lemma ComposeOrderIrrelevant(stack: Stack, site: Site, paths: Paths, w: World, ts: seq<Target>, us: seq<Target>)
    requires Disjoint(stack) && forall t :: t in ts <==> t in us
    ensures var a, b := Compose(stack, site, paths, w, ts), Compose(stack, site, paths, w, us);
      a.Ok? == b.Ok? && (a.Ok? ==> a.value.doc == b.value.doc)
  {
    ComposeIsChain(stack, site, paths, w, ts);
    ComposeIsChain(stack, site, paths, w, us);
    assert AnyTouches(stack, ts) == AnyTouches(stack, us);
    if Parse(ReadIfExists(w, paths.opencode)).Ok? {
      ChainOrderIrrelevant(stack, site, Parse(ReadIfExists(w, paths.opencode)).value, ts, us);
    }
  }

  /** The targets that touch the document leave the composed one alone exactly when all targets are consistent. */
  lemma ComposeFixpointExactly(stack: Stack, site: Site, paths: Paths, w: World, ts: seq<Target>)
    requires Compose(stack, site, paths, w, ts).Ok?
    ensures var doc := Compose(stack, site, paths, w, ts).value.doc;
      (forall t | t in ts :: NextDoc(stack, site, t, doc) == Ok(doc)) <==> Consistent(stack, site, ts)
  {
    var doc := Compose(stack, site, paths, w, ts).value.doc;
    ComposeIsChain(stack, site, paths, w, ts);
    if AnyTouches(stack, ts) {
      var root := Parse(ReadIfExists(w, paths.opencode)).value;
      var r := Chain(stack, site, root, ts).value;
      ChainFixpointExactly(stack, site, root, ts);
      forall t | t in ts
        ensures NextDoc(stack, site, t, doc) == Ok(doc) <==> Transform(stack, site, t, r) == Ok(r)
      {
        if !Touches(stack, t) { UntouchedIsIdentity(stack, site, t, r); }
      }
    } else {
      assert forall t | t in ts :: !Touches(stack, t) && Claims(stack, t) == map[];
    }
  }

  // ---- Applying a plan ---------------------------------------------------

  function AsBytes(content: Option<Bytes>): Bytes {
    match content
    case Some(b) => b
    case None => Empty
  }

  lemma LinkedFront(ops: seq<TargetOp>, op: TargetOp, first: Bytes, last: Bytes)
    requires Linked(ops + [op], first, last)
    ensures Linked(ops, first, op.before) && op.after == last && (op.op == OpNoop <==> op.before == op.after)
  {
    var all := ops + [op];
    assert all[|ops|] == op;
    forall i | 0 < i < |ops|
      ensures ops[i].before == ops[i - 1].after
    {
      assert all[i].before == all[i - 1].after;
    }
    if ops != [] { assert all[|ops|].before == all[|ops| - 1].after; }
    assert forall o | o in ops :: o in all;
  }

  lemma {:induction false} LinkedLast(ops: seq<TargetOp>, path: string, initial: Option<Bytes>, last: Bytes)
    requires Linked(OpsOn(ops, path), AsBytes(initial), last)
    ensures AsBytes(LastContent(ops, path, initial)) == last
  {
    if ops != [] {
      var front, op := ops[..|ops| - 1], ops[|ops| - 1];
      if op.path == path {
        LinkedFront(OpsOn(front, path), op, AsBytes(initial), last);
        LinkedLast(front, path, initial, op.before);
      } else {
        LinkedLast(front, path, initial, last);
      }
    }
  }

  /** w2 is what some successful, not dry, run of Apply makes of w. */
  ghost predicate Applied(w: World, plan: seq<TargetOp>, w2: World) {
    exists opts: Options, envs: seq<Env>, undoEnvs: seq<UndoEnv> :: AppliedBy(w, plan, w2, opts, envs, undoEnvs)
  }

  ghost predicate AppliedBy(w: World, plan: seq<TargetOp>, w2: World, opts: Options, envs: seq<Env>, undoEnvs: seq<UndoEnv>) {
    && |plan| == |envs| == |undoEnvs| && !opts.dryRun
    && Run(w, plan, opts, true, envs, undoEnvs).world == w2
    && !Run(w, plan, opts, true, envs, undoEnvs).failed
  }

  lemma AppliedContent(w: World, plan: seq<TargetOp>, w2: World, path: string)
    requires Applied(w, plan, w2)
    ensures ContentOf(w2, path) == LastContent(plan, path, ContentOf(w, path))
  {
    var opts, envs, undoEnvs :| AppliedBy(w, plan, w2, opts, envs, undoEnvs);
    WrittenContent(w, plan, EffectiveMax(opts), envs, |plan|, path);
    assert plan[..|plan|] == plan;
  }

  /** Applying the composed plan leaves exactly the composed document on disk. */
  lemma ApplyLeavesDoc(stack: Stack, site: Site, paths: Paths, w: World, ts: seq<Target>, w2: World)
    requires Apart(stack, paths) && Compose(stack, site, paths, w, ts).Ok?
    requires Applied(w, Compose(stack, site, paths, w, ts).value.ops, w2)
    ensures ReadIfExists(w2, paths.opencode) == Compose(stack, site, paths, w, ts).value.doc
  {
    var c := Compose(stack, site, paths, w, ts).value;
    ComposeLinks(stack, site, paths, w, ts);
    LinkedLast(c.ops, paths.opencode, ContentOf(w, paths.opencode), c.doc);
    AppliedContent(w, c.ops, w2, paths.opencode);
  }
}
