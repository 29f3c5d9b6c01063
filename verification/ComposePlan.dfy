/** The loops of internal/render/plan.go that compose a plan, with the methods that transform the document. */
module ComposePlan {
  import opened Common
  import opened Documents
  import opened Merge
  import opened ArrayMerge
  import opened Sections
  import opened AtomicFile
  import opened Apply
  import opened Plan
  import opened OneByOne

  /** The new document of one target that touches it. */
  method TransformDoc(stack: Stack, site: Site, t: Target, current: Bytes) returns (r: Result<Bytes>)
    requires Touches(stack, t)
    ensures r == NextDoc(stack, site, t, current)
  {
    match t {
      case MCP => r := MergeMCP(current, stack.mcp);
      case Plugins => r := MergeListAt(stack, site, t, current, "plugin", stack.plugins, true);
      case Instructions => r := MergeListAt(stack, site, t, current, "instructions", stack.instructions, false);
      case Watcher => r := MergeWatcherIgnore(current, stack.watcher, site);
      case _ => r := MergeObject(current, DeclaredOf(stack, t));
    }
  }

  method MergeListAt(stack: Stack, site: Site, t: Target, current: Bytes, key: string, declared: seq<string>, strip: bool)
    returns (r: Result<Bytes>)
    requires forall root :: Transform(stack, site, t, root) == MergeArrayRoot(root, key, declared, site, strip)
    requires Touches(stack, t)
    ensures r == NextDoc(stack, site, t, current)
  {
    var merged := MergeArray(current, key, declared, site, strip);
    match merged {
      case Err(m) => r := Err(m);
      case Ok(value) => r := Ok(value.bytes);
    }
  }

  method PlanSkillsOps(w: World, skills: seq<(string, Bytes)>) returns (ops: seq<TargetOp>)
    ensures ops == SkillOps(w, skills)
  {
    ops := [];
    for i := 0 to |skills|
      invariant |ops| == i
      invariant forall j | 0 <= j < i :: ops[j] == SkillOps(w, skills)[j]
    {
      ops := ops + [OpFor(skills[i].0, ReadIfExists(w, skills[i].0), skills[i].1, OpWrite, false)];
    }
  }

  method ComposeTargetOps(stack: Stack, site: Site, paths: Paths, w: World, t: Target, current: Bytes)
    returns (r: Result<(seq<TargetOp>, Bytes)>)
    ensures r == match NextDoc(stack, site, t, current)
      case Err(m) => Err(m)
      case Ok(next) => Ok((OpsOf(stack, paths, w, t, current, next), next))
  {
    if t.Skills? {
      var ops := PlanSkillsOps(w, stack.skills);
      return Ok((ops, current));
    }
    if t.Toggles? && stack.toggles == map[] { return Ok(([], current)); }
    var after := TransformDoc(stack, site, t, current);
    if after.Err? { return Err(after.message); }
    var ops := [OpFor(paths.opencode, current, after.value, OpMerge, t.Plugins? && stack.pluginSync)];
    if t.MCP? {
      ops := ops + [OpFor(paths.vision, ReadIfExists(w, paths.vision), stack.vision, OpWrite, false)];
    }
    assert ops == OpsOf(stack, paths, w, t, current, after.value);
    return Ok((ops, after.value));
  }

  /** The plan of one target over the files on disk. */
  method PlanForTarget(stack: Stack, site: Site, paths: Paths, w: World, t: Target) returns (r: Result<seq<TargetOp>>)
    ensures r == PlanTarget(stack, site, paths, w, t)
  {
    var step := ComposeTargetOps(stack, site, paths, w, t, ReadIfExists(w, paths.opencode));
    match step {
      case Err(m) => r := Err(m);
      case Ok(value) => r := Ok(value.0);
    }
  }

  lemma {:induction false} ComposeStops(stack: Stack, site: Site, paths: Paths, w: World, ts: seq<Target>, i: nat)
    requires i <= |ts| && Compose(stack, site, paths, w, ts[..i]).Err?
    ensures Compose(stack, site, paths, w, ts) == Compose(stack, site, paths, w, ts[..i])
  {
    if i < |ts| {
      var front := ts[..|ts| - 1];
      assert front[..i] == ts[..i];
      ComposeStops(stack, site, paths, w, front, i);
    } else {
      assert ts[..i] == ts;
    }
  }

  method ComposeApplyPlan(stack: Stack, site: Site, paths: Paths, w: World, targets: seq<Target>)
    returns (r: Result<seq<TargetOp>>)
    ensures r == match Compose(stack, site, paths, w, targets)
      case Err(m) => Err(m)
      case Ok(c) => Ok(c.ops)
  {
    var currentDoc := ReadIfExists(w, paths.opencode);
    var combinedTargets := [];
    for i := 0 to |targets|
      invariant Compose(stack, site, paths, w, targets[..i]) == Ok(Composed(combinedTargets, currentDoc))
    {
      assert targets[..i + 1][..i] == targets[..i];
      var step := ComposeTargetOps(stack, site, paths, w, targets[i], currentDoc);
      if step.Err? {
        ComposeStops(stack, site, paths, w, targets, i + 1);
        return Err(step.message);
      }
      combinedTargets := combinedTargets + step.value.0;
      currentDoc := step.value.1;
    }
    assert targets[..|targets|] == targets;
    return Ok(combinedTargets);
  }
}
