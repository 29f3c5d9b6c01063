/** The per-target document transformers that internal/render/plan.go chains, on parsed roots. */
module Sections {
  import opened Common
  import opened Documents
  import opened Merge
  import opened ArrayMerge

  datatype Target =
    | MCP | Plugins | Instructions | Providers | Permissions | Watcher
    | LSP | Skills | Commands | Formatters | Toggles

  /** The declared side, as the section translators render it. */
  datatype Stack = Stack(
    mcp: Fields,
    vision: Bytes,
    plugins: seq<string>,
    pluginSync: bool,
    instructions: seq<string>,
    providers: map<string, Decl>,
    permissions: map<string, Decl>,
    watcher: seq<string>,
    lsp: map<string, Decl>,
    skills: seq<(string, Bytes)>,
    commands: map<string, Decl>,
    formatters: map<string, Decl>,
    toggles: map<string, Decl>)

  /** The declared object of a section that is deep-merged. */
  function DeclaredOf(stack: Stack, t: Target): map<string, Decl> {
    match t
    case Providers => stack.providers
    case Permissions => stack.permissions
    case LSP => stack.lsp
    case Commands => stack.commands
    case Formatters => stack.formatters
    case Toggles => stack.toggles
    case _ => map[]
  }

  /** Skills write files only, and an empty toggles section does nothing at all. */
  predicate Touches(stack: Stack, t: Target) {
    !t.Skills? && !(t.Toggles? && stack.toggles == map[])
  }

  function Transform(stack: Stack, site: Site, t: Target, root: Fields): Result<Fields> {
    match t
    case MCP => MergeMcpRoot(root, stack.mcp)
    case Plugins => MergeArrayRoot(root, "plugin", stack.plugins, site, true)
    case Instructions => MergeArrayRoot(root, "instructions", stack.instructions, site, false)
    case Watcher => MergeWatcherRoot(root, stack.watcher, site)
    case Skills => Ok(root)
    case _ => Ok(MergeRoot(root, DeclaredOf(stack, t)))
  }

  /** The top-level keys a target writes. */
  function Owned(stack: Stack, t: Target): set<string> {
    match t
    case MCP => {"mcp"}
    case Plugins => {"plugin"}
    case Instructions => {"instructions"}
    case Watcher => {"watcher"}
    case Skills => {}
    case _ => DeclaredOf(stack, t).Keys
  }

  /** No two sections write the same top-level key. */
  predicate Disjoint(stack: Stack) {
    forall t: Target, u: Target | t != u :: Owned(stack, t) !! Owned(stack, u)
  }

  // ---- Each transformer by itself ----------------------------------------

  predicate SameAt(a: Fields, b: Fields, key: string) {
    (key in a <==> key in b) && (key in a ==> a[key] == b[key])
  }

  ghost predicate AgreeOn(a: Fields, b: Fields, keys: set<string>) {
    forall k | k in keys :: SameAt(a, b, k)
  }

  ghost predicate AgreeOff(a: Fields, b: Fields, keys: set<string>) {
    forall k | k !in keys :: SameAt(a, b, k)
  }

  lemma MergeRootAt(root: Fields, declared: map<string, Decl>, k: string)
    ensures var r := MergeRoot(root, declared);
      && (k in r <==> k in root || k in declared)
      && (k in r && k !in declared ==> r[k] == root[k])
      && (k in r && k in declared ==>
            r[k] == (if k in root then MergeValue(root[k], declared[k]) else Erase(declared[k])))
  {
  }

  /** A transformer leaves every key it does not own as it was. */
  lemma TransformFrame(stack: Stack, site: Site, t: Target, root: Fields)
    requires Transform(stack, site, t, root).Ok?
    ensures AgreeOff(Transform(stack, site, t, root).value, root, Owned(stack, t))
  {
    forall k | k !in Owned(stack, t)
      ensures SameAt(Transform(stack, site, t, root).value, root, k)
    {
      MergeRootAt(root, DeclaredOf(stack, t), k);
    }
  }

  /** What a transformer does, and whether it fails, depends only on the keys it owns. */
  lemma TransformLocal(stack: Stack, site: Site, t: Target, a: Fields, b: Fields)
    requires AgreeOn(a, b, Owned(stack, t))
    ensures Transform(stack, site, t, a).Ok? == Transform(stack, site, t, b).Ok?
    ensures Transform(stack, site, t, a).Ok? ==>
      AgreeOn(Transform(stack, site, t, a).value, Transform(stack, site, t, b).value, Owned(stack, t))
  {
    hide MergeRoot, MergedList;
    assert forall k | k in Owned(stack, t) :: SameAt(a, b, k);
    if Transform(stack, site, t, a).Ok? && Transform(stack, site, t, b).Ok? {
      forall k | k in Owned(stack, t)
        ensures SameAt(Transform(stack, site, t, a).value, Transform(stack, site, t, b).value, k)
      {
        MergeRootAt(a, DeclaredOf(stack, t), k);
        MergeRootAt(b, DeclaredOf(stack, t), k);
      }
    }
  }

  /** Transforming the result again succeeds and changes nothing. */
  lemma TransformTwice(stack: Stack, site: Site, t: Target, root: Fields)
    requires Transform(stack, site, t, root).Ok?
    ensures var once := Transform(stack, site, t, root);
      Transform(stack, site, t, once.value) == once
  {
    var once := Transform(stack, site, t, root).value;
    match t {
      case MCP => assert once["mcp"].fields + stack.mcp == once["mcp"].fields; assert once == once["mcp" := once["mcp"]];
      case Plugins => MergeArrayTwice(root, "plugin", stack.plugins, site, true);
      case Instructions => MergeArrayTwice(root, "instructions", stack.instructions, site, false);
      case Watcher => MergeWatcherTwice(root, stack.watcher, site);
      case Skills =>
      case _ => MergeTwice(Obj(root), Section(DeclaredOf(stack, t)));
    }
  }

  /** root with the declared tree merged into it, key by key. */
  predicate TreeMerged(root: Fields, declared: map<string, Decl>, after: Fields) {
    && after.Keys == root.Keys + declared.Keys
    && forall k | k in after ::
         after[k] == if k !in declared then root[k]
                     else if k !in root then Erase(declared[k])
                     else MergeValue(root[k], declared[k])
  }

  /** A target fails exactly on a value of another kind than its section under its own key. */
  lemma WorksWhen(stack: Stack, site: Site, t: Target, root: Fields)
    ensures Transform(stack, site, t, root).Ok? <==>
      match t
      case MCP => "mcp" in root ==> root["mcp"].Obj?
      case Plugins => "plugin" in root ==> root["plugin"].Arr?
      case Instructions => "instructions" in root ==> root["instructions"].Arr?
      case Watcher => "watcher" in root ==> IsWatcher(root["watcher"])
      case _ => true
  {
    MergesWatcher(root, stack.watcher, site);
  }

  /** What a target makes of a document, whether its keys are there or not. */
  lemma TransformMakes(stack: Stack, site: Site, t: Target, root: Fields)
    requires Transform(stack, site, t, root).Ok?
    ensures var after := Transform(stack, site, t, root).value;
      match t
      case MCP => after == root["mcp" := Obj((if "mcp" in root && root["mcp"].Obj? then root["mcp"].fields else map[]) + stack.mcp)]
      case Plugins => ListMerged(root, "plugin", stack.plugins, site, true, after)
      case Instructions => ListMerged(root, "instructions", stack.instructions, site, false, after)
      case Providers => TreeMerged(root, stack.providers, after)
      case Permissions => TreeMerged(root, stack.permissions, after)
      case Watcher => WatcherMerged(root, stack.watcher, site, after)
      case LSP => TreeMerged(root, stack.lsp, after)
      case Skills => after == root
      case Commands => TreeMerged(root, stack.commands, after)
      case Formatters => TreeMerged(root, stack.formatters, after)
      case Toggles => TreeMerged(root, stack.toggles, after)
  {
    match t {
      case MCP => if "mcp" !in root { assert map[] + stack.mcp == stack.mcp; }
      case Plugins => MergesList(root, "plugin", stack.plugins, site, true);
      case Instructions => MergesList(root, "instructions", stack.instructions, site, false);
      case Watcher => MergesWatcher(root, stack.watcher, site);
      case Skills =>
      case _ => TreeIsMerged(root, DeclaredOf(stack, t));
    }
  }

  lemma TreeIsMerged(root: Fields, declared: map<string, Decl>)
    ensures TreeMerged(root, declared, MergeRoot(root, declared))
  {
    var r := MergeRoot(root, declared);
    forall k ensures k in r <==> k in root || k in declared { MergeRootAt(root, declared, k); }
    forall k | k in r
      ensures r[k] == if k !in declared then root[k]
        else if k !in root then Erase(declared[k]) else MergeValue(root[k], declared[k])
    {
      MergeRootAt(root, declared, k);
    }
  }

  /** An absent key becomes exactly what is declared for it. */
  lemma AbsentBecomes(stack: Stack, site: Site, t: Target, root: Fields, k: string)
    requires k !in root && Transform(stack, site, t, root).Ok? && k in Transform(stack, site, t, root).value
    ensures var made := Transform(stack, site, t, root).value[k];
      match t
      case MCP => made == Obj(stack.mcp)
      case Plugins => made == Arr(AsJson(stack.plugins))
      case Instructions => made == Arr(AsJson(stack.instructions))
      case Watcher => made == Obj(map["ignore" := Arr(AsJson(stack.watcher))])
      case _ => k in DeclaredOf(stack, t) && made == Erase(DeclaredOf(stack, t)[k])
  {
    match t {
      case MCP =>
      case Plugins => MergesList(root, "plugin", stack.plugins, site, true);
      case Instructions => MergesList(root, "instructions", stack.instructions, site, false);
      case Watcher => MergesWatcher(root, stack.watcher, site);
      case Skills =>
      case _ => MergeRootAt(root, DeclaredOf(stack, t), k);
    }
  }

  // ---- The chain ---------------------------------------------------------

  function Chain(stack: Stack, site: Site, root: Fields, ts: seq<Target>): Result<Fields> {
    if ts == [] then Ok(root) else
      var before := Chain(stack, site, root, ts[..|ts| - 1]);
      if before.Err? then before else Transform(stack, site, ts[|ts| - 1], before.value)
  }

  /** r is root with every owned key of every target of ts as that target alone would make it. */
  ghost predicate Combines(stack: Stack, site: Site, root: Fields, ts: seq<Target>, r: Fields) {
    && (forall t | t in ts ::
          Transform(stack, site, t, root).Ok?
          && AgreeOn(r, Transform(stack, site, t, root).value, Owned(stack, t)))
    && (forall k | (forall t | t in ts :: k !in Owned(stack, t)) :: SameAt(r, root, k))
  }

  lemma ChainStep(stack: Stack, site: Site, root: Fields, ts: seq<Target>, t: Target, r: Fields)
    requires Disjoint(stack) && Combines(stack, site, root, ts, r)
    ensures Transform(stack, site, t, r).Ok? == Transform(stack, site, t, root).Ok?
    ensures Transform(stack, site, t, r).Ok? ==> Combines(stack, site, root, ts + [t], Transform(stack, site, t, r).value)
  {
    if t in ts {
      var alone := Transform(stack, site, t, root).value;
      TransformTwice(stack, site, t, root);
      TransformLocal(stack, site, t, r, alone);
    } else {
      forall k | k in Owned(stack, t)
        ensures SameAt(r, root, k)
      {
        assert forall u | u in ts :: k !in Owned(stack, u) by {
          forall u | u in ts ensures k !in Owned(stack, u) { assert u != t; }
        }
      }
      TransformLocal(stack, site, t, r, root);
    }
    if Transform(stack, site, t, r).Ok? {
      TransformFrame(stack, site, t, r);
      CombinesExtends(stack, site, root, ts, t, r, Transform(stack, site, t, r).value);
    }
  }

  lemma CombinesExtends(stack: Stack, site: Site, root: Fields, ts: seq<Target>, t: Target, r: Fields, next: Fields)
    requires Disjoint(stack) && Combines(stack, site, root, ts, r)
    requires Transform(stack, site, t, root).Ok?
    requires AgreeOn(next, Transform(stack, site, t, root).value, Owned(stack, t))
    requires AgreeOff(next, r, Owned(stack, t))
    ensures Combines(stack, site, root, ts + [t], next)
  {
    forall u | u in ts + [t]
      ensures Transform(stack, site, u, root).Ok?
      ensures AgreeOn(next, Transform(stack, site, u, root).value, Owned(stack, u))
    {
      if u != t {
        assert u in ts;
        forall k | k in Owned(stack, u)
          ensures SameAt(next, Transform(stack, site, u, root).value, k)
        {
          assert k !in Owned(stack, t);
          assert SameAt(next, r, k);
          assert SameAt(r, Transform(stack, site, u, root).value, k);
        }
      }
    }
    forall k | forall u | u in ts + [t] :: k !in Owned(stack, u)
      ensures SameAt(next, root, k)
    {
      assert t in ts + [t];
      assert forall u | u in ts :: u in ts + [t];
      assert SameAt(next, r, k) && SameAt(r, root, k);
    }
  }

  /**
   * The chain succeeds exactly when each target alone would succeed on the
   * original document, and then gives each section what its target alone would.
   */
  lemma {:induction false} ChainCombines(stack: Stack, site: Site, root: Fields, ts: seq<Target>)
    requires Disjoint(stack)
    ensures Chain(stack, site, root, ts).Ok? <==> forall t | t in ts :: Transform(stack, site, t, root).Ok?
    ensures Chain(stack, site, root, ts).Ok? ==> Combines(stack, site, root, ts, Chain(stack, site, root, ts).value)
  {
    if ts != [] {
      var front, t := ts[..|ts| - 1], ts[|ts| - 1];
      assert ts == front + [t];
      ChainCombines(stack, site, root, front);
      if Chain(stack, site, root, front).Ok? {
        ChainStep(stack, site, root, front, t, Chain(stack, site, root, front).value);
      }
    }
  }

  lemma CombinesUnique(stack: Stack, site: Site, root: Fields, ts: seq<Target>, us: seq<Target>, a: Fields, b: Fields)
    requires forall t :: t in ts <==> t in us
    requires Combines(stack, site, root, ts, a) && Combines(stack, site, root, us, b)
    ensures a == b
  {
    forall k
      ensures SameAt(a, b, k)
    {
      if t :| t in ts && k in Owned(stack, t) {
        var alone := Transform(stack, site, t, root).value;
        assert SameAt(a, alone, k) && SameAt(b, alone, k);
      } else {
        assert SameAt(a, root, k) && SameAt(b, root, k);
      }
    }
    SameEverywhere(a, b);
  }

  lemma SameEverywhere(a: Fields, b: Fields)
    requires forall k :: SameAt(a, b, k)
    ensures a == b
  {
    assert forall k | k in a :: SameAt(a, b, k);
    assert forall k | k in b :: SameAt(a, b, k);
  }

  /** Order and repetition of the targets do not matter. */
  lemma ChainOrderIrrelevant(stack: Stack, site: Site, root: Fields, ts: seq<Target>, us: seq<Target>)
    requires Disjoint(stack) && forall t :: t in ts <==> t in us
    ensures Chain(stack, site, root, ts).Ok? == Chain(stack, site, root, us).Ok?
    ensures Chain(stack, site, root, ts).Ok? ==> Chain(stack, site, root, ts) == Chain(stack, site, root, us)
  {
    ChainCombines(stack, site, root, ts);
    ChainCombines(stack, site, root, us);
    if Chain(stack, site, root, ts).Ok? {
      CombinesUnique(stack, site, root, ts, us, Chain(stack, site, root, ts).value, Chain(stack, site, root, us).value);
    }
  }

  /** On the result of a chain, every target of the chain is the identity. */
  lemma ChainFixpoint(stack: Stack, site: Site, root: Fields, ts: seq<Target>, t: Target)
    requires Disjoint(stack) && t in ts && Chain(stack, site, root, ts).Ok?
    ensures var r := Chain(stack, site, root, ts).value;
      Transform(stack, site, t, r) == Ok(r)
  {
    var r := Chain(stack, site, root, ts).value;
    ChainCombines(stack, site, root, ts);
    var alone := Transform(stack, site, t, root).value;
    TransformTwice(stack, site, t, root);
    TransformLocal(stack, site, t, r, alone);
    TransformFrame(stack, site, t, r);
    var again := Transform(stack, site, t, r).value;
    forall k
      ensures SameAt(again, r, k)
    {
      if k in Owned(stack, t) {
        assert SameAt(again, alone, k) && SameAt(r, alone, k);
      }
    }
    SameEverywhere(again, r);
  }

  /**
   * Without disjointness this fails: an extra toggle that sets the plugin list is
   * undone and redone on every apply.
   */
  lemma OverlapBreaksFixpoint(stack: Stack, site: Site, a: string, b: string)
    requires site.canon(a) != site.canon(b) && !site.stale(b)
    requires stack.plugins == [a] && stack.toggles == map["plugin" := Fixed(Arr([Str(b)]))]
    ensures var r := Chain(stack, site, map[], [Plugins, Toggles]);
      r.Ok? && Transform(stack, site, Plugins, r.value) != r
  {
    var ts := [Plugins, Toggles];
    assert ts[..1] == [Plugins] && [Plugins][..0] == [];
    assert Chain(stack, site, map[], []) == Ok(map[]);
    assert Chain(stack, site, map[], [Plugins]) == Transform(stack, site, Plugins, map[]);
    var first := Transform(stack, site, Plugins, map[]).value;
    var r := Transform(stack, site, Toggles, first).value;
    MergeRootAt(first, stack.toggles, "plugin");
    TwoPlugins(stack, site, r, a, b);
  }

  lemma TwoPlugins(stack: Stack, site: Site, root: Fields, a: string, b: string)
    requires site.canon(a) != site.canon(b) && !site.stale(b)
    requires stack.plugins == [a] && "plugin" in root && root["plugin"] == Arr([Str(b)])
    ensures Transform(stack, site, Plugins, root).Ok?
    ensures Transform(stack, site, Plugins, root).value["plugin"] == Arr(AsJson([a, b]))
    ensures Transform(stack, site, Plugins, root).value != root
  {
    var items := [Str(b)];
    assert items[..0] == [] && Strings(items) == [b];
    assert [b][..0] == [];
    assert Select([b], [a], site, true, Kept) == [b];
    assert MergedList([b], [a], site, true) == [a, b];
    assert |AsJson([a, b])| == 2;
  }
}
