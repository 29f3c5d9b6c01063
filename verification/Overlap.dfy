/** When sections that write the same top-level key still leave each other alone. */
module Overlap {
  import opened Common
  import opened Documents
  import opened Merge
  import opened ArrayMerge
  import opened Sections

  // ---- Two declarations of one value -------------------------------------

  /** A value a declaration changes nothing in. */
  predicate Absorbs(v: Json, d: Decl) {
    MergeValue(v, d) == v
  }

  /** Some value absorbs both declarations. */
  predicate Agree(a: Decl, b: Decl)
    decreases a
  {
    match (a, b)
    case (Fixed(v), _) => Absorbs(v, b)
    case (Section(_), Fixed(w)) => Absorbs(w, a)
    case (Section(s), Section(t)) => forall k | k in s && k in t :: Agree(s[k], t[k])
  }

  lemma AbsorbsMeans(v: Json, d: Decl)
    ensures Absorbs(v, d) <==>
      match d
      case Fixed(w) => v == w
      case Section(sub) => v.Obj? && forall k | k in sub :: k in v.fields && Absorbs(v.fields[k], sub[k])
  {
    if d.Section? && v.Obj? {
      var r := MergeValue(v, d).fields;
      if Absorbs(v, d) {
        forall k | k in d.sub
          ensures k in v.fields && Absorbs(v.fields[k], d.sub[k])
        {
          assert k in r && r[k] == v.fields[k];
        }
      }
      if forall k | k in d.sub :: k in v.fields && Absorbs(v.fields[k], d.sub[k]) {
        assert r == v.fields;
      }
    }
  }

  lemma {:induction false} BothAbsorbed(v: Json, a: Decl, b: Decl)
    requires Absorbs(v, a) && Absorbs(v, b)
    ensures Agree(a, b)
    decreases a
  {
    AbsorbsMeans(v, a);
    AbsorbsMeans(v, b);
    if a.Section? && b.Section? {
      forall k | k in a.sub && k in b.sub
        ensures Agree(a.sub[k], b.sub[k])
      {
        BothAbsorbed(v.fields[k], a.sub[k], b.sub[k]);
      }
    }
  }

  /** Merging an agreeing declaration keeps what was absorbed. */
  lemma {:induction false} AgreeKeeps(v: Json, a: Decl, b: Decl)
    requires Absorbs(v, a) && Agree(a, b)
    ensures Absorbs(MergeValue(v, b), a)
    decreases a
  {
    AbsorbsMeans(v, a);
    AbsorbsMeans(MergeValue(v, b), a);
    if a.Section? && b.Section? {
      forall k | k in a.sub
        ensures Absorbs(MergeValue(v, b).fields[k], a.sub[k])
      {
        if k in b.sub { AgreeKeeps(v.fields[k], a.sub[k], b.sub[k]); }
      }
    }
  }

  /**
   * Merging one declaration and then another is a fixpoint of the first exactly when
   * the two agree, whatever was there before.
   */
  lemma AgreeIsExact(e: Json, a: Decl, b: Decl)
    ensures var r := MergeValue(MergeValue(e, a), b);
      MergeValue(r, a) == r <==> Agree(a, b)
  {
    var r := MergeValue(MergeValue(e, a), b);
    MergeTwice(e, a);
    MergeTwice(MergeValue(e, a), b);
    if Agree(a, b) { AgreeKeeps(MergeValue(e, a), a, b); }
    if Absorbs(r, a) { BothAbsorbed(r, a, b); }
  }

  // ---- What each target claims of a top-level key ------------------------

  datatype Claim =
    | Tree(d: Decl)                               // merged as declared
    | Entries(declared: seq<string>, strip: bool) // a list of strings
    | Ignore(declared: seq<string>)               // an object with such a list under "ignore"

  /** MCP servers are merged one level deep, each as a whole. */
  function McpDecl(servers: Fields): Decl {
    Section(map k | k in servers :: Fixed(servers[k]))
  }

  function Claims(stack: Stack, t: Target): map<string, Claim> {
    match t
    case MCP => map["mcp" := Tree(McpDecl(stack.mcp))]
    case Plugins => map["plugin" := Entries(stack.plugins, true)]
    case Instructions => map["instructions" := Entries(stack.instructions, false)]
    case Watcher => map["watcher" := Ignore(stack.watcher)]
    case Skills => map[]
    case _ => map k | k in DeclaredOf(stack, t) :: Tree(DeclaredOf(stack, t)[k])
  }

  /** A list that merging the entries changes nothing in. */
  predicate Listed(v: Json, declared: seq<string>, strip: bool, site: Site) {
    v.Arr? && v.items == AsJson(MergedList(Strings(v.items), declared, site, strip))
  }

  predicate Meets(v: Json, c: Claim, site: Site) {
    match c
    case Tree(d) => Absorbs(v, d)
    case Entries(declared, strip) => Listed(v, declared, strip, site)
    case Ignore(declared) => v.Obj? && "ignore" in v.fields && Listed(v.fields["ignore"], declared, false, site)
  }

  /** Claims of two different targets on one key that some value meets both of; no two targets claim lists under the same key. */
  predicate AgreeClaims(c: Claim, other: Claim, site: Site) {
    match (c, other)
    case (Tree(a), Tree(b)) => Agree(a, b)
    case (Tree(d), _) => Suits(d, other, site)
    case (_, Tree(d)) => Suits(d, c, site)
    case _ => false
  }

  /** A declaration that leaves a list claim met: it fixes a list that already is, or does not touch it. */
  predicate Suits(d: Decl, list: Claim, site: Site) {
    match (d, list)
    case (Fixed(v), _) => Meets(v, list, site)
    case (Section(sub), Ignore(declared)) =>
      "ignore" !in sub || (sub["ignore"].Fixed? && Listed(sub["ignore"].value, declared, false, site))
    case _ => false
  }

  /** The two targets agree on every key that both claim. */
  predicate Compatible(stack: Stack, site: Site, t: Target, u: Target) {
    t == u || forall k | k in Claims(stack, t) && k in Claims(stack, u) ::
      AgreeClaims(Claims(stack, t)[k], Claims(stack, u)[k], site)
  }

  predicate Consistent(stack: Stack, site: Site, ts: seq<Target>) {
    forall t, u | t in ts && u in ts :: Compatible(stack, site, t, u)
  }

  lemma ClaimsOwned(stack: Stack, t: Target)
    ensures Claims(stack, t).Keys == Owned(stack, t)
  {
  }

  /** Disjoint sections are consistent. */
  lemma DisjointIsConsistent(stack: Stack, site: Site, ts: seq<Target>)
    requires Disjoint(stack)
    ensures Consistent(stack, site, ts)
  {
    forall t, u | t in ts && u in ts
      ensures Compatible(stack, site, t, u)
    {
      ClaimsOwned(stack, t);
      ClaimsOwned(stack, u);
      if t != u { assert Owned(stack, t) !! Owned(stack, u); }
    }
  }

  // ---- Claims and transformers -------------------------------------------

  /** A target leaves a document alone exactly when it meets all its claims. */
  predicate MeetsAll(stack: Stack, site: Site, t: Target, root: Fields) {
    forall k | k in Claims(stack, t) :: k in root && Meets(root[k], Claims(stack, t)[k], site)
  }

  lemma ListSettles(root: Fields, key: string, declared: seq<string>, site: Site, strip: bool)
    ensures MergeArrayRoot(root, key, declared, site, strip) == Ok(root) <==>
      key in root && Listed(root[key], declared, strip, site)
  {
    var r := MergeArrayRoot(root, key, declared, site, strip);
    if r == Ok(root) { assert root[key] == r.value[key]; }
    if key in root && Listed(root[key], declared, strip, site) { assert root[key := root[key]] == root; }
  }

  lemma McpSettles(root: Fields, servers: Fields)
    ensures MergeMcpRoot(root, servers) == Ok(root) <==> "mcp" in root && Absorbs(root["mcp"], McpDecl(servers))
  {
    var r := MergeMcpRoot(root, servers);
    if r.Ok? { assert "mcp" in r.value; }
    if "mcp" in root && root["mcp"].Obj? {
      var fields := root["mcp"].fields;
      McpIsTree(fields, servers);
      if r == Ok(root) { assert r.value["mcp"] == root["mcp"]; }
      if fields + servers == fields { assert root["mcp" := root["mcp"]] == root; }
    }
  }

  lemma McpIsTree(fields: Fields, servers: Fields)
    ensures MergeValue(Obj(fields), McpDecl(servers)) == Obj(fields + servers)
  {
    var d := McpDecl(servers);
    var r := MergeValue(Obj(fields), d).fields;
    assert r.Keys == fields.Keys + servers.Keys;
    forall k | k in r
      ensures r[k] == (fields + servers)[k]
    {
      if k in servers {
        assert d.sub[k] == Fixed(servers[k]) && Erase(d.sub[k]) == servers[k];
        if k in fields { assert MergeValue(fields[k], d.sub[k]) == servers[k]; }
      }
    }
    assert r == fields + servers;
  }

  lemma WatcherSettles(root: Fields, declared: seq<string>, site: Site)
    ensures MergeWatcherRoot(root, declared, site) == Ok(root) <==>
      "watcher" in root && Meets(root["watcher"], Ignore(declared), site)
  {
    var r := MergeWatcherRoot(root, declared, site);
    if WatcherOf(root).Ok? {
      var watcher := WatcherOf(root).value;
      ListSettles(watcher, "ignore", declared, site, false);
      if r == Ok(root) { assert root["watcher"] == r.value["watcher"]; }
      if "watcher" in root && Meets(root["watcher"], Ignore(declared), site) {
        assert root["watcher" := root["watcher"]] == root;
      }
    }
  }

  lemma TreeSettles(root: Fields, declared: map<string, Decl>)
    ensures MergeRoot(root, declared) == root <==> forall k | k in declared :: k in root && Absorbs(root[k], declared[k])
  {
    AbsorbsMeans(Obj(root), Section(declared));
  }

  lemma MergedSettles(stack: Stack, site: Site, t: Target, root: Fields)
    requires !t.MCP? && !t.Plugins? && !t.Instructions? && !t.Watcher? && !t.Skills?
    ensures Transform(stack, site, t, root) == Ok(root) <==> MeetsAll(stack, site, t, root)
  {
    TreeSettles(root, DeclaredOf(stack, t));
    assert forall k | k in Claims(stack, t) :: Claims(stack, t)[k] == Tree(DeclaredOf(stack, t)[k]);
  }

  lemma OneClaim(stack: Stack, site: Site, t: Target, root: Fields, key: string, c: Claim)
    requires Claims(stack, t) == map[key := c]
    ensures MeetsAll(stack, site, t, root) <==> key in root && Meets(root[key], c, site)
  {
    assert key in Claims(stack, t) && Claims(stack, t)[key] == c;
  }

  lemma SettlesWhen(stack: Stack, site: Site, t: Target, root: Fields)
    ensures Transform(stack, site, t, root) == Ok(root) <==> MeetsAll(stack, site, t, root)
  {
    match t {
      case MCP =>
        McpSettles(root, stack.mcp);
        OneClaim(stack, site, t, root, "mcp", Tree(McpDecl(stack.mcp)));
      case Plugins =>
        ListSettles(root, "plugin", stack.plugins, site, true);
        OneClaim(stack, site, t, root, "plugin", Entries(stack.plugins, true));
      case Instructions =>
        ListSettles(root, "instructions", stack.instructions, site, false);
        OneClaim(stack, site, t, root, "instructions", Entries(stack.instructions, false));
      case Watcher =>
        WatcherSettles(root, stack.watcher, site);
        OneClaim(stack, site, t, root, "watcher", Ignore(stack.watcher));
      case Skills =>
      case _ => MergedSettles(stack, site, t, root);
    }
  }

  // ---- A claim met, and another target's transform -----------------------

  /** A value that meets the claims of two different targets on one key shows that they agree. */
  lemma BothMet(v: Json, c: Claim, other: Claim, site: Site)
    requires c.Tree? || other.Tree?
    requires Meets(v, c, site) && Meets(v, other, site)
    ensures AgreeClaims(c, other, site)
  {
    if c.Tree? && other.Tree? {
      BothAbsorbed(v, c.d, other.d);
    } else if c.Tree? {
      TreeAndList(v, c.d, other, site);
    } else {
      TreeAndList(v, other.d, c, site);
    }
  }

  lemma TreeAndList(v: Json, d: Decl, list: Claim, site: Site)
    requires !list.Tree? && Absorbs(v, d) && Meets(v, list, site)
    ensures Suits(d, list, site)
  {
    AbsorbsMeans(v, d);
    if d.Section? && "ignore" in d.sub { AbsorbsMeans(v.fields["ignore"], d.sub["ignore"]); }
  }

  /** What a claim makes of the value under its key. */
  function Claimed(v: Json, c: Claim, site: Site): Result<Json> {
    match c
    case Tree(d) => Ok(MergeValue(v, d))
    case Entries(declared, strip) =>
      if v.Arr? then Ok(Arr(AsJson(MergedList(Strings(v.items), declared, site, strip)))) else Err("not an array")
    case Ignore(declared) =>
      if !v.Obj? then Err("not an object")
      else if "ignore" !in v.fields then Ok(Obj(v.fields["ignore" := Arr(AsJson(declared))]))
      else if v.fields["ignore"].Arr? then
        Ok(Obj(v.fields["ignore" := Arr(AsJson(MergedList(Strings(v.fields["ignore"].items), declared, site, false)))]))
      else Err("not an array")
  }

  /** A met claim stays met under the transform of an agreeing one. */
  lemma AgreeingKeepsMet(v: Json, c: Claim, other: Claim, site: Site)
    requires AgreeClaims(c, other, site) && Meets(v, c, site) && Claimed(v, other, site).Ok?
    ensures Meets(Claimed(v, other, site).value, c, site)
  {
    if c.Tree? && other.Tree? {
      AgreeKeeps(v, c.d, other.d);
    } else if other.Tree? {
      ListKeptByTree(v, c, other.d, site);
    } else {
      TreeKeptByList(v, c.d, other, site);
    }
  }

  lemma ListKeptByTree(v: Json, list: Claim, d: Decl, site: Site)
    requires !list.Tree? && Suits(d, list, site) && Meets(v, list, site)
    ensures Meets(MergeValue(v, d), list, site)
  {
  }

  lemma TreeKeptByList(v: Json, d: Decl, list: Claim, site: Site)
    requires !list.Tree? && Suits(d, list, site) && Absorbs(v, d) && Claimed(v, list, site).Ok?
    ensures Absorbs(Claimed(v, list, site).value, d)
  {
    var after := Claimed(v, list, site).value;
    AbsorbsMeans(v, d);
    AbsorbsMeans(after, d);
    if d.Fixed? {
      assert Meets(v, list, site);
      if list.Ignore? { assert v.fields["ignore" := v.fields["ignore"]] == v.fields; }
    } else if "ignore" in d.sub {
      AbsorbsMeans(v.fields["ignore"], d.sub["ignore"]);
      assert v.fields["ignore" := v.fields["ignore"]] == v.fields;
    }
  }

  /** Where a target claims a key that is there, it does to it what the claim says. */
  lemma TransformClaims(stack: Stack, site: Site, t: Target, root: Fields, k: string)
    requires Transform(stack, site, t, root).Ok? && k in Claims(stack, t) && k in root
    ensures var r := Transform(stack, site, t, root).value;
      k in r && Claimed(root[k], Claims(stack, t)[k], site) == Ok(r[k])
  {
    match t {
      case MCP => McpIsTree(root["mcp"].fields, stack.mcp);
      case Plugins =>
      case Instructions =>
      case Watcher =>
        if "ignore" !in root["watcher"].fields {
          assert Select([], stack.watcher, site, false, Kept) == [];
          assert MergedList([], stack.watcher, site, false) == stack.watcher;
        }
      case Skills =>
      case _ => MergeRootAt(root, DeclaredOf(stack, t), k);
    }
  }

  /** Two different targets never claim lists under one key. */
  lemma OneListPerKey(stack: Stack, t: Target, u: Target, k: string)
    requires t != u && k in Claims(stack, t) && k in Claims(stack, u)
    ensures Claims(stack, t)[k].Tree? || Claims(stack, u)[k].Tree?
  {
  }

  /** What t leaves alone, it still leaves alone after a compatible target. */
  lemma CompatibleKeeps(stack: Stack, site: Site, t: Target, u: Target, root: Fields)
    requires Compatible(stack, site, t, u) && MeetsAll(stack, site, t, root) && Transform(stack, site, u, root).Ok?
    ensures MeetsAll(stack, site, t, Transform(stack, site, u, root).value)
  {
    var r := Transform(stack, site, u, root).value;
    if t == u {
      TransformTwice(stack, site, t, root);
      SettlesWhen(stack, site, t, r);
    } else {
      TransformFrame(stack, site, u, root);
      ClaimsOwned(stack, u);
      forall k | k in Claims(stack, t)
        ensures k in r && Meets(r[k], Claims(stack, t)[k], site)
      {
        if k in Claims(stack, u) {
          TransformClaims(stack, site, u, root, k);
          AgreeingKeepsMet(root[k], Claims(stack, t)[k], Claims(stack, u)[k], site);
        } else {
          assert SameAt(r, root, k);
        }
      }
    }
  }

  // ---- Chains ------------------------------------------------------------

  lemma {:induction false} ConsistentSettles(stack: Stack, site: Site, root: Fields, ts: seq<Target>, t: Target)
    requires Consistent(stack, site, ts) && t in ts && Chain(stack, site, root, ts).Ok?
    ensures MeetsAll(stack, site, t, Chain(stack, site, root, ts).value)
  {
    var front, u := ts[..|ts| - 1], ts[|ts| - 1];
    assert ts == front + [u];
    var before := Chain(stack, site, root, front).value;
    if t == u {
      TransformTwice(stack, site, t, before);
      SettlesWhen(stack, site, t, Chain(stack, site, root, ts).value);
    } else {
      assert forall x | x in front :: x in ts;
      ConsistentSettles(stack, site, root, front, t);
      CompatibleKeeps(stack, site, t, u, before);
    }
  }

  /** Every target of ts leaves the document alone. */
  ghost predicate Fixpoint(stack: Stack, site: Site, ts: seq<Target>, r: Fields) {
    forall t | t in ts :: Transform(stack, site, t, r) == Ok(r)
  }

  /**
   * The result of a chain is a fixpoint of all its targets exactly when the targets
   * are consistent: a condition on the declarations alone, whatever the document was.
   */
  lemma ChainFixpointExactly(stack: Stack, site: Site, root: Fields, ts: seq<Target>)
    requires Chain(stack, site, root, ts).Ok?
    ensures Fixpoint(stack, site, ts, Chain(stack, site, root, ts).value) <==> Consistent(stack, site, ts)
  {
    var r := Chain(stack, site, root, ts).value;
    forall t | t in ts
      ensures Transform(stack, site, t, r) == Ok(r) <==> MeetsAll(stack, site, t, r)
    {
      SettlesWhen(stack, site, t, r);
    }
    if Consistent(stack, site, ts) {
      forall t | t in ts
        ensures MeetsAll(stack, site, t, r)
      {
        ConsistentSettles(stack, site, root, ts, t);
      }
    } else {
      var t, u :| t in ts && u in ts && !Compatible(stack, site, t, u);
      NotBothSettled(stack, site, t, u, r);
    }
  }

  lemma NotBothSettled(stack: Stack, site: Site, t: Target, u: Target, r: Fields)
    ensures MeetsAll(stack, site, t, r) && MeetsAll(stack, site, u, r) ==> Compatible(stack, site, t, u)
  {
    if t != u && MeetsAll(stack, site, t, r) && MeetsAll(stack, site, u, r) {
      forall k | k in Claims(stack, t) && k in Claims(stack, u)
        ensures AgreeClaims(Claims(stack, t)[k], Claims(stack, u)[k], site)
      {
        OneListPerKey(stack, t, u, k);
        BothMet(r[k], Claims(stack, t)[k], Claims(stack, u)[k], site);
      }
    }
  }

  /** Overlapping sections may be consistent all the same. */
  lemma OverlapMayBeConsistent(stack: Stack, site: Site)
    requires stack.providers == stack.toggles == map["provider" := Section(map[])]
    ensures !Disjoint(stack) && Consistent(stack, site, [Providers, Toggles])
  {
    assert "provider" in Owned(stack, Providers) && "provider" in Owned(stack, Toggles);
    assert Claims(stack, Providers) == Claims(stack, Toggles);
  }
}
