/** internal/render/array_merge.go and the watcher merge of merge.go. */
module ArrayMerge {
  import opened Common
  import opened Documents
  import opened Picking

  /**
   * What the merge asks of its surroundings: the canonical spelling of a path,
   * and whether a path names a worktree entry that is gone from disk.
   */
  datatype Site = Site(canon: string -> string, stale: string -> bool)

  datatype Verdict = Duplicate | Stale | Kept

  predicate IsDeclared(e: string, declared: seq<string>, site: Site) {
    exists i :: 0 <= i < |declared| && site.canon(declared[i]) == site.canon(e)
  }

  function Judge(e: string, declared: seq<string>, site: Site, strip: bool): Verdict {
    if IsDeclared(e, declared, site) then Duplicate
    else if strip && site.stale(e) then Stale
    else Kept
  }

  /** The entries of s with verdict v, in order. */
  function Select(s: seq<string>, declared: seq<string>, site: Site, strip: bool, v: Verdict): seq<string> {
    if s == [] then [] else
      var front := Select(s[..|s| - 1], declared, site, strip, v);
      var e := s[|s| - 1];
      if Judge(e, declared, site, strip) == v then front + [e] else front
  }

  /** Only the strings of a JSON array take part; other items are dropped. */
  function Strings(items: seq<Json>): seq<string> {
    if items == [] then [] else
      var front := Strings(items[..|items| - 1]);
      var last := items[|items| - 1];
      if last.Str? then front + [last.s] else front
  }

  function AsJson(s: seq<string>): seq<Json> {
    seq(|s|, i requires 0 <= i < |s| => Str(s[i]))
  }

  function MergedList(existing: seq<string>, declared: seq<string>, site: Site, strip: bool): seq<string> {
    declared + Select(existing, declared, site, strip, Kept)
  }

  /** How many declared entries no existing entry spells. */
  function CountNew(declared: seq<string>, existing: seq<string>, site: Site): nat {
    if declared == [] then 0 else
      CountNew(declared[..|declared| - 1], existing, site)
      + (if IsDeclared(declared[|declared| - 1], existing, site) then 0 else 1)
  }

  // ---- Laws --------------------------------------------------------------

  predicate Subsequence(a: seq<string>, b: seq<string>) {
    a == [] ||
    (b != [] &&
     ((a[|a| - 1] == b[|b| - 1] && Subsequence(a[..|a| - 1], b[..|b| - 1])) || Subsequence(a, b[..|b| - 1])))
  }

  lemma {:induction false} SelectSubsequence(s: seq<string>, declared: seq<string>, site: Site, strip: bool, v: Verdict)
    ensures Subsequence(Select(s, declared, site, strip, v), s)
    ensures forall e | e in Select(s, declared, site, strip, v) :: Judge(e, declared, site, strip) == v
  {
    if s != [] {
      var front, e := s[..|s| - 1], s[|s| - 1];
      SelectSubsequence(front, declared, site, strip, v);
      var chosen := Select(front, declared, site, strip, v);
      assert (chosen + [e])[..|chosen|] == chosen;
    }
  }

  lemma {:induction false} SelectAccounts(s: seq<string>, declared: seq<string>, site: Site, strip: bool)
    ensures multiset(Select(s, declared, site, strip, Kept)) + multiset(Select(s, declared, site, strip, Stale))
          + multiset(Select(s, declared, site, strip, Duplicate)) == multiset(s)
  {
    if s != [] {
      SelectAccounts(s[..|s| - 1], declared, site, strip);
      assert s == s[..|s| - 1] + [s[|s| - 1]];
    }
  }

  /**
   * The merged list is the declared one followed by a subsequence of the
   * existing one; nothing kept repeats a declared entry or is stale; kept,
   * stale and duplicate entries together are exactly the existing ones.
   */
  lemma MergeLaws(existing: seq<string>, declared: seq<string>, site: Site, strip: bool)
    ensures var merged := MergedList(existing, declared, site, strip);
      var kept := merged[|declared|..];
      && declared <= merged
      && Subsequence(kept, existing)
      && (forall e | e in kept :: !IsDeclared(e, declared, site) && !(strip && site.stale(e)))
      && multiset(kept) + multiset(Select(existing, declared, site, strip, Stale))
         + multiset(Select(existing, declared, site, strip, Duplicate)) == multiset(existing)
  {
    var kept := Select(existing, declared, site, strip, Kept);
    assert MergedList(existing, declared, site, strip)[|declared|..] == kept;
    SelectSubsequence(existing, declared, site, strip, Kept);
    SelectAccounts(existing, declared, site, strip);
  }

  lemma {:induction false} SelectAppend(a: seq<string>, b: seq<string>, declared: seq<string>, site: Site, strip: bool, v: Verdict)
    ensures Select(a + b, declared, site, strip, v)
      == Select(a, declared, site, strip, v) + Select(b, declared, site, strip, v)
  {
    if b == [] {
      assert a + b == a;
    } else {
      SelectAppend(a, b[..|b| - 1], declared, site, strip, v);
      assert (a + b)[..|a + b| - 1] == a + b[..|b| - 1];
    }
  }

  lemma SelectSnoc(front: seq<string>, e: string, declared: seq<string>, site: Site, strip: bool, v: Verdict)
    ensures Select(front + [e], declared, site, strip, v) ==
      Select(front, declared, site, strip, v) + (if Judge(e, declared, site, strip) == v then [e] else [])
  {
    assert (front + [e])[..|front|] == front;
  }

  /** A list in which every entry has verdict w selects as itself or as nothing. */
  lemma {:induction false} SelectUniform(s: seq<string>, declared: seq<string>, site: Site, strip: bool, v: Verdict, w: Verdict)
    requires forall i | 0 <= i < |s| :: Judge(s[i], declared, site, strip) == w
    ensures Select(s, declared, site, strip, v) == if v == w then s else []
  {
    if s != [] {
      var front, last := s[..|s| - 1], s[|s| - 1];
      SelectUniform(front, declared, site, strip, v, w);
      SelectSnoc(front, last, declared, site, strip, v);
      assert s == front + [last];
    }
  }

  /** Merging the result again with the same declared list changes nothing and counts nothing new or stale. */
  lemma MergeAgain(existing: seq<string>, declared: seq<string>, site: Site, strip: bool)
    ensures var once := MergedList(existing, declared, site, strip);
      && MergedList(once, declared, site, strip) == once
      && Select(once, declared, site, strip, Stale) == []
      && CountNew(declared, once, site) == 0
  {
    var once := MergedList(existing, declared, site, strip);
    var kept := Select(existing, declared, site, strip, Kept);
    forall v
      ensures Select(once, declared, site, strip, v) == if v == Kept then kept else if v == Duplicate then declared else []
    {
      SelectAppend(declared, kept, declared, site, strip, v);
      DeclaredSelected(declared, site, strip, v);
      KeptSelected(existing, declared, site, strip, v);
    }
    NothingNew(declared, once, site);
  }

  lemma DeclaredSelected(declared: seq<string>, site: Site, strip: bool, v: Verdict)
    ensures Select(declared, declared, site, strip, v) == if v == Duplicate then declared else []
  {
    forall i | 0 <= i < |declared|
      ensures Judge(declared[i], declared, site, strip) == Duplicate
    {
      assert site.canon(declared[i]) == site.canon(declared[i]);
    }
    SelectUniform(declared, declared, site, strip, v, Duplicate);
  }

  lemma KeptSelected(existing: seq<string>, declared: seq<string>, site: Site, strip: bool, v: Verdict)
    ensures var kept := Select(existing, declared, site, strip, Kept);
      Select(kept, declared, site, strip, v) == if v == Kept then kept else []
  {
    var kept := Select(existing, declared, site, strip, Kept);
    SelectSubsequence(existing, declared, site, strip, Kept);
    assert forall i | 0 <= i < |kept| :: kept[i] in kept;
    SelectUniform(kept, declared, site, strip, v, Kept);
  }

  lemma {:induction false} NothingNew(declared: seq<string>, existing: seq<string>, site: Site)
    requires |declared| <= |existing| && existing[..|declared|] == declared
    ensures CountNew(declared, existing, site) == 0
  {
    if declared != [] {
      var n := |declared| - 1;
      assert existing[..n] == existing[..|declared|][..n];
      NothingNew(declared[..n], existing, site);
      assert site.canon(existing[n]) == site.canon(declared[n]);
    }
  }

  lemma {:induction false} StringsOfAsJson(s: seq<string>)
    ensures Strings(AsJson(s)) == s
  {
    if s != [] {
      var n := |s| - 1;
      StringsOfAsJson(s[..n]);
      assert AsJson(s)[..n] == AsJson(s[..n]);
      assert s == s[..n] + [s[n]];
    }
  }

  // ---- From the items of a JSON array --------------------------------------

  /** A string that no declared entry spells and that is not to be pruned. */
  predicate Survives(v: Json, declared: seq<string>, site: Site, strip: bool) {
    && v.Str? && (forall i | 0 <= i < |declared| :: site.canon(declared[i]) != site.canon(v.s))
    && !(strip && site.stale(v.s))
  }

  /** The strings of one more item with verdict v. */
  lemma SelectStep(front: seq<Json>, last: Json, declared: seq<string>, site: Site, strip: bool, v: Verdict)
    ensures Select(Strings(front + [last]), declared, site, strip, v) ==
      Select(Strings(front), declared, site, strip, v)
        + (if last.Str? && Judge(last.s, declared, site, strip) == v then [last.s] else [])
  {
    assert (front + [last])[..|front|] == front;
    if last.Str? { assert (Strings(front) + [last.s])[..|Strings(front)|] == Strings(front); }
  }

  /** What the verdicts on a string mean; a declared one is never stale. */
  lemma Judged(v: Json, declared: seq<string>, site: Site, strip: bool)
    requires v.Str?
    ensures var spelled := exists i :: 0 <= i < |declared| && site.canon(declared[i]) == site.canon(v.s);
      && (Judge(v.s, declared, site, strip) == Duplicate <==> spelled)
      && (Judge(v.s, declared, site, strip) == Stale <==> !spelled && strip && site.stale(v.s))
      && (Judge(v.s, declared, site, strip) == Kept <==> Survives(v, declared, site, strip))
  {
  }

  lemma AsJsonAppend(a: seq<string>, b: seq<string>)
    ensures AsJson(a + b) == AsJson(a) + AsJson(b)
  {
  }

  lemma {:induction false} KeptArePicked(items: seq<Json>, declared: seq<string>, site: Site, strip: bool,
                                         chosen: Json -> bool, made: Json -> Json)
    requires forall v :: chosen(v) <==> Survives(v, declared, site, strip)
    requires forall v :: made(v) == v
    ensures AsJson(Select(Strings(items), declared, site, strip, Kept)) == Picked(items, chosen, made)
  {
    if items == [] {
      assert AsJson([]) == [];
    } else {
      var front, last := items[..|items| - 1], items[|items| - 1];
      var kept := Select(Strings(front), declared, site, strip, Kept);
      KeptArePicked(front, declared, site, strip, chosen, made);
      PickedStep(front, last, chosen, made);
      if last.Str? { Judged(last, declared, site, strip); }
      SelectStep(front, last, declared, site, strip, Kept);
      assert items == front + [last];
      if chosen(last) {
        AsJsonAppend(kept, [last.s]);
        assert AsJson([last.s]) == [last];
      } else {
        assert kept + [] == kept;
      }
    }
  }

  /** The items after a merge: first the declared entries, then, in order, the strings that survive. */
  ghost predicate Merged(items: seq<Json>, declared: seq<string>, site: Site, strip: bool, after: seq<Json>) {
    && |declared| <= |after| && (forall i | 0 <= i < |declared| :: after[i] == Str(declared[i]))
    && after[|declared|..] == Picked(items, v => Survives(v, declared, site, strip), v => v)
  }

  lemma ItemsMerged(items: seq<Json>, declared: seq<string>, site: Site, strip: bool)
    ensures Merged(items, declared, site, strip, AsJson(MergedList(Strings(items), declared, site, strip)))
  {
    var kept := Select(Strings(items), declared, site, strip, Kept);
    var chosen: Json -> bool := v => Survives(v, declared, site, strip);
    var made: Json -> Json := v => v;
    KeptArePicked(items, declared, site, strip, chosen, made);
    PickedSame(items, chosen, made, v => Survives(v, declared, site, strip), v => v);
    assert AsJson(declared + kept)[|declared|..] == AsJson(kept);
  }

  /** The positions of the strings of items with verdict v. */
  function Positions(items: seq<Json>, declared: seq<string>, site: Site, strip: bool, v: Verdict): set<int> {
    set i | 0 <= i < |items| && items[i].Str? && Judge(items[i].s, declared, site, strip) == v
  }

  lemma PositionsStep(front: seq<Json>, last: Json, declared: seq<string>, site: Site, strip: bool, v: Verdict)
    ensures Positions(front + [last], declared, site, strip, v) == Positions(front, declared, site, strip, v)
      + (if last.Str? && Judge(last.s, declared, site, strip) == v then {|front|} else {})
  {
    var all := front + [last];
    assert all[|front|] == last && forall i | 0 <= i < |front| :: all[i] == front[i];
  }

  lemma {:induction false} SelectedCount(items: seq<Json>, declared: seq<string>, site: Site, strip: bool, v: Verdict)
    ensures |Select(Strings(items), declared, site, strip, v)| == |Positions(items, declared, site, strip, v)|
  {
    if items != [] {
      var front, last := items[..|items| - 1], items[|items| - 1];
      SelectedCount(front, declared, site, strip, v);
      SelectStep(front, last, declared, site, strip, v);
      PositionsStep(front, last, declared, site, strip, v);
      assert items == front + [last];
      assert |front| !in Positions(front, declared, site, strip, v);
    }
  }

  /** The positions of the declared entries that no string of items spells. */
  function NewPositions(declared: seq<string>, items: seq<Json>, site: Site): set<int> {
    set i | 0 <= i < |declared| &&
      forall j | 0 <= j < |items| && items[j].Str? :: site.canon(items[j].s) != site.canon(declared[i])
  }

  lemma {:induction false} StringsAre(items: seq<Json>)
    ensures forall e :: e in Strings(items) <==> Str(e) in items
  {
    if items != [] {
      StringsAre(items[..|items| - 1]);
      assert items == items[..|items| - 1] + [items[|items| - 1]];
    }
  }

  lemma {:induction false} NewCount(declared: seq<string>, items: seq<Json>, site: Site)
    ensures CountNew(declared, Strings(items), site) == |NewPositions(declared, items, site)|
  {
    if declared != [] {
      var n := |declared| - 1;
      NewCount(declared[..n], items, site);
      var before, now := NewPositions(declared[..n], items, site), NewPositions(declared, items, site);
      SpelledBy(declared[n], items, site);
      if n in now { assert now == before + {n}; } else { assert now == before; }
    }
  }

  lemma SpelledBy(e: string, items: seq<Json>, site: Site)
    ensures IsDeclared(e, Strings(items), site) <==>
      exists j | 0 <= j < |items| && items[j].Str? :: site.canon(items[j].s) == site.canon(e)
  {
    StringsAre(items);
    var had := Strings(items);
    if IsDeclared(e, had, site) {
      var i :| 0 <= i < |had| && site.canon(had[i]) == site.canon(e);
      assert Str(had[i]) in items;
      var j :| 0 <= j < |items| && items[j] == Str(had[i]);
      assert items[j].Str? && site.canon(items[j].s) == site.canon(e);
    }
    if j :| 0 <= j < |items| && items[j].Str? && site.canon(items[j].s) == site.canon(e) {
      assert items[j] in items && items[j] == Str(items[j].s);
      var i :| 0 <= i < |had| && had[i] == items[j].s;
    }
  }

  // ---- On documents ------------------------------------------------------

  function EntriesAt(root: Fields, key: string): Result<seq<string>> {
    if key !in root then Ok([])
    else if root[key].Arr? then Ok(Strings(root[key].items))
    else Err("existing ." + key + " is not an array")
  }

  function MergeArrayRoot(root: Fields, key: string, declared: seq<string>, site: Site, strip: bool): Result<Fields> {
    match EntriesAt(root, key)
    case Ok(existing) => Ok(root[key := Arr(AsJson(MergedList(existing, declared, site, strip)))])
    case Err(m) => Err(m)
  }

  function WatcherOf(root: Fields): Result<Fields> {
    if "watcher" !in root then Ok(map[])
    else if root["watcher"].Obj? then Ok(root["watcher"].fields)
    else Err("existing .watcher is not an object")
  }

  function MergeWatcherRoot(root: Fields, declared: seq<string>, site: Site): Result<Fields> {
    match WatcherOf(root)
    case Err(m) => Err(m)
    case Ok(watcher) =>
      match MergeArrayRoot(watcher, "ignore", declared, site, false)
      case Err(m) => Err(m)
      case Ok(merged) => Ok(root["watcher" := Obj(merged)])
  }

  /** The items under key, none when it is absent. */
  function ItemsAt(root: Fields, key: string): seq<Json> {
    if key in root && root[key].Arr? then root[key].items else []
  }

  /** after is root with the list under key merged, and nothing else changed. */
  ghost predicate ListMerged(root: Fields, key: string, declared: seq<string>, site: Site, strip: bool, after: Fields) {
    && key in after && after == root[key := after[key]] && after[key].Arr?
    && Merged(ItemsAt(root, key), declared, site, strip, after[key].items)
  }

  /** A list can be merged unless something else is there, and an absent one counts as empty. */
  lemma MergesList(root: Fields, key: string, declared: seq<string>, site: Site, strip: bool)
    ensures var r := MergeArrayRoot(root, key, declared, site, strip);
      && (r.Ok? <==> key !in root || root[key].Arr?)
      && (r.Ok? ==> ListMerged(root, key, declared, site, strip, r.value))
      && (key !in root ==> r == Ok(root[key := Arr(AsJson(declared))]))
  {
    ItemsMerged(ItemsAt(root, key), declared, site, strip);
    if key !in root {
      assert Strings([]) == [] && Select([], declared, site, strip, Kept) == [];
      assert MergedList([], declared, site, strip) == declared;
    }
  }

  lemma CountsAre(root: Fields, key: string, declared: seq<string>, site: Site, strip: bool)
    requires EntriesAt(root, key).Ok?
    ensures var had, items := EntriesAt(root, key).value, ItemsAt(root, key);
      && CountNew(declared, had, site) == |NewPositions(declared, items, site)|
      && forall v :: |Select(had, declared, site, strip, v)| == |Positions(items, declared, site, strip, v)|
  {
    var items := ItemsAt(root, key);
    NewCount(declared, items, site);
    forall v ensures |Select(Strings(items), declared, site, strip, v)| == |Positions(items, declared, site, strip, v)| {
      SelectedCount(items, declared, site, strip, v);
    }
  }

  /** An object whose list of ignored paths, if it has one, is a list. */
  predicate IsWatcher(v: Json) {
    v.Obj? && ("ignore" in v.fields ==> v.fields["ignore"].Arr?)
  }

  /** What the watcher merge makes: other keys of the watcher stay, and an absent one gets the declared list and nothing else. */
  ghost predicate WatcherMerged(root: Fields, declared: seq<string>, site: Site, after: Fields) {
    if "watcher" !in root then after == root["watcher" := Obj(map["ignore" := Arr(AsJson(declared))])]
    else
      && "watcher" in after && after == root["watcher" := after["watcher"]]
      && root["watcher"].Obj? && after["watcher"].Obj?
      && ListMerged(root["watcher"].fields, "ignore", declared, site, false, after["watcher"].fields)
  }

  /** The watcher merge fails only on something that is not a watcher. */
  lemma MergesWatcher(root: Fields, declared: seq<string>, site: Site)
    ensures var r := MergeWatcherRoot(root, declared, site);
      && (r.Ok? <==> ("watcher" in root ==> IsWatcher(root["watcher"])))
      && (r.Ok? ==> WatcherMerged(root, declared, site, r.value))
  {
    if WatcherOf(root).Ok? {
      MergesList(WatcherOf(root).value, "ignore", declared, site, false);
    }
  }

  lemma MergeArrayTwice(root: Fields, key: string, declared: seq<string>, site: Site, strip: bool)
    requires MergeArrayRoot(root, key, declared, site, strip).Ok?
    ensures var once := MergeArrayRoot(root, key, declared, site, strip);
      MergeArrayRoot(once.value, key, declared, site, strip) == once
  {
    var existing := EntriesAt(root, key).value;
    MergeAgain(existing, declared, site, strip);
    StringsOfAsJson(MergedList(existing, declared, site, strip));
    var once := MergeArrayRoot(root, key, declared, site, strip).value;
    assert once == once[key := once[key]];
  }

  lemma MergeWatcherTwice(root: Fields, declared: seq<string>, site: Site)
    requires MergeWatcherRoot(root, declared, site).Ok?
    ensures var once := MergeWatcherRoot(root, declared, site);
      MergeWatcherRoot(once.value, declared, site) == once
  {
    MergeArrayTwice(WatcherOf(root).value, "ignore", declared, site, false);
    var once := MergeWatcherRoot(root, declared, site).value;
    assert once == once["watcher" := once["watcher"]];
  }

  // ---- The loops ---------------------------------------------------------

  datatype ArrayResult = ArrayResult(bytes: Bytes, pruned: nat, added: nat, preserved: nat)

  method CanonicalSet(list: seq<string>, site: Site) returns (names: set<string>)
    ensures forall e :: site.canon(e) in names <==> IsDeclared(e, list, site)
  {
    names := {};
    for i := 0 to |list|
      invariant forall c :: c in names <==> exists j :: 0 <= j < i && site.canon(list[j]) == c
    {
      names := names + {site.canon(list[i])};
    }
  }

  method MergeArray(existing: Bytes, key: string, declared: seq<string>, site: Site, strip: bool)
    returns (r: Result<ArrayResult>)
    ensures Parse(existing).Err? ==> r == Err(Parse(existing).message)
    ensures Parse(existing).Ok? ==>
      var root := Parse(existing).value;
      if EntriesAt(root, key).Err? then r == Err(EntriesAt(root, key).message)
      else r.Ok?
    ensures r.Ok? ==>
      var root := Parse(existing).value;
      var had := EntriesAt(root, key).value;
      r.value == ArrayResult(
        Printed(MergeArrayRoot(root, key, declared, site, strip).value),
        |Select(had, declared, site, strip, Stale)|,
        CountNew(declared, had, site),
        |Select(had, declared, site, strip, Kept)|)
    ensures r.Ok? ==>
      var root := Parse(existing).value;
      var items := ItemsAt(root, key);
      && r.value.bytes.Printed? && ListMerged(root, key, declared, site, strip, r.value.bytes.fields)
      && r.value.added == |NewPositions(declared, items, site)|
      && r.value.pruned == |Positions(items, declared, site, strip, Stale)|
      && r.value.preserved == |Positions(items, declared, site, strip, Kept)|
  {
    var parsed := Parse(existing);
    if parsed.Err? { return Err(parsed.message); }
    var entries := EntriesAt(parsed.value, key);
    if entries.Err? { return Err(entries.message); }
    var had := entries.value;
    var declaredSet := CanonicalSet(declared, site);
    var preserved: seq<string> := [];
    var pruned := 0;
    for i := 0 to |had|
      invariant preserved == Select(had[..i], declared, site, strip, Kept)
      invariant pruned == |Select(had[..i], declared, site, strip, Stale)|
    {
      assert had[..i + 1][..i] == had[..i];
      if site.canon(had[i]) in declaredSet {
      } else if strip && site.stale(had[i]) {
        pruned := pruned + 1;
      } else {
        preserved := preserved + [had[i]];
      }
    }
    assert had[..|had|] == had;
    var added := CountAdded(declared, had, site);
    CountsAre(parsed.value, key, declared, site, strip);
    MergesList(parsed.value, key, declared, site, strip);
    var merged := declared + preserved;
    r := Ok(ArrayResult(Printed(parsed.value[key := Arr(AsJson(merged))]), pruned, added, |preserved|));
  }

  method CountAdded(declared: seq<string>, had: seq<string>, site: Site) returns (added: nat)
    ensures added == CountNew(declared, had, site)
  {
    var existingSet := CanonicalSet(had, site);
    added := 0;
    for i := 0 to |declared|
      invariant added == CountNew(declared[..i], had, site)
    {
      assert declared[..i + 1][..i] == declared[..i];
      if site.canon(declared[i]) !in existingSet {
        added := added + 1;
      }
    }
    assert declared[..|declared|] == declared;
  }

  /** The loop of MergeWatcherIgnore over the entries that were there. */
  method KeepUndeclared(had: seq<string>, declared: seq<string>, site: Site) returns (merged: seq<string>)
    ensures merged == MergedList(had, declared, site, false)
  {
    var declaredSet := CanonicalSet(declared, site);
    merged := declared;
    for i := 0 to |had|
      invariant merged == declared + Select(had[..i], declared, site, false, Kept)
    {
      assert had[..i + 1][..i] == had[..i];
      if site.canon(had[i]) !in declaredSet {
        merged := merged + [had[i]];
      }
    }
    assert had[..|had|] == had;
  }

  method MergeWatcherIgnore(existing: Bytes, declared: seq<string>, site: Site) returns (r: Result<Bytes>)
    ensures r == match Parse(existing)
      case Err(m) => Err(m)
      case Ok(root) =>
        (match MergeWatcherRoot(root, declared, site) case Ok(m) => Ok(Printed(m)) case Err(e) => Err(e))
    ensures r.Ok? ==> r.value.Printed? && WatcherMerged(Parse(existing).value, declared, site, r.value.fields)
  {
    var parsed := Parse(existing);
    if parsed.Err? { return Err(parsed.message); }
    MergesWatcher(parsed.value, declared, site);
    var watcher := WatcherOf(parsed.value);
    if watcher.Err? { return Err(watcher.message); }
    var entries := EntriesAt(watcher.value, "ignore");
    if entries.Err? { return Err(entries.message); }
    var merged := KeepUndeclared(entries.value, declared, site);
    return Ok(Printed(parsed.value["watcher" := Obj(watcher.value["ignore" := Arr(AsJson(merged))])]));
  }
}
