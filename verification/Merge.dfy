/** internal/render/merge.go: the deep object merge and the MCP merge. */
module Merge {
  import opened Common
  import opened Documents

  /**
   * A declared value. Section is Go's map[string]any, the only kind the merge
   * descends into; Fixed is everything else, typed maps such as
   * map[string]string included.
   */
  datatype Decl = Fixed(value: Json) | Section(sub: map<string, Decl>)

  /** The JSON a declared value prints as. */
  function Erase(d: Decl): Json {
    match d
    case Fixed(v) => v
    case Section(sub) => Obj(map k | k in sub :: Erase(sub[k]))
  }

  function MergeValue(e: Json, d: Decl): Json
    decreases d
  {
    if e.Obj? && d.Section? then
      Obj(map k | k in e.fields.Keys + d.sub.Keys ::
        if k !in d.sub then e.fields[k]
        else if k in e.fields then MergeValue(e.fields[k], d.sub[k])
        else Erase(d.sub[k]))
    else Erase(d)
  }

  /** The specification of MergeObject on parsed roots. */
  function MergeRoot(root: Fields, declared: map<string, Decl>): Fields {
    MergeValue(Obj(root), Section(declared)).fields
  }

  // ---- Path by path ------------------------------------------------------

  /** Where a path leads in the declared tree. */
  datatype Reach =
    | Covered(found: Option<Json>)       // it meets a Fixed value on the way or at its end, and finds this in it
    | Inside(sub: map<string, Decl>)     // it ends at a Section
    | Missed                             // a Section on the way lacks the next key

  function ReachOf(d: Decl, path: seq<string>): Reach
    decreases |path|
  {
    if d.Fixed? then Covered(Lookup(d.value, path))
    else if path == [] then Inside(d.sub)
    else if path[0] in d.sub then ReachOf(d.sub[path[0]], path[1..])
    else Missed
  }

  lemma {:induction false} LookupErased(d: Decl, path: seq<string>)
    ensures ReachOf(d, path).Missed? ==> Lookup(Erase(d), path) == None
    ensures ReachOf(d, path).Covered? ==> Lookup(Erase(d), path) == ReachOf(d, path).found
    ensures ReachOf(d, path).Inside? ==>
      Lookup(Erase(d), path) == Some(Erase(Section(ReachOf(d, path).sub)))
    decreases |path|
  {
    if path != [] && d.Section? && path[0] in d.sub {
      LookupErased(d.sub[path[0]], path[1..]);
    }
  }

  /**
   * The declared side decides every path it covers, the existing side decides
   * every path the declared side misses, and where the declared side has a
   * section the result has an object with the declared keys and, if there was
   * an object before, its keys as well.
   */
  lemma {:induction false} MergePathwise(e: Json, d: Decl, path: seq<string>)
    ensures ReachOf(d, path).Covered? ==>
      Lookup(MergeValue(e, d), path) == ReachOf(d, path).found
    ensures ReachOf(d, path).Missed? && e.Obj? ==>
      Lookup(MergeValue(e, d), path) == Lookup(e, path)
    ensures ReachOf(d, path).Inside? ==>
      var sub := ReachOf(d, path).sub;
      var got := Lookup(MergeValue(e, d), path);
      var had := Lookup(e, path);
      got.Some? && got.value.Obj?
      && got.value.fields.Keys == sub.Keys + (if had.Some? && had.value.Obj? then had.value.fields.Keys else {})
    decreases |path|
  {
    if path != [] && d.Section? && path[0] in d.sub {
      var k, rest := path[0], path[1..];
      if e.Obj? && k in e.fields {
        MergePathwise(e.fields[k], d.sub[k], rest);
        if !e.fields[k].Obj? { LookupErased(d.sub[k], rest); }
      } else {
        LookupErased(d.sub[k], rest);
      }
    } else if !e.Obj? {
      LookupErased(d, path);
    }
  }

  // ---- Merging again changes nothing -------------------------------------

  lemma {:induction false} MergeAbsorbs(d: Decl)
    ensures MergeValue(Erase(d), d) == Erase(d)
  {
    if d.Section? {
      forall k | k in d.sub
        ensures MergeValue(Erase(d.sub[k]), d.sub[k]) == Erase(d.sub[k])
      {
        MergeAbsorbs(d.sub[k]);
      }
    }
  }

  lemma {:induction false} MergeTwice(e: Json, d: Decl)
    ensures MergeValue(MergeValue(e, d), d) == MergeValue(e, d)
    decreases d
  {
    if e.Obj? && d.Section? {
      var once := MergeValue(e, d);
      forall k | k in d.sub
        ensures MergeValue(once.fields[k], d.sub[k]) == once.fields[k]
      {
        if k in e.fields { MergeTwice(e.fields[k], d.sub[k]); } else { MergeAbsorbs(d.sub[k]); }
      }
      assert MergeValue(once, d).fields == once.fields;
    } else {
      MergeAbsorbs(d);
    }
  }

  // ---- The loops ---------------------------------------------------------

  /** The keys and values of a merge, one by one. */
  lemma MergeEntries(dst: Fields, src: Decl) returns (target: Fields)
    requires src.Section?
    ensures Obj(target) == MergeValue(Obj(dst), src)
    ensures target.Keys == dst.Keys + src.sub.Keys
    ensures forall k | k in target ::
      target[k] == (if k !in src.sub then dst[k]
        else if k in dst then MergeValue(dst[k], src.sub[k]) else Erase(src.sub[k]))
  {
    target := MergeValue(Obj(dst), src).fields;
  }

  method MergeMap(dst: Fields, src: Decl) returns (r: Fields)
    requires src.Section?
    ensures Obj(r) == MergeValue(Obj(dst), src)
    decreases src, 1
  {
    ghost var target := MergeEntries(dst, src);
    r := dst;
    var todo := src.sub.Keys;
    while todo != {}
      invariant todo <= src.sub.Keys
      invariant r.Keys == dst.Keys + (src.sub.Keys - todo)
      invariant forall k | k in r :: r[k] == if k in todo then dst[k] else target[k]
    {
      var key :| key in todo;
      var merged := MergeEntry(r, key, src.sub[key]);
      r := r[key := merged];
      todo := todo - {key};
    }
    assert r == target;
  }

  /** The value one iteration of mergeMap stores under key. */
  method MergeEntry(dst: Fields, key: string, srcVal: Decl) returns (v: Json)
    ensures v == if key in dst then MergeValue(dst[key], srcVal) else Erase(srcVal)
    decreases srcVal, 2
  {
    if key in dst && dst[key].Obj? && srcVal.Section? {
      var merged := MergeMap(dst[key].fields, srcVal);
      v := Obj(merged);
    } else {
      v := Erase(srcVal);
    }
  }

  method MergeObject(existing: Bytes, declared: map<string, Decl>) returns (r: Result<Bytes>)
    ensures r == match Parse(existing)
      case Ok(root) => Ok(Printed(MergeRoot(root, declared)))
      case Err(m) => Err(m)
  {
    var parsed := Parse(existing);
    if parsed.Err? { return Err(parsed.message); }
    var root := MergeMap(parsed.value, Section(declared));
    return Ok(Printed(root));
  }

  /** Fragments replace whole entries; the section must be an object if present. */
  function MergeMcpRoot(root: Fields, declared: Fields): Result<Fields> {
    if "mcp" !in root then Ok(root["mcp" := Obj(declared)])
    else if root["mcp"].Obj? then Ok(root["mcp" := Obj(root["mcp"].fields + declared)])
    else Err("existing .mcp is not an object")
  }

  lemma LookupTwo(root: Fields, a: string, b: string)
    ensures Lookup(Obj(root), [a, b]) ==
      if a in root && root[a].Obj? && b in root[a].fields then Some(root[a].fields[b]) else None
  {
    var path := [a, b];
    assert path[1..] == [b];
    if a in root && root[a].Obj? {
      assert [b][1..] == [];
      assert b in root[a].fields ==> Lookup(root[a], [b]) == Lookup(root[a].fields[b], []);
    }
  }

  /** Every declared server is in the result as declared, every other entry is as before. */
  lemma McpEntries(root: Fields, declared: Fields, name: string)
    requires MergeMcpRoot(root, declared).Ok?
    ensures var r := MergeMcpRoot(root, declared).value;
      && Lookup(Obj(r), ["mcp", name]) ==
        (if name in declared then Some(declared[name]) else Lookup(Obj(root), ["mcp", name]))
      && (forall k | k != "mcp" :: (k in r <==> k in root) && (k in r ==> r[k] == root[k]))
  {
    var r := MergeMcpRoot(root, declared).value;
    LookupTwo(r, "mcp", name);
    LookupTwo(root, "mcp", name);
  }

  method PutAll(dst: Fields, src: Fields) returns (r: Fields)
    ensures r == dst + src
  {
    r := dst;
    var todo := src.Keys;
    while todo != {}
      invariant todo <= src.Keys
      invariant r.Keys == dst.Keys + (src.Keys - todo)
      invariant forall k | k in r :: r[k] == if k in src && k !in todo then src[k] else dst[k]
    {
      var key :| key in todo;
      r := r[key := src[key]];
      todo := todo - {key};
    }
  }

  method MergeMCP(existing: Bytes, declared: Fields) returns (r: Result<Bytes>)
    ensures r == match Parse(existing)
      case Ok(root) =>
        (match MergeMcpRoot(root, declared) case Ok(m) => Ok(Printed(m)) case Err(e) => Err(e))
      case Err(m) => Err(m)
  {
    var parsed := Parse(existing);
    if parsed.Err? { return Err(parsed.message); }
    var root := parsed.value;
    var mcp: Fields := map[];
    if "mcp" in root {
      if !root["mcp"].Obj? { return Err("existing .mcp is not an object"); }
      mcp := root["mcp"].fields;
    }
    mcp := PutAll(mcp, declared);
    assert map[] + declared == declared;
    return Ok(Printed(root["mcp" := Obj(mcp)]));
  }
}
