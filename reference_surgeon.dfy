/**
 * The reference surgeon that the surgeon's unit test carries: every part
 * records its BSON path as an array of field names, the whole document is
 * always scattered from the root, and the root part has the empty path.
 */
module ReferenceSurgeon {
  import opened Wrappers
  import opened Bson
  import opened Sorting
  import opened Grafts
  import opened Surgery

  /** `x` is an entry of some instance of `collection`. */
  predicate InCollection(x: Part, collection: Pattern)
  {
    |x.bsonPath| == |collection| + 1 && IsInstance(x.bsonPath[..|collection|], collection)
  }

  /**
   * None of `parts` is an entry of an instance of `collection`, and none is
   * shallower than such an entry: scattering `collection` next cannot clash
   * with them.
   */
  predicate Fresh(parts: seq<Part>, collection: Pattern)
  {
    forall x :: x in parts ==>
      |x.bsonPath| >= |collection| + 1 && !IsInstance(x.bsonPath[..|x.bsonPath| - 1], collection)
  }

  /**
   * Every lookup that scattering `collection` makes finds a sub-document of
   * `doc`: the catalog of ids above the first parameter, then the same for
   * the collection bound to each of those ids, and without parameters the
   * container itself.
   */
  ghost predicate Reachable(doc: Value, collection: Pattern)
    decreases NumParams(collection)
  {
    if NumParams(collection) == 0 then DocAt(doc, RenderAll(collection))
    else
      var catalog := RenderAll(collection[..FirstParam(collection)]);
      DocAt(doc, catalog) &&
      forall id :: id in Get(doc, catalog).value.fields ==> Reachable(doc, BindFirst(collection, id))
  }

  /**
   * Parts fresh for `collection` lie deeper than any lookup scattering it
   * makes: the stubbed document has a sub-document there exactly when `doc`
   * has, with the same keys.
   */
  lemma FreshLookup(doc: Value, parts: seq<Part>, collection: Pattern, q: Path)
    requires Fresh(parts, collection) && |q| <= |collection|
    ensures DocAt(Stub(doc, PathsOf(parts)), q) <==> DocAt(doc, q)
    ensures DocAt(doc, q) ==> Get(Stub(doc, PathsOf(parts)), q).value.fields.Keys == Get(doc, q).value.fields.Keys
  {
    forall y | y in PathsOf(parts) ensures |y| > |q| {
      var x :| x in parts && x.bsonPath != [] && x.bsonPath == y;
    }
    StubAbove(doc, PathsOf(parts), q);
  }

  /**
   * Carve every entry of every instance of `collection` out of `work`,
   * appending one part per entry and leaving TRUE in its place. Parameters
   * are bound one at a time, from the ids found in `work`.
   */
  method ScatterOneCollection(collection: Pattern, work: Value, parts: seq<Part>, ghost doc: Value)
    returns (r: Result<(Value, seq<Part>), Failure>)
    requires work.Doc?
    ensures r.Ok? ==> r.value.0.Doc? && |r.value.1| >= |parts| && r.value.1[..|parts|] == parts
    ensures r.Ok? ==> forall x :: x in r.value.1[|parts|..] ==> InCollection(x, collection)
    ensures r.Ok? && Scattered(doc, work, parts) && Fresh(parts, collection) ==>
      Scattered(doc, r.value.0, r.value.1) && Covers([], doc, collection, r.value.1)
    ensures Scattered(doc, work, parts) && Fresh(parts, collection) ==> (r.Ok? <==> Reachable(doc, collection))
    ensures r.Err? ==> r.error.DocMissing?
    decreases NumParams(collection), 1
  {
    if NumParams(collection) == 0 {
      r := ScatterEntries(collection, work, parts, doc);
      if Scattered(doc, work, parts) && Fresh(parts, collection) {
        FreshLookup(doc, parts, collection, RenderAll(collection));
      }
    } else {
      r := ScatterEachId(collection, work, parts, doc);
    }
  }

  /**
   * The case with a parameter: look up the catalog of ids the first
   * parameter ranges over, then scatter the collection bound to each id.
   */
  method ScatterEachId(collection: Pattern, work: Value, parts: seq<Part>, ghost doc: Value)
    returns (r: Result<(Value, seq<Part>), Failure>)
    requires work.Doc? && NumParams(collection) > 0
    ensures r.Ok? ==> r.value.0.Doc? && |r.value.1| >= |parts| && r.value.1[..|parts|] == parts
    ensures r.Ok? ==> forall x :: x in r.value.1[|parts|..] ==> InCollection(x, collection)
    ensures r.Ok? && Scattered(doc, work, parts) && Fresh(parts, collection) ==>
      Scattered(doc, r.value.0, r.value.1) && Covers([], doc, collection, r.value.1)
    ensures Scattered(doc, work, parts) && Fresh(parts, collection) ==> (r.Ok? <==> Reachable(doc, collection))
    ensures r.Err? ==> r.error.DocMissing?
    decreases NumParams(collection), 0
  {
    ghost var ready := Scattered(doc, work, parts) && Fresh(parts, collection);
    var fpi := FirstParam(collection);
    ghost var catalog := RenderAll(collection[..fpi]);
    var found := Lookup(work, RenderAll(collection[..fpi]));
    if ready {
      FreshLookup(doc, parts, collection, catalog);
    }
    if found.Err? {
      return Err(found.error);
    }
    var ids := found.value.fields.Keys;
    var w, out := work, parts;
    ghost var processed: set<string> := {};
    while ids != {}
      invariant w.Doc? && ids <= found.value.fields.Keys && processed == found.value.fields.Keys - ids
      invariant |out| >= |parts| && out[..|parts|] == parts
      invariant forall x :: x in out[|parts|..] ==> InCollection(x, collection) && x.bsonPath[fpi] in processed
      invariant ready ==> Scattered(doc, w, out)
      invariant ready ==> CoversIds([], doc, collection, processed, out)
      invariant ready ==> forall id :: id in processed ==> Reachable(doc, BindFirst(collection, id))
      decreases ids
    {
      var id :| id in ids;
      var next := BindFirst(collection, id);
      if ready {
        FreshForNext(parts, out, collection, processed, id);
      }
      var sub := ScatterOneCollection(next, w, out, doc);
      if sub.Err? {
        if ready {
          assert id in Get(doc, catalog).value.fields;
        }
        return Err(sub.error);
      }
      BoundEntries(parts, out, sub.value.1, collection, processed, id);
      if ready {
        CoversNextId(collection, processed, id, doc, out, sub.value.1);
        ReachableNextId(doc, collection, processed, id);
      }
      w, out := sub.value.0, sub.value.1;
      processed := processed + {id};
      ids := ids - {id};
    }
    if ready {
      CoversCatalog(doc, parts, collection, found.value.fields, out);
    }
    return Ok((w, out));
  }

  /** Every id in the catalog covered, so is the collection. */
  lemma CoversCatalog(doc: Value, parts: seq<Part>, collection: Pattern, catalog: map<string, Value>, out: seq<Part>)
    requires NumParams(collection) > 0 && Fresh(parts, collection)
    requires Get(Stub(doc, PathsOf(parts)), RenderAll(collection[..FirstParam(collection)])) == Some(Doc(catalog))
    requires CoversIds([], doc, collection, catalog.Keys, out)
    ensures Covers([], doc, collection, out)
  {
    var fpi := FirstParam(collection);
    FreshNotEntry(parts, collection);
    RenderAllPrefix(collection, fpi, 0, fpi);
    assert RenderAll(collection[..fpi])[0..fpi] == RenderAll(collection[..fpi]);
    CoversFromIds([], doc, parts, collection, catalog, out);
  }

  /**
   * The parameter-free case: carve every entry of the one container
   * `collection` names out of `work`, leaving TRUE in its place.
   */
  method ScatterEntries(collection: Pattern, work: Value, parts: seq<Part>, ghost doc: Value)
    returns (r: Result<(Value, seq<Part>), Failure>)
    requires work.Doc? && NumParams(collection) == 0
    ensures r.Ok? <==> Get(work, RenderAll(collection)).Some? && Get(work, RenderAll(collection)).value.Doc?
    ensures r.Ok? ==> r.value.0.Doc? && |r.value.1| >= |parts| && r.value.1[..|parts|] == parts
    ensures r.Ok? ==> var m := Get(work, RenderAll(collection)).value.fields;
      |r.value.1| == |parts| + |m| &&
      (forall k :: k in m ==> Part(RenderAll(collection) + [k], m[k]) in r.value.1[|parts|..]) &&
      Get(r.value.0, RenderAll(collection)) == Some(Doc(map k | k in m :: TRUE))
    ensures r.Ok? ==> forall x :: x in r.value.1[|parts|..] ==> InCollection(x, collection)
    ensures r.Ok? && Scattered(doc, work, parts) && Fresh(parts, collection) ==>
      Scattered(doc, r.value.0, r.value.1) && Covers([], doc, collection, r.value.1)
    ensures r.Err? ==> r.error == DocMissing(RenderAll(collection))
  {
    ghost var ready := Scattered(doc, work, parts) && Fresh(parts, collection);
    var containing := RenderAll(collection);
    NumParamsZero(collection);
    assert IsInstance(containing, collection);
    var found := Lookup(work, containing);
    if found.Err? {
      return Err(found.error);
    }
    var m := found.value.fields;
    var w, out := work, parts;
    var keys := m.Keys;
    ghost var carved: seq<Part> := [];
    assert out == parts + carved;
    while keys != {}
      invariant w.Doc? && keys <= m.Keys
      invariant out == parts + carved
      invariant EntriesOf(carved, containing, m.Keys - keys)
      invariant |carved| == |m.Keys - keys|
      invariant forall k :: k in m.Keys - keys ==> Part(containing + [k], m[k]) in carved
      invariant Remaining(w, containing, m, keys)
      invariant ready ==> Scattered(doc, w, out) && forall x :: x in out ==> |x.bsonPath| >= |containing| + 1
      decreases keys
    {
      var key :| key in keys;
      var x := Part(containing + [key], m[key]);
      if ready {
        CarveEntry(doc, w, parts, carved, collection, containing, m, keys, key);
      }
      EmittedStep(carved, containing, m, keys, key);
      RemainingStep(w, containing, m, keys, key);
      Appended(parts, carved, x);
      out := out + [x];
      carved := carved + [x];
      w := PutAt(w, containing, key, TRUE).value;
      keys := keys - {key};
    }
    PrefixAndRest(parts, carved);
    RemainingNone(w, containing, m);
    EntriesInCollection(collection, carved, m.Keys);
    if ready {
      EntriesCovered(collection, doc, parts, carved, m);
    }
    return Ok((w, out));
  }

  /** Carving out an entry not carved yet keeps the document scattered, the entry's part appended. */
  lemma CarveEntry(doc: Value, w: Value, parts: seq<Part>, carved: seq<Part>, collection: Pattern, containing: Path,
                   m: map<string, Value>, keys: set<string>, key: string)
    requires EntriesOf(carved, containing, m.Keys - keys)
    requires Remaining(w, containing, m, keys) && key in keys
    requires Scattered(doc, w, parts + carved) && forall x :: x in parts + carved ==> |x.bsonPath| >= |containing| + 1
    requires Fresh(parts, collection) && IsInstance(containing, collection)
    ensures PutAt(w, containing, key, TRUE).Some?
    ensures Scattered(doc, PutAt(w, containing, key, TRUE).value, parts + carved + [Part(containing + [key], m[key])])
  {
    forall y | y in parts + carved ensures y.bsonPath != containing + [key] {
      assert y in parts || y in carved;
    }
    EmitPart(doc, w, parts + carved, containing, key, Get(w, containing).value.fields);
  }

  lemma PrefixAndRest(parts: seq<Part>, carved: seq<Part>)
    ensures (parts + carved)[..|parts|] == parts && (parts + carved)[|parts|..] == carved
  {
  }

  /** The parts carved out of the container at `RenderAll(collection)` are entries of the collection. */
  lemma EntriesInCollection(collection: Pattern, emitted: seq<Part>, done: set<string>)
    requires NumParams(collection) == 0
    requires EntriesOf(emitted, RenderAll(collection), done)
    ensures forall x :: x in emitted ==> InCollection(x, collection)
  {
    NumParamsZero(collection);
    forall x | x in emitted ensures InCollection(x, collection) {
      assert x.bsonPath[..|collection|] == RenderAll(collection);
    }
  }

  /** Carving every entry of the one container a parameter-free collection names covers the collection. */
  lemma EntriesCovered(collection: Pattern, doc: Value, parts: seq<Part>, carved: seq<Part>, m: map<string, Value>)
    requires NumParams(collection) == 0
    requires Fresh(parts, collection)
    requires Get(Stub(doc, PathsOf(parts)), RenderAll(collection)) == Some(Doc(m))
    requires forall k :: k in m ==> Part(RenderAll(collection) + [k], m[k]) in carved
    ensures Covers([], doc, collection, parts + carved)
  {
    EntriesNoParams(collection);
    FreshNotEntry(parts, collection);
    CoversEntries([], doc, parts, collection, RenderAll(collection), m, parts + carved);
  }

  /** Without parameters, every entry of the collection is an entry of the one container it names. */
  lemma EntriesNoParams(collection: Pattern)
    requires NumParams(collection) == 0
    ensures forall p :: EntryPath([], p, collection) ==> p[..|p| - 1] == RenderAll(collection)
  {
    NumParamsZero(collection);
    forall p | EntryPath([], p, collection) ensures p[..|p| - 1] == RenderAll(collection) {
      assert [] + p == p;
    }
  }

  /** Parts fresh for a collection are not entries of it, nor shallower. */
  lemma FreshNotEntry(parts: seq<Part>, collection: Pattern)
    requires Fresh(parts, collection)
    ensures forall x :: x in parts ==>
      |x.bsonPath| >= |collection| + 1 && !EntryPath([], x.bsonPath, collection)
  {
    forall x | x in parts ensures !EntryPath([], x.bsonPath, collection) {
      assert [] + x.bsonPath == x.bsonPath;
    }
  }

  /** The ids processed so far stay reachable, and the one just processed joins them. */
  lemma ReachableNextId(doc: Value, collection: Pattern, processed: set<string>, id: string)
    requires NumParams(collection) > 0
    requires forall i :: i in processed ==> Reachable(doc, BindFirst(collection, i))
    requires Reachable(doc, BindFirst(collection, id))
    ensures forall i :: i in processed + {id} ==> Reachable(doc, BindFirst(collection, i))
  {
    forall i | i in processed + {id} ensures Reachable(doc, BindFirst(collection, i)) {
      if i != id {
        assert i in processed;
      }
    }
  }

  /** The ids processed so far stay covered as parts are added, and the one just processed joins them. */
  lemma CoversNextId(collection: Pattern, processed: set<string>, id: string, doc: Value,
                     before: seq<Part>, after: seq<Part>)
    requires NumParams(collection) > 0
    requires |after| >= |before| && after[..|before|] == before
    requires CoversIds([], doc, collection, processed, before)
    requires Covers([], doc, BindFirst(collection, id), after)
    ensures CoversIds([], doc, collection, processed + {id}, after)
  {
    assert after == before + after[|before|..];
    forall i | i in processed ensures Covers([], doc, BindFirst(collection, i), after) {
      CoversMore([], doc, BindFirst(collection, i), before, after[|before|..]);
    }
  }

  /** The parts carved for the ids processed so far are fresh for the next id. */
  lemma FreshForNext(parts: seq<Part>, out: seq<Part>, collection: Pattern, processed: set<string>, id: string)
    requires NumParams(collection) > 0
    requires Fresh(parts, collection)
    requires |out| >= |parts| && out[..|parts|] == parts
    requires forall x :: x in out[|parts|..] ==>
      InCollection(x, collection) && x.bsonPath[FirstParam(collection)] in processed
    requires id !in processed
    ensures Fresh(out, BindFirst(collection, id))
  {
    var next := BindFirst(collection, id);
    forall x | x in out
      ensures |x.bsonPath| >= |next| + 1 && !IsInstance(x.bsonPath[..|x.bsonPath| - 1], next)
    {
      SplitAppended(parts, out, x);
    }
  }

  /** The parts carved for `id` join those carved for the ids processed before. */
  lemma BoundEntries(parts: seq<Part>, before: seq<Part>, after: seq<Part>, collection: Pattern,
                     processed: set<string>, id: string)
    requires NumParams(collection) > 0
    requires |before| >= |parts| && before[..|parts|] == parts
    requires |after| >= |before| && after[..|before|] == before
    requires forall x :: x in before[|parts|..] ==>
      InCollection(x, collection) && x.bsonPath[FirstParam(collection)] in processed
    requires forall x :: x in after[|before|..] ==> InCollection(x, BindFirst(collection, id))
    ensures |after| >= |parts| && after[..|parts|] == parts
    ensures forall x :: x in after[|parts|..] ==>
      InCollection(x, collection) && x.bsonPath[FirstParam(collection)] in processed + {id}
  {
    var fpi := FirstParam(collection);
    assert after[..|parts|] == before[..|parts|];
    forall x | x in after[|parts|..]
      ensures InCollection(x, collection) && x.bsonPath[fpi] in processed + {id}
    {
      assert after[|parts|..] == before[|parts|..] + after[|before|..];
      if x in after[|before|..] {
        assert x.bsonPath[..|collection|][fpi] == x.bsonPath[fpi];
      }
    }
  }

  /** An element of a list extending `prefix` is in the prefix or in the extension. */
  lemma SplitAppended(prefix: seq<Part>, all: seq<Part>, x: Part)
    requires |all| >= |prefix| && all[..|prefix|] == prefix
    requires x in all
    ensures x in prefix || x in all[|prefix|..]
  {
    assert all == prefix + all[|prefix|..];
  }

  /**
   * `scatter`: the collections, longest path first, each carved out of the
   * document in turn, and finally the stubbed document as the root part.
   */
  method Scatter(separateCollections: seq<Pattern>, docToScatter: Value) returns (r: Result<seq<Part>, Failure>)
    requires docToScatter.Doc?
    ensures r.Ok? ==> r.value != [] && r.value[|r.value| - 1].bsonPath == []
    ensures r.Ok? && Disjoint(separateCollections) ==> Describes(r.value, docToScatter)
    ensures r.Ok? && Disjoint(separateCollections) ==> DistinctPaths(r.value)
    ensures r.Ok? && Disjoint(separateCollections) ==>
      forall c :: c in separateCollections ==> Covers([], docToScatter, c, r.value)
    ensures Disjoint(separateCollections) ==>
      (r.Ok? <==> forall c :: c in separateCollections ==> Reachable(docToScatter, c))
    ensures r.Ok? ==> forall x :: x in r.value[..|r.value| - 1] ==> CarvedBy(x, separateCollections)
    ensures r.Err? ==> r.error.DocMissing?
  {
    var collections := SortBy(separateCollections, LongestFirst);
    ghost var ready := Disjoint(separateCollections);
    var w, parts := docToScatter, [];
    ScatteredInitially(docToScatter);
    var i := 0;
    while i < |collections|
      invariant 0 <= i <= |collections| && w.Doc?
      invariant forall x :: x in parts ==> exists j :: 0 <= j < i && InCollection(x, collections[j])
      invariant ready ==> Scattered(docToScatter, w, parts)
      invariant ready ==> forall j :: 0 <= j < i ==> Covers([], docToScatter, collections[j], parts)
      invariant ready ==> forall j :: 0 <= j < i ==> Reachable(docToScatter, collections[j])
    {
      if ready {
        FreshForLater(separateCollections, collections, i, parts);
      }
      var one := ScatterOneCollection(collections[i], w, parts, docToScatter);
      if one.Err? {
        if ready {
          SameCollections(separateCollections, collections);
          assert collections[i] in separateCollections;
        }
        return Err(one.error);
      }
      ghost var before := parts;
      w, parts := one.value.0, one.value.1;
      forall x | x in parts ensures exists j :: 0 <= j < i + 1 && InCollection(x, collections[j]) {
        SplitAppended(before, parts, x);
      }
      if ready {
        CoversKept(docToScatter, collections, i, before, parts);
        ReachableKept(docToScatter, collections, i);
      }
      i := i + 1;
    }
    if ready {
      FinishRecipe(docToScatter, w, parts);
      CoversEvery(docToScatter, separateCollections, collections, parts, Part([], w));
      ReachableEvery(docToScatter, separateCollections, collections);
    }
    OnlyEntries(separateCollections, collections, parts, Part([], w));
    return Ok(parts + [Part([], w)]);
  }

  /** `x` is an entry of one of `collections`. */
  predicate CarvedBy(x: Part, collections: seq<Pattern>)
  {
    exists c :: c in collections && InCollection(x, c)
  }

  /** Once every collection has had its turn, all but the stubbed root are entries of one of them. */
  lemma OnlyEntries(separateCollections: seq<Pattern>, collections: seq<Pattern>, parts: seq<Part>, root: Part)
    requires multiset(collections) == multiset(separateCollections)
    requires forall x :: x in parts ==> exists j :: 0 <= j < |collections| && InCollection(x, collections[j])
    ensures forall x :: x in (parts + [root])[..|parts|] ==> CarvedBy(x, separateCollections)
  {
    assert (parts + [root])[..|parts|] == parts;
    SameCollections(separateCollections, collections);
    forall x | x in parts ensures CarvedBy(x, separateCollections) {
      var j :| 0 <= j < |collections| && InCollection(x, collections[j]);
      assert collections[j] in collections;
    }
  }

  /** Scattering in longest-first order scatters exactly the collections given. */
  lemma SameCollections(separateCollections: seq<Pattern>, collections: seq<Pattern>)
    requires multiset(collections) == multiset(separateCollections)
    ensures forall c :: c in collections <==> c in separateCollections
  {
    forall c ensures c in collections <==> c in separateCollections {
      assert c in collections <==> c in multiset(collections);
      assert c in separateCollections <==> c in multiset(separateCollections);
    }
  }

  /**
   * The parts carved for the collections before position `i`, in longest-first
   * order, are fresh for the collection at `i`: none is shallower, and none is
   * an entry of it, since disjoint collections share no container.
   */
  lemma FreshForLater(separateCollections: seq<Pattern>, collections: seq<Pattern>, i: nat, parts: seq<Part>)
    requires Disjoint(separateCollections)
    requires multiset(collections) == multiset(separateCollections) && SortedBy(collections, LongestFirst)
    requires i < |collections|
    requires forall x :: x in parts ==> exists j :: 0 <= j < i && InCollection(x, collections[j])
    ensures Fresh(parts, collections[i])
  {
    forall x | x in parts ensures |x.bsonPath| >= |collections[i]| + 1 && !IsInstance(x.bsonPath[..|x.bsonPath| - 1], collections[i]) {
      var j :| 0 <= j < i && InCollection(x, collections[j]);
      assert LongestFirst(collections[j]) <= LongestFirst(collections[i]);
      if IsInstance(x.bsonPath[..|x.bsonPath| - 1], collections[i]) {
        InstanceOfBoth(x.bsonPath[..|x.bsonPath| - 1], collections[j], collections[i]);
        DisjointApart(separateCollections, collections, j, i);
      }
    }
  }

  /** The collections before `i` stay reachable, and the one at `i` joins them. */
  lemma ReachableKept(doc: Value, collections: seq<Pattern>, i: nat)
    requires i < |collections|
    requires forall j :: 0 <= j < i ==> Reachable(doc, collections[j])
    requires Reachable(doc, collections[i])
    ensures forall j :: 0 <= j < i + 1 ==> Reachable(doc, collections[j])
  {
    forall j | 0 <= j < i + 1 ensures Reachable(doc, collections[j]) {
      if j < i {
        assert Reachable(doc, collections[j]);
      }
    }
  }

  /** The collections scattered so far stay covered as parts are added, and the one just scattered joins them. */
  lemma CoversKept(doc: Value, collections: seq<Pattern>, i: nat, before: seq<Part>, after: seq<Part>)
    requires i < |collections|
    requires |after| >= |before| && after[..|before|] == before
    requires forall j :: 0 <= j < i ==> Covers([], doc, collections[j], before)
    requires Covers([], doc, collections[i], after)
    ensures forall j :: 0 <= j < i + 1 ==> Covers([], doc, collections[j], after)
  {
    assert after == before + after[|before|..];
    forall j | 0 <= j < i ensures Covers([], doc, collections[j], after) {
      CoversMore([], doc, collections[j], before, after[|before|..]);
    }
  }

  /** Every collection, in the order scattered, covered: so is every collection given, the root part added. */
  lemma ReachableEvery(doc: Value, separateCollections: seq<Pattern>, collections: seq<Pattern>)
    requires multiset(collections) == multiset(separateCollections)
    requires forall j :: 0 <= j < |collections| ==> Reachable(doc, collections[j])
    ensures forall c :: c in separateCollections ==> Reachable(doc, c)
  {
    forall c | c in separateCollections ensures Reachable(doc, c) {
      assert c in multiset(collections);
      var j :| 0 <= j < |collections| && collections[j] == c;
    }
  }

  lemma CoversEvery(doc: Value, separateCollections: seq<Pattern>, collections: seq<Pattern>, parts: seq<Part>, root: Part)
    requires multiset(collections) == multiset(separateCollections)
    requires forall j :: 0 <= j < |collections| ==> Covers([], doc, collections[j], parts)
    ensures forall c :: c in separateCollections ==> Covers([], doc, c, parts + [root])
  {
    forall c | c in separateCollections ensures Covers([], doc, c, parts + [root]) {
      assert c in multiset(collections);
      var j :| 0 <= j < |collections| && collections[j] == c;
      CoversMore([], doc, c, parts, [root]);
    }
  }

  /**
   * What `gather` computes: the parts sorted by path length, the first one
   * the root, the others put in place one after the other.
   */
  function Assemble(parts: seq<Part>): (r: Result<Value, Failure>)
    ensures parts == [] ==> r == Err(IndexOutOfBounds)
    ensures parts != [] && (forall x :: x in parts ==> x.bsonPath != []) ==> r == Err(NoRootRecipe)
    ensures r.Ok? ==> r.value.Doc?
  {
    if parts == [] then Err(IndexOutOfBounds)
    else
      var sorted := SortBy(parts, PathLength);
      assert sorted[0] in multiset(parts);
      if sorted[0].bsonPath != [] then Err(NoRootRecipe)
      else if !sorted[0].state.Doc? then Err(NotADocument)
      else (PlaceAllKeepsDoc(sorted[0].state, sorted[1..]); PlaceAll(sorted[0].state, sorted[1..]))
  }

  lemma {:induction false} PlaceAllKeepsDoc(whole: Value, parts: seq<Part>)
    requires whole.Doc?
    ensures PlaceAll(whole, parts).Ok? ==> PlaceAll(whole, parts).value.Doc?
    decreases |parts|
  {
    if parts != [] && Place(whole, parts[0]).Ok? {
      PlaceAllKeepsDoc(Place(whole, parts[0]).value, parts[1..]);
    }
  }

  /** `gather`: sort, take the root part's state, and put every other part in place. */
  method Gather(partsList: seq<Part>) returns (r: Result<Value, Failure>)
    ensures r == Assemble(partsList)
  {
    if partsList == [] {
      return Err(IndexOutOfBounds);
    }
    var sorted := SortBy(partsList, PathLength);
    if sorted[0].bsonPath != [] {
      return Err(NoRootRecipe);
    }
    if !sorted[0].state.Doc? {
      return Err(NotADocument);
    }
    PlaceAllKeepsDoc(sorted[0].state, sorted[1..]);
    r := PlaceEach(sorted[0].state, sorted[1..]);
  }

  /** The loop of `gather`: every other part in turn put in place in the root part's state. */
  method PlaceEach(root: Value, parts: seq<Part>) returns (r: Result<Value, Failure>)
    requires root.Doc?
    ensures r == PlaceAll(root, parts)
  {
    var whole := root;
    var i := 0;
    while i < |parts|
      invariant 0 <= i <= |parts| && whole.Doc?
      invariant PlaceAll(whole, parts[i..]) == PlaceAll(root, parts)
    {
      var entry := parts[i];
      assert parts[i..][0] == entry && parts[i..][1..] == parts[i + 1..];
      var placed := PlaceOne(whole, entry);
      if placed.Err? {
        return Err(placed.error);
      }
      whole := placed.value;
      i := i + 1;
    }
    assert parts[i..] == [];
    return Ok(whole);
  }

  /** The body of `gather`'s loop: puts the entry's state at its path in the whole. */
  method PlaceOne(whole: Value, entry: Part) returns (r: Result<Value, Failure>)
    requires whole.Doc?
    ensures r == Place(whole, entry)
  {
    var segments := entry.bsonPath;
    if |segments| == 0 {
      return Err(BadRange);
    }
    var c := segments[..|segments| - 1];
    var container := Lookup(whole, c);
    if container.Err? {
      return Err(container.error);
    }
    r := Ok(PutAt(whole, c, segments[|segments| - 1], entry.state).value);
  }

  /** Gathering the parts that describe a document gives the document back. */
  lemma GatherInvertsScatter(parts: seq<Part>, doc: Value)
    requires Describes(parts, doc)
    ensures Assemble(parts) == Ok(doc)
  {
    SortedRecipeRestores(parts, doc, SortBy(parts, PathLength));
  }

  /** The order of the parts does not matter: any reordering gathers to the same document. */
  lemma GatherIgnoresOrder(parts: seq<Part>, received: seq<Part>, doc: Value)
    requires Describes(parts, doc)
    requires multiset(received) == multiset(parts)
    ensures Assemble(received) == Assemble(parts) == Ok(doc)
  {
    DescribesPermutation(parts, received, doc);
    GatherInvertsScatter(parts, doc);
    GatherInvertsScatter(received, doc);
  }

  /**
   * The unit test's round trip: scatter a copy of the document, gather the
   * parts in any order they come back in, and get the document back.
   */
  method ScatterThenGather(separateCollections: seq<Pattern>, entireDoc: Value, order: nat)
    returns (scattered: Result<seq<Part>, Failure>, gathered: Result<Value, Failure>)
    requires entireDoc.Doc? && Disjoint(separateCollections)
    ensures scattered.Ok? ==> gathered == Ok(entireDoc)
    ensures scattered.Ok? ==> forall c :: c in separateCollections ==> Covers([], entireDoc, c, scattered.value)
    ensures scattered.Ok? ==> DistinctPaths(scattered.value)
    ensures scattered.Ok? <==> forall c :: c in separateCollections ==> Reachable(entireDoc, c)
    ensures scattered.Err? ==> scattered.error.DocMissing? && gathered == Err(scattered.error)
  {
    scattered := Scatter(separateCollections, entireDoc);
    if scattered.Err? {
      return scattered, Err(scattered.error);
    }
    var received := Rotate(scattered.value, order);
    GatherIgnoresOrder(scattered.value, received, entireDoc);
    gathered := Gather(received);
  }
}
