/**
 * What both surgeons share: the failures they raise, the part lists that
 * `scatter` produces and `gather` consumes, the lookup of a sub-document, the
 * placing of parts back into a whole, and the facts about stubbing that make
 * scatter and gather inverse to each other.
 */
module Surgery {
  import opened Wrappers
  import opened Bson
  import opened Sorting
  import opened Grafts

  /** The exceptions the surgeons throw, one constructor per distinct cause. */
  datatype Failure =
    | IndexOutOfBounds           // List.get or List.subList beyond the list
    | BadRange                   // List.subList(from, to) with from > to
    | NoRootRecipe               // IllegalArgumentException "No root recipe"
    | NotADocument               // BsonInvalidOperationException: the root state is not a document
    | NotContained(part: Path, root: Path) // IllegalArgumentException "Part doc is not contained within the root doc"
    | DocMissing(segments: Path) // IllegalArgumentException "Doc does not contain " + segments

  /** One recipe: a sub-document `state` and the BSON path it belongs at. */
  datatype Part = Part(bsonPath: Path, state: Value)

  function PathLength(x: Part): int
  {
    |x.bsonPath|
  }

  /**
   * `lookup(entireDoc, segments)`: descend field by field, each step
   * requiring a sub-document.
   */
  method Lookup(entireDoc: Value, segments: Path) returns (r: Result<Value, Failure>)
    requires entireDoc.Doc?
    ensures r.Ok? <==> Get(entireDoc, segments).Some? && Get(entireDoc, segments).value.Doc?
    ensures r.Ok? ==> Get(entireDoc, segments) == Some(r.value)
    ensures r.Err? ==> r.error == DocMissing(segments)
  {
    var result := entireDoc;
    var i := 0;
    while i < |segments|
      invariant 0 <= i <= |segments|
      invariant Get(entireDoc, segments[..i]) == Some(result) && result.Doc?
    {
      GetAppend(entireDoc, segments[..i], segments[i]);
      assert segments[..i] + [segments[i]] == segments[..i + 1];
      if segments[i] !in result.fields || !result.fields[segments[i]].Doc? {
        GetConcat(entireDoc, segments[..i + 1], segments[i + 1..]);
        assert segments[..i + 1] + segments[i + 1..] == segments;
        return Err(DocMissing(segments));
      }
      result := result.fields[segments[i]];
      i := i + 1;
    }
    assert segments[..i] == segments;
    return Ok(result);
  }

  /**
   * Put one part back: the container named by all but the last segment must
   * already be a document, and the last segment names the entry replaced.
   */
  function Place(whole: Value, x: Part): (r: Result<Value, Failure>)
    ensures r.Ok? <==> x.bsonPath != [] && PutAt(whole, x.bsonPath[..|x.bsonPath| - 1], x.bsonPath[|x.bsonPath| - 1], x.state).Some?
    ensures r.Ok? ==> Get(r.value, x.bsonPath) == Some(x.state)
    ensures x.bsonPath == [] ==> r == Err(BadRange)
  {
    if x.bsonPath == [] then Err(BadRange)
    else
      var c := x.bsonPath[..|x.bsonPath| - 1];
      assert c + [x.bsonPath[|x.bsonPath| - 1]] == x.bsonPath;
      match PutAt(whole, c, x.bsonPath[|x.bsonPath| - 1], x.state)
      case None => Err(DocMissing(c))
      case Some(w) => Ok(w)
  }

  /** Place the parts one after the other, stopping at the first failure. */
  function PlaceAll(whole: Value, parts: seq<Part>): Result<Value, Failure>
    decreases |parts|
  {
    if parts == [] then Ok(whole)
    else match Place(whole, parts[0])
      case Err(e) => Err(e)
      case Ok(w) => PlaceAll(w, parts[1..])
  }

  // ---------------------------------------------------------------------
  // Part lists that describe a document.
  // ---------------------------------------------------------------------

  /** The paths of the non-root parts. */
  function PathsOf(parts: seq<Part>): set<Path>
  {
    set x | x in parts && x.bsonPath != [] :: x.bsonPath
  }

  /** `x` holds what `doc` has at x's path, with the parts of `X` deeper down stubbed out. */
  predicate Carries(doc: Value, X: set<Path>, x: Part)
  {
    Get(doc, x.bsonPath).Some? && x.state == Stub(Get(doc, x.bsonPath).value, Below(X, x.bsonPath))
  }

  /** The root part: the whole document with every other part stubbed out. */
  function RootOf(doc: Value, parts: seq<Part>): Part
  {
    Part([], Stub(doc, PathsOf(parts)))
  }

  /**
   * `parts` is a recipe for `doc`: exactly one root part, and every other
   * part carries its piece of `doc`. Only which parts occur and how often
   * matters, not their order.
   */
  predicate Describes(parts: seq<Part>, doc: Value)
  {
    doc.Doc? &&
    multiset(parts)[RootOf(doc, parts)] == 1 &&
    forall x :: x in parts ==>
      if x.bsonPath == [] then x == RootOf(doc, parts) else Carries(doc, PathsOf(parts), x)
  }

  /** Appending one part after `carved` regroups with the parts before it. */
  lemma Appended(parts: seq<Part>, carved: seq<Part>, x: Part)
    ensures parts + carved + [x] == parts + (carved + [x])
  {
  }

  /** A reordering of a recipe is a recipe for the same document. */
  lemma DescribesPermutation(parts: seq<Part>, other: seq<Part>, doc: Value)
    requires Describes(parts, doc)
    requires multiset(other) == multiset(parts)
    ensures Describes(other, doc)
  {
    forall x ensures x in other <==> x in parts {
      assert x in other <==> x in multiset(other);
      assert x in parts <==> x in multiset(parts);
    }
    assert PathsOf(other) == PathsOf(parts);
  }

  /** The paths of a list of parts. */
  function AllPaths(parts: seq<Part>): set<Path>
  {
    set x | x in parts :: x.bsonPath
  }

  /**
   * Placing the remaining parts of a sorted list, each carrying its piece of
   * `doc`, into `doc` with exactly those parts stubbed out, restores `doc`.
   */
  lemma {:induction false} PlaceAllRestores(doc: Value, X: set<Path>, Z: set<Path>, rest: seq<Part>)
    requires SortedBy(rest, PathLength)
    requires Z <= AllPaths(rest) <= X
    requires forall q, x :: q in X - Z && x in rest ==> |q| <= |x.bsonPath|
    requires forall x :: x in rest ==> x.bsonPath != [] && Carries(doc, X, x)
    ensures PlaceAll(Stub(doc, Z), rest) == Ok(doc)
    decreases |rest|
  {
    if rest == [] {
      assert Z == {};
      StubNothing(doc);
    } else {
      var x := rest[0];
      var p := x.bsonPath;
      SortedHeadShortest(rest);
      BelowIgnoresShort(X, X - Z, p);
      assert X - (X - Z) == Z;
      PlaceRestores(doc, X, Z, x);
      PlaceAllRestores(doc, X, Z - {p}, rest[1..]);
    }
  }

  /** The head of a list sorted by path length is a shortest part and has no proper prefix among the list's paths. */
  lemma SortedHeadShortest(rest: seq<Part>)
    requires SortedBy(rest, PathLength) && rest != []
    ensures forall x :: x in rest ==> |rest[0].bsonPath| <= |x.bsonPath|
    ensures forall k :: 0 <= k < |rest[0].bsonPath| ==> rest[0].bsonPath[..k] !in AllPaths(rest)
    ensures AllPaths(rest) - {rest[0].bsonPath} <= AllPaths(rest[1..])
  {
    forall x | x in rest ensures |rest[0].bsonPath| <= |x.bsonPath| {
      var j :| 0 <= j < |rest| && rest[j] == x;
      assert PathLength(rest[0]) <= PathLength(rest[j]);
    }
    forall q | q in AllPaths(rest) - {rest[0].bsonPath} ensures q in AllPaths(rest[1..]) {
      var x :| x in rest && x.bsonPath == q;
      var j :| 0 <= j < |rest| && rest[j] == x;
      assert rest[1..][j - 1] == x;
    }
  }

  /** Placing one carried part into a document where it is stubbed out un-stubs it. */
  lemma PlaceRestores(doc: Value, X: set<Path>, Y: set<Path>, x: Part)
    requires x.bsonPath != [] && Carries(doc, X, x)
    requires forall k :: 0 <= k < |x.bsonPath| ==> x.bsonPath[..k] !in Y
    requires Below(Y, x.bsonPath) == Below(X, x.bsonPath)
    ensures Place(Stub(doc, Y), x) == Ok(Stub(doc, Y - {x.bsonPath}))
  {
    var p := x.bsonPath;
    var c, key := p[..|p| - 1], p[|p| - 1];
    assert c + [key] == p;
    assert NoPrefixIn(Y, c + [key], |c| + 1);
    PutStubRestore(doc, Y, c, key);
  }

  /**
   * Sorting a recipe by path length puts its root part first, and placing the
   * rest into the root's state gives the document back.
   */
  lemma SortedRecipeRestores(parts: seq<Part>, doc: Value, sorted: seq<Part>)
    requires Describes(parts, doc)
    requires multiset(sorted) == multiset(parts)
    requires SortedBy(sorted, PathLength)
    ensures sorted != [] && sorted[0] == RootOf(doc, parts)
    ensures PlaceAll(sorted[0].state, sorted[1..]) == Ok(doc)
  {
    SortedRootFirst(parts, doc, sorted);
    var rest := sorted[1..];
    assert AllPaths(rest) == PathsOf(parts) by {
      forall q | q in PathsOf(parts) ensures q in AllPaths(rest) {
        var x :| x in parts && x.bsonPath != [] && x.bsonPath == q;
        assert x in multiset(sorted);
        var j :| 0 <= j < |sorted| && sorted[j] == x;
        assert rest[j - 1] == x;
      }
    }
    assert SortedBy(rest, PathLength);
    PlaceAllRestores(doc, PathsOf(parts), PathsOf(parts), rest);
  }

  /** The root part sorts first and only once. */
  lemma SortedRootFirst(parts: seq<Part>, doc: Value, sorted: seq<Part>)
    requires Describes(parts, doc)
    requires multiset(sorted) == multiset(parts)
    requires SortedBy(sorted, PathLength)
    ensures sorted != [] && sorted[0] == RootOf(doc, parts)
    ensures forall x :: x in sorted[1..] ==> x in parts && x.bsonPath != []
  {
    var root := RootOf(doc, parts);
    assert root in multiset(sorted);
    var k :| 0 <= k < |sorted| && sorted[k] == root;
    assert PathLength(sorted[0]) <= PathLength(sorted[k]);
    assert sorted[0] in multiset(parts);
    forall x | x in sorted[1..] ensures x in parts && x.bsonPath != [] {
      var j :| 0 <= j < |sorted[1..]| && sorted[1..][j] == x;
      assert sorted[j + 1] == x;
      assert x in multiset(parts);
      if x.bsonPath == [] {
        DuplicateCounts(sorted, 0, j + 1);
        assert false;
      }
    }
  }

  // ---------------------------------------------------------------------
  // Scattering: a document being stubbed out part by part.
  // ---------------------------------------------------------------------

  /** No two parts are at the same path. */
  predicate DistinctPaths(parts: seq<Part>)
  {
    forall i, j :: 0 <= i < j < |parts| ==> parts[i].bsonPath != parts[j].bsonPath
  }

  /** A part at a new path keeps the paths distinct. */
  lemma DistinctAppend(parts: seq<Part>, x: Part)
    requires DistinctPaths(parts)
    requires forall y :: y in parts ==> y.bsonPath != []
    requires x.bsonPath !in PathsOf(parts)
    ensures DistinctPaths(parts + [x])
  {
    forall i | 0 <= i < |parts| ensures parts[i].bsonPath != x.bsonPath {
      assert parts[i] in parts;
    }
  }

  /**
   * `work` is `doc` with the parts emitted so far stubbed out, each carrying
   * its piece, and no entry carved out twice.
   */
  predicate Scattered(doc: Value, work: Value, parts: seq<Part>)
  {
    work == Stub(doc, PathsOf(parts)) &&
    (forall x :: x in parts ==> x.bsonPath != [] && Carries(doc, PathsOf(parts), x)) &&
    DistinctPaths(parts)
  }

  lemma ScatteredInitially(doc: Value)
    ensures Scattered(doc, doc, [])
  {
    assert PathsOf([]) == {};
    StubNothing(doc);
  }

  /**
   * Carving out the entry `key` of the container at `c`, when no part emitted
   * so far is shorter than the new one and none is at the same path: the
   * payload is the carried piece, and replacing the entry with TRUE keeps the
   * document scattered.
   */
  lemma EmitPart(doc: Value, work: Value, parts: seq<Part>, c: Path, key: string, m: map<string, Value>)
    requires Scattered(doc, work, parts)
    requires forall x :: x in parts ==> |x.bsonPath| >= |c| + 1
    requires c + [key] !in PathsOf(parts)
    requires Get(work, c) == Some(Doc(m)) && key in m
    ensures PutAt(work, c, key, TRUE).Some?
    ensures Scattered(doc, PutAt(work, c, key, TRUE).value, parts + [Part(c + [key], m[key])])
  {
    StubTrueStep(doc, PathsOf(parts), c, key, m);
    EmitKeepsCarried(doc, parts, c + [key], m[key]);
    DistinctAppend(parts, Part(c + [key], m[key]));
  }

  /**
   * In `doc` stubbed at paths no shorter than `c + [key]`, other than that
   * path: the entry at `c + [key]` is doc's own, stubbed below, and replacing
   * it by TRUE adds the path to the stubbed ones.
   */
  lemma StubTrueStep(doc: Value, X: set<Path>, c: Path, key: string, m: map<string, Value>)
    requires forall q :: q in X ==> |q| >= |c| + 1
    requires c + [key] !in X
    requires Get(Stub(doc, X), c) == Some(Doc(m)) && key in m
    ensures Get(doc, c + [key]).Some?
    ensures m[key] == Stub(Get(doc, c + [key]).value, Below(X, c + [key]))
    ensures PutAt(Stub(doc, X), c, key, TRUE) == Some(Stub(doc, X + {c + [key]}))
  {
    var p := c + [key];
    assert NoPrefixIn(X, p, |p| + 1) by {
      forall i | 0 <= i < |p| + 1 && i <= |p| ensures p[..i] !in X {
        if i < |p| {
          assert |p[..i]| < |c| + 1;
        } else {
          assert p[..i] == p;
        }
      }
    }
    GetAppend(Stub(doc, X), c, key);
    if Get(doc, p).None? {
      GetStubNone(doc, X, p);
      assert false;
    }
    GetStub(doc, X, p);
    PutStubTrue(doc, X, c, key);
  }

  lemma EmitKeepsCarried(doc: Value, parts: seq<Part>, p: Path, payload: Value)
    requires p != []
    requires forall x :: x in parts ==> x.bsonPath != [] && Carries(doc, PathsOf(parts), x)
    requires forall x :: x in parts ==> |x.bsonPath| >= |p|
    requires Get(doc, p).Some? && payload == Stub(Get(doc, p).value, Below(PathsOf(parts), p))
    ensures PathsOf(parts + [Part(p, payload)]) == PathsOf(parts) + {p}
    ensures forall x :: x in parts + [Part(p, payload)] ==>
      x.bsonPath != [] && Carries(doc, PathsOf(parts) + {p}, x)
  {
    var X := PathsOf(parts);
    var parts' := parts + [Part(p, payload)];
    assert PathsOf(parts') == X + {p};
    forall x | x in parts' ensures x.bsonPath != [] && Carries(doc, X + {p}, x) {
      BelowIgnoresShort(X, {p}, x.bsonPath);
    }
  }

  /** Every part emitted is an entry of the container at `containing`, its key among `done`. */
  predicate EntriesOf(emitted: seq<Part>, containing: Path, done: set<string>)
  {
    forall x :: x in emitted ==>
      |x.bsonPath| == |containing| + 1 && x.bsonPath[..|containing|] == containing &&
      x.bsonPath[|containing|] in done
  }

  /**
   * The container at `containing` has exactly the keys of `m`: those of
   * `keys` still as they were in `m`, the others replaced by TRUE.
   */
  predicate Remaining(w: Value, containing: Path, m: map<string, Value>, keys: set<string>)
  {
    keys <= m.Keys && Get(w, containing).Some? && Get(w, containing).value.Doc? &&
    Get(w, containing).value.fields.Keys == m.Keys &&
    forall k :: k in m.Keys ==> Get(w, containing).value.fields[k] == if k in keys then m[k] else TRUE
  }

  lemma RemainingStep(w: Value, containing: Path, m: map<string, Value>, keys: set<string>, key: string)
    requires Remaining(w, containing, m, keys) && key in keys
    ensures PutAt(w, containing, key, TRUE).Some?
    ensures Remaining(PutAt(w, containing, key, TRUE).value, containing, m, keys - {key})
  {
  }

  /** One more key done: its entry joins those emitted. */
  lemma EmittedStep(emitted: seq<Part>, containing: Path, m: map<string, Value>, keys: set<string>, key: string)
    requires keys <= m.Keys && key in keys
    requires EntriesOf(emitted, containing, m.Keys - keys)
    requires |emitted| == |m.Keys - keys|
    requires forall k :: k in m.Keys - keys ==> Part(containing + [k], m[k]) in emitted
    ensures var x := Part(containing + [key], m[key]);
      EntriesOf(emitted + [x], containing, m.Keys - (keys - {key})) &&
      |emitted + [x]| == |m.Keys - (keys - {key})| &&
      forall k :: k in m.Keys - (keys - {key}) ==> Part(containing + [k], m[k]) in emitted + [x]
  {
    assert m.Keys - (keys - {key}) == (m.Keys - keys) + {key};
  }

  /** With no key left, every entry of the container is TRUE. */
  lemma RemainingNone(w: Value, containing: Path, m: map<string, Value>)
    requires Remaining(w, containing, m, {})
    ensures Get(w, containing) == Some(Doc(map k | k in m :: TRUE))
  {
    assert Get(w, containing).value.fields == map k | k in m :: TRUE;
  }

  /** Adding the stubbed document as the root part completes a recipe. */
  lemma FinishRecipe(doc: Value, work: Value, parts: seq<Part>)
    requires doc.Doc?
    requires Scattered(doc, work, parts)
    ensures Describes(parts + [Part([], work)], doc)
    ensures DistinctPaths(parts + [Part([], work)])
  {
    var all := parts + [Part([], work)];
    assert [] !in PathsOf(parts);
    DistinctAppend(parts, Part([], work));
    assert PathsOf(all) == PathsOf(parts);
    assert Part([], work) !in parts;
    assert multiset(parts)[Part([], work)] == 0;
  }

  // ---------------------------------------------------------------------
  // Completeness: every entry of a separate collection is carved out.
  // ---------------------------------------------------------------------

  /**
   * `p`, a path below the node at `docPath`, names an entry of some instance
   * of `container`.
   */
  predicate EntryPath(docPath: Path, p: Path, container: Pattern)
  {
    p != [] && |docPath| + |p| == |container| + 1 &&
    IsInstance((docPath + p)[..|container|], container)
  }

  /** Every entry of an instance of `container` that `doc` has is the path of one of `parts`. */
  ghost predicate Covers(docPath: Path, doc: Value, container: Pattern, parts: seq<Part>)
  {
    forall p {:trigger EntryPath(docPath, p, container)} :: EntryPath(docPath, p, container) && Get(doc, p).Some? ==> p in PathsOf(parts)
  }

  /** Every instance of `container` with its first parameter bound to one of `ids` is covered. */
  ghost predicate CoversIds(docPath: Path, doc: Value, container: Pattern, ids: set<string>, parts: seq<Part>)
    requires NumParams(container) > 0
  {
    forall id :: id in ids ==> Covers(docPath, doc, BindFirst(container, id), parts)
  }

  lemma CoversMore(docPath: Path, doc: Value, container: Pattern, parts: seq<Part>, more: seq<Part>)
    requires Covers(docPath, doc, container, parts)
    ensures Covers(docPath, doc, container, parts + more)
  {
    forall p | EntryPath(docPath, p, container) && Get(doc, p).Some?
      ensures p in PathsOf(parts + more)
    {
      var x :| x in parts && x.bsonPath != [] && x.bsonPath == p;
      assert x in parts + more;
    }
  }

  /**
   * An entry that `doc` has is still in the stubbed document, in the same
   * container, when no stubbed path is shorter than it and none is its own.
   */
  lemma PresentInStub(doc: Value, X: set<Path>, p: Path)
    requires p != [] && Get(doc, p).Some?
    requires forall y :: y in X ==> |y| >= |p|
    requires p !in X
    ensures Get(Stub(doc, X), p[..|p| - 1]).Some? && Get(Stub(doc, X), p[..|p| - 1]).value.Doc?
    ensures p[|p| - 1] in Get(Stub(doc, X), p[..|p| - 1]).value.fields
  {
    forall i | 0 <= i < |p| + 1 && i <= |p| ensures p[..i] !in X {
      if i == |p| {
        assert p[..i] == p;
      }
    }
    GetStub(doc, X, p);
    SplitLast(p);
    GetAppend(Stub(doc, X), p[..|p| - 1], p[|p| - 1]);
  }

  /**
   * The parameter-free step of completeness: every entry of an instance of
   * `container` lies in the one container at `containing`, found in `doc`
   * stubbed by `before`, none of which is an entry of `container` or
   * shallower; when each of its entries is among `parts`, `container` is
   * covered.
   */
  lemma CoversEntries(docPath: Path, doc: Value, before: seq<Part>, container: Pattern,
                      containing: Path, m: map<string, Value>, parts: seq<Part>)
    requires forall p :: EntryPath(docPath, p, container) ==> p[..|p| - 1] == containing
    requires forall x :: x in before ==>
      |docPath| + |x.bsonPath| >= |container| + 1 && !EntryPath(docPath, x.bsonPath, container)
    requires Get(Stub(doc, PathsOf(before)), containing) == Some(Doc(m))
    requires forall k :: k in m ==> Part(containing + [k], m[k]) in parts
    ensures Covers(docPath, doc, container, parts)
  {
    var X := PathsOf(before);
    forall p | EntryPath(docPath, p, container) && Get(doc, p).Some?
      ensures p in PathsOf(parts)
    {
      forall y | y in X ensures |y| >= |p| && y != p {
        var x :| x in before && x.bsonPath != [] && x.bsonPath == y;
      }
      PresentInStub(doc, X, p);
      SplitLast(p);
      assert Part(p, m[p[|p| - 1]]) in parts;
    }
  }

  /**
   * The parameter step of completeness: the catalog of ids above the first
   * parameter of `container` is found in `doc` stubbed by `before`, all of
   * which lie deeper than the entries of `container`; when every id of the
   * catalog has `container`, bound to it, covered, `container` is covered.
   */
  lemma CoversFromIds(docPath: Path, doc: Value, before: seq<Part>, container: Pattern,
                      catalog: map<string, Value>, parts: seq<Part>)
    requires NumParams(container) > 0 && |docPath| <= FirstParam(container)
    requires forall x :: x in before ==> |docPath| + |x.bsonPath| >= |container| + 1
    requires Get(Stub(doc, PathsOf(before)), RenderAll(container)[|docPath|..FirstParam(container)]) == Some(Doc(catalog))
    requires forall id :: id in catalog ==> Covers(docPath, doc, BindFirst(container, id), parts)
    ensures Covers(docPath, doc, container, parts)
  {
    forall p | EntryPath(docPath, p, container) && Get(doc, p).Some?
      ensures p in PathsOf(parts)
    {
      EntryId(docPath, doc, before, container, catalog, p);
      var bound := BindFirst(container, p[FirstParam(container) - |docPath|]);
      assert Covers(docPath, doc, bound, parts) && EntryPath(docPath, p, bound);
    }
  }

  /** One entry of `container` that `doc` has: the id it names is in the catalog, and the entry is one of that id's binding. */
  lemma EntryId(docPath: Path, doc: Value, before: seq<Part>, container: Pattern, catalog: map<string, Value>, p: Path)
    requires NumParams(container) > 0 && |docPath| <= FirstParam(container)
    requires forall x :: x in before ==> |docPath| + |x.bsonPath| >= |container| + 1
    requires Get(Stub(doc, PathsOf(before)), RenderAll(container)[|docPath|..FirstParam(container)]) == Some(Doc(catalog))
    requires EntryPath(docPath, p, container) && Get(doc, p).Some?
    ensures FirstParam(container) - |docPath| < |p|
    ensures p[FirstParam(container) - |docPath|] in catalog
    ensures EntryPath(docPath, p, BindFirst(container, p[FirstParam(container) - |docPath|]))
  {
    var n := FirstParam(container) - |docPath|;
    var catalogPath := RenderAll(container)[|docPath|..FirstParam(container)];
    EntryPrefix(docPath, container, p);
    assert |docPath| + n + 1 < |container| + 1 && p[..n] == catalogPath;
    DeepPaths(docPath, before, |container| + 1);
    IdOfEntry(doc, PathsOf(before), p, n, |docPath|, |container| + 1, catalogPath, catalog);
  }

  lemma DeepPaths(docPath: Path, before: seq<Part>, depth: nat)
    requires forall x :: x in before ==> |docPath| + |x.bsonPath| >= depth
    ensures forall y :: y in PathsOf(before) ==> |docPath| + |y| >= depth
  {
    forall y | y in PathsOf(before) ensures |docPath| + |y| >= depth {
      var x :| x in before && x.bsonPath != [] && x.bsonPath == y;
    }
  }

  /**
   * The key at `p[n]` of a path `doc` has is among the keys of the container
   * at `p[..n]`, found in `doc` stubbed by `X`, once every path of `X`,
   * below a node `base` deep, ends deeper than `p[..n + 1]` does.
   */
  lemma IdOfEntry(doc: Value, X: set<Path>, p: Path, n: nat, base: nat, depth: nat,
                  catalogPath: Path, catalog: map<string, Value>)
    requires n + 1 < |p| && Get(doc, p).Some?
    requires forall y :: y in X ==> base + |y| >= depth
    requires base + n + 1 < depth
    requires p[..n] == catalogPath && Get(Stub(doc, X), catalogPath) == Some(Doc(catalog))
    ensures p[n] in catalog
  {
    PresentAbove(doc, X, p, n);
  }

  /** Up to its first parameter, an entry of `container` follows the container's names; the id there binds it. */
  lemma EntryPrefix(docPath: Path, container: Pattern, p: Path)
    requires NumParams(container) > 0 && |docPath| <= FirstParam(container)
    requires EntryPath(docPath, p, container)
    ensures FirstParam(container) - |docPath| + 1 < |p|
    ensures p[..FirstParam(container) - |docPath|] == RenderAll(container)[|docPath|..FirstParam(container)]
    ensures EntryPath(docPath, p, BindFirst(container, p[FirstParam(container) - |docPath|]))
  {
    var f := FirstParam(container);
    var n := f - |docPath|;
    var path := (docPath + p)[..|container|];
    forall j | 0 <= j < n ensures p[j] == RenderAll(container)[|docPath| + j] {
      assert path[|docPath| + j] == p[j];
    }
    assert path[f] == p[n];
    InstanceOfBound(path, container, p[n]);
  }

  /** What `doc` has at `p` is still in its container at `p[..n]`, key `p[n]`, once paths deeper than `n + 1` are stubbed. */
  lemma PresentAbove(doc: Value, X: set<Path>, p: Path, n: nat)
    requires n + 1 < |p| && Get(doc, p).Some?
    requires forall y :: y in X ==> |y| > n + 1
    ensures Get(Stub(doc, X), p[..n]).Some? && Get(Stub(doc, X), p[..n]).value.Doc?
    ensures p[n] in Get(Stub(doc, X), p[..n]).value.fields
  {
    var q := p[..n + 1];
    assert q + p[n + 1..] == p;
    GetConcat(doc, q, p[n + 1..]);
    PresentInStub(doc, X, q);
    assert q[..|q| - 1] == p[..n] && q[|q| - 1] == p[n];
  }
}
