/**
 * The surgeon the Mongo driver uses: it splits the document of one bosk node
 * into self-describing recipes `{_id: "a|b|c", state: ...}` whose `_id` is the
 * "|"-joined BSON path from the bosk root, and puts such recipes back
 * together. Scattering carves every entry of every separate collection below
 * the node out of the document, leaving TRUE in its place.
 */
module BsonSurgeon {
  import opened Wrappers
  import opened Bson
  import opened BsonPaths
  import opened Sorting
  import opened Grafts
  import opened Surgery

  const BSON_PATH_FIELD: string := "_id"
  const STATE_FIELD: string := "state"
  /** The entry id of the graft points; it is never looked up. */
  const PLACEHOLDER: string := "SURGEON_PLACEHOLDER"

  /** A recipe as stored: the `_id` and `state` fields of one part document. */
  datatype Recipe = Recipe(id: string, state: Value)

  /** One separate collection, held as a reference to a placeholder entry of it. */
  datatype GraftPoint = GraftPoint(container: Pattern)
  {
    /** `containerRef.then(Object.class, "SURGEON_PLACEHOLDER")`. */
    function EntryRef(): (r: Pattern)
      ensures |r| == |container| + 1 && r[..|container|] == container && r[|container|] == Name(PLACEHOLDER)
    {
      container + [Name(PLACEHOLDER)]
    }
  }

  /** The surgeon's only state: its graft points, fixed at construction. */
  datatype Surgeon = Surgeon(graftPoints: seq<GraftPoint>)

  function Containers(surgeon: Surgeon): (r: seq<Pattern>)
    ensures |r| == |surgeon.graftPoints|
    ensures forall i :: 0 <= i < |r| ==> r[i] == surgeon.graftPoints[i].container
  {
    seq(|surgeon.graftPoints|, i requires 0 <= i < |surgeon.graftPoints| => surgeon.graftPoints[i].container)
  }

  function ToGraftPoint(container: Pattern): GraftPoint
  {
    GraftPoint(container)
  }

  /**
   * The constructor: one graft point per separate collection, longest path
   * first so that scattering works bottom-up.
   */
  function NewSurgeon(separateCollections: seq<Pattern>): (s: Surgeon)
    ensures multiset(Containers(s)) == multiset(separateCollections)
    ensures forall i, j :: 0 <= i < j < |s.graftPoints| ==>
      |s.graftPoints[i].container| >= |s.graftPoints[j].container|
  {
    var sorted := SortBy(separateCollections, LongestFirst);
    var s := Surgeon(Map(ToGraftPoint, sorted));
    assert Containers(s) == sorted;
    forall i, j | 0 <= i < j < |s.graftPoints|
      ensures |s.graftPoints[i].container| >= |s.graftPoints[j].container|
    {
      assert LongestFirst(sorted[i]) <= LongestFirst(sorted[j]);
    }
    s
  }

  /**
   * The configurations the surgeon is built for: graft points longest first,
   * no collection at the root, and no entry belonging to two collections.
   */
  predicate WellFormed(surgeon: Surgeon)
  {
    var cs := Containers(surgeon);
    (forall i, j :: 0 <= i < j < |cs| ==> |cs[i]| >= |cs[j]|) &&
    (forall i :: 0 <= i < |cs| ==> cs[i] != []) &&
    Disjoint(cs)
  }

  lemma NewSurgeonWellFormed(separateCollections: seq<Pattern>)
    requires Disjoint(separateCollections)
    requires forall c :: c in separateCollections ==> c != []
    ensures WellFormed(NewSurgeon(separateCollections))
  {
    var cs := Containers(NewSurgeon(separateCollections));
    DisjointPermutation(separateCollections, cs);
    forall i | 0 <= i < |cs| ensures cs[i] != [] {
      assert cs[i] in multiset(cs);
      assert cs[i] in multiset(separateCollections);
      assert cs[i] in separateCollections;
    }
  }

  // ---------------------------------------------------------------------
  // Field names and BSON path strings.
  // ---------------------------------------------------------------------

  /**
   * `dottedFieldNameSegments(target, from)`: the "state" field, then the field
   * name of each segment of `target` below the node at `from`.
   */
  function FieldNameSegments(target: Pattern, from: Path): (r: seq<string>)
    requires |from| <= |target|
    ensures |r| == |target| - |from| + 1 && r[0] == STATE_FIELD
    ensures forall i :: 1 <= i < |r| ==> r[i] == Render(target[|from| + i - 1])
  {
    seq(|target| - |from| + 1, i requires 0 <= i <= |target| - |from| =>
      if i == 0 then STATE_FIELD else Render(target[|from| + i - 1]))
  }

  /** `bsonPathSegments`: the empty string has no segments; any other is split at every "|". */
  function BsonPathSegments(bsonPath: string): (r: seq<string>)
    ensures bsonPath == "" ==> r == []
    ensures bsonPath != "" && SEPARATOR !in bsonPath ==> r == [bsonPath]
  {
    if bsonPath == "" then [] else JavaSplit(bsonPath)
  }

  /** Reading the segments back from a joined path of valid segments. */
  lemma SegmentsOfJoin(segments: seq<string>)
    requires ValidPath(segments)
    ensures BsonPathSegments(Join(segments)) == segments
  {
    if segments != [] {
      JoinNotEmpty(segments);
      SplitJoin(segments);
    }
  }

  /**
   * The `_id` scatter gives the part at path `p` below the node at `docPath`:
   * the joined path itself for the root part, else the joined path of the
   * containing document, "|", and the entry's key.
   */
  function IdOf(docPath: Path, p: Path): string
  {
    if p == [] then Join(docPath)
    else Join(docPath + p[..|p| - 1]) + [SEPARATOR] + p[|p| - 1]
  }

  /** `createRecipe` for a part at a path below the node at `docPath`. */
  function RecipeOf(docPath: Path, x: Part): Recipe
  {
    Recipe(IdOf(docPath, x.bsonPath), x.state)
  }

  function EncodeAll(docPath: Path, parts: seq<Part>): (r: seq<Recipe>)
    ensures |r| == |parts| && forall i :: 0 <= i < |parts| ==> r[i] == RecipeOf(docPath, parts[i])
  {
    seq(|parts|, i requires 0 <= i < |parts| => RecipeOf(docPath, parts[i]))
  }

  lemma EncodeAllConcat(docPath: Path, a: seq<Part>, b: seq<Part>)
    ensures EncodeAll(docPath, a + b) == EncodeAll(docPath, a) + EncodeAll(docPath, b)
  {
  }

  /**
   * The `_id` of a part whose full path has valid segments, and which is the
   * root part or lies at least two segments below the bosk root, splits back
   * into that full path.
   */
  lemma IdSegments(docPath: Path, p: Path)
    requires ValidPath(docPath + p)
    requires p == [] || |docPath| + |p| >= 2
    ensures BsonPathSegments(IdOf(docPath, p)) == docPath + p
  {
    if p == [] {
      assert docPath + p == docPath;
      SegmentsOfJoin(docPath);
    } else {
      var c := docPath + p[..|p| - 1];
      assert c + [p[|p| - 1]] == docPath + p;
      JoinAppend(c, p[|p| - 1]);
      SegmentsOfJoin(docPath + p);
    }
  }

  /** Every field name in the document, at any depth, is a valid path segment. */
  predicate ValidKeys(v: Value)
  {
    match v
    case Doc(m) => forall k :: k in m ==> ValidSegment(k) && ValidKeys(m[k])
    case _ => true
  }

  lemma {:induction false} ValidKeysPath(v: Value, p: Path)
    requires ValidKeys(v) && Get(v, p).Some?
    ensures ValidPath(p)
  {
    if p != [] {
      ValidKeysPath(v.fields[p[0]], p[1..]);
      assert forall i :: 1 <= i < |p| ==> p[i] == p[1..][i - 1];
    }
  }

  // ---------------------------------------------------------------------
  // Gathering.
  // ---------------------------------------------------------------------

  function SegmentCount(recipe: Recipe): int
  {
    |BsonPathSegments(recipe.id)|
  }

  /**
   * One step of `gather`: the entry's path must extend the root's `prefix`
   * by at least one segment, and the entry replaces the value at the rest of
   * its path.
   */
  function PlaceRecipe(whole: Value, prefix: Path, entry: Recipe): (r: Result<Value, Failure>)
    ensures var segments := BsonPathSegments(entry.id);
      r.Ok? ==> (|prefix| < |segments| && segments[..|prefix|] == prefix &&
        Get(r.value, segments[|prefix|..]) == Some(entry.state))
    ensures var segments := BsonPathSegments(entry.id);
      |prefix| <= |segments| && segments[..|prefix|] != prefix ==> r == Err(NotContained(segments, prefix))
    ensures BsonPathSegments(entry.id) == prefix ==> r.Err?
    ensures whole.Doc? && r.Ok? ==> r.value.Doc?
  {
    var segments := BsonPathSegments(entry.id);
    if |segments| < |prefix| then Err(IndexOutOfBounds)
    else if segments[..|prefix|] != prefix then Err(NotContained(segments, prefix))
    else if |segments| == 0 then Err(IndexOutOfBounds)
    else if |segments| == |prefix| then Err(BadRange)
    else Place(whole, Part(segments[|prefix|..], entry.state))
  }

  /** The loop of `gather`, stopping at the first failure. */
  function PlaceRecipes(whole: Value, prefix: Path, entries: seq<Recipe>): (r: Result<Value, Failure>)
    ensures whole.Doc? && r.Ok? ==> r.value.Doc?
    decreases |entries|
  {
    if entries == [] then Ok(whole)
    else match PlaceRecipe(whole, prefix, entries[0])
      case Err(e) => Err(e)
      case Ok(w) => PlaceRecipes(w, prefix, entries[1..])
  }

  /** When the loop succeeds, every entry lay strictly below the root recipe's path. */
  lemma {:induction false} PlacedBelowPrefix(whole: Value, prefix: Path, entries: seq<Recipe>)
    requires PlaceRecipes(whole, prefix, entries).Ok?
    ensures forall e :: e in entries ==>
      |prefix| < |BsonPathSegments(e.id)| && BsonPathSegments(e.id)[..|prefix|] == prefix
    decreases |entries|
  {
    if entries != [] {
      PlacedBelowPrefix(PlaceRecipe(whole, prefix, entries[0]).value, prefix, entries[1..]);
      forall e | e in entries
        ensures |prefix| < |BsonPathSegments(e.id)| && BsonPathSegments(e.id)[..|prefix|] == prefix
      {
        if e != entries[0] {
          assert e in entries[1..];
        }
      }
    }
  }

  /**
   * What `gather` computes: the recipes sorted by number of path segments,
   * the first one's state the whole, its path the prefix of every other.
   */
  function Reassemble(partsList: seq<Recipe>): (r: Result<Value, Failure>)
    ensures partsList == [] ==> r == Err(IndexOutOfBounds)
    ensures r.Ok? ==> r.value.Doc?
  {
    if partsList == [] then Err(IndexOutOfBounds)
    else
      var sorted := SortBy(partsList, SegmentCount);
      var prefix := BsonPathSegments(sorted[0].id);
      if !sorted[0].state.Doc? then Err(NotADocument)
      else PlaceRecipes(sorted[0].state, prefix, sorted[1..])
  }

  /** `gather`. */
  method Gather(partsList: seq<Recipe>) returns (r: Result<Value, Failure>)
    ensures r == Reassemble(partsList)
  {
    if partsList == [] {
      return Err(IndexOutOfBounds);
    }
    var sorted := SortBy(partsList, SegmentCount);
    var rootRecipe := sorted[0];
    var prefix := BsonPathSegments(rootRecipe.id);
    if !rootRecipe.state.Doc? {
      return Err(NotADocument);
    }
    r := PlaceEach(rootRecipe.state, prefix, sorted[1..]);
  }

  /** The loop of `gather`: every entry in turn put in place below the root recipe. */
  method PlaceEach(root: Value, prefix: Path, entries: seq<Recipe>) returns (r: Result<Value, Failure>)
    requires root.Doc?
    ensures r == PlaceRecipes(root, prefix, entries)
  {
    var whole := root;
    var i := 0;
    while i < |entries|
      invariant 0 <= i <= |entries| && whole.Doc?
      invariant PlaceRecipes(whole, prefix, entries[i..]) == PlaceRecipes(root, prefix, entries)
    {
      PlaceRecipesAt(whole, prefix, entries, i);
      var placed := PlaceOne(whole, prefix, entries[i]);
      if placed.Err? {
        return Err(placed.error);
      }
      whole := placed.value;
      i := i + 1;
    }
    assert entries[i..] == [];
    return Ok(whole);
  }

  /** One step of the gather loop at index `i`. */
  lemma PlaceRecipesAt(whole: Value, prefix: Path, entries: seq<Recipe>, i: nat)
    requires i < |entries|
    ensures PlaceRecipes(whole, prefix, entries[i..]) ==
      match PlaceRecipe(whole, prefix, entries[i])
      case Err(e) => Err(e)
      case Ok(w) => PlaceRecipes(w, prefix, entries[i + 1..])
  {
    assert entries[i..][0] == entries[i] && entries[i..][1..] == entries[i + 1..];
  }

  /** The body of `gather`'s loop: checks the entry's path against the prefix and puts its state in place. */
  method PlaceOne(whole: Value, prefix: Path, entry: Recipe) returns (r: Result<Value, Failure>)
    requires whole.Doc?
    ensures r == PlaceRecipe(whole, prefix, entry)
  {
    var bsonSegments := BsonPathSegments(entry.id);
    if |bsonSegments| < |prefix| {
      return Err(IndexOutOfBounds);
    }
    if bsonSegments[..|prefix|] != prefix {
      return Err(NotContained(bsonSegments, prefix));
    }
    if |bsonSegments| == 0 {
      return Err(IndexOutOfBounds);
    }
    var key := bsonSegments[|bsonSegments| - 1];
    if |prefix| > |bsonSegments| - 1 {
      return Err(BadRange);
    }
    var c := bsonSegments[|prefix|..|bsonSegments| - 1];
    var container := Lookup(whole, c);
    PlaceRecipeStep(whole, prefix, entry, c);
    if container.Err? {
      return Err(container.error);
    }
    r := Ok(PutAt(whole, c, key, entry.state).value);
  }

  /** Past the checks on its path, placing a recipe is looking up its container and putting the entry there. */
  lemma PlaceRecipeStep(whole: Value, prefix: Path, entry: Recipe, c: Path)
    requires var segments := BsonPathSegments(entry.id);
      |prefix| < |segments| && segments[..|prefix|] == prefix && c == segments[|prefix|..|segments| - 1]
    ensures var segments := BsonPathSegments(entry.id);
      PlaceRecipe(whole, prefix, entry) ==
        if Get(whole, c).Some? && Get(whole, c).value.Doc?
        then Ok(PutAt(whole, c, segments[|segments| - 1], entry.state).value)
        else Err(DocMissing(c))
  {
    var segments := BsonPathSegments(entry.id);
    var p := segments[|prefix|..];
    assert p[..|p| - 1] == c && p[|p| - 1] == segments[|segments| - 1];
  }

  // ---------------------------------------------------------------------
  // Gather inverts scatter.
  // ---------------------------------------------------------------------

  /** The part a recipe stands for, read relative to the node at `docPath`. */
  function Decode(docPath: Path, recipe: Recipe): Part
  {
    var segments := BsonPathSegments(recipe.id);
    Part(if |docPath| <= |segments| then segments[|docPath|..] else [], recipe.state)
  }

  function Decoder(docPath: Path): Recipe -> Part
  {
    recipe => Decode(docPath, recipe)
  }

  /** The recipe's `_id` is the node's path followed by the decoded part's path. */
  predicate Encodes(docPath: Path, recipe: Recipe)
  {
    BsonPathSegments(recipe.id) == docPath + Decode(docPath, recipe).bsonPath
  }

  /** Placing recipes below the root's prefix is placing the parts they decode to. */
  lemma {:induction false} PlaceRecipesDecoded(whole: Value, docPath: Path, entries: seq<Recipe>)
    requires forall e :: e in entries ==> Encodes(docPath, e) && Decode(docPath, e).bsonPath != []
    ensures PlaceRecipes(whole, docPath, entries) == PlaceAll(whole, Map(Decoder(docPath), entries))
    decreases |entries|
  {
    if entries != [] {
      var e := entries[0];
      assert e in entries;
      var segments := BsonPathSegments(e.id);
      assert segments[..|docPath|] == docPath && segments[|docPath|..] == Decode(docPath, e).bsonPath;
      assert PlaceRecipe(whole, docPath, e) == Place(whole, Decode(docPath, e));
      assert Map(Decoder(docPath), entries)[1..] == Map(Decoder(docPath), entries[1..]);
      if Place(whole, Decode(docPath, e)).Ok? {
        PlaceRecipesDecoded(Place(whole, Decode(docPath, e)).value, docPath, entries[1..]);
      }
    }
  }

  /**
   * A part list that describes a document, encoded below a node whose path
   * and keys are valid, decodes back to itself.
   */
  lemma EncodedDecodes(docPath: Path, parts: seq<Part>, doc: Value)
    requires Describes(parts, doc) && ValidKeys(doc) && ValidPath(docPath)
    requires forall x :: x in parts && x.bsonPath != [] ==> |docPath| + |x.bsonPath| >= 2
    ensures forall e :: e in EncodeAll(docPath, parts) ==> Encodes(docPath, e) && Decode(docPath, e) in parts
    ensures Map(Decoder(docPath), EncodeAll(docPath, parts)) == parts
  {
    var encoded := EncodeAll(docPath, parts);
    forall i | 0 <= i < |parts|
      ensures Encodes(docPath, encoded[i]) && Decode(docPath, encoded[i]) == parts[i]
    {
      var x := parts[i];
      assert x in parts;
      if x.bsonPath != [] {
        ValidKeysPath(doc, x.bsonPath);
      }
      assert ValidPath(docPath + x.bsonPath) by {
        forall k | 0 <= k < |docPath + x.bsonPath| ensures ValidSegment((docPath + x.bsonPath)[k]) {
          if k >= |docPath| {
            assert (docPath + x.bsonPath)[k] == x.bsonPath[k - |docPath|];
          }
        }
      }
      IdSegments(docPath, x.bsonPath);
      assert (docPath + x.bsonPath)[|docPath|..] == x.bsonPath;
    }
  }

  /** Sorting recipes by segment count sorts the parts they decode to by path length. */
  lemma DecodedSorted(docPath: Path, sorted: seq<Recipe>)
    requires forall e :: e in sorted ==> Encodes(docPath, e)
    requires SortedBy(sorted, SegmentCount)
    ensures SortedBy(Map(Decoder(docPath), sorted), PathLength)
  {
    var decoded := Map(Decoder(docPath), sorted);
    forall i, j | 0 <= i < j < |decoded| ensures PathLength(decoded[i]) <= PathLength(decoded[j]) {
      assert sorted[i] in sorted && sorted[j] in sorted;
      assert SegmentCount(sorted[i]) <= SegmentCount(sorted[j]);
    }
  }

  /**
   * Gathering the recipes of a part list that describes a document, received
   * in any order, gives the document back.
   */
  /** Parts at distinct paths encode to recipes with distinct `_id`s: no replace-one overwrites another. */
  lemma DistinctIds(docPath: Path, parts: seq<Part>, doc: Value)
    requires Describes(parts, doc) && ValidKeys(doc) && ValidPath(docPath) && DistinctPaths(parts)
    requires forall x :: x in parts && x.bsonPath != [] ==> |docPath| + |x.bsonPath| >= 2
    ensures forall i, j :: 0 <= i < j < |EncodeAll(docPath, parts)| ==>
      EncodeAll(docPath, parts)[i].id != EncodeAll(docPath, parts)[j].id
  {
    var recipes := EncodeAll(docPath, parts);
    EncodedDecodes(docPath, parts, doc);
    forall i, j | 0 <= i < j < |recipes| ensures recipes[i].id != recipes[j].id {
      assert Decode(docPath, recipes[i]) == parts[i] && Decode(docPath, recipes[j]) == parts[j];
    }
  }

  lemma GatherIgnoresOrder(docPath: Path, parts: seq<Part>, doc: Value, received: seq<Recipe>)
    requires Describes(parts, doc) && ValidKeys(doc) && ValidPath(docPath)
    requires forall x :: x in parts && x.bsonPath != [] ==> |docPath| + |x.bsonPath| >= 2
    requires multiset(received) == multiset(EncodeAll(docPath, parts))
    ensures Reassemble(received) == Ok(doc)
  {
    var sorted := SortBy(received, SegmentCount);
    SortedDecodes(docPath, parts, doc, sorted);
    var decoded := Map(Decoder(docPath), sorted);
    SortedRecipeRestores(parts, doc, decoded);
    SortedRootFirst(parts, doc, decoded);
    DecodedTail(docPath, sorted, decoded[0].state);
    assert sorted[0] in sorted && decoded[0] == Decode(docPath, sorted[0]);
    assert BsonPathSegments(sorted[0].id) == docPath + decoded[0].bsonPath == docPath;
  }

  /** The recipes, sorted, decode to a sorted reordering of the parts. */
  lemma SortedDecodes(docPath: Path, parts: seq<Part>, doc: Value, sorted: seq<Recipe>)
    requires Describes(parts, doc) && ValidKeys(doc) && ValidPath(docPath)
    requires forall x :: x in parts && x.bsonPath != [] ==> |docPath| + |x.bsonPath| >= 2
    requires multiset(sorted) == multiset(EncodeAll(docPath, parts))
    requires SortedBy(sorted, SegmentCount)
    ensures forall e :: e in sorted ==> Encodes(docPath, e)
    ensures multiset(Map(Decoder(docPath), sorted)) == multiset(parts)
    ensures SortedBy(Map(Decoder(docPath), sorted), PathLength)
  {
    var encoded := EncodeAll(docPath, parts);
    EncodedDecodes(docPath, parts, doc);
    forall e | e in sorted ensures Encodes(docPath, e) {
      assert e in multiset(encoded);
    }
    MapPermutation(Decoder(docPath), sorted, encoded);
    DecodedSorted(docPath, sorted);
  }

  /** Past the root recipe, placing the sorted recipes is placing the parts they decode to. */
  lemma DecodedTail(docPath: Path, sorted: seq<Recipe>, whole: Value)
    requires sorted != []
    requires forall e :: e in sorted ==> Encodes(docPath, e)
    requires forall x :: x in Map(Decoder(docPath), sorted)[1..] ==> x.bsonPath != []
    ensures PlaceRecipes(whole, docPath, sorted[1..]) == PlaceAll(whole, Map(Decoder(docPath), sorted)[1..])
  {
    var decoded := Map(Decoder(docPath), sorted);
    assert decoded[1..] == Map(Decoder(docPath), sorted[1..]);
    forall e | e in sorted[1..] ensures Encodes(docPath, e) && Decode(docPath, e).bsonPath != [] {
      var j :| 0 <= j < |sorted[1..]| && sorted[1..][j] == e;
      assert decoded[1..][j] == Decode(docPath, e);
    }
    PlaceRecipesDecoded(whole, docPath, sorted[1..]);
  }

  /** Gathering the recipes in the order scatter produced them gives the document back. */
  lemma GatherInvertsScatter(docPath: Path, parts: seq<Part>, doc: Value)
    requires Describes(parts, doc) && ValidKeys(doc) && ValidPath(docPath)
    requires forall x :: x in parts && x.bsonPath != [] ==> |docPath| + |x.bsonPath| >= 2
    ensures Reassemble(EncodeAll(docPath, parts)) == Ok(doc)
  {
    GatherIgnoresOrder(docPath, parts, doc, EncodeAll(docPath, parts));
  }

  // ---------------------------------------------------------------------
  // Scattering.
  // ---------------------------------------------------------------------

  /**
   * `x`, at `docPath + x.bsonPath` from the bosk root, is an entry of some
   * instance of `container`.
   */
  predicate InGraft(docPath: Path, x: Part, container: Pattern)
  {
    EntryPath(docPath, x.bsonPath, container)
  }

  predicate AllInGraft(docPath: Path, emitted: seq<Part>, container: Pattern)
  {
    forall x :: x in emitted ==> InGraft(docPath, x, container)
  }

  /**
   * No part emitted so far is an entry of an instance of `container`, and
   * none is shallower than such an entry.
   */
  predicate FreshFor(docPath: Path, parts: seq<Part>, container: Pattern)
  {
    forall x :: x in parts ==> |docPath| + |x.bsonPath| >= |container| + 1 && !InGraft(docPath, x, container)
  }

  /**
   * The graft point's entry path with the parameters inside the node's own
   * path bound to it (`boundBy`).
   */
  function BoundEntry(graftPoint: GraftPoint, docPath: Path): (r: Pattern)
    requires |docPath| <= |graftPoint.container|
    ensures |r| == |graftPoint.container| + 1 && r[|graftPoint.container|] == Name(PLACEHOLDER)
  {
    BoundBy(graftPoint.EntryRef(), docPath)
  }

  /** When the node's path matches the graft point's, the bound entry path renders to it first. */
  lemma BoundEntryRendersNode(graftPoint: GraftPoint, docPath: Path)
    requires |docPath| <= |graftPoint.container|
    requires IsInstance(docPath, graftPoint.EntryRef()[..|docPath|])
    ensures forall i :: 0 <= i < |docPath| ==> BoundEntry(graftPoint, docPath)[i].Name?
    ensures RenderAll(BoundEntry(graftPoint, docPath))[..|docPath|] == docPath
  {
    var graftPath := graftPoint.EntryRef();
    var entry := BoundEntry(graftPoint, docPath);
    forall i | 0 <= i < |docPath| ensures entry[i].Name? && Render(entry[i]) == docPath[i] {
      assert graftPath[..|docPath|][i] == graftPath[i];
    }
  }

  /** Without parameters left, the bound entry path names one instance of the container. */
  lemma BoundEntryInstance(graftPoint: GraftPoint, docPath: Path)
    requires |docPath| <= |graftPoint.container|
    requires IsInstance(docPath, graftPoint.EntryRef()[..|docPath|])
    requires NumParams(BoundEntry(graftPoint, docPath)) == 0
    ensures IsInstance(RenderAll(BoundEntry(graftPoint, docPath))[..|graftPoint.container|], graftPoint.container)
  {
    var container := graftPoint.container;
    var entry := BoundEntry(graftPoint, docPath);
    BoundEntryRendersNode(graftPoint, docPath);
    NumParamsZero(entry);
    forall i | 0 <= i < |container| && container[i].Name?
      ensures RenderAll(entry)[..|container|][i] == container[i].name
    {
      assert graftPoint.EntryRef()[i] == container[i];
    }
  }

  /** With parameters left, the first is a parameter of the container below the node. */
  lemma BoundEntryFirstParam(graftPoint: GraftPoint, docPath: Path)
    requires |docPath| <= |graftPoint.container|
    requires IsInstance(docPath, graftPoint.EntryRef()[..|docPath|])
    requires NumParams(BoundEntry(graftPoint, docPath)) > 0
    ensures |docPath| <= FirstParam(BoundEntry(graftPoint, docPath)) < |graftPoint.container|
    ensures NumParams(graftPoint.container) > 0
  {
    var container := graftPoint.container;
    var entry := BoundEntry(graftPoint, docPath);
    BoundEntryRendersNode(graftPoint, docPath);
    var f := FirstParam(entry);
    assert graftPoint.EntryRef()[f] == container[f];
    NumParamsZero(container);
  }

  /**
   * The container bound like the entry path (`boundBy`, the placeholder
   * dropped) has the container's length, no more parameters, and only
   * instances of the container as instances.
   */
  lemma BoundContainer(graftPoint: GraftPoint, docPath: Path, bound: Pattern)
    requires |docPath| <= |graftPoint.container|
    requires bound == BoundEntry(graftPoint, docPath)[..|graftPoint.container|]
    ensures |bound| == |graftPoint.container| && NumParams(bound) <= NumParams(graftPoint.container)
    ensures forall path :: IsInstance(path, bound) ==> IsInstance(path, graftPoint.container)
  {
    assert forall i :: 0 <= i < |bound| ==> graftPoint.EntryRef()[i] == graftPoint.container[i];
    NumParamsFewer(bound, graftPoint.container);
  }

  /** Every entry of the container below the node is an entry of the container bound through the node. */
  lemma BoundContainerEntries(graftPoint: GraftPoint, docPath: Path, bound: Pattern)
    requires |docPath| <= |graftPoint.container|
    requires IsInstance(docPath, graftPoint.EntryRef()[..|docPath|])
    requires bound == BoundEntry(graftPoint, docPath)[..|graftPoint.container|]
    ensures forall p :: EntryPath(docPath, p, graftPoint.container) ==> EntryPath(docPath, p, bound)
  {
    var container := graftPoint.container;
    forall p | EntryPath(docPath, p, container) ensures IsInstance((docPath + p)[..|container|], bound) {
      var path := (docPath + p)[..|container|];
      forall i | 0 <= i < |bound| && bound[i].Name? ensures path[i] == bound[i].name {
        assert graftPoint.EntryRef()[i] == container[i];
        if i < |docPath| {
          assert path[i] == docPath[i];
          assert graftPoint.EntryRef()[..|docPath|][i] == container[i];
        }
      }
    }
  }

  /** With parameters left, the bound container's first parameter is the bound entry path's. */
  lemma BoundContainerFirstParam(graftPoint: GraftPoint, docPath: Path, bound: Pattern)
    requires |docPath| <= |graftPoint.container|
    requires NumParams(BoundEntry(graftPoint, docPath)) > 0
    requires FirstParam(BoundEntry(graftPoint, docPath)) < |graftPoint.container|
    requires bound == BoundEntry(graftPoint, docPath)[..|graftPoint.container|]
    ensures NumParams(bound) > 0 && FirstParam(bound) == FirstParam(BoundEntry(graftPoint, docPath))
  {
    var entry := BoundEntry(graftPoint, docPath);
    var f := FirstParam(entry);
    assert bound[f] == entry[f];
    NumParamsZero(bound);
    assert forall j :: 0 <= j < f ==> bound[j] == entry[j];
  }

  /** Parts fresh for the container are fresh for the container bound through the node. */
  lemma FreshForBound(docPath: Path, parts: seq<Part>, container: Pattern, bound: Pattern)
    requires |bound| == |container|
    requires forall path :: IsInstance(path, bound) ==> IsInstance(path, container)
    requires FreshFor(docPath, parts, container)
    ensures FreshFor(docPath, parts, bound)
  {
  }

  /** Entries of the container bound through the node are entries of the container. */
  lemma AllInGraftBound(docPath: Path, emitted: seq<Part>, container: Pattern, bound: Pattern)
    requires |bound| == |container|
    requires forall path :: IsInstance(path, bound) ==> IsInstance(path, container)
    requires AllInGraft(docPath, emitted, bound)
    ensures AllInGraft(docPath, emitted, container)
  {
  }

  /** Covering the container bound through the node covers the container. */
  lemma CoversBound(docPath: Path, doc: Value, container: Pattern, bound: Pattern, parts: seq<Part>)
    requires forall p :: EntryPath(docPath, p, container) ==> EntryPath(docPath, p, bound)
    requires Covers(docPath, doc, bound, parts)
    ensures Covers(docPath, doc, container, parts)
  {
  }

  /**
   * The field names from the node at `docPath` down to the catalog of ids
   * that the first parameter of the entry path ranges over.
   */
  function CatalogSegments(entry: Pattern, docPath: Path): (r: seq<string>)
    requires NumParams(entry) > 0 && |docPath| <= FirstParam(entry)
    ensures r == RenderAll(entry)[|docPath|..FirstParam(entry)]
  {
    FieldNameSegments(entry, docPath)[1..FirstParam(entry) - |docPath| + 1]
  }

  /**
   * The catalog lookup of `scatterOneCollection` as written: the slice of the
   * field names from the node ends at the first parameter's index, which is
   * counted from the bosk root, not from the node. The two agree exactly at
   * the root: below it the slice is longer by the node's depth.
   */
  function CatalogSegmentsAsWritten(entry: Pattern, docPath: Path): (r: Result<seq<string>, Failure>)
    requires NumParams(entry) > 0 && |docPath| <= |entry|
    ensures r.Ok? <==> FirstParam(entry) + |docPath| <= |entry|
    ensures docPath == [] ==> r == Ok(CatalogSegments(entry, docPath))
    ensures docPath != [] && |docPath| <= FirstParam(entry) && r.Ok? ==> r.value != CatalogSegments(entry, docPath)
  {
    var segmentsFromDoc := FieldNameSegments(entry, docPath);
    var fpi := FirstParam(entry);
    if fpi + 1 > |segmentsFromDoc| then Err(IndexOutOfBounds) else Ok(segmentsFromDoc[1..fpi + 1])
  }

  /**
   * The node "entities" scattered with the separate collection
   * entities/-entity-/children: as written, the catalog is looked up at a
   * field "-entity-" that the node's document does not have, so scatter
   * fails although the document has an entry of the collection to carve out.
   * The catalog is the node's document itself.
   */
  lemma CatalogAsWrittenMisses()
    ensures var graftPoint := GraftPoint([Name("entities"), Param("entity"), Name("children")]);
      var docPath := ["entities"];
      var entry := BoundEntry(graftPoint, docPath);
      var document := Doc(map["e1" := Doc(map["children" := Doc(map["c1" := TRUE])])]);
      NumParams(entry) == 1 && FirstParam(entry) == 1 &&
      CatalogSegmentsAsWritten(entry, docPath) == Ok(["-entity-"]) &&
      Get(document, ["-entity-"]).None? &&
      CatalogSegments(entry, docPath) == [] &&
      EntryPath(docPath, ["e1", "children", "c1"], graftPoint.container) &&
      Get(document, ["e1", "children", "c1"]).Some?
  {
    var graftPoint := GraftPoint([Name("entities"), Param("entity"), Name("children")]);
    var docPath := ["entities"];
    var entry := BoundEntry(graftPoint, docPath);
    var document := Doc(map["e1" := Doc(map["children" := Doc(map["c1" := TRUE])])]);
    assert entry == [Name("entities"), Param("entity"), Name("children"), Name(PLACEHOLDER)];
    assert NumParams(entry) == 1 && FirstParam(entry) == 1;
    assert Render(Param("entity")) == "-entity-";
    assert FieldNameSegments(entry, docPath)[1..2] == [Render(entry[1])];
    assert CatalogSegmentsAsWritten(entry, docPath) == Ok(["-entity-"]);
    assert CatalogSegments(entry, docPath) == [];
    var p := ["e1", "children", "c1"];
    assert (docPath + p)[..|graftPoint.container|] == ["entities", "e1", "children"];
    assert EntryPath(docPath, p, graftPoint.container);
    var children := Doc(map["c1" := TRUE]);
    var e1 := Doc(map["children" := children]);
    assert p[1..] == ["children", "c1"] && p[1..][1..] == ["c1"] && p[1..][1..][1..] == [];
    assert Get(children, ["c1"]) == Get(TRUE, []) == Some(TRUE);
    assert Get(e1, ["children", "c1"]) == Get(children, ["c1"]);
    assert Get(document, p) == Get(e1, ["children", "c1"]);
  }

  /**
   * The recursion of `scatterOneCollection` as written: the id is bound to
   * the first parameter of the graft point's own container, which may lie
   * above the node, instead of the first parameter of the container bound
   * through the node.
   */
  function RebindAsWritten(graftPoint: GraftPoint, id: string): (r: GraftPoint)
    requires NumParams(graftPoint.container) > 0
    ensures NumParams(r.container) == NumParams(graftPoint.container) - 1
  {
    GraftPoint(BindFirst(graftPoint.container, id))
  }

  /**
   * The node entities/e1 scattered with the separate collection
   * entities/-entity-/children/-child-/grandchildren, the catalog lookup
   * corrected: for the child id "c1", as written, "-entity-" is bound to
   * "c1", so the graft point no longer runs through the node and nothing is
   * carved, although the entry g1 of c1's grandchildren belongs to the
   * collection.
   */
  lemma RebindAsWrittenSkips()
    ensures var graftPoint := GraftPoint([Name("entities"), Param("entity"), Name("children"), Param("child"), Name("grandchildren")]);
      var docPath := ["entities", "e1"];
      NumParams(graftPoint.container) == 2 &&
      !IsInstance(docPath, RebindAsWritten(graftPoint, "c1").EntryRef()[..|docPath|]) &&
      EntryPath(docPath, ["children", "c1", "grandchildren", "g1"], graftPoint.container)
  {
    var graftPoint := GraftPoint([Name("entities"), Param("entity"), Name("children"), Param("child"), Name("grandchildren")]);
    assert FirstParam(graftPoint.container) == 1;
    var rebound := RebindAsWritten(graftPoint, "c1");
    assert rebound.EntryRef()[1] == Name("c1");
    var full := ["entities", "e1"] + ["children", "c1", "grandchildren", "g1"];
    assert full[..5] == ["entities", "e1", "children", "c1", "grandchildren"];
  }

  /**
   * The same node, graft point and id with the corrected binding: the
   * container bound through the node and then to "c1" runs through the node
   * and has the entry g1 of c1's grandchildren.
   */
  lemma RebindBoundKeeps()
    ensures var graftPoint := GraftPoint([Name("entities"), Param("entity"), Name("children"), Param("child"), Name("grandchildren")]);
      var docPath := ["entities", "e1"];
      var bound := BoundEntry(graftPoint, docPath)[..|graftPoint.container|];
      NumParams(bound) == 1 &&
      IsInstance(docPath, GraftPoint(BindFirst(bound, "c1")).EntryRef()[..|docPath|]) &&
      EntryPath(docPath, ["children", "c1", "grandchildren", "g1"], BindFirst(bound, "c1"))
  {
    var graftPoint := GraftPoint([Name("entities"), Param("entity"), Name("children"), Param("child"), Name("grandchildren")]);
    var bound := BoundEntry(graftPoint, ["entities", "e1"])[..|graftPoint.container|];
    assert bound == [Name("entities"), Name("e1"), Name("children"), Param("child"), Name("grandchildren")];
    assert bound[3..] == [Param("child"), Name("grandchildren")] && bound[4..] == [Name("grandchildren")];
    assert NumParams(bound[4..]) == 0;
    assert bound[3..][1..] == bound[4..];
    assert NumParams(bound[3..]) == 1;
    assert bound[2..][1..] == bound[3..];
    assert NumParams(bound[2..]) == 1;
    assert bound[1..][1..] == bound[2..];
    assert NumParams(bound[1..]) == 1;
    assert NumParams(bound) == 1;
    assert FirstParam(bound) == 3;
    var full := ["entities", "e1"] + ["children", "c1", "grandchildren", "g1"];
    assert full[..5] == ["entities", "e1", "children", "c1", "grandchildren"];
    assert BindFirst(bound, "c1") == [Name("entities"), Name("e1"), Name("children"), Name("c1"), Name("grandchildren")];
  }

  /**
   * Every lookup that scattering the graft point from the node at `docPath`
   * makes finds a sub-document of `doc`. A graft point that does not run
   * through the node makes none. Otherwise, with the parameters the node's
   * path binds bound: without parameters left, the container itself; with
   * some, the catalog of ids above the first one, and then the same for the
   * container bound to each of those ids.
   */
  ghost predicate Reachable(doc: Value, docPath: Path, graftPoint: GraftPoint)
    decreases NumParams(graftPoint.container)
  {
    var graftPath := graftPoint.EntryRef();
    if |graftPath| <= |docPath| || !IsInstance(docPath, graftPath[..|docPath|]) then true
    else
      var entry := BoundEntry(graftPoint, docPath);
      if NumParams(entry) == 0 then DocAt(doc, RenderAll(entry)[|docPath|..|graftPoint.container|])
      else
        BoundEntryFirstParam(graftPoint, docPath);
        var bound := entry[..|graftPoint.container|];
        BoundContainer(graftPoint, docPath, bound);
        BoundContainerFirstParam(graftPoint, docPath, bound);
        var catalog := CatalogSegments(entry, docPath);
        DocAt(doc, catalog) &&
        forall id :: id in Get(doc, catalog).value.fields ==> Reachable(doc, docPath, GraftPoint(BindFirst(bound, id)))
  }

  /**
   * Parts fresh for `container` lie deeper than any lookup scattering it
   * from the node makes: the stubbed document has a sub-document there
   * exactly when `doc` has, with the same keys.
   */
  lemma FreshForLookup(doc: Value, docPath: Path, parts: seq<Part>, container: Pattern, q: Path)
    requires FreshFor(docPath, parts, container) && |docPath| + |q| <= |container|
    ensures DocAt(Stub(doc, PathsOf(parts)), q) <==> DocAt(doc, q)
    ensures DocAt(doc, q) ==> Get(Stub(doc, PathsOf(parts)), q).value.fields.Keys == Get(doc, q).value.fields.Keys
  {
    forall y | y in PathsOf(parts) ensures |y| > |q| {
      var x :| x in parts && x.bsonPath != [] && x.bsonPath == y;
    }
    StubAbove(doc, PathsOf(parts), q);
  }

  /**
   * `scatterOneCollection`: carve every entry of every instance of the graft
   * point's container below the node at `docPath` out of `work`, appending a
   * recipe per entry. The parts the recipes stand for are returned as ghost
   * `emitted`. Parameters of the container below the node are bound one at a
   * time, each to every key found in the catalog above it. The catalog's
   * field names and the binding are the corrected ones (see
   * `CatalogSegmentsAsWritten` and `RebindAsWritten` for the code as written).
   */
  method ScatterOneCollection(docPath: Path, graftPoint: GraftPoint, work: Value, recipes: seq<Recipe>,
                              ghost doc: Value, ghost parts: seq<Part>)
    returns (r: Result<(Value, seq<Recipe>), Failure>, ghost emitted: seq<Part>)
    requires work.Doc?
    ensures |graftPoint.EntryRef()| <= |docPath| || !IsInstance(docPath, graftPoint.EntryRef()[..|docPath|]) ==>
      r == Ok((work, recipes)) && emitted == []
    ensures r.Ok? ==> r.value.0.Doc? && r.value.1 == recipes + EncodeAll(docPath, emitted)
    ensures r.Ok? ==> AllInGraft(docPath, emitted, graftPoint.container)
    ensures r.Ok? && Scattered(doc, work, parts) && FreshFor(docPath, parts, graftPoint.container) ==>
      Scattered(doc, r.value.0, parts + emitted) && Covers(docPath, doc, graftPoint.container, parts + emitted)
    ensures Scattered(doc, work, parts) && FreshFor(docPath, parts, graftPoint.container) ==>
      (r.Ok? <==> Reachable(doc, docPath, graftPoint))
    ensures r.Err? ==> r.error.DocMissing?
    decreases NumParams(graftPoint.container), 1
  {
    var graftPath := graftPoint.EntryRef();
    if |graftPath| <= |docPath| || !IsInstance(docPath, graftPath[..|docPath|]) {
      assert parts + [] == parts && recipes + EncodeAll(docPath, []) == recipes;
      EntriesOnPath(graftPoint, docPath);
      return Ok((work, recipes)), [];
    }
    var entry := BoundBy(graftPath, docPath);
    assert entry == BoundEntry(graftPoint, docPath);
    if NumParams(entry) == 0 {
      r, emitted := ScatterLastLevel(docPath, graftPoint, work, recipes, doc, parts);
    } else {
      BoundEntryFirstParam(graftPoint, docPath);
      // `entryRef`, the entry path bound through the node, without its placeholder.
      var bound := entry[..|graftPoint.container|];
      BoundContainer(graftPoint, docPath, bound);
      BoundContainerFirstParam(graftPoint, docPath, bound);
      var found := Lookup(work, CatalogSegments(entry, docPath));
      if Scattered(doc, work, parts) && FreshFor(docPath, parts, graftPoint.container) {
        FreshForLookup(doc, docPath, parts, graftPoint.container, CatalogSegments(entry, docPath));
      }
      if found.Err? {
        return Err(found.error), [];
      }
      r, emitted := ScatterEachId(docPath, GraftPoint(bound), found.value.fields.Keys, work, recipes, doc, parts);
      if Scattered(doc, work, parts) && FreshFor(docPath, parts, graftPoint.container) {
        FreshForBound(docPath, parts, graftPoint.container, bound);
      }
      if r.Ok? {
        AllInGraftBound(docPath, emitted, graftPoint.container, bound);
        if Scattered(doc, work, parts) && FreshFor(docPath, parts, graftPoint.container) {
          FreshForBound(docPath, parts, graftPoint.container, bound);
          RenderAllPrefix(entry, |graftPoint.container|, |docPath|, FirstParam(entry));
          CoversFromIds(docPath, doc, parts, bound, found.value.fields, parts + emitted);
          BoundContainerEntries(graftPoint, docPath, bound);
          CoversBound(docPath, doc, graftPoint.container, bound, parts + emitted);
        }
      }
    }
  }

  /** A graft point has entries below the node only if it runs through the node. */
  lemma EntriesOnPath(graftPoint: GraftPoint, docPath: Path)
    ensures forall p :: EntryPath(docPath, p, graftPoint.container) ==>
      |graftPoint.EntryRef()| > |docPath| && IsInstance(docPath, graftPoint.EntryRef()[..|docPath|])
  {
    var container := graftPoint.container;
    forall p | EntryPath(docPath, p, container)
      ensures |graftPoint.EntryRef()| > |docPath| && IsInstance(docPath, graftPoint.EntryRef()[..|docPath|])
    {
      var path := (docPath + p)[..|container|];
      assert forall i :: 0 <= i < |docPath| ==> path[i] == docPath[i] && graftPoint.EntryRef()[i] == container[i];
    }
  }

  /**
   * The case of `scatterOneCollection` with every parameter bound: the
   * entries of the one container the graft point names are scattered.
   */
  method ScatterLastLevel(docPath: Path, graftPoint: GraftPoint, work: Value, recipes: seq<Recipe>,
                          ghost doc: Value, ghost parts: seq<Part>)
    returns (r: Result<(Value, seq<Recipe>), Failure>, ghost emitted: seq<Part>)
    requires work.Doc?
    requires |graftPoint.EntryRef()| > |docPath| && IsInstance(docPath, graftPoint.EntryRef()[..|docPath|])
    requires NumParams(BoundEntry(graftPoint, docPath)) == 0
    ensures r.Ok? ==> r.value.0.Doc? && r.value.1 == recipes + EncodeAll(docPath, emitted)
    ensures r.Ok? ==> AllInGraft(docPath, emitted, graftPoint.container)
    ensures r.Ok? && Scattered(doc, work, parts) && FreshFor(docPath, parts, graftPoint.container) ==>
      Scattered(doc, r.value.0, parts + emitted) && Covers(docPath, doc, graftPoint.container, parts + emitted)
    ensures Scattered(doc, work, parts) && FreshFor(docPath, parts, graftPoint.container) ==>
      (r.Ok? <==> Reachable(doc, docPath, graftPoint))
    ensures r.Err? ==> r.error.DocMissing?
  {
    ghost var container := graftPoint.container;
    var entry := BoundBy(graftPoint.EntryRef(), docPath);
    assert entry == BoundEntry(graftPoint, docPath);
    var segmentsFromRoot := FieldNameSegments(entry, []);
    var segmentsFromDoc := FieldNameSegments(entry, docPath);
    // Drop the leading "state" and the trailing placeholder.
    var containing := segmentsFromDoc[1..|segmentsFromDoc| - 1];
    var bsonPathBase := Join(segmentsFromRoot[1..|segmentsFromRoot| - 1]);
    BoundEntryRendersNode(graftPoint, docPath);
    BoundEntryInstance(graftPoint, docPath);
    assert segmentsFromRoot[1..|segmentsFromRoot| - 1] == RenderAll(entry)[..|container|] == docPath + containing;
    r, emitted := ScatterEntries(docPath, container, containing, bsonPathBase, work, recipes, doc, parts);
    if Scattered(doc, work, parts) && FreshFor(docPath, parts, container) {
      FreshForLookup(doc, docPath, parts, container, containing);
    }
    if r.Ok? && Scattered(doc, work, parts) && FreshFor(docPath, parts, container) {
      CoversLastLevel(graftPoint, docPath, doc, work, containing, Get(work, containing).value.fields, parts, emitted);
    }
  }

  /**
   * Without parameters left, every entry of an instance of the container
   * below the node is an entry of the one container the bound entry path
   * names.
   */
  lemma LastLevelEntry(graftPoint: GraftPoint, docPath: Path, p: Path)
    requires |docPath| <= |graftPoint.container|
    requires IsInstance(docPath, graftPoint.EntryRef()[..|docPath|])
    requires NumParams(BoundEntry(graftPoint, docPath)) == 0
    requires EntryPath(docPath, p, graftPoint.container)
    ensures p[..|p| - 1] == RenderAll(BoundEntry(graftPoint, docPath))[|docPath|..|graftPoint.container|]
  {
    var container := graftPoint.container;
    var entry := BoundEntry(graftPoint, docPath);
    var path := (docPath + p)[..|container|];
    NumParamsZero(entry);
    forall j | 0 <= j < |p| - 1 ensures p[j] == Render(entry[|docPath| + j]) {
      assert graftPoint.EntryRef()[|docPath| + j] == container[|docPath| + j];
      assert path[|docPath| + j] == p[j];
    }
  }

  /**
   * Carving every entry of the container the bound entry path names covers
   * the graft point's container.
   */
  lemma CoversLastLevel(graftPoint: GraftPoint, docPath: Path, doc: Value, work: Value, containing: Path,
                        m: map<string, Value>, parts: seq<Part>, emitted: seq<Part>)
    requires |docPath| <= |graftPoint.container|
    requires IsInstance(docPath, graftPoint.EntryRef()[..|docPath|])
    requires NumParams(BoundEntry(graftPoint, docPath)) == 0
    requires containing == RenderAll(BoundEntry(graftPoint, docPath))[|docPath|..|graftPoint.container|]
    requires work == Stub(doc, PathsOf(parts)) && FreshFor(docPath, parts, graftPoint.container)
    requires Get(work, containing) == Some(Doc(m))
    requires forall k :: k in m ==> Part(containing + [k], m[k]) in emitted
    ensures Covers(docPath, doc, graftPoint.container, parts + emitted)
  {
    forall p | EntryPath(docPath, p, graftPoint.container) ensures p[..|p| - 1] == containing {
      LastLevelEntry(graftPoint, docPath, p);
    }
    CoversEntries(docPath, doc, parts, graftPoint.container, containing, m, parts + emitted);
  }

  /**
   * The parameter case of `scatterOneCollection`: recurse once per id found,
   * with the graft point's first parameter bound to the id.
   */
  method ScatterEachId(docPath: Path, graftPoint: GraftPoint, ids: set<string>, work: Value, recipes: seq<Recipe>,
                       ghost doc: Value, ghost parts: seq<Part>)
    returns (r: Result<(Value, seq<Recipe>), Failure>, ghost emitted: seq<Part>)
    requires work.Doc? && NumParams(graftPoint.container) > 0
    ensures r.Ok? ==> r.value.0.Doc? && r.value.1 == recipes + EncodeAll(docPath, emitted)
    ensures r.Ok? ==> AllInGraft(docPath, emitted, graftPoint.container)
    ensures r.Ok? && Scattered(doc, work, parts) && FreshFor(docPath, parts, graftPoint.container) ==>
      Scattered(doc, r.value.0, parts + emitted) &&
      forall id :: id in ids ==> Covers(docPath, doc, BindFirst(graftPoint.container, id), parts + emitted)
    ensures Scattered(doc, work, parts) && FreshFor(docPath, parts, graftPoint.container) ==>
      (r.Ok? <==> forall id :: id in ids ==> Reachable(doc, docPath, GraftPoint(BindFirst(graftPoint.container, id))))
    ensures r.Err? ==> r.error.DocMissing?
    decreases NumParams(graftPoint.container), 0
  {
    ghost var container := graftPoint.container;
    ghost var ready := Scattered(doc, work, parts) && FreshFor(docPath, parts, container);
    var remaining := ids;
    var w, out := work, recipes;
    emitted := [];
    assert parts + emitted == parts && recipes + EncodeAll(docPath, emitted) == recipes;
    ghost var processed: set<string> := {};
    ghost var f := FirstParam(container);
    while remaining != {}
      invariant w.Doc? && remaining <= ids && processed == ids - remaining
      invariant out == recipes + EncodeAll(docPath, emitted)
      invariant BoundIds(docPath, emitted, container, f, processed)
      invariant ready ==> Scattered(doc, w, parts + emitted)
      invariant ready ==> forall id :: id in processed ==> Covers(docPath, doc, BindFirst(container, id), parts + emitted)
      invariant ready ==> forall id :: id in processed ==> Reachable(doc, docPath, GraftPoint(BindFirst(container, id)))
      decreases remaining
    {
      var id :| id in remaining;
      // `entryRef.boundTo(id)`: the placeholder is a name, so binding the
      // entry path binds the container.
      var next := GraftPoint(BindFirst(graftPoint.container, id));
      if ready {
        FreshForNext(docPath, parts, emitted, container, processed, id);
      }
      var sub, subEmitted := ScatterOneCollection(docPath, next, w, out, doc, parts + emitted);
      if sub.Err? {
        return Err(sub.error), [];
      }
      BoundEntries(docPath, emitted, subEmitted, container, processed, id);
      EncodedAppend(docPath, recipes, out, sub.value.1, emitted, subEmitted);
      if ready {
        ScatteredRegroup(doc, sub.value.0, parts, emitted, subEmitted);
        CoversNextId(docPath, doc, container, processed, id, parts, emitted, subEmitted);
        ReachableNextId(doc, docPath, container, processed, id);
      }
      w, out := sub.value.0, sub.value.1;
      emitted := emitted + subEmitted;
      processed := processed + {id};
      remaining := remaining - {id};
    }
    BoundIdsInGraft(docPath, emitted, container, f, processed);
    return Ok((w, out)), emitted;
  }

  /** The ids processed so far stay reachable, and the one just processed joins them. */
  lemma ReachableNextId(doc: Value, docPath: Path, container: Pattern, processed: set<string>, id: string)
    requires NumParams(container) > 0
    requires forall i :: i in processed ==> Reachable(doc, docPath, GraftPoint(BindFirst(container, i)))
    requires Reachable(doc, docPath, GraftPoint(BindFirst(container, id)))
    ensures forall i :: i in processed + {id} ==> Reachable(doc, docPath, GraftPoint(BindFirst(container, i)))
  {
    forall i | i in processed + {id} ensures Reachable(doc, docPath, GraftPoint(BindFirst(container, i))) {
      if i != id {
        assert i in processed;
      }
    }
  }

  /** The ids processed so far stay covered, and the one just processed joins them. */
  lemma CoversNextId(docPath: Path, doc: Value, container: Pattern, processed: set<string>, id: string,
                     parts: seq<Part>, emitted: seq<Part>, subEmitted: seq<Part>)
    requires NumParams(container) > 0
    requires forall i :: i in processed ==> Covers(docPath, doc, BindFirst(container, i), parts + emitted)
    requires Covers(docPath, doc, BindFirst(container, id), parts + emitted + subEmitted)
    ensures forall i :: i in processed + {id} ==> Covers(docPath, doc, BindFirst(container, i), parts + (emitted + subEmitted))
  {
    assert parts + emitted + subEmitted == parts + (emitted + subEmitted);
    forall i | i in processed ensures Covers(docPath, doc, BindFirst(container, i), parts + (emitted + subEmitted)) {
      CoversMore(docPath, doc, BindFirst(container, i), parts + emitted, subEmitted);
    }
  }

  /**
   * The parameter-free case of `scatterOneCollection`: every entry of the
   * container at `containing` below the node becomes a recipe whose `_id`
   * is `bsonPathBase`, "|", and the entry's key, and is replaced by TRUE.
   */
  method ScatterEntries(docPath: Path, ghost container: Pattern, containing: Path, bsonPathBase: string,
                        work: Value, recipes: seq<Recipe>, ghost doc: Value, ghost parts: seq<Part>)
    returns (r: Result<(Value, seq<Recipe>), Failure>, ghost emitted: seq<Part>)
    requires work.Doc?
    requires IsInstance(docPath + containing, container) && bsonPathBase == Join(docPath + containing)
    ensures r.Ok? <==> Get(work, containing).Some? && Get(work, containing).value.Doc?
    ensures r.Ok? ==> r.value.0.Doc? && r.value.1 == recipes + EncodeAll(docPath, emitted)
    ensures r.Ok? ==> var m := Get(work, containing).value.fields;
      |emitted| == |m| && (forall k :: k in m ==> Part(containing + [k], m[k]) in emitted) &&
      Get(r.value.0, containing) == Some(Doc(map k | k in m :: TRUE))
    ensures r.Ok? ==> AllInGraft(docPath, emitted, container)
    ensures r.Ok? && Scattered(doc, work, parts) && FreshFor(docPath, parts, container) ==>
      Scattered(doc, r.value.0, parts + emitted)
    ensures r.Err? ==> r.error == DocMissing(containing)
  {
    ghost var ready := Scattered(doc, work, parts) && FreshFor(docPath, parts, container);
    var found := Lookup(work, containing);
    if found.Err? {
      return Err(found.error), [];
    }
    var m := found.value.fields;
    var w, out := work, recipes;
    emitted := [];
    var keys := m.Keys;
    assert parts + emitted == parts;
    while keys != {}
      invariant w.Doc? && keys <= m.Keys
      invariant out == recipes + EncodeAll(docPath, emitted)
      invariant EntriesOf(emitted, containing, m.Keys - keys)
      invariant |emitted| == |m.Keys - keys|
      invariant forall k :: k in m.Keys - keys ==> Part(containing + [k], m[k]) in emitted
      invariant Remaining(w, containing, m, keys)
      invariant ready ==> Scattered(doc, w, parts + emitted)
      decreases keys
    {
      var key :| key in keys;
      ghost var x := Part(containing + [key], m[key]);
      if ready {
        CarveEntry(doc, w, docPath, parts, emitted, container, containing, key, m.Keys - keys);
      }
      EmitEntry(docPath, recipes, out, emitted, containing, bsonPathBase, key, m[key]);
      EmittedStep(emitted, containing, m, keys, key);
      RemainingStep(w, containing, m, keys, key);
      out := out + [Recipe(bsonPathBase + [SEPARATOR] + key, m[key])];
      emitted := emitted + [x];
      w := PutAt(w, containing, key, TRUE).value;
      keys := keys - {key};
    }
    EntriesInGraft(docPath, container, containing, emitted, m.Keys);
    RemainingNone(w, containing, m);
    return Ok((w, out)), emitted;
  }

  /** One more entry emitted, with its recipe. */
  lemma EmitEntry(docPath: Path, recipes: seq<Recipe>, out: seq<Recipe>, emitted: seq<Part>, containing: Path,
                  bsonPathBase: string, key: string, state: Value)
    requires bsonPathBase == Join(docPath + containing)
    requires out == recipes + EncodeAll(docPath, emitted)
    ensures out + [Recipe(bsonPathBase + [SEPARATOR] + key, state)] ==
      recipes + EncodeAll(docPath, emitted + [Part(containing + [key], state)])
  {
    EntryRecipe(docPath, containing, key, state);
    EncodeAllConcat(docPath, emitted, [Part(containing + [key], state)]);
  }

  lemma EntriesInGraft(docPath: Path, container: Pattern, containing: Path, emitted: seq<Part>, done: set<string>)
    requires IsInstance(docPath + containing, container)
    requires EntriesOf(emitted, containing, done)
    ensures AllInGraft(docPath, emitted, container)
  {
    forall x | x in emitted ensures InGraft(docPath, x, container) {
      assert (docPath + x.bsonPath)[..|container|] == docPath + containing;
    }
  }

  /**
   * Carving out an entry not carved yet keeps the document scattered, the
   * entry's part appended.
   */
  lemma CarveEntry(doc: Value, w: Value, docPath: Path, parts: seq<Part>, emitted: seq<Part>,
                   container: Pattern, containing: Path, key: string, done: set<string>)
    requires Scattered(doc, w, parts + emitted) && FreshFor(docPath, parts, container)
    requires IsInstance(docPath + containing, container)
    requires EntriesOf(emitted, containing, done) && key !in done
    requires Get(w, containing).Some? && Get(w, containing).value.Doc? && key in Get(w, containing).value.fields
    ensures PutAt(w, containing, key, TRUE).Some?
    ensures Scattered(doc, PutAt(w, containing, key, TRUE).value,
      parts + (emitted + [Part(containing + [key], Get(w, containing).value.fields[key])]))
  {
    var m := Get(w, containing).value.fields;
    var x := Part(containing + [key], m[key]);
    EntryIsFresh(docPath, parts, emitted, container, containing, key, done);
    EmitPart(doc, w, parts + emitted, containing, key, m);
    Appended(parts, emitted, x);
  }

  /** An entry not yet carved out of an instance of `container` is at no emitted part's path, and no part is shallower. */
  lemma EntryIsFresh(docPath: Path, parts: seq<Part>, emitted: seq<Part>, container: Pattern,
                     containing: Path, key: string, done: set<string>)
    requires IsInstance(docPath + containing, container)
    requires FreshFor(docPath, parts, container)
    requires EntriesOf(emitted, containing, done)
    requires key !in done
    ensures forall y :: y in parts + emitted ==> |y.bsonPath| >= |containing| + 1
    ensures containing + [key] !in PathsOf(parts + emitted)
  {
  }

  /** The recipe of an entry of the container at `containing` below the node. */
  lemma EntryRecipe(docPath: Path, containing: Path, key: string, state: Value)
    ensures RecipeOf(docPath, Part(containing + [key], state)) ==
      Recipe(Join(docPath + containing) + [SEPARATOR] + key, state)
  {
    var p := containing + [key];
    assert p[..|p| - 1] == containing && p[|p| - 1] == key;
  }

  /**
   * Every part emitted is an entry of an instance of `container` whose first
   * parameter is bound to one of the ids processed.
   */
  predicate BoundIds(docPath: Path, emitted: seq<Part>, container: Pattern, f: nat, processed: set<string>)
  {
    forall x :: x in emitted ==>
      InGraft(docPath, x, container) && f < |docPath| + |x.bsonPath| && (docPath + x.bsonPath)[f] in processed
  }

  lemma BoundIdsInGraft(docPath: Path, emitted: seq<Part>, container: Pattern, f: nat, processed: set<string>)
    requires BoundIds(docPath, emitted, container, f, processed)
    ensures AllInGraft(docPath, emitted, container)
  {
  }

  lemma EncodedAppend(docPath: Path, recipes: seq<Recipe>, out: seq<Recipe>, out': seq<Recipe>, a: seq<Part>, b: seq<Part>)
    requires out == recipes + EncodeAll(docPath, a)
    requires out' == out + EncodeAll(docPath, b)
    ensures out' == recipes + EncodeAll(docPath, a + b)
  {
    EncodeAllConcat(docPath, a, b);
  }

  lemma ScatteredRegroup(doc: Value, w: Value, parts: seq<Part>, a: seq<Part>, b: seq<Part>)
    requires Scattered(doc, w, parts + a + b)
    ensures Scattered(doc, w, parts + (a + b))
  {
    assert parts + a + b == parts + (a + b);
  }

  /** The parts emitted for the ids processed so far are fresh for the next id. */
  lemma FreshForNext(docPath: Path, parts: seq<Part>, emitted: seq<Part>, container: Pattern,
                     processed: set<string>, id: string)
    requires NumParams(container) > 0
    requires FreshFor(docPath, parts, container)
    requires BoundIds(docPath, emitted, container, FirstParam(container), processed)
    requires id !in processed
    ensures FreshFor(docPath, parts + emitted, BindFirst(container, id))
  {
    var next := BindFirst(container, id);
    var f := FirstParam(container);
    forall x | x in parts + emitted
      ensures |docPath| + |x.bsonPath| >= |next| + 1 && !InGraft(docPath, x, next)
    {
      var path := (docPath + x.bsonPath)[..|container|];
      if |path| == |container| {
        assert path[f] == (docPath + x.bsonPath)[f];
      }
    }
  }

  /** The parts emitted for `id` join those emitted for the ids processed before. */
  lemma BoundEntries(docPath: Path, emitted: seq<Part>, subEmitted: seq<Part>, container: Pattern,
                     processed: set<string>, id: string)
    requires NumParams(container) > 0
    requires BoundIds(docPath, emitted, container, FirstParam(container), processed)
    requires AllInGraft(docPath, subEmitted, BindFirst(container, id))
    ensures BoundIds(docPath, emitted + subEmitted, container, FirstParam(container), processed + {id})
  {
    var f := FirstParam(container);
    forall x | x in subEmitted
      ensures InGraft(docPath, x, container) && (docPath + x.bsonPath)[f] == id
    {
      var path := (docPath + x.bsonPath)[..|container|];
      assert path[f] == (docPath + x.bsonPath)[f];
    }
  }

  /**
   * `scatter`: every graft point in turn carves its entries out of the
   * document of the node at `docPath`, and the stubbed document becomes the
   * last recipe, under the node's own joined path. `parts` is what the
   * recipes stand for, relative to the node.
   */
  method Scatter(surgeon: Surgeon, docPath: Path, document: Value)
    returns (r: Result<seq<Recipe>, Failure>, ghost parts: seq<Part>)
    requires document.Doc?
    ensures r.Ok? ==> r.value == EncodeAll(docPath, parts)
    ensures r.Ok? ==> parts != [] && parts[|parts| - 1].bsonPath == [] && r.value[|r.value| - 1].id == Join(docPath)
    ensures r.Ok? && WellFormed(surgeon) ==> Describes(parts, document) && DistinctPaths(parts)
    ensures r.Ok? && WellFormed(surgeon) ==>
      forall x :: x in parts && x.bsonPath != [] ==> |docPath| + |x.bsonPath| >= 2
    ensures r.Ok? && WellFormed(surgeon) ==>
      forall c :: c in Containers(surgeon) ==> Covers(docPath, document, c, parts)
    ensures WellFormed(surgeon) ==>
      (r.Ok? <==> forall g :: g in surgeon.graftPoints ==> Reachable(document, docPath, g))
    ensures r.Ok? ==> forall x :: x in parts[..|parts| - 1] ==> CarvedBy(docPath, x, Containers(surgeon))
    ensures r.Err? ==> r.error.DocMissing?
  {
    ghost var ready := WellFormed(surgeon);
    var out: seq<Recipe> := [];
    var w := document;
    parts := [];
    ScatteredInitially(document);
    var i := 0;
    while i < |surgeon.graftPoints|
      invariant 0 <= i <= |surgeon.graftPoints| && w.Doc?
      invariant out == EncodeAll(docPath, parts)
      invariant EmittedBefore(surgeon, docPath, parts, i)
      invariant ready ==> Scattered(document, w, parts)
      invariant ready ==> forall j :: 0 <= j < i ==> Covers(docPath, document, surgeon.graftPoints[j].container, parts)
      invariant ready ==> forall j :: 0 <= j < i ==> Reachable(document, docPath, surgeon.graftPoints[j])
    {
      var graftPoint := surgeon.graftPoints[i];
      if ready {
        FreshForLater(surgeon, docPath, parts, i);
      }
      var one, emitted := ScatterOneCollection(docPath, graftPoint, w, out, document, parts);
      if one.Err? {
        assert graftPoint in surgeon.graftPoints;
        return Err(one.error), [];
      }
      EncodeAllConcat(docPath, parts, emitted);
      EmittedBeforeNext(surgeon, docPath, parts, emitted, i);
      if ready {
        CoversKept(surgeon, docPath, document, parts, emitted, i);
        ReachableKept(document, docPath, surgeon.graftPoints, i);
      }
      w, out := one.value.0, one.value.1;
      parts := parts + emitted;
      i := i + 1;
    }
    // `docSegments` drops the leading "state" from the node's field names,
    // which leaves the node's path itself
    var docBsonPath := Join(docPath);
    if ready {
      FinishRecipe(document, w, parts);
      RootDeepEnough(surgeon, docPath, parts, Part([], w));
      CoversAll(surgeon, docPath, document, parts, Part([], w));
      ReachableAll(document, docPath, surgeon.graftPoints);
    }
    EncodeRoot(docPath, w, out, parts);
    OnlyEntries(surgeon, docPath, parts, Part([], w));
    r := Ok(out + [Recipe(docBsonPath, w)]);
    parts := parts + [Part([], w)];
  }

  /** Reachable at every index is reachable for every member. */
  lemma ReachableAll(document: Value, docPath: Path, graftPoints: seq<GraftPoint>)
    requires forall j :: 0 <= j < |graftPoints| ==> Reachable(document, docPath, graftPoints[j])
    ensures forall g :: g in graftPoints ==> Reachable(document, docPath, g)
  {
    forall g | g in graftPoints ensures Reachable(document, docPath, g) {
      var j :| 0 <= j < |graftPoints| && graftPoints[j] == g;
    }
  }

  /** The graft points before `i` stay reachable, and the one at `i` joins them. */
  lemma ReachableKept(document: Value, docPath: Path, graftPoints: seq<GraftPoint>, i: nat)
    requires i < |graftPoints|
    requires forall j :: 0 <= j < i ==> Reachable(document, docPath, graftPoints[j])
    requires Reachable(document, docPath, graftPoints[i])
    ensures forall j :: 0 <= j < i + 1 ==> Reachable(document, docPath, graftPoints[j])
  {
    forall j | 0 <= j < i + 1 ensures Reachable(document, docPath, graftPoints[j]) {
      if j < i {
        assert Reachable(document, docPath, graftPoints[j]);
      }
    }
  }

  /** The graft points scattered before stay covered, and the one just scattered joins them. */
  lemma CoversKept(surgeon: Surgeon, docPath: Path, doc: Value, parts: seq<Part>, emitted: seq<Part>, i: nat)
    requires i < |surgeon.graftPoints|
    requires forall j :: 0 <= j < i ==> Covers(docPath, doc, surgeon.graftPoints[j].container, parts)
    requires Covers(docPath, doc, surgeon.graftPoints[i].container, parts + emitted)
    ensures forall j :: 0 <= j < i + 1 ==> Covers(docPath, doc, surgeon.graftPoints[j].container, parts + emitted)
  {
    forall j | 0 <= j < i ensures Covers(docPath, doc, surgeon.graftPoints[j].container, parts + emitted) {
      CoversMore(docPath, doc, surgeon.graftPoints[j].container, parts, emitted);
    }
  }

  /** Every graft point covered, the root part added. */
  lemma CoversAll(surgeon: Surgeon, docPath: Path, doc: Value, parts: seq<Part>, root: Part)
    requires forall j :: 0 <= j < |surgeon.graftPoints| ==> Covers(docPath, doc, surgeon.graftPoints[j].container, parts)
    ensures forall c :: c in Containers(surgeon) ==> Covers(docPath, doc, c, parts + [root])
  {
    forall c | c in Containers(surgeon) ensures Covers(docPath, doc, c, parts + [root]) {
      var j :| 0 <= j < |Containers(surgeon)| && Containers(surgeon)[j] == c;
      CoversMore(docPath, doc, c, parts, [root]);
    }
  }

  /** The root recipe, the node's document with every entry carved out, goes last. */
  lemma EncodeRoot(docPath: Path, w: Value, out: seq<Recipe>, parts: seq<Part>)
    requires out == EncodeAll(docPath, parts)
    ensures out + [Recipe(Join(docPath), w)] == EncodeAll(docPath, parts + [Part([], w)])
  {
    var root := Part([], w);
    assert RecipeOf(docPath, root) == Recipe(Join(docPath), w);
    assert EncodeAll(docPath, [root]) == [RecipeOf(docPath, root)];
    EncodedAppend(docPath, [], out, out + [RecipeOf(docPath, root)], parts, [root]);
  }

  /** Each part emitted so far is an entry of one of the first `i` graft points' containers. */
  predicate EmittedBefore(surgeon: Surgeon, docPath: Path, parts: seq<Part>, i: nat)
  {
    forall x :: x in parts ==>
      exists j :: 0 <= j < i && j < |surgeon.graftPoints| && InGraft(docPath, x, surgeon.graftPoints[j].container)
  }

  /** `x` is an entry of one of `containers`. */
  predicate CarvedBy(docPath: Path, x: Part, containers: seq<Pattern>)
  {
    exists c :: c in containers && InGraft(docPath, x, c)
  }

  /** Once every graft point has had its turn, all but the stubbed root are entries of some container. */
  lemma OnlyEntries(surgeon: Surgeon, docPath: Path, parts: seq<Part>, root: Part)
    requires EmittedBefore(surgeon, docPath, parts, |surgeon.graftPoints|)
    ensures forall x :: x in (parts + [root])[..|parts|] ==> CarvedBy(docPath, x, Containers(surgeon))
  {
    assert (parts + [root])[..|parts|] == parts;
    forall x | x in parts ensures CarvedBy(docPath, x, Containers(surgeon)) {
      var j :| 0 <= j < |surgeon.graftPoints| && InGraft(docPath, x, surgeon.graftPoints[j].container);
      assert Containers(surgeon)[j] in Containers(surgeon);
    }
  }

  lemma EmittedBeforeNext(surgeon: Surgeon, docPath: Path, parts: seq<Part>, emitted: seq<Part>, i: nat)
    requires i < |surgeon.graftPoints|
    requires EmittedBefore(surgeon, docPath, parts, i)
    requires AllInGraft(docPath, emitted, surgeon.graftPoints[i].container)
    ensures EmittedBefore(surgeon, docPath, parts + emitted, i + 1)
  {
    forall x | x in parts + emitted
      ensures exists j :: 0 <= j < i + 1 && j < |surgeon.graftPoints| && InGraft(docPath, x, surgeon.graftPoints[j].container)
    {
      if x !in parts {
        assert InGraft(docPath, x, surgeon.graftPoints[i].container);
      }
    }
  }

  /**
   * In a well-formed surgeon, the parts emitted for earlier graft points are
   * fresh for a later one: no shallower, and never in both.
   */
  lemma FreshForLater(surgeon: Surgeon, docPath: Path, parts: seq<Part>, i: nat)
    requires WellFormed(surgeon) && i < |surgeon.graftPoints|
    requires EmittedBefore(surgeon, docPath, parts, i)
    ensures FreshFor(docPath, parts, surgeon.graftPoints[i].container)
  {
    var cs := Containers(surgeon);
    forall x | x in parts
      ensures |docPath| + |x.bsonPath| >= |cs[i]| + 1 && !InGraft(docPath, x, cs[i])
    {
      var j :| 0 <= j < i && InGraft(docPath, x, cs[j]);
      if InGraft(docPath, x, cs[i]) {
        InstanceOfBoth((docPath + x.bsonPath)[..|cs[j]|], cs[j], cs[i]);
        DisjointApart(cs, cs, j, i);
      }
    }
  }

  /** In a well-formed surgeon every non-root part lies at least two segments below the bosk root. */
  lemma RootDeepEnough(surgeon: Surgeon, docPath: Path, parts: seq<Part>, root: Part)
    requires WellFormed(surgeon)
    requires EmittedBefore(surgeon, docPath, parts, |surgeon.graftPoints|)
    requires root.bsonPath == []
    ensures forall x :: x in parts + [root] && x.bsonPath != [] ==> |docPath| + |x.bsonPath| >= 2
  {
    var cs := Containers(surgeon);
    forall x | x in parts ensures |docPath| + |x.bsonPath| >= 2 {
      var j :| 0 <= j < |cs| && InGraft(docPath, x, cs[j]);
      assert cs[j] != [];
    }
  }

  /**
   * Every entry of a separate collection below the node that the document
   * has gets its own recipe, whose `_id` splits back into the entry's path
   * from the bosk root.
   */
  lemma RecipesForEntries(separateCollections: seq<Pattern>, surgeon: Surgeon, docPath: Path,
                          document: Value, parts: seq<Part>)
    requires multiset(Containers(surgeon)) == multiset(separateCollections)
    requires ValidKeys(document) && ValidPath(docPath)
    requires forall c :: c in separateCollections ==> c != []
    requires forall c :: c in Containers(surgeon) ==> Covers(docPath, document, c, parts)
    ensures forall c, p :: c in separateCollections && EntryPath(docPath, p, c) && Get(document, p).Some? ==>
      exists e :: e in EncodeAll(docPath, parts) && BsonPathSegments(e.id) == docPath + p
  {
    forall c, p | c in separateCollections && EntryPath(docPath, p, c) && Get(document, p).Some?
      ensures exists e :: e in EncodeAll(docPath, parts) && BsonPathSegments(e.id) == docPath + p
    {
      assert c in multiset(separateCollections);
      assert c in Containers(surgeon);
      assert p in PathsOf(parts);
      var x :| x in parts && x.bsonPath != [] && x.bsonPath == p;
      var k :| 0 <= k < |parts| && parts[k] == x;
      ValidKeysPath(document, p);
      assert ValidPath(docPath + p) by {
        forall i | 0 <= i < |docPath + p| ensures ValidSegment((docPath + p)[i]) {
          if i >= |docPath| {
            assert (docPath + p)[i] == p[i - |docPath|];
          }
        }
      }
      IdSegments(docPath, p);
      assert EncodeAll(docPath, parts)[k] == RecipeOf(docPath, x);
    }
  }

  /** Every graft point reachable is every separate collection reachable. */
  lemma ReachableEvery(separateCollections: seq<Pattern>, surgeon: Surgeon, docPath: Path, document: Value)
    requires multiset(Containers(surgeon)) == multiset(separateCollections)
    ensures (forall g :: g in surgeon.graftPoints ==> Reachable(document, docPath, g)) <==>
      (forall c :: c in separateCollections ==> Reachable(document, docPath, GraftPoint(c)))
  {
    var cs := Containers(surgeon);
    forall c ensures c in separateCollections <==> GraftPoint(c) in surgeon.graftPoints {
      assert c in separateCollections <==> c in multiset(cs);
      if c in cs {
        var j :| 0 <= j < |cs| && cs[j] == c;
        assert surgeon.graftPoints[j] == GraftPoint(c);
      }
      if GraftPoint(c) in surgeon.graftPoints {
        var j :| 0 <= j < |cs| && surgeon.graftPoints[j] == GraftPoint(c);
        assert cs[j] == c;
      }
    }
    forall g | g in surgeon.graftPoints ensures g == GraftPoint(g.container) {
    }
  }

  /**
   * The unit test's round trip through the surgeon: build it from the
   * separate collections, scatter the document of the node at `docPath`,
   * gather the recipes in whatever order they come back, and get the
   * document back. Every entry of a separate collection travels in a
   * recipe of its own.
   */
  method ScatterThenGather(separateCollections: seq<Pattern>, docPath: Path, document: Value, order: nat)
    returns (scattered: Result<seq<Recipe>, Failure>, gathered: Result<Value, Failure>)
    requires document.Doc? && ValidKeys(document) && ValidPath(docPath)
    requires Disjoint(separateCollections) && forall c :: c in separateCollections ==> c != []
    ensures scattered.Ok? ==> gathered == Ok(document)
    ensures scattered.Ok? ==> forall c, p :: c in separateCollections && EntryPath(docPath, p, c) && Get(document, p).Some? ==>
      exists e :: e in scattered.value && BsonPathSegments(e.id) == docPath + p
    ensures scattered.Ok? <==> forall c :: c in separateCollections ==> Reachable(document, docPath, GraftPoint(c))
    ensures scattered.Ok? ==> forall i, j :: 0 <= i < j < |scattered.value| ==> scattered.value[i].id != scattered.value[j].id
    ensures scattered.Err? ==> scattered.error.DocMissing? && gathered == Err(scattered.error)
  {
    var surgeon := NewSurgeon(separateCollections);
    NewSurgeonWellFormed(separateCollections);
    ghost var parts;
    scattered, parts := Scatter(surgeon, docPath, document);
    ReachableEvery(separateCollections, surgeon, docPath, document);
    if scattered.Err? {
      return scattered, Err(scattered.error);
    }
    RecipesForEntries(separateCollections, surgeon, docPath, document, parts);
    DistinctIds(docPath, parts, document);
    var received := Rotate(scattered.value, order);
    GatherIgnoresOrder(docPath, parts, document, received);
    gathered := Gather(received);
  }
}
