/**
 * Reference paths with parameters, as far as the surgeon uses them: a graft
 * point names a collection by a path in which some segments are parameters
 * ("-entity-"), each standing for any entry id of the collection above it.
 */
module Grafts {
  import opened Bson
  import opened Sorting

  datatype Segment = Name(name: string) | Param(name: string)

  type Pattern = seq<Segment>

  /** The BSON field name of a segment; a parameter keeps its "-name-" form. */
  function Render(segment: Segment): string
  {
    match segment
    case Name(n) => n
    case Param(n) => "-" + n + "-"
  }

  function RenderAll(pattern: Pattern): (r: Path)
    ensures |r| == |pattern|
    ensures forall i :: 0 <= i < |pattern| ==> r[i] == Render(pattern[i])
  {
    seq(|pattern|, i requires 0 <= i < |pattern| => Render(pattern[i]))
  }

  lemma RenderAllPrefix(pattern: Pattern, n: nat, lo: nat, hi: nat)
    requires lo <= hi <= n <= |pattern|
    ensures RenderAll(pattern[..n])[lo..hi] == RenderAll(pattern)[lo..hi]
  {
  }

  /**
   * `path` is one of the concrete paths `pattern` stands for (Path.matches):
   * same length, and equal wherever the pattern has a fixed name.
   */
  predicate IsInstance(path: Path, pattern: Pattern)
  {
    |path| == |pattern| &&
    forall i :: 0 <= i < |pattern| && pattern[i].Name? ==> path[i] == pattern[i].name
  }

  /** Two patterns that some concrete path is an instance of. */
  predicate Overlap(a: Pattern, b: Pattern)
  {
    |a| == |b| &&
    forall i :: 0 <= i < |a| && a[i].Name? && b[i].Name? ==> a[i].name == b[i].name
  }

  lemma InstanceOfBoth(path: Path, a: Pattern, b: Pattern)
    requires IsInstance(path, a) && IsInstance(path, b)
    ensures Overlap(a, b)
  {
  }

  function NumParams(pattern: Pattern): nat
  {
    if pattern == [] then 0
    else (if pattern[0].Param? then 1 else 0) + NumParams(pattern[1..])
  }

  lemma {:induction false} NumParamsZero(pattern: Pattern)
    ensures NumParams(pattern) == 0 <==> forall i :: 0 <= i < |pattern| ==> pattern[i].Name?
  {
    if pattern != [] {
      NumParamsZero(pattern[1..]);
      assert forall i :: 1 <= i < |pattern| ==> pattern[i] == pattern[1..][i - 1];
    }
  }

  /** Path.firstParameterIndex. */
  function FirstParam(pattern: Pattern): (i: nat)
    requires NumParams(pattern) > 0
    ensures i < |pattern| && pattern[i].Param?
    ensures forall j :: 0 <= j < i ==> pattern[j].Name?
  {
    if pattern[0].Param? then 0 else 1 + FirstParam(pattern[1..])
  }

  lemma {:induction false} NumParamsBind(pattern: Pattern, i: nat, id: string)
    requires i < |pattern| && pattern[i].Param?
    ensures NumParams(pattern[i := Name(id)]) == NumParams(pattern) - 1
  {
    if i > 0 {
      assert pattern[i := Name(id)][1..] == pattern[1..][i - 1 := Name(id)];
      NumParamsBind(pattern[1..], i - 1, id);
    }
  }

  /** A pattern with parameters only where another has them has no more parameters. */
  lemma {:induction false} NumParamsFewer(a: Pattern, b: Pattern)
    requires |a| == |b| && forall i :: 0 <= i < |a| && a[i].Param? ==> b[i].Param?
    ensures NumParams(a) <= NumParams(b)
  {
    if a != [] {
      assert forall i :: 0 <= i < |a[1..]| && a[1..][i].Param? ==> a[i + 1].Param? && b[1..][i] == b[i + 1];
      NumParamsFewer(a[1..], b[1..]);
    }
  }

  /** `Reference.boundTo(id)`: the first parameter replaced by `id`. */
  function BindFirst(pattern: Pattern, id: string): (r: Pattern)
    requires NumParams(pattern) > 0
    ensures NumParams(r) == NumParams(pattern) - 1
    ensures |r| == |pattern|
    ensures forall path :: IsInstance(path, r) ==> IsInstance(path, pattern) && path[FirstParam(pattern)] == id
  {
    NumParamsBind(pattern, FirstParam(pattern), id);
    pattern[FirstParam(pattern) := Name(id)]
  }

  /** `Reference.boundBy(docPath)`: every parameter within the first |docPath| segments bound to docPath's segment. */
  function BoundBy(pattern: Pattern, docPath: Path): (r: Pattern)
    requires |docPath| <= |pattern|
    ensures |r| == |pattern|
    ensures forall i :: |docPath| <= i < |pattern| ==> r[i] == pattern[i]
  {
    seq(|pattern|, i requires 0 <= i < |pattern| =>
      if i < |docPath| && pattern[i].Param? then Name(docPath[i]) else pattern[i])
  }

  /** A path that is an instance of a pattern, with `id` at its first parameter, is an instance of the pattern bound to `id`. */
  lemma InstanceOfBound(path: Path, pattern: Pattern, id: string)
    requires NumParams(pattern) > 0 && IsInstance(path, pattern) && path[FirstParam(pattern)] == id
    ensures IsInstance(path, BindFirst(pattern, id))
  {
  }

  /** The sort key that puts longer paths first. */
  function LongestFirst(pattern: Pattern): int
  {
    -|pattern|
  }

  /**
   * No concrete container belongs to two of the separate collections: no two
   * of them overlap and none is listed twice.
   */
  predicate Disjoint(collections: seq<Pattern>)
  {
    (forall a, b :: a in collections && b in collections && a != b ==> !Overlap(a, b)) &&
    forall a :: a in collections ==> multiset(collections)[a] == 1
  }

  /** In any reordering of disjoint collections, two positions hold non-overlapping patterns. */
  lemma DisjointApart(collections: seq<Pattern>, sorted: seq<Pattern>, i: nat, j: nat)
    requires Disjoint(collections)
    requires multiset(sorted) == multiset(collections)
    requires i < |sorted| && j < |sorted| && i != j
    ensures !Overlap(sorted[i], sorted[j])
  {
    assert sorted[i] in multiset(collections) && sorted[j] in multiset(collections);
    if sorted[i] == sorted[j] {
      if i < j {
        DuplicateCounts(sorted, i, j);
      } else {
        DuplicateCounts(sorted, j, i);
      }
      assert false;
    }
  }

  /** Reordering disjoint collections keeps them disjoint. */
  lemma DisjointPermutation(collections: seq<Pattern>, sorted: seq<Pattern>)
    requires Disjoint(collections)
    requires multiset(sorted) == multiset(collections)
    ensures Disjoint(sorted)
  {
    forall a | a in sorted ensures a in collections {
      assert a in multiset(collections);
    }
  }
}
