/**
 * The "|"-joined string form of a BSON path that the main surgeon stores in a
 * part's `_id`, and the splitting that `bsonPathSegments` performs on it
 * (Java's `String.split("\\|")`, which drops trailing empty strings).
 */
module BsonPaths {

  const SEPARATOR: char := '|'

  /** `String.join("|", segments)`. */
  function Join(segments: seq<string>): string
  {
    if segments == [] then ""
    else if |segments| == 1 then segments[0]
    else segments[0] + [SEPARATOR] + Join(segments[1..])
  }

  lemma {:induction false} JoinAppend(segments: seq<string>, last: string)
    requires segments != []
    ensures Join(segments + [last]) == Join(segments) + [SEPARATOR] + last
  {
    if |segments| > 1 {
      assert (segments + [last])[1..] == segments[1..] + [last];
      JoinAppend(segments[1..], last);
    }
  }

  /** The fields between separators, every one of them kept. */
  function RawSplit(s: string): (r: seq<string>)
    ensures |r| > 0
  {
    if s == [] then [""]
    else
      var rest := RawSplit(s[1..]);
      if s[0] == SEPARATOR then [""] + rest
      else [[s[0]] + rest[0]] + rest[1..]
  }

  function StripTrailingEmpty(fields: seq<string>): (r: seq<string>)
    ensures r == [] || r[|r| - 1] != ""
    ensures |r| <= |fields| && r == fields[..|r|]
  {
    if fields == [] || fields[|fields| - 1] != "" then fields
    else StripTrailingEmpty(fields[..|fields| - 1])
  }

  /** `s.split("\\|")`: if there is no separator the whole string, else the fields without trailing empty ones. */
  function JavaSplit(s: string): seq<string>
  {
    if SEPARATOR !in s then [s] else StripTrailingEmpty(RawSplit(s))
  }

  /** A segment that survives a join and a split: not empty, no separator in it. */
  predicate ValidSegment(segment: string)
  {
    segment != "" && SEPARATOR !in segment
  }

  lemma {:induction false} RawSplitNoSeparator(s: string)
    requires SEPARATOR !in s
    ensures RawSplit(s) == [s]
  {
    if s != [] {
      RawSplitNoSeparator(s[1..]);
      assert [s[0]] + s[1..] == s;
    }
  }

  lemma {:induction false} RawSplitAfter(a: string, b: string)
    requires SEPARATOR !in a
    ensures RawSplit(a + [SEPARATOR] + b) == [a] + RawSplit(b)
  {
    var s := a + [SEPARATOR] + b;
    if a == [] {
      assert s[1..] == b;
    } else {
      assert s[1..] == a[1..] + [SEPARATOR] + b;
      RawSplitAfter(a[1..], b);
      assert [a[0]] + a[1..] == a;
    }
  }

  lemma {:induction false} RawSplitJoin(segments: seq<string>)
    requires segments != []
    requires forall i :: 0 <= i < |segments| ==> SEPARATOR !in segments[i]
    ensures RawSplit(Join(segments)) == segments
  {
    if |segments| == 1 {
      RawSplitNoSeparator(segments[0]);
    } else {
      RawSplitAfter(segments[0], Join(segments[1..]));
      RawSplitJoin(segments[1..]);
    }
  }

  /** Splitting a join of valid segments gives the segments back. */
  lemma SplitJoin(segments: seq<string>)
    requires segments != []
    requires forall i :: 0 <= i < |segments| ==> ValidSegment(segments[i])
    ensures JavaSplit(Join(segments)) == segments
  {
    RawSplitJoin(segments);
    if SEPARATOR !in Join(segments) {
      RawSplitNoSeparator(Join(segments));
    }
  }

  /** Every segment of the path is valid. */
  predicate ValidPath(segments: seq<string>)
  {
    forall i :: 0 <= i < |segments| ==> ValidSegment(segments[i])
  }

  lemma JoinNotEmpty(segments: seq<string>)
    requires segments != [] && segments[0] != ""
    ensures Join(segments) != ""
  {
    if |segments| > 1 {
      assert Join(segments) == segments[0] + [SEPARATOR] + Join(segments[1..]);
    }
  }
}
