/**
 * BSON documents as values, navigation and update by path, and the
 * "stubbing" of sub-documents that document splitting is built on.
 *
 * A BsonDocument is an ordered map, but its equality compares entry sets, so
 * a Dafny map is faithful for every equality the surgeon relies on.
 */
module Bson {
  import opened Wrappers

  /** A sequence of field names, outermost first. */
  type Path = seq<string>

  datatype Value =
    | Doc(fields: map<string, Value>)
    | Bool(b: bool)
    | Str(s: string)

  /** BsonBoolean.TRUE, the placeholder left where an entry was carved out. */
  const TRUE: Value := Bool(true)

  /** The value reached from `v` through the fields named by `p`, if every step exists. */
  function Get(v: Value, p: Path): Option<Value>
  {
    if p == [] then Some(v)
    else if v.Doc? && p[0] in v.fields then Get(v.fields[p[0]], p[1..])
    else None
  }

  /** `v` has a sub-document at `p`. */
  predicate DocAt(v: Value, p: Path)
  {
    Get(v, p).Some? && Get(v, p).value.Doc?
  }

  /**
   * `container.put(key, x)` on the sub-document reached by `c`, seen from the
   * whole document: None when `c` does not lead to a document.
   */
  function PutAt(v: Value, c: Path, key: string, x: Value): (r: Option<Value>)
    ensures r.Some? <==> Get(v, c).Some? && Get(v, c).value.Doc?
    ensures r.Some? ==> r.value.Doc?
    ensures r.Some? ==> Get(r.value, c) == Some(Doc(Get(v, c).value.fields[key := x]))
    ensures r.Some? ==> Get(r.value, c + [key]) == Some(x)
  {
    if !v.Doc? then None
    else if c == [] then
      assert [key][1..] == [];
      Some(Doc(v.fields[key := x]))
    else if c[0] !in v.fields then None
    else
      match PutAt(v.fields[c[0]], c[1..], key, x)
      case None => None
      case Some(w) =>
        assert (c + [key])[1..] == c[1..] + [key];
        Some(Doc(v.fields[c[0] := w]))
  }

  lemma {:induction false} GetAppend(v: Value, c: Path, key: string)
    ensures Get(v, c + [key]) ==
      if Get(v, c).Some? && Get(v, c).value.Doc? && key in Get(v, c).value.fields
      then Some(Get(v, c).value.fields[key]) else None
  {
    if c == [] {
      assert [key][1..] == [];
    } else if v.Doc? && c[0] in v.fields {
      assert (c + [key])[1..] == c[1..] + [key];
      GetAppend(v.fields[c[0]], c[1..], key);
    }
  }

  /** A non-empty path is its container's path followed by its last key. */
  lemma SplitLast(p: Path)
    requires p != []
    ensures p[..|p| - 1] + [p[|p| - 1]] == p
  {
  }

  /** Following `p` and then `q` is following `p + q`. */
  lemma {:induction false} GetConcat(v: Value, p: Path, q: Path)
    ensures Get(v, p + q) == if Get(v, p).Some? then Get(Get(v, p).value, q) else None
  {
    if p == [] {
      assert p + q == q;
    } else {
      assert (p + q)[0] == p[0] && (p + q)[1..] == p[1..] + q;
      if v.Doc? && p[0] in v.fields {
        GetConcat(v.fields[p[0]], p[1..], q);
      }
    }
  }

  // ---------------------------------------------------------------------
  // Stubbing: the document with a set of paths replaced by TRUE.
  // ---------------------------------------------------------------------

  /** The paths of `X` that start with `key`, with that first segment dropped. */
  function Child(X: set<Path>, key: string): set<Path>
  {
    set q | q in X && |q| > 0 && q[0] == key :: q[1..]
  }

  /** The paths of `X` strictly below `p`, relative to `p`. */
  function Below(X: set<Path>, p: Path): set<Path>
  {
    set q | q in X && |q| > |p| && q[..|p|] == p :: q[|p|..]
  }

  /** No prefix of `p` shorter than `n` is in `X`. */
  predicate NoPrefixIn(X: set<Path>, p: Path, n: nat)
  {
    forall i :: 0 <= i < n && i <= |p| ==> p[..i] !in X
  }

  /**
   * `v` with the value at every path of `X` replaced by TRUE. A path below
   * another path of `X` disappears with it.
   */
  function Stub(v: Value, X: set<Path>): (r: Value)
    ensures [] !in X ==> (r.Doc? <==> v.Doc?)
    ensures [] !in X && v.Doc? ==> r.fields.Keys == v.fields.Keys
  {
    if [] in X then TRUE
    else match v
      case Doc(m) => Doc(map k | k in m :: Stub(m[k], Child(X, k)))
      case _ => v
  }

  lemma {:induction false} StubNothing(v: Value)
    ensures Stub(v, {}) == v
  {
    match v
    case Doc(m) =>
      forall k | k in m ensures Stub(m[k], Child({}, k)) == m[k] {
        assert Child({}, k) == {};
        StubNothing(m[k]);
      }
    case _ =>
  }

  lemma ChildOfPrefixed(X: set<Path>, key: string, q: Path)
    ensures q in Child(X, key) <==> [key] + q in X
  {
    if q in Child(X, key) {
      var q0 :| q0 in X && |q0| > 0 && q0[0] == key && q0[1..] == q;
      assert q0 == [key] + q;
    }
    if [key] + q in X {
      assert ([key] + q)[1..] == q;
    }
  }

  lemma BelowOfPrefixed(X: set<Path>, key: string, p: Path)
    ensures Below(Child(X, key), p) == Below(X, [key] + p)
  {
    var kp := [key] + p;
    forall q | q in Below(X, kp) ensures q in Below(Child(X, key), p) {
      var q0 :| q0 in X && |q0| > |kp| && q0[..|kp|] == kp && q0[|kp|..] == q;
      assert q0[0] == key;
      var q1 := q0[1..];
      assert q1 in Child(X, key);
      assert kp[1..] == p;
      assert q1[..|p|] == q0[1..|kp|] == kp[1..];
      assert q1[|p|..] == q0[|kp|..];
    }
    forall q | q in Below(Child(X, key), p) ensures q in Below(X, kp) {
      var q1 :| q1 in Child(X, key) && |q1| > |p| && q1[..|p|] == p && q1[|p|..] == q;
      ChildOfPrefixed(X, key, q1);
      var q0 := [key] + q1;
      assert q0[..|kp|] == kp && q0[|kp|..] == q;
    }
  }

  lemma BelowRoot(X: set<Path>)
    requires [] !in X
    ensures Below(X, []) == X
  {
    forall q | q in X ensures q in Below(X, []) {
      assert q[..0] == [] && q[0..] == q;
    }
  }

  /** Looking below the stubbed paths: the stubbed document holds the stubbed sub-document. */
  lemma {:induction false} GetStub(v: Value, X: set<Path>, p: Path)
    requires Get(v, p).Some?
    requires NoPrefixIn(X, p, |p| + 1)
    ensures Get(Stub(v, X), p) == Some(Stub(Get(v, p).value, Below(X, p)))
  {
    assert p[..0] == [];
    if p == [] {
      BelowRoot(X);
    } else {
      var key, rest := p[0], p[1..];
      assert p == [key] + rest;
      forall i | 0 <= i < |rest| + 1 ensures rest[..i] !in Child(X, key) {
        ChildOfPrefixed(X, key, rest[..i]);
        assert [key] + rest[..i] == p[..i + 1];
      }
      GetStub(v.fields[key], Child(X, key), rest);
      BelowOfPrefixed(X, key, rest);
    }
  }

  /** Stubbing nothing on the way to `p` neither creates nor removes the path. */
  lemma {:induction false} GetStubNone(v: Value, X: set<Path>, p: Path)
    requires Get(v, p).None?
    requires NoPrefixIn(X, p, |p| + 1)
    ensures Get(Stub(v, X), p).None?
  {
    assert p[..0] == [];
    var key, rest := p[0], p[1..];
    if v.Doc? && key in v.fields {
      assert p == [key] + rest;
      forall i | 0 <= i < |rest| + 1 ensures rest[..i] !in Child(X, key) {
        ChildOfPrefixed(X, key, rest[..i]);
        assert [key] + rest[..i] == p[..i + 1];
      }
      GetStubNone(v.fields[key], Child(X, key), rest);
    }
  }

  /**
   * Stubbing only paths longer than `q` keeps what is at `q` a document
   * exactly when it was one, with the same keys.
   */
  lemma StubAbove(v: Value, X: set<Path>, q: Path)
    requires forall y :: y in X ==> |y| > |q|
    ensures DocAt(Stub(v, X), q) <==> DocAt(v, q)
    ensures DocAt(v, q) ==> Get(Stub(v, X), q).value.fields.Keys == Get(v, q).value.fields.Keys
  {
    assert NoPrefixIn(X, q, |q| + 1);
    if Get(v, q).Some? {
      GetStub(v, X, q);
      assert [] !in Below(X, q);
    } else {
      GetStubNone(v, X, q);
    }
  }

  /** Removing or adding paths no longer than `p` leaves what lies below `p` unchanged. */
  lemma BelowIgnoresShort(X: set<Path>, Z: set<Path>, p: Path)
    requires forall q :: q in Z ==> |q| <= |p|
    ensures Below(X - Z, p) == Below(X, p)
    ensures Below(X + Z, p) == Below(X, p)
  {
  }

  /** Stubs of a document that differ in one field only. */
  lemma StubOneField(m: map<string, Value>, X: set<Path>, Y: set<Path>, key: string)
    requires [] !in X && [] !in Y && key in m
    requires forall k :: k != key ==> Child(X, k) == Child(Y, k)
    ensures Stub(Doc(m), Y) == Doc(Stub(Doc(m), X).fields[key := Stub(m[key], Child(Y, key))])
  {
    var a := map k | k in m :: Stub(m[k], Child(X, k));
    var b := map k | k in m :: Stub(m[k], Child(Y, k));
    assert Stub(Doc(m), X) == Doc(a);
    assert Stub(Doc(m), Y) == Doc(b);
    var v := Stub(m[key], Child(Y, key));
    forall k | k in m ensures b[k] == a[key := v][k] {
      if k != key {
        assert Child(X, k) == Child(Y, k);
      }
    }
    assert b.Keys == a[key := v].Keys;
    assert b == a[key := v];
  }

  /** How removing or adding one path `p` changes the children of a set of paths. */
  lemma ChildMinus(X: set<Path>, p: Path, k: string)
    requires |p| > 0
    ensures k != p[0] ==> Child(X - {p}, k) == Child(X, k)
    ensures k == p[0] ==> Child(X - {p}, k) == Child(X, k) - {p[1..]}
  {
    assert p == [p[0]] + p[1..];
    forall q ensures q in Child(X - {p}, k) <==> q in Child(X, k) && (k == p[0] ==> q != p[1..]) {
      ChildOfPrefixed(X, k, q);
      ChildOfPrefixed(X - {p}, k, q);
      if k != p[0] {
        assert ([k] + q)[0] == k;
      }
    }
  }

  lemma ChildPlus(X: set<Path>, p: Path, k: string)
    requires |p| > 0
    ensures k != p[0] ==> Child(X + {p}, k) == Child(X, k)
    ensures k == p[0] ==> Child(X + {p}, k) == Child(X, k) + {p[1..]}
  {
    assert p == [p[0]] + p[1..];
    forall q ensures q in Child(X + {p}, k) <==> q in Child(X, k) || (k == p[0] && q == p[1..]) {
      ChildOfPrefixed(X, k, q);
      ChildOfPrefixed(X + {p}, k, q);
      if k != p[0] {
        assert ([k] + q)[0] == k;
      }
    }
  }

  /** The prefixes of `[c0] + p` that avoid `X` become prefixes of `p` that avoid `Child(X, c0)`. */
  lemma NoPrefixInChild(X: set<Path>, c0: string, p: Path, n: nat)
    requires NoPrefixIn(X, [c0] + p, n + 1)
    ensures NoPrefixIn(Child(X, c0), p, n)
  {
    forall i | 0 <= i < n && i <= |p| ensures p[..i] !in Child(X, c0) {
      ChildOfPrefixed(X, c0, p[..i]);
      assert [c0] + p[..i] == ([c0] + p)[..i + 1];
    }
  }

  lemma BelowSingle(X: set<Path>, key: string)
    ensures Below(X, [key]) == Child(X, key) - {[]}
  {
    BelowOfPrefixed(X, key, []);
    forall q ensures q in Below(Child(X, key), []) <==> q in Child(X, key) - {[]} {
      if q in Child(X, key) && q != [] {
        assert q[..0] == [] && q[0..] == q;
      }
    }
  }

  /** Writing the stubbed sub-document back at `c + [key]` un-stubs that one path. */
  lemma {:induction false} PutStubRestore(v: Value, X: set<Path>, c: Path, key: string)
    requires Get(v, c + [key]).Some?
    requires NoPrefixIn(X, c + [key], |c| + 1)
    ensures PutAt(Stub(v, X), c, key, Stub(Get(v, c + [key]).value, Below(X, c + [key])))
      == Some(Stub(v, X - {c + [key]}))
  {
    var p := c + [key];
    assert p[..0] == [];
    forall k ensures k != p[0] ==> Child(X - {p}, k) == Child(X, k) {
      ChildMinus(X, p, k);
    }
    ChildMinus(X, p, p[0]);
    if c == [] {
      assert p == [key] && p[1..] == [];
      BelowSingle(X, key);
      StubOneField(v.fields, X, X - {p}, key);
    } else {
      var c0, rest := c[0], c[1..];
      var p' := rest + [key];
      assert p == [c0] + p' && p[1..] == p';
      assert Get(v, p) == Get(v.fields[c0], p');
      NoPrefixInChild(X, c0, p', |rest| + 1);
      PutStubRestore(v.fields[c0], Child(X, c0), rest, key);
      BelowOfPrefixed(X, c0, p');
      StubOneField(v.fields, X, X - {p}, c0);
    }
  }

  /** Replacing the value at `c + [key]` by TRUE stubs that path. */
  lemma {:induction false} PutStubTrue(v: Value, X: set<Path>, c: Path, key: string)
    requires Get(v, c + [key]).Some?
    requires NoPrefixIn(X, c + [key], |c| + 1)
    ensures PutAt(Stub(v, X), c, key, TRUE) == Some(Stub(v, X + {c + [key]}))
  {
    var p := c + [key];
    assert p[..0] == [];
    forall k ensures k != p[0] ==> Child(X + {p}, k) == Child(X, k) {
      ChildPlus(X, p, k);
    }
    ChildPlus(X, p, p[0]);
    if c == [] {
      assert p == [key] && p[1..] == [];
      StubOneField(v.fields, X, X + {p}, key);
    } else {
      var c0, rest := c[0], c[1..];
      var p' := rest + [key];
      assert p == [c0] + p' && p[1..] == p';
      assert Get(v, p) == Get(v.fields[c0], p');
      NoPrefixInChild(X, c0, p', |rest| + 1);
      PutStubTrue(v.fields[c0], Child(X, c0), rest, key);
      StubOneField(v.fields, X, X + {p}, c0);
    }
  }
}
