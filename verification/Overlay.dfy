/** Layering configuration over typed defaults: unknown keys are refused, known ones are overlaid. */
module Overlay {
  import opened Runtime
  import opened Ordering

  /** A document. Leaves stand for nulls, booleans, numbers, strings and arrays. */
  datatype Json = Leaf(text: string) | Obj(members: map<string, Json>)

  predicate IsOpen(d: Json) {
    d.Leaf? || d.members == map[]
  }

  // ---------------------------------------------------------------- overlay

  predicate Descends(target: map<string, Json>, key: string, value: Json) {
    key in target && target[key].Obj? && value.Obj? && target[key].members != map[]
  }

  /** `provided` laid over `target`. */
  function Merge(target: Json, provided: Json): Json
    decreases provided
  {
    if target.Leaf? || provided.Leaf? then provided
    else
      Obj(map k | k in target.members.Keys + provided.members.Keys ::
        if k !in provided.members then target.members[k]
        else if Descends(target.members, k, provided.members[k]) then Merge(target.members[k], provided.members[k])
        else provided.members[k])
  }

  /** Overlays the members of `provided` one after the other, in any order. */
  method OverlayInto(target: Json, provided: Json) returns (r: Json)
    ensures r == Merge(target, provided)
    decreases provided
  {
    if target.Leaf? || provided.Leaf? {
      return provided;
    }
    var keys := Enumerate(provided.members.Keys);
    var members := target.members;
    for i := 0 to |keys|
      invariant members.Keys == target.members.Keys + Elements(keys[..i])
      invariant forall k :: k in members ==>
        members[k] == if k in keys[..i] then Merge(target, provided).members[k] else target.members[k]
    {
      var key := keys[i];
      TakeOne(keys, i);
      assert key in Elements(keys) && key !in keys[..i];
      var value := provided.members[key];
      var next := value;
      if Descends(members, key, value) {
        next := OverlayInto(members[key], value);
      }
      assert next == Merge(target, provided).members[key];
      members := members[key := next];
    }
    TakeAll(keys);
    assert members == Merge(target, provided).members by {
      forall k | k in members ensures members[k] == Merge(target, provided).members[k] {
        assert k in keys <==> k in Elements(keys);
      }
    }
    return Obj(members);
  }

  /** Laying a document over itself changes nothing. */
  lemma {:induction false} MergeSelf(d: Json)
    ensures Merge(d, d) == d
  {
    if d.Obj? {
      forall k | k in d.members ensures Merge(d, d).members[k] == d.members[k] {
        MergeSelf(d.members[k]);
      }
      assert Merge(d, d).members == d.members;
    }
  }

  /** Overlaying twice is overlaying once. */
  lemma {:induction false} MergeTwice(target: Json, provided: Json)
    ensures Merge(Merge(target, provided), provided) == Merge(target, provided)
    decreases provided
  {
    if target.Leaf? || provided.Leaf? {
      MergeSelf(provided);
    } else {
      var once := Merge(target, provided);
      var twice := Merge(once, provided);
      forall k | k in provided.members ensures twice.members[k] == once.members[k] {
        MergeSelf(provided.members[k]);
        if Descends(target.members, k, provided.members[k]) {
          MergeTwice(target.members[k], provided.members[k]);
          MergeIsLarge(target.members[k], provided.members[k]);
        }
      }
      assert twice.members == once.members;
    }
  }

  lemma {:induction false} MergeIsLarge(target: Json, provided: Json)
    requires target.Obj? && provided.Obj? && target.members != map[]
    ensures Merge(target, provided).Obj? && Merge(target, provided).members != map[]
  {
  }

  // ---------------------------------------------------------------- paths

  type Path = seq<string>

  function Get(d: Json, path: Path): Option<Json> {
    if path == [] then Some(d)
    else if d.Obj? && path[0] in d.members then Get(d.members[path[0]], path[1..])
    else None
  }

  /** Some proper prefix of the path was provided as something that is not an object. */
  ghost predicate CutOff(provided: Json, path: Path) {
    exists n :: CutOffAt(provided, path, n)
  }

  ghost predicate CutOffAt(provided: Json, path: Path, n: int) {
    0 <= n < |path| && Get(provided, path[..n]).Some? && Get(provided, path[..n]).value.Leaf?
  }

  /** What the overlaid document holds at a path: what was provided there, laid over what the target held there;
      nothing below a provided leaf; otherwise what the target held. */
  lemma {:induction false} MergeAt(target: Json, provided: Json, path: Path)
    ensures Get(provided, path).Some? ==> Get(Merge(target, provided), path) == Some(
      if Get(target, path).Some? then Merge(Get(target, path).value, Get(provided, path).value) else Get(provided, path).value)
    ensures Get(provided, path).None? && CutOff(provided, path) ==> Get(Merge(target, provided), path).None?
    ensures Get(provided, path).None? && !CutOff(provided, path) ==> Get(Merge(target, provided), path) == Get(target, path)
    decreases |path|
  {
    if path != [] {
      if provided.Leaf? {
        assert CutOffAt(provided, path, 0);
      } else if path[0] in provided.members {
        var value := provided.members[path[0]];
        CutOffBelow(provided, path);
        if target.Obj? && path[0] in target.members {
          MergeAt(target.members[path[0]], value, path[1..]);
          if !Descends(target.members, path[0], value) {
            MergeOverOpen(target.members[path[0]], value);
          }
        } else {
          MergeAt(Leaf(""), value, path[1..]);
          if path[1..] == [] {
            assert Get(value, path[1..]) == Some(value);
          }
        }
      } else {
        NotCutOff(provided, path);
      }
    }
  }

  /** Laying over a leaf or an empty object replaces it. */
  lemma {:induction false} MergeOverOpen(target: Json, provided: Json)
    requires IsOpen(target) || provided.Leaf?
    ensures Merge(target, provided) == provided
  {
    if target.Obj? && provided.Obj? {
      assert Merge(target, provided).members == provided.members;
    }
  }

  lemma {:induction false} CutOffBelow(provided: Json, path: Path)
    requires path != [] && provided.Obj? && path[0] in provided.members
    ensures CutOff(provided, path) <==> CutOff(provided.members[path[0]], path[1..])
  {
    var inner, rest := provided.members[path[0]], path[1..];
    if CutOff(provided, path) {
      var n :| CutOffAt(provided, path, n);
      assert n > 0 && path[..n][1..] == rest[..n - 1];
      assert CutOffAt(inner, rest, n - 1);
    }
    if CutOff(inner, rest) {
      var n :| CutOffAt(inner, rest, n);
      assert path[..n + 1][1..] == rest[..n];
      assert CutOffAt(provided, path, n + 1);
    }
  }

  lemma {:induction false} NotCutOff(provided: Json, path: Path)
    requires path != [] && provided.Obj? && path[0] !in provided.members
    ensures !CutOff(provided, path)
  {
  }

  // ---------------------------------------------------------------- unknown keys

  /** Every provided key exists in the defaults, down to defaults that accept anything. */
  predicate Accepts(provided: Json, defaults: Json)
    decreases provided
  {
    provided.Leaf? || IsOpen(defaults) ||
    forall k :: k in provided.members ==> k in defaults.members && Accepts(provided.members[k], defaults.members[k])
  }

  /** A provided path that leaves a closed part of the defaults at its last key. */
  ghost predicate Unknown(provided: Json, defaults: Json, path: Path) {
    && path != [] && Get(provided, path).Some? && Get(defaults, path).None?
    && Get(defaults, path[..|path| - 1]).Some? && !IsOpen(Get(defaults, path[..|path| - 1]).value)
  }

  /** Looks for an unknown key, in any order of the members. */
  method RejectUnknownKeys(provided: Json, defaults: Json) returns (r: Option<Path>)
    ensures r.None? <==> Accepts(provided, defaults)
    ensures r.Some? ==> Unknown(provided, defaults, r.value)
    decreases provided
  {
    if provided.Leaf? || IsOpen(defaults) {
      return None;
    }
    var keys := Enumerate(provided.members.Keys);
    for i := 0 to |keys|
      invariant forall k :: k in keys[..i] ==> k in defaults.members && Accepts(provided.members[k], defaults.members[k])
    {
      var key := keys[i];
      TakeOne(keys, i);
      assert key in Elements(keys);
      if key !in defaults.members {
        assert [key][..0] == [];
        return Some([key]);
      }
      var nested := RejectUnknownKeys(provided.members[key], defaults.members[key]);
      if nested.Some? {
        UnknownBelow(provided, defaults, key, nested.value);
        return Some([key] + nested.value);
      }
    }
    TakeAll(keys);
    forall k | k in provided.members ensures k in keys {
      assert k in Elements(keys);
    }
    return None;
  }

  lemma {:induction false} UnknownBelow(provided: Json, defaults: Json, key: string, path: Path)
    requires provided.Obj? && defaults.Obj? && key in provided.members && key in defaults.members
    requires Unknown(provided.members[key], defaults.members[key], path)
    ensures Unknown(provided, defaults, [key] + path)
  {
    var whole := [key] + path;
    assert whole[1..] == path;
    assert whole[..|whole| - 1] == [key] + path[..|path| - 1];
    assert whole[..|whole| - 1][1..] == path[..|path| - 1];
  }

  /** A path is known if the defaults hold it or pass through something that accepts anything. */
  ghost predicate Known(defaults: Json, path: Path) {
    Get(defaults, path).Some? || exists n :: OpenAt(defaults, path, n)
  }

  ghost predicate OpenAt(defaults: Json, path: Path, n: int) {
    0 <= n <= |path| && Get(defaults, path[..n]).Some? && IsOpen(Get(defaults, path[..n]).value)
  }

  lemma {:induction false} KnownBelow(defaults: Json, path: Path)
    requires path != [] && !IsOpen(defaults)
    ensures Known(defaults, path) <==> path[0] in defaults.members && Known(defaults.members[path[0]], path[1..])
  {
    if Known(defaults, path) && Get(defaults, path).None? {
      var n :| OpenAt(defaults, path, n);
      assert n > 0 && path[..n][1..] == path[1..][..n - 1];
      assert OpenAt(defaults.members[path[0]], path[1..], n - 1);
    }
    if path[0] in defaults.members && Known(defaults.members[path[0]], path[1..]) && Get(defaults, path).None? {
      var n :| OpenAt(defaults.members[path[0]], path[1..], n);
      assert path[..n + 1][1..] == path[1..][..n];
      assert OpenAt(defaults, path, n + 1);
    }
  }

  /** A document is accepted exactly when every path in it is known. */
  lemma {:induction false} AcceptsKnownPaths(provided: Json, defaults: Json)
    ensures Accepts(provided, defaults) <==> forall path :: Get(provided, path).Some? ==> Known(defaults, path)
    decreases provided
  {
    forall path | Accepts(provided, defaults) && Get(provided, path).Some? ensures Known(defaults, path) {
      if IsOpen(defaults) {
        assert path[..0] == [] && OpenAt(defaults, path, 0);
      } else if path != [] {
        AcceptsKnownPaths(provided.members[path[0]], defaults.members[path[0]]);
        KnownBelow(defaults, path);
      }
    }
    if !Accepts(provided, defaults) {
      var k :| k in provided.members && !(k in defaults.members && Accepts(provided.members[k], defaults.members[k]));
      if k !in defaults.members {
        UnknownPath(provided, defaults, k, []);
      } else {
        AcceptsKnownPaths(provided.members[k], defaults.members[k]);
        var path :| Get(provided.members[k], path).Some? && !Known(defaults.members[k], path);
        UnknownPath(provided, defaults, k, path);
      }
    }
  }

  lemma {:induction false} UnknownPath(provided: Json, defaults: Json, k: string, path: Path)
    requires provided.Obj? && !IsOpen(defaults) && k in provided.members && Get(provided.members[k], path).Some?
    requires k in defaults.members ==> !Known(defaults.members[k], path)
    ensures Get(provided, [k] + path).Some? && !Known(defaults, [k] + path)
  {
    var whole := [k] + path;
    assert whole[0] == k && whole[1..] == path;
    KnownBelow(defaults, whole);
  }

  /** Overlaying an accepted document on the defaults introduces no unknown key. */
  lemma {:induction false} MergeStaysKnown(defaults: Json, provided: Json)
    requires Accepts(provided, defaults)
    ensures Accepts(Merge(defaults, provided), defaults)
    decreases provided
  {
    if defaults.Obj? && provided.Obj? && !IsOpen(defaults) {
      var merged := Merge(defaults, provided);
      forall k | k in merged.members ensures k in defaults.members && Accepts(merged.members[k], defaults.members[k]) {
        if k !in provided.members {
          AcceptsItself(defaults.members[k]);
        } else if Descends(defaults.members, k, provided.members[k]) {
          MergeStaysKnown(defaults.members[k], provided.members[k]);
        }
      }
    }
  }

  /** Every path of the overlaid document is known to the defaults. */
  lemma {:induction false} MergedPathsAreKnown(defaults: Json, provided: Json, path: Path)
    requires Accepts(provided, defaults) && Get(Merge(defaults, provided), path).Some?
    ensures Known(defaults, path)
  {
    MergeStaysKnown(defaults, provided);
    AcceptsKnownPaths(Merge(defaults, provided), defaults);
  }

  lemma {:induction false} AcceptsItself(d: Json)
    ensures Accepts(d, d)
  {
    if d.Obj? {
      forall k | k in d.members ensures Accepts(d.members[k], d.members[k]) {
        AcceptsItself(d.members[k]);
      }
    }
  }
}
