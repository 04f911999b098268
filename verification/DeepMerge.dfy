/** Settings patches: _deep_merge and patch_settings of backend/app/settings/router.py. */
module DeepMerge {
  import opened Common

  /** A settings value: a mapping, or anything else (numbers, strings, lists, null). */
  datatype Json = Scalar(text: string) | Obj(fields: Dict)

  type Dict = map<string, Json>

  /** The patch wins, except that where both sides are mappings they are merged key by key. */
  function Merge(base: Json, patch: Json): Json
    decreases patch
  {
    if base.Obj? && patch.Obj? then
      Obj(map k | k in base.fields.Keys + patch.fields.Keys ::
            if k !in patch.fields then base.fields[k]
            else if k in base.fields then Merge(base.fields[k], patch.fields[k])
            else patch.fields[k])
    else patch
  }

  function Lookup(j: Json, path: seq<string>): Option<Json> {
    if path == [] then Some(j)
    else if j.Obj? && path[0] in j.fields then Lookup(j.fields[path[0]], path[1..])
    else None
  }

  /** The patch leaves the path alone: it runs out of keys before the path ends. */
  predicate Untouched(patch: Json, path: seq<string>) {
    patch.Obj? && path != [] && (path[0] in patch.fields ==> Untouched(patch.fields[path[0]], path[1..]))
  }

  /** The patch puts something other than a mapping above the end of the path. */
  predicate CutOff(patch: Json, path: seq<string>) {
    path != [] && (patch.Scalar? || (path[0] in patch.fields && CutOff(patch.fields[path[0]], path[1..])))
  }

  lemma {:induction false} PathIsOneOfThree(patch: Json, path: seq<string>)
    ensures Lookup(patch, path).Some? || Untouched(patch, path) || CutOff(patch, path)
    ensures Lookup(patch, path).Some? ==> !Untouched(patch, path) && !CutOff(patch, path)
    ensures !(Untouched(patch, path) && CutOff(patch, path))
  {
    if path != [] && patch.Obj? && path[0] in patch.fields {
      PathIsOneOfThree(patch.fields[path[0]], path[1..]);
    }
  }

  /**
    What a merged value holds at any path: what it held before if the patch leaves the path alone,
    nothing if the patch cuts it off, and otherwise the patch's value, merged into the old one.
  */
  lemma {:induction false} LookupMerged(base: Json, patch: Json, path: seq<string>)
    ensures Lookup(Merge(base, patch), path) ==
            if Untouched(patch, path) then Lookup(base, path)
            else match Lookup(patch, path)
                 case None => None
                 case Some(p) => match Lookup(base, path) case None => Some(p) case Some(b) => Some(Merge(b, p))
  {
    if path != [] && patch.Obj? && path[0] in patch.fields && base.Obj? && path[0] in base.fields {
      LookupMerged(base.fields[path[0]], patch.fields[path[0]], path[1..]);
    } else if path != [] && patch.Obj? && path[0] in patch.fields {
      LookupBare(base, patch, path);
    }
  }

  /** Where the base has nothing along the path, the merge holds just what the patch holds. */
  lemma {:induction false} LookupBare(base: Json, patch: Json, path: seq<string>)
    requires path != [] && patch.Obj? && path[0] in patch.fields
    requires !(base.Obj? && path[0] in base.fields)
    ensures Lookup(Merge(base, patch), path) == Lookup(patch, path)
    ensures Lookup(base, path).None?
    ensures Untouched(patch, path) ==> Lookup(patch, path).None?
  {
    PathIsOneOfThree(patch, path);
  }

  // ---------- merging twice ----------

  lemma {:induction false} MergeSelf(p: Json)
    ensures Merge(p, p) == p
  {
    if p.Obj? {
      forall k | k in p.fields ensures Merge(p.fields[k], p.fields[k]) == p.fields[k] { MergeSelf(p.fields[k]); }
      assert Merge(p, p).fields == p.fields;
    }
  }

  /** Applying the same patch twice is applying it once. */
  lemma {:induction false} MergeIsIdempotent(base: Json, patch: Json)
    ensures Merge(Merge(base, patch), patch) == Merge(base, patch)
    decreases patch
  {
    MergeSelf(patch);
    if base.Obj? && patch.Obj? {
      var once := Merge(base, patch);
      forall k | k in patch.fields ensures Merge(once.fields[k], patch.fields[k]) == once.fields[k] {
        MergeSelf(patch.fields[k]);
        if k in base.fields { MergeIsIdempotent(base.fields[k], patch.fields[k]); }
      }
      assert Merge(once, patch).fields == once.fields;
    }
  }

  // ---------- merging patches first ----------

  /** Every mapping of a is matched in c down to c's own values: merging c into a gives just c. */
  predicate Absorbed(a: Json, c: Json)
    requires a.Obj? && c.Obj?
  {
    forall k :: k in a.fields ==>
      k in c.fields && (a.fields[k].Obj? && c.fields[k].Obj? ==> Absorbed(a.fields[k], c.fields[k]))
  }

  /** No scalar of b stands between mappings of a and c, unless c already covers that part of a. */
  predicate Compatible(a: Json, b: Json, c: Json) {
    a.Obj? && c.Obj? ==>
      if b.Obj?
      then forall k :: k in a.fields && k in b.fields && k in c.fields ==>
        Compatible(a.fields[k], b.fields[k], c.fields[k])
      else Absorbed(a, c)
  }

  lemma {:induction false} AbsorbedExactly(a: Json, c: Json)
    requires a.Obj? && c.Obj?
    ensures Merge(a, c) == c <==> Absorbed(a, c)
  {
    var m := Merge(a, c);
    forall k | k in a.fields && k in c.fields && a.fields[k].Obj? && c.fields[k].Obj?
      ensures Merge(a.fields[k], c.fields[k]) == c.fields[k] <==> Absorbed(a.fields[k], c.fields[k])
    {
      AbsorbedExactly(a.fields[k], c.fields[k]);
    }
    if Absorbed(a, c) {
      assert m.fields.Keys == c.fields.Keys;
      forall k | k in c.fields ensures m.fields[k] == c.fields[k] {
        if k in a.fields && !(a.fields[k].Obj? && c.fields[k].Obj?) {
          assert Merge(a.fields[k], c.fields[k]) == c.fields[k];
        }
      }
      assert m.fields == c.fields;
    } else {
      var k :| k in a.fields && !(k in c.fields &&
        (a.fields[k].Obj? && c.fields[k].Obj? ==> Absorbed(a.fields[k], c.fields[k])));
      assert k in m.fields && (k in c.fields ==> m.fields[k] != c.fields[k]);
    }
  }

  function Get(j: Json, k: string): Option<Json> {
    if j.Obj? && k in j.fields then Some(j.fields[k]) else None
  }

  function MergeAt(base: Option<Json>, patch: Option<Json>): Option<Json> {
    match patch
    case None => base
    case Some(p) => match base case None => Some(p) case Some(b) => Some(Merge(b, p))
  }

  lemma GetMerged(base: Json, patch: Json, k: string)
    requires base.Obj? && patch.Obj?
    ensures Merge(base, patch).Obj? && Get(Merge(base, patch), k) == MergeAt(Get(base, k), Get(patch, k))
  {
  }

  lemma SameAtAllKeys(x: Json, y: Json)
    requires x.Obj? && y.Obj?
    ensures x == y <==> forall k :: Get(x, k) == Get(y, k)
  {
    if forall k :: Get(x, k) == Get(y, k) {
      forall k ensures k in x.fields <==> k in y.fields { assert Get(x, k) == Get(y, k); }
      forall k | k in x.fields ensures x.fields[k] == y.fields[k] { assert Get(x, k) == Get(y, k); }
      assert x.fields == y.fields;
    }
  }

  /** Merging two patches first and then applying them is the same exactly when they are compatible. */
  lemma {:induction false} AssociativeExactly(a: Json, b: Json, c: Json)
    ensures Merge(Merge(a, b), c) == Merge(a, Merge(b, c)) <==> Compatible(a, b, c)
    decreases c
  {
    if a.Obj? && c.Obj? {
      if b.Obj? {
        forall k | k in a.fields && k in b.fields && k in c.fields
          ensures MergeAt(MergeAt(Get(a, k), Get(b, k)), Get(c, k)) ==
                  MergeAt(Get(a, k), MergeAt(Get(b, k), Get(c, k))) <==>
                  Compatible(a.fields[k], b.fields[k], c.fields[k])
        {
          AssociativeExactly(a.fields[k], b.fields[k], c.fields[k]);
        }
        MergedKeyByKey(a, b, c);
        hide Merge;
      } else {
        AbsorbedExactly(a, c);
      }
    }
  }

  lemma MergedKeyByKey(a: Json, b: Json, c: Json)
    requires a.Obj? && b.Obj? && c.Obj?
    ensures Merge(Merge(a, b), c) == Merge(a, Merge(b, c)) <==>
            forall k :: k in a.fields && k in b.fields && k in c.fields ==>
              MergeAt(MergeAt(Get(a, k), Get(b, k)), Get(c, k)) == MergeAt(Get(a, k), MergeAt(Get(b, k), Get(c, k)))
  {
    hide Merge;
    GetMerged(a, b, "");
    GetMerged(b, c, "");
    GetMerged(Merge(a, b), c, "");
    GetMerged(a, Merge(b, c), "");
    var l, r := Merge(Merge(a, b), c), Merge(a, Merge(b, c));
    forall k
      ensures Get(l, k) == MergeAt(MergeAt(Get(a, k), Get(b, k)), Get(c, k))
      ensures Get(r, k) == MergeAt(Get(a, k), MergeAt(Get(b, k), Get(c, k)))
    {
      GetMerged(a, b, k);
      GetMerged(b, c, k);
      GetMerged(Merge(a, b), c, k);
      GetMerged(a, Merge(b, c), k);
    }
    SameAtAllKeys(l, r);
  }

  /** In particular it holds when the middle one has no scalar where the outer two have mappings. */
  predicate NoScalarBetween(a: Json, b: Json, c: Json) {
    a.Obj? && c.Obj? ==>
      b.Obj? && forall k :: k in a.fields && k in b.fields && k in c.fields ==>
        NoScalarBetween(a.fields[k], b.fields[k], c.fields[k])
  }

  lemma {:induction false} NoScalarBetweenIsCompatible(a: Json, b: Json, c: Json)
    requires NoScalarBetween(a, b, c)
    ensures Compatible(a, b, c)
    decreases c
  {
    if a.Obj? && c.Obj? {
      forall k | k in a.fields && k in b.fields && k in c.fields
        ensures Compatible(a.fields[k], b.fields[k], c.fields[k])
      {
        NoScalarBetweenIsCompatible(a.fields[k], b.fields[k], c.fields[k]);
      }
    }
  }

  // ---------- the loop and the endpoint ----------

  /** A copy of base, overwritten key by key; neither argument is changed. */
  method MergeDicts(base: Dict, patch: Dict) returns (out: Dict)
    ensures Obj(out) == Merge(Obj(base), Obj(patch))
    decreases Obj(patch)
  {
    out := base;
    var rest := patch.Keys;
    while rest != {}
      invariant rest <= patch.Keys
      invariant out.Keys == base.Keys + (patch.Keys - rest)
      invariant forall k :: k in base && (k !in patch || k in rest) ==> out[k] == base[k]
      invariant forall k :: k in patch && k !in rest ==>
        out[k] == if k in base then Merge(base[k], patch[k]) else patch[k]
    {
      var k :| k in rest;
      var v := patch[k];
      if v.Obj? && k in out && out[k].Obj? {
        assert Obj(patch).fields[k] == v;
        var merged := MergeDicts(out[k].fields, v.fields);
        assert Obj(merged) == Merge(base[k], v);
        out := out[k := Obj(merged)];
      } else {
        out := out[k := v];
      }
      rest := rest - {k};
    }
    assert out == Merge(Obj(base), Obj(patch)).fields;
  }

  class Settings {
    var settings: Dict

    constructor ()
      ensures settings == map[]
    {
      settings := map[];
    }

    method Patch(patch: Dict)
      modifies this
      ensures Obj(settings) == Merge(Obj(old(settings)), Obj(patch))
      ensures forall path: seq<string> :: Untouched(Obj(patch), path) ==>
        Lookup(Obj(settings), path) == Lookup(Obj(old(settings)), path)
    {
      ghost var before := Obj(settings);
      settings := MergeDicts(settings, patch);
      forall path: seq<string> | Untouched(Obj(patch), path)
        ensures Lookup(Obj(settings), path) == Lookup(before, path)
      {
        LookupMerged(before, Obj(patch), path);
      }
    }
  }
}
