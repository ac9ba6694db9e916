/** Which values a field takes and which it refuses, and that a field never ends up with a value of another type. */
module HydrateTyping {
  import opened Wrappers
  import opened Hydrate
  import opened HydrateRoundTrip

  /** What is at the end of a chain of pointers. */
  ghost function Deref(v: GoValue): GoValue {
    if v.Ptr? then Deref(v.target) else v
  }

  ghost predicate IsNil(v: GoValue) {
    v.Nil? || v.NilPtr?
  }

  /** n is r without its fraction. */
  ghost predicate WholePart(r: real, n: int) {
    if r >= 0.0 then n as real <= r < (n + 1) as real else (n - 1) as real < r <= n as real
  }

  /** Nil leaves a field as it was, whatever its type; pointers are followed. */
  lemma {:induction false} FollowsPointers(cur: GoValue, t: FieldType, raw: GoValue)
    ensures Assigned(cur, t, raw) == Assigned(cur, t, Deref(raw))
    ensures !Deref(raw).Ptr?
    ensures IsNil(Deref(raw)) ==> Assigned(cur, t, raw) == Some(cur)
    decreases raw
  {
    if raw.Ptr? {
      FollowsPointers(cur, t, raw.target);
    }
  }

  /**
   * A scalar field takes values of its own kind as they are, an integer field also a float without
   * its fraction, and no other.
   */
  lemma ScalarTakes(cur: GoValue, t: FieldType, raw: GoValue)
    requires Scalar(t) && !IsNil(Deref(raw))
    ensures var v, r := Deref(raw), Assigned(cur, t, raw);
            && (r.Some? <==> HasScalar(v, t) || (t.IntT? && v.Float?))
            && (HasScalar(v, t) ==> r == Some(v))
            && (t.IntT? && v.Float? ==> r.value.Int? && WholePart(v.r, r.value.n))
  {
    FollowsPointers(cur, t, raw);
  }

  /** A slice field takes slices all of whose elements fit, element by element, and nil slices as empty ones. */
  lemma SliceTakes(cur: GoValue, e: FieldType, raw: GoValue)
    requires !IsNil(Deref(raw))
    ensures var v, r := Deref(raw), Assigned(cur, SliceT(e), raw);
            && (r.Some? <==> v.NilSlice? || (v.Slice? && forall x | x in v.elems :: Assigned(Zero(e), e, x).Some?))
            && (v.NilSlice? ==> r == Some(Slice([])))
            && (v.Slice? && r.Some? ==>
                  && r.value.Slice? && |r.value.elems| == |v.elems|
                  && forall i | 0 <= i < |v.elems| :: Assigned(Zero(e), e, v.elems[i]) == Some(r.value.elems[i]))
  {
    FollowsPointers(cur, SliceT(e), raw);
    var v := Deref(raw);
    if v.Slice? {
      assert forall i | 0 <= i < |v.elems| :: v.elems[i] in v.elems;
    }
  }

  /** A map field likewise, key by key. */
  lemma MapTakes(cur: GoValue, e: FieldType, raw: GoValue)
    requires !IsNil(Deref(raw))
    ensures var v, r := Deref(raw), Assigned(cur, MapT(e), raw);
            && (r.Some? <==>
                  v.NilMap? || (v.Map? && forall k | k in v.entries :: Assigned(Zero(e), e, v.entries[k]).Some?))
            && (v.NilMap? ==> r == Some(Map(map[])))
            && (v.Map? && r.Some? ==>
                  && r.value.Map? && r.value.entries.Keys == v.entries.Keys
                  && forall k | k in v.entries :: Assigned(Zero(e), e, v.entries[k]) == Some(r.value.entries[k]))
  {
    FollowsPointers(cur, MapT(e), raw);
  }

  /** An optional field points to what a field of its element type would hold. */
  lemma PointerTakes(cur: GoValue, e: FieldType, raw: GoValue)
    requires !IsNil(Deref(raw))
    ensures var inner, r := Assigned(Zero(e), e, raw), Assigned(cur, PtrT(e), raw);
            (r.Some? <==> inner.Some?) && (r.Some? ==> r == Some(Ptr(inner.value)))
  {
    FollowsPointers(cur, PtrT(e), raw);
    FollowsPointers(Zero(e), e, raw);
  }

  /** A field of a model never ends up with a value of another type. */
  lemma FieldStaysTyped(cur: GoValue, t: FieldType, raw: GoValue)
    requires ModelField(t) && HasType(cur, t) && Assigned(cur, t, raw).Some?
    ensures HasType(Assigned(cur, t, raw).value, t)
  {
    FollowsPointers(cur, t, raw);
    if !IsNil(Deref(raw)) {
      var v := Assigned(cur, t, raw).value;
      match t
      case PtrT(e) =>
        PointerTakes(cur, e, raw);
        ScalarTakes(Zero(e), e, raw);
      case SliceT(e) =>
        SliceTakes(cur, e, raw);
        forall x | x in v.elems
          ensures HasScalar(x, e)
        {
          var i :| 0 <= i < |v.elems| && v.elems[i] == x;
          ScalarStaysTyped(e, if Deref(raw).Slice? then Deref(raw).elems[i] else Nil, x);
        }
      case MapT(e) =>
        MapTakes(cur, e, raw);
        forall k | k in v.entries
          ensures HasScalar(v.entries[k], e)
        {
          ScalarStaysTyped(e, if Deref(raw).Map? then Deref(raw).entries[k] else Nil, v.entries[k]);
        }
      case _ =>
        ScalarTakes(cur, t, raw);
    }
  }

  lemma ScalarStaysTyped(e: FieldType, raw: GoValue, v: GoValue)
    requires Scalar(e) && Assigned(Zero(e), e, raw) == Some(v)
    ensures HasScalar(v, e)
  {
    FollowsPointers(Zero(e), e, raw);
    if !IsNil(Deref(raw)) {
      ScalarTakes(Zero(e), e, raw);
    }
  }

  /** A field no key sets is empty, zero, false or nil; a key no field has makes the whole map unfit. */
  lemma UnsetFieldsAreEmpty(mt: ModelType, fields: map<string, GoValue>, tag: string)
    ensures Hydratable(mt, fields) ==> fields.Keys <= mt.Keys
    ensures Hydratable(mt, fields) && tag in mt && tag !in fields && ModelField(mt[tag]) ==>
              Hydrated(mt, fields)[tag] in {Str(""), Int(0), Bool(false), NilPtr, NilSlice, NilMap}
              && HasType(Hydrated(mt, fields)[tag], mt[tag])
  {
  }

  /** The float64 an integer becomes is a multiple of the spacing there, at most half a spacing away. */
  lemma NearestIsNear(n: nat) returns (q: nat)
    ensures NearestFloat(n) == q * Spacing(n)
    ensures 2 * (NearestFloat(n) - n) <= Spacing(n) && 2 * (n - NearestFloat(n)) <= Spacing(n)
  {
    var u := Spacing(n);
    q := n / u;
    assert n == q * u + n % u && (q + 1) * u == q * u + u;
    if NearestFloat(n) != q * u {
      q := q + 1;
    }
  }
}
