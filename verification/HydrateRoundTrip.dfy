/** MapToModel undoes ModelToMap, directly and after a trip through JSON. */
module HydrateRoundTrip {
  import opened Wrappers
  import opened Hydrate

  const EXACT := 0x20_0000_0000_0000   // 2^53

  // ---------- the values of a model ----------

  predicate Scalar(t: FieldType) {
    t.StringT? || t.IntT? || t.BoolT?
  }

  /** The field types the generated models use. */
  predicate ModelField(t: FieldType) {
    Scalar(t) || ((t.PtrT? || t.SliceT? || t.MapT?) && Scalar(t.elem))
  }

  predicate HasScalar(v: GoValue, t: FieldType) {
    (t.StringT? && v.Str?) || (t.IntT? && v.Int?) || (t.BoolT? && v.Bool?)
  }

  predicate HasType(v: GoValue, t: FieldType) {
    match t
    case PtrT(e) => v.NilPtr? || (v.Ptr? && HasScalar(v.target, e))
    case SliceT(e) => v.NilSlice? || (v.Slice? && forall x | x in v.elems :: HasScalar(x, e))
    case MapT(e) => v.NilMap? || (v.Map? && forall k | k in v.entries :: HasScalar(v.entries[k], e))
    case _ => HasScalar(v, t)
  }

  ghost predicate ModelValue(mt: ModelType, m: map<string, GoValue>) {
    m.Keys == mt.Keys && forall tag | tag in mt :: ModelField(mt[tag]) && HasType(m[tag], mt[tag])
  }

  /** A nil slice or map counts as an empty one. */
  function Norm(v: GoValue): GoValue {
    if v.NilSlice? then Slice([]) else if v.NilMap? then Map(map[]) else v
  }

  // ---------- JSON ----------

  /** The spacing of float64 values at n. */
  function Spacing(n: nat): nat
    ensures Spacing(n) > 0
  {
    if n < EXACT then 1 else 2 * Spacing(n / 2)
  }

  /** The float64 nearest to n, ties to even. */
  function NearestFloat(n: nat): nat {
    var u := Spacing(n);
    var q, r := n / u, n % u;
    if 2 * r < u || (2 * r == u && q % 2 == 0) then q * u else (q + 1) * u
  }

  function Rounded(n: int): int {
    if n < 0 then 0 - NearestFloat(0 - n) else NearestFloat(n)
  }

  /** Encoding to JSON and decoding into an untyped value: numbers become floats, nils become null. */
  function JsonScalar(v: GoValue): GoValue {
    if v.Int? then Float(Rounded(v.n) as real) else v
  }

  function Json(v: GoValue): GoValue {
    match v
    case NilPtr => Nil
    case Ptr(x) => JsonScalar(x)
    case NilSlice => Nil
    case Slice(s) => Slice(seq(|s|, i requires 0 <= i < |s| => JsonScalar(s[i])))
    case NilMap => Nil
    case Map(m) => Map(map k | k in m :: JsonScalar(m[k]))
    case _ => JsonScalar(v)
  }

  function JsonMap(m: map<string, GoValue>): map<string, GoValue> {
    map tag | tag in m :: Json(m[tag])
  }

  /** A model value with every integer rounded to a float64. */
  function RoundedScalar(v: GoValue): GoValue {
    if v.Int? then Int(Rounded(v.n)) else v
  }

  function RoundedValue(v: GoValue): GoValue {
    match v
    case Ptr(x) => Ptr(RoundedScalar(x))
    case Slice(s) => Slice(seq(|s|, i requires 0 <= i < |s| => RoundedScalar(s[i])))
    case Map(m) => Map(map k | k in m :: RoundedScalar(m[k]))
    case _ => RoundedScalar(v)
  }

  // ---------- direct ----------

  lemma ScalarRoundTrip(v: GoValue, t: FieldType)
    requires Scalar(t) && HasScalar(v, t)
    ensures Assigned(Zero(t), t, v) == Some(v)
  {
  }

  lemma FieldRoundTrip(v: GoValue, t: FieldType)
    requires ModelField(t) && HasType(v, t)
    ensures Assigned(Zero(t), t, v) == Some(Norm(v))
  {
    if t.PtrT? && v.Ptr? {
      ScalarRoundTrip(v.target, t.elem);
    } else if t.SliceT? && v.Slice? {
      forall j | 0 <= j < |v.elems|
        ensures Assigned(Zero(t.elem), t.elem, v.elems[j]) == Some(v.elems[j])
      {
        ScalarRoundTrip(v.elems[j], t.elem);
      }
      SliceComplete(t.elem, v, v.elems);
    } else if t.MapT? && v.Map? {
      forall k | k in v.entries
        ensures Assigned(Zero(t.elem), t.elem, v.entries[k]) == Some(v.entries[k])
      {
        ScalarRoundTrip(v.entries[k], t.elem);
      }
      MapComplete(t.elem, v, v.entries);
    }
  }

  /** MapToModel undoes ModelToMap up to nil collections. */
  lemma DirectRoundTrip(mt: ModelType, m: map<string, GoValue>)
    requires ModelValue(mt, m)
    ensures Hydratable(mt, m) && Hydrated(mt, m) == map tag | tag in m :: Norm(m[tag])
  {
    hide Assigned, Norm;
    forall tag | tag in m
      ensures Assigned(Zero(mt[tag]), mt[tag], m[tag]) == Some(Norm(m[tag]))
    {
      FieldRoundTrip(m[tag], mt[tag]);
    }
  }

  // ---------- through JSON ----------

  lemma TruncateInt(n: int)
    ensures Truncate(n as real) == n
  {
  }

  lemma ScalarThroughJson(v: GoValue, t: FieldType)
    requires Scalar(t) && HasScalar(v, t)
    ensures Assigned(Zero(t), t, JsonScalar(v)) == Some(RoundedScalar(v))
  {
    if v.Int? {
      TruncateInt(Rounded(v.n));
    }
  }

  lemma FieldThroughJson(v: GoValue, t: FieldType)
    requires ModelField(t) && HasType(v, t)
    ensures Assigned(Zero(t), t, Json(v)) == Some(RoundedValue(v))
  {
    if t.PtrT? && v.Ptr? {
      ScalarThroughJson(v.target, t.elem);
    } else if t.SliceT? && v.Slice? {
      SliceThroughJson(v, t.elem);
    } else if t.MapT? && v.Map? {
      MapThroughJson(v, t.elem);
    } else if Scalar(t) {
      ScalarThroughJson(v, t);
    }
  }

  lemma SliceThroughJson(v: GoValue, e: FieldType)
    requires v.Slice? && Scalar(e) && forall x | x in v.elems :: HasScalar(x, e)
    ensures AssignedSlice(e, Json(v)) == Some(RoundedValue(v))
  {
    forall j | 0 <= j < |v.elems|
      ensures Assigned(Zero(e), e, Json(v).elems[j]) == Some(RoundedValue(v).elems[j])
    {
      ScalarThroughJson(v.elems[j], e);
    }
    SliceComplete(e, Json(v), RoundedValue(v).elems);
  }

  lemma MapThroughJson(v: GoValue, e: FieldType)
    requires v.Map? && Scalar(e) && forall k | k in v.entries :: HasScalar(v.entries[k], e)
    ensures AssignedMap(e, Json(v)) == Some(RoundedValue(v))
  {
    forall k | k in v.entries
      ensures Assigned(Zero(e), e, Json(v).entries[k]) == Some(RoundedValue(v).entries[k])
    {
      ScalarThroughJson(v.entries[k], e);
    }
    MapComplete(e, Json(v), RoundedValue(v).entries);
  }

  /** Through JSON the model comes back, nil collections included, with its integers rounded to floats. */
  lemma JsonRoundTrip(mt: ModelType, m: map<string, GoValue>)
    requires ModelValue(mt, m)
    ensures Hydratable(mt, JsonMap(m)) && Hydrated(mt, JsonMap(m)) == map tag | tag in m :: RoundedValue(m[tag])
  {
    hide Assigned, RoundedValue, Json;
    forall tag | tag in m
      ensures Assigned(Zero(mt[tag]), mt[tag], JsonMap(m)[tag]) == Some(RoundedValue(m[tag]))
    {
      FieldThroughJson(m[tag], mt[tag]);
    }
  }

  // ---------- when the trip is exact ----------

  predicate ExactScalar(v: GoValue) {
    v.Int? ==> (if v.n < 0 then 0 - v.n else v.n) % Spacing(if v.n < 0 then 0 - v.n else v.n) == 0
  }

  /** Every integer in the value is one a float64 can hold. */
  predicate ExactValue(v: GoValue) {
    match v
    case Ptr(x) => ExactScalar(x)
    case Slice(s) => forall x | x in s :: ExactScalar(x)
    case Map(m) => forall k | k in m :: ExactScalar(m[k])
    case _ => ExactScalar(v)
  }

  lemma NearestIsExact(n: nat)
    ensures NearestFloat(n) == n <==> n % Spacing(n) == 0
  {
    var u := Spacing(n);
    var q, r := n / u, n % u;
    assert n == q * u + r;
    if r != 0 {
      assert q * u != n;
      assert (q + 1) * u == q * u + u;
    }
  }

  lemma ScalarExact(v: GoValue)
    ensures RoundedScalar(v) == v <==> ExactScalar(v)
  {
    if v.Int? {
      NearestIsExact(if v.n < 0 then 0 - v.n else v.n);
    }
  }

  lemma ValueExact(v: GoValue)
    ensures RoundedValue(v) == v <==> ExactValue(v)
  {
    hide RoundedScalar, ExactScalar;
    match v
    case Ptr(x) => ScalarExact(x);
    case Slice(s) => SliceExact(s);
    case Map(m) => MapExact(m);
    case _ => ScalarExact(v);
  }

  lemma SliceExact(s: seq<GoValue>)
    ensures RoundedValue(Slice(s)) == Slice(s) <==> forall x | x in s :: ExactScalar(x)
  {
    hide RoundedScalar, ExactScalar;
    var r := RoundedValue(Slice(s)).elems;
    forall i | 0 <= i < |s|
      ensures r[i] == s[i] <==> ExactScalar(s[i])
    {
      ScalarExact(s[i]);
    }
    if r == s {
      forall x | x in s
        ensures ExactScalar(x)
      {
        var i :| 0 <= i < |s| && s[i] == x;
      }
    } else {
      assert !(forall i | 0 <= i < |s| :: r[i] == s[i]);
    }
  }

  lemma MapExact(m: map<string, GoValue>)
    ensures RoundedValue(Map(m)) == Map(m) <==> forall k | k in m :: ExactScalar(m[k])
  {
    hide RoundedScalar, ExactScalar;
    var r := RoundedValue(Map(m)).entries;
    forall k | k in m
      ensures r[k] == m[k] <==> ExactScalar(m[k])
    {
      ScalarExact(m[k]);
    }
    if r != m {
      assert !(forall k | k in m :: r[k] == m[k]);
    }
  }

  /** The JSON trip gives the model back exactly if a float64 can hold each of its integers. */
  lemma JsonTripIsExact(mt: ModelType, m: map<string, GoValue>)
    requires ModelValue(mt, m)
    ensures Hydratable(mt, JsonMap(m))
    ensures Hydrated(mt, JsonMap(m)) == m <==> forall tag | tag in m :: ExactValue(m[tag])
  {
    hide ExactValue, RoundedValue, Json, Hydrated, Hydratable;
    JsonRoundTrip(mt, m);
    forall tag | tag in m
      ensures RoundedValue(m[tag]) == m[tag] <==> ExactValue(m[tag])
    {
      ValueExact(m[tag]);
    }
    var r := map tag | tag in m :: RoundedValue(m[tag]);
    if r != m {
      assert !(forall tag | tag in m :: r[tag] == m[tag]);
    } else {
      forall tag | tag in m
        ensures ExactValue(m[tag])
      {
        assert r[tag] == m[tag];
      }
    }
  }

  /** Up to 2^53 every integer is exact; the next one is not. */
  lemma SmallIntegersAreExact(n: int)
    requires 0 - 9007199254740992 <= n <= 9007199254740992
    ensures ExactScalar(Int(n)) && !ExactScalar(Int(9007199254740993))
  {
    assert Spacing(EXACT / 2) == 1;
    assert Spacing(EXACT) == 2;
    assert Spacing((EXACT + 1) / 2) == 1;
    assert Spacing(EXACT + 1) == 2;
  }
}
