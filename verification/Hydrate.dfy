/** Turning a model struct into a map and back, directly and through JSON. */
module Hydrate {
  import opened Wrappers

  /** Go values as reflection sees them: a typed nil remembers its kind. */
  datatype GoValue =
    | Nil
    | Str(s: string)
    | Int(n: int)
    | Float(r: real)
    | Bool(b: bool)
    | NilPtr
    | Ptr(target: GoValue)
    | NilSlice
    | Slice(elems: seq<GoValue>)
    | NilMap
    | Map(entries: map<string, GoValue>)

  datatype FieldType =
    | StringT
    | IntT
    | BoolT
    | PtrT(elem: FieldType)
    | SliceT(elem: FieldType)
    | MapT(elem: FieldType)
    | OtherT

  /** The fields of a model struct by their ovsdb tag. */
  type ModelType = map<string, FieldType>

  function Zero(t: FieldType): GoValue {
    match t
    case StringT => Str("")
    case IntT => Int(0)
    case BoolT => Bool(false)
    case PtrT(_) => NilPtr
    case SliceT(_) => NilSlice
    case MapT(_) => NilMap
    case OtherT => Nil
  }

  /** int64(v) drops the fraction. */
  function Truncate(r: real): int {
    if r >= 0.0 then r.Floor else 0 - (0.0 - r).Floor
  }

  // ---------- assigning a field ----------

  /** What setField leaves in a field that held cur, or None if the value does not fit. */
  function Assigned(cur: GoValue, t: FieldType, raw: GoValue): Option<GoValue>
    decreases raw, t, 0
  {
    if raw.Nil? || raw.NilPtr? then Some(cur)
    else if raw.Ptr? then Assigned(cur, t, raw.target)
    else
      match t
      case PtrT(e) => PointTo(Assigned(Zero(e), e, raw))
      case StringT => if raw.Str? then Some(raw) else None
      case IntT => if raw.Float? then Some(Int(Truncate(raw.r))) else if raw.Int? then Some(raw) else None
      case BoolT => if raw.Bool? then Some(raw) else None
      case SliceT(e) => if raw.NilSlice? then Some(Slice([])) else if raw.Slice? then AssignedSlice(e, raw) else None
      case MapT(e) => if raw.NilMap? then Some(Map(map[])) else if raw.Map? then AssignedMap(e, raw) else None
      case OtherT => None
  }

  function PointTo(v: Option<GoValue>): Option<GoValue> {
    if v.Some? then Some(Ptr(v.value)) else None
  }

  function AssignedSlice(e: FieldType, raw: GoValue): Option<GoValue>
    requires raw.Slice?
    decreases raw, e, 1
  {
    if forall x | x in raw.elems :: Assigned(Zero(e), e, x).Some?
    then Some(Slice(seq(|raw.elems|, i requires 0 <= i < |raw.elems| => Assigned(Zero(e), e, raw.elems[i]).value)))
    else None
  }

  function AssignedMap(e: FieldType, raw: GoValue): Option<GoValue>
    requires raw.Map?
    decreases raw, e, 1
  {
    if forall k | k in raw.entries :: Assigned(Zero(e), e, raw.entries[k]).Some?
    then Some(Map(map k | k in raw.entries :: Assigned(Zero(e), e, raw.entries[k]).value))
    else None
  }

  method SetField(cur: GoValue, t: FieldType, raw: GoValue) returns (r: Option<GoValue>)
    ensures r == Assigned(cur, t, raw)
    decreases raw, t, 0
  {
    if raw.Nil? || raw.NilPtr? {
      return Some(cur);
    }
    if raw.Ptr? {
      r := SetField(cur, t, raw.target);
      return;
    }
    match t
    case PtrT(e) =>
      var v := SetField(Zero(e), e, raw);
      r := if v.Some? then Some(Ptr(v.value)) else None;
    case StringT =>
      r := if raw.Str? then Some(raw) else None;
    case IntT =>
      r := if raw.Float? then Some(Int(Truncate(raw.r))) else if raw.Int? then Some(raw) else None;
    case BoolT =>
      r := if raw.Bool? then Some(raw) else None;
    case SliceT(e) =>
      if raw.Slice? {
        r := SetSliceField(e, raw);
      } else {
        r := if raw.NilSlice? then Some(Slice([])) else None;
      }
    case MapT(e) =>
      if raw.Map? {
        r := SetMapField(e, raw);
      } else {
        r := if raw.NilMap? then Some(Map(map[])) else None;
      }
    case OtherT =>
      r := None;
  }

  method SetSliceField(e: FieldType, raw: GoValue) returns (r: Option<GoValue>)
    requires raw.Slice?
    ensures r == AssignedSlice(e, raw)
    decreases raw, e, 1
  {
    hide Assigned, Zero;
    var s: seq<GoValue> := [];
    for i := 0 to |raw.elems|
      invariant |s| == i
      invariant forall j | 0 <= j < i :: Assigned(Zero(e), e, raw.elems[j]) == Some(s[j])
    {
      var v := SetField(Zero(e), e, raw.elems[i]);
      if v.None? {
        assert raw.elems[i] in raw.elems;
        return None;
      }
      s := s + [v.value];
    }
    SliceComplete(e, raw, s);
    r := Some(Slice(s));
  }

  lemma SliceComplete(e: FieldType, raw: GoValue, s: seq<GoValue>)
    requires raw.Slice? && |s| == |raw.elems|
    requires forall j | 0 <= j < |s| :: Assigned(Zero(e), e, raw.elems[j]) == Some(s[j])
    ensures AssignedSlice(e, raw) == Some(Slice(s))
  {
    assert AssignedSlice(e, raw).value.elems == s;
  }

  method SetMapField(e: FieldType, raw: GoValue) returns (r: Option<GoValue>)
    requires raw.Map?
    ensures r == AssignedMap(e, raw)
    decreases raw, e, 1
  {
    hide Assigned, Zero;
    var m: map<string, GoValue> := map[];
    var rest := raw.entries.Keys;
    while rest != {}
      invariant rest <= raw.entries.Keys && m.Keys == raw.entries.Keys - rest
      invariant forall k | k in m :: Assigned(Zero(e), e, raw.entries[k]) == Some(m[k])
      decreases |rest|
    {
      var k := Pick(rest);
      rest := rest - {k};
      var v := SetField(Zero(e), e, raw.entries[k]);
      if v.None? {
        return None;
      }
      m := m[k := v.value];
    }
    MapComplete(e, raw, m);
    r := Some(Map(m));
  }

  lemma MapComplete(e: FieldType, raw: GoValue, m: map<string, GoValue>)
    requires raw.Map? && m.Keys == raw.entries.Keys
    requires forall k | k in m :: Assigned(Zero(e), e, raw.entries[k]) == Some(m[k])
    ensures AssignedMap(e, raw) == Some(Map(m))
  {
    assert AssignedMap(e, raw).value.entries == m;
  }

  // ---------- whole models ----------

  datatype HydrateError = UnknownField | WrongType

  function ZeroModel(mt: ModelType): map<string, GoValue> {
    map tag | tag in mt :: Zero(mt[tag])
  }

  /** A struct under construction. */
  class Model {
    const mt: ModelType
    var fields: map<string, GoValue>

    constructor (mt: ModelType)
      ensures this.mt == mt && fields == ZeroModel(mt)
    {
      this.mt, fields := mt, ZeroModel(mt);
    }
  }

  predicate Hydratable(mt: ModelType, fields: map<string, GoValue>) {
    forall k | k in fields :: k in mt && Assigned(Zero(mt[k]), mt[k], fields[k]).Some?
  }

  function Hydrated(mt: ModelType, fields: map<string, GoValue>): map<string, GoValue>
    requires Hydratable(mt, fields)
  {
    map tag | tag in mt :: if tag in fields then Assigned(Zero(mt[tag]), mt[tag], fields[tag]).value else Zero(mt[tag])
  }

  /** The struct after the fields in done were set. */
  predicate PartlySet(mt: ModelType, fields: map<string, GoValue>, done: set<string>, m: map<string, GoValue>) {
    && m.Keys == mt.Keys
    && (forall tag | tag in mt && tag !in done :: m[tag] == Zero(mt[tag]))
    && (forall k | k in done :: k in fields && k in mt && Assigned(Zero(mt[k]), mt[k], fields[k]) == Some(m[k]))
  }

  method MapToModel(fields: map<string, GoValue>, mt: ModelType) returns (r: Result<Model, HydrateError>)
    ensures r.Ok? <==> Hydratable(mt, fields)
    ensures r.Ok? ==> fresh(r.value) && r.value.mt == mt && r.value.fields == Hydrated(mt, fields)
  {
    hide Assigned, Zero;
    var m := new Model(mt);
    var rest := fields.Keys;
    while rest != {}
      invariant rest <= fields.Keys && m.mt == mt && fresh(m)
      invariant PartlySet(mt, fields, fields.Keys - rest, m.fields)
      decreases |rest|
    {
      var k := Pick(rest);
      if k !in mt {
        return Err(UnknownField);
      }
      var v := SetField(m.fields[k], mt[k], fields[k]);
      if v.None? {
        return Err(WrongType);
      }
      rest := rest - {k};
      m.fields := m.fields[k := v.value];
    }
    r := Ok(m);
  }

  /** ModelToMap: every tagged field under its tag. */
  method ModelToMap(m: Model) returns (fields: map<string, GoValue>)
    requires m.fields.Keys == m.mt.Keys
    ensures fields == m.fields
  {
    fields := map[];
    var rest := m.mt.Keys;
    while rest != {}
      invariant rest <= m.mt.Keys
      invariant fields == map tag | tag in m.fields && tag !in rest :: m.fields[tag]
      decreases |rest|
    {
      var tag := Pick(rest);
      rest := rest - {tag};
      fields := fields[tag := m.fields[tag]];
    }
  }
}
