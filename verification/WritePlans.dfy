/** Write operations, their validation, and the diffs a preview computes. */
module WritePlans {
  import opened Wrappers
  import opened Ordering
  import opened Ovsdb

  datatype Action = CreateRow | UpdateRow | DeleteRow | UnknownAction

  datatype WriteOperation = WriteOperation(action: Action, table: string, uuid: string, fields: Row)

  datatype ColumnType =
    | StrColumn
    | IntColumn
    | BoolColumn
    | OptStrColumn
    | OptIntColumn
    | OptBoolColumn
    | SetColumn
    | MapColumn

  datatype Database = NB | SB

  datatype TableSpec = TableSpec(database: Database, columns: map<string, ColumnType>, readOnly: set<string>,
                                 deleteOnly: bool)

  type Registry = map<string, TableSpec>

  datatype FieldChange = FieldChange(field: string, oldValue: Value, newValue: Value)

  datatype PlanDiff = PlanDiff(action: Action, table: string, uuid: string, before: Row, after: Row,
                               changes: seq<FieldChange>)

  datatype WriteError =
    | RateLimited
    | Invalid
    | NoClient
    | NotFound
    | Unbuildable
    | StaleState
    | TransactFailed
    | NoSnapshot
    | BadToken

  function Target(op: WriteOperation): (id: RowId)
    ensures id.table == op.table && id.uuid == op.uuid
  {
    RowId(op.table, op.uuid)
  }

  // ---------- column types ----------

  function Zero(t: ColumnType): Value {
    match t
    case StrColumn => Str("")
    case IntColumn => Int(0)
    case BoolColumn => Bool(false)
    case OptStrColumn => Null
    case OptIntColumn => Null
    case OptBoolColumn => Null
    case SetColumn => Set([])
    case MapColumn => Map(map[])
  }

  /** The value a column takes when a field is set to v: nil leaves the zero value, a wrong type is an error. */
  function Coerce(v: Value, t: ColumnType): Option<Value> {
    if v.Null? then Some(Zero(t))
    else
      match t
      case StrColumn => if v.Str? then Some(v) else None
      case OptStrColumn => if v.Str? then Some(v) else None
      case IntColumn => if v.Int? then Some(v) else None
      case OptIntColumn => if v.Int? then Some(v) else None
      case BoolColumn => if v.Bool? then Some(v) else None
      case OptBoolColumn => if v.Bool? then Some(v) else None
      case SetColumn => if v.Set? then Some(v) else None
      case MapColumn => if v.Map? then Some(v) else None
  }

  /** The value has the shape of the column: optional columns also hold null. */
  ghost predicate OfType(v: Value, t: ColumnType) {
    match t
    case StrColumn => v.Str?
    case IntColumn => v.Int?
    case BoolColumn => v.Bool?
    case OptStrColumn => v.Null? || v.Str?
    case OptIntColumn => v.Null? || v.Int?
    case OptBoolColumn => v.Null? || v.Bool?
    case SetColumn => v.Set?
    case MapColumn => v.Map?
  }

  /** The value a column starts with: nothing, zero, false, empty or null. */
  ghost predicate IsDefault(v: Value, t: ColumnType) {
    OfType(v, t) && v in {Str(""), Int(0), Bool(false), Null, Set([]), Map(map[])}
    && (t.OptStrColumn? || t.OptIntColumn? || t.OptBoolColumn? ==> v.Null?)
  }

  /**
   * What a field does to a column: null stands for the default, a value of its type is taken as it
   * is, any other is refused.
   */
  lemma CoerceIs(v: Value, t: ColumnType)
    ensures Coerce(v, t).Some? <==> v.Null? || OfType(v, t)
    ensures v.Null? ==> IsDefault(Coerce(v, t).value, t)
    ensures !v.Null? && OfType(v, t) ==> Coerce(v, t) == Some(v)
    ensures Fits(v, t) <==> OfType(v, t)
  {
  }

  /** A value a column of this type can hold. */
  predicate Fits(v: Value, t: ColumnType) {
    Coerce(v, t) == Some(v)
  }

  /** Every registered row has exactly the columns of its table, with values of their types. */
  ghost predicate RowFits(row: Row, spec: TableSpec, uuid: string) {
    row.Keys == spec.columns.Keys && Col(row, "_uuid") == Str(uuid)
      && forall k | k in row :: Fits(row[k], spec.columns[k])
  }

  ghost predicate WellTyped(db: Db, reg: Registry) {
    forall id | id in db && id.table in reg :: RowFits(db[id], reg[id.table], id.uuid)
  }

  /** The model struct of a table filled from fields: None for an unknown field or a wrong type. */
  predicate Hydrates(spec: TableSpec, fields: Row) {
    forall k | k in fields :: k in spec.columns && Coerce(fields[k], spec.columns[k]).Some?
  }

  function Hydrated(spec: TableSpec, fields: Row): Row
    requires Hydrates(spec, fields)
  {
    map k | k in fields :: Coerce(fields[k], spec.columns[k]).value
  }

  function ZeroRow(spec: TableSpec): Row {
    map k | k in spec.columns :: Zero(spec.columns[k])
  }

  // ---------- validation ----------

  predicate ValidFields(fields: Row, spec: TableSpec) {
    forall k | k in fields :: k !in spec.readOnly && k in spec.columns
  }

  predicate ValidOperation(op: WriteOperation, reg: Registry) {
    && op.action != UnknownAction
    && op.table in reg
    && (reg[op.table].deleteOnly ==> op.action == DeleteRow)
    && (op.action == CreateRow ==> op.uuid == "" && op.fields != map[])
    && (op.action == UpdateRow ==> op.uuid != "" && op.fields != map[])
    && (op.action == DeleteRow ==> op.uuid != "")
    && ValidFields(op.fields, reg[op.table])
  }

  /** What an operation of each kind has to look like. */
  ghost predicate WellFormedOp(op: WriteOperation, reg: Registry) {
    && op.table in reg
    && (forall k | k in op.fields :: k in reg[op.table].columns && k !in reg[op.table].readOnly)
    && match op.action
       case CreateRow => !reg[op.table].deleteOnly && op.uuid == "" && op.fields != map[]
       case UpdateRow => !reg[op.table].deleteOnly && op.uuid != "" && op.fields != map[]
       case DeleteRow => op.uuid != ""
       case UnknownAction => false
  }

  lemma ValidMeansWellFormed(op: WriteOperation, reg: Registry)
    ensures ValidOperation(op, reg) <==> WellFormedOp(op, reg)
  {
  }

  /** A plan that ValidateOperation and ValidateSingleDatabase accept. */
  predicate ValidOps(ops: seq<WriteOperation>, reg: Registry) {
    && (forall op | op in ops :: ValidOperation(op, reg))
    && (forall a, b | a in ops && b in ops :: reg[a.table].database == reg[b.table].database)
  }

  /** The loops of validateOps, apart from the reference checks. */
  method ValidateOps(ops: seq<WriteOperation>, reg: Registry) returns (ok: bool)
    ensures ok == ValidOps(ops, reg)
    ensures ok <==>
              && (forall op | op in ops :: WellFormedOp(op, reg))
              && ((forall op | op in ops :: reg[op.table].database == NB)
                    || forall op | op in ops :: reg[op.table].database == SB)
  {
    forall op | op in ops
      ensures ValidOperation(op, reg) <==> WellFormedOp(op, reg)
    {
      ValidMeansWellFormed(op, reg);
    }
    for i := 0 to |ops|
      invariant forall j | 0 <= j < i :: ValidOperation(ops[j], reg)
    {
      if !ValidOperation(ops[i], reg) {
        return false;
      }
    }
    var hasNB, hasSB := false, false;
    for i := 0 to |ops|
      invariant hasNB <==> exists j :: 0 <= j < i && reg[ops[j].table].database == NB
      invariant hasSB <==> exists j :: 0 <= j < i && reg[ops[j].table].database == SB
      invariant !(hasNB && hasSB)
    {
      if reg[ops[i].table].database == SB {
        hasSB := true;
      } else {
        hasNB := true;
      }
      if hasNB && hasSB {
        return false;
      }
    }
    return true;
  }

  // ---------- reading and diffing ----------

  /** readCurrentState: None if the table is not registered, its client is missing, or the row is not there. */
  function ReadRow(cache: Db, reg: Registry, hasSB: bool, id: RowId): Option<Row> {
    if id.table !in reg || (reg[id.table].database == SB && !hasSB) then None else Lookup(cache, id)
  }

  /** The operation is on a row the preview can read: in a table whose client is there, and in its cache. */
  ghost predicate RowSeen(cache: Db, reg: Registry, hasSB: bool, op: WriteOperation) {
    op.table in reg && (reg[op.table].database == SB ==> hasSB) && RowId(op.table, op.uuid) in cache
  }

  ghost predicate AllRowsSeen(cache: Db, reg: Registry, hasSB: bool, ops: seq<WriteOperation>) {
    forall op | op in ops && (op.action == UpdateRow || op.action == DeleteRow) :: RowSeen(cache, reg, hasSB, op)
  }

  ghost predicate ListsChanges(changes: seq<FieldChange>, before: Row, fields: Row) {
    && (forall i, j | 0 <= i < j < |changes| :: Less(changes[i].field, changes[j].field))
    && (forall c | c in changes ::
          c.field in fields && c == FieldChange(c.field, Col(before, c.field), fields[c.field]))
    && (forall k | k in fields :: FieldChange(k, Col(before, k), fields[k]) in changes)
  }

  /** The diff of one operation shows the row it found, the row it leaves, and each changed field once, in order. */
  ghost predicate DiffOf(cache: Db, op: WriteOperation, d: PlanDiff) {
    && d.action == op.action && d.table == op.table && d.uuid == op.uuid
    && match op.action
       case CreateRow => d.before == map[] && d.after == op.fields && d.changes == []
       case UpdateRow =>
         && Lookup(cache, Target(op)) == Some(d.before)
         && (forall k :: Col(d.after, k) == if k in op.fields then op.fields[k] else Col(d.before, k))
         && ListsChanges(d.changes, d.before, op.fields)
       case DeleteRow => Lookup(cache, Target(op)) == Some(d.before) && d.after == map[] && d.changes == []
       case UnknownAction => d.before == map[] && d.after == map[] && d.changes == []
  }

  method ChangesOf(before: Row, fields: Row) returns (changes: seq<FieldChange>)
    ensures ListsChanges(changes, before, fields)
  {
    var keys := SortKeys(fields.Keys);
    assert forall k | k in keys :: k in fields;
    changes := [];
    for i := 0 to |keys|
      invariant |changes| == i
      invariant forall j | 0 <= j < i :: changes[j] == FieldChange(keys[j], Col(before, keys[j]), fields[keys[j]])
    {
      assert keys[i] in fields.Keys;
      changes := changes + [FieldChange(keys[i], Col(before, keys[i]), fields[keys[i]])];
    }
    forall k | k in fields
      ensures FieldChange(k, Col(before, k), fields[k]) in changes
    {
      assert k in keys;
      var j :| 0 <= j < |keys| && keys[j] == k;
      assert changes[j] in changes;
    }
  }

  method DiffOne(cache: Db, reg: Registry, hasSB: bool, op: WriteOperation) returns (r: Result<PlanDiff, WriteError>)
    ensures r.Ok? <==> (op.action == UpdateRow || op.action == DeleteRow ==> RowSeen(cache, reg, hasSB, op))
    ensures r.Ok? ==> DiffOf(cache, op, r.value)
    ensures r.Err? ==> r.error == NotFound
  {
    var d := PlanDiff(op.action, op.table, op.uuid, map[], map[], []);
    match op.action
    case CreateRow =>
      r := Ok(d.(after := op.fields));
    case UpdateRow =>
      var current := ReadRow(cache, reg, hasSB, Target(op));
      if current.None? {
        return Err(NotFound);
      }
      var changes := ChangesOf(current.value, op.fields);
      r := Ok(d.(before := current.value, after := current.value + op.fields, changes := changes));
    case DeleteRow =>
      var current := ReadRow(cache, reg, hasSB, Target(op));
      if current.None? {
        return Err(NotFound);
      }
      r := Ok(d.(before := current.value));
    case UnknownAction =>
      r := Ok(d);
  }

  method ComputeDiffs(cache: Db, reg: Registry, hasSB: bool, ops: seq<WriteOperation>)
    returns (r: Result<seq<PlanDiff>, WriteError>)
    ensures r.Ok? <==> AllRowsSeen(cache, reg, hasSB, ops)
    ensures r.Ok? ==> |r.value| == |ops| && forall i | 0 <= i < |ops| :: DiffOf(cache, ops[i], r.value[i])
    ensures r.Err? ==> r.error == NotFound
  {
    var diffs := [];
    for i := 0 to |ops|
      invariant |diffs| == i
      invariant forall j | 0 <= j < i :: DiffOf(cache, ops[j], diffs[j])
      invariant forall j | 0 <= j < i && (ops[j].action == UpdateRow || ops[j].action == DeleteRow) ::
                  RowSeen(cache, reg, hasSB, ops[j])
    {
      hide DiffOf, RowSeen;
      var d := DiffOne(cache, reg, hasSB, ops[i]);
      if d.Err? {
        assert ops[i] in ops;
        return Err(d.error);
      }
      diffs := diffs + [d.value];
    }
    r := Ok(diffs);
  }
}
