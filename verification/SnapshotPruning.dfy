/** Dropping references that point outside a snapshot from a row in wire format. */
module SnapshotPruning {
  import opened Wrappers

  /** A set or map element: a UUID or anything else. */
  datatype Elem = Ref(uuid: string) | Atom(text: string)

  datatype Wire =
    | AtomicUuid(uuid: string)
    | SetOf(elems: seq<Elem>)
    | MapOf(entries: map<Elem, Elem>)
    | Scalar(text: string)

  type WireRow = map<string, Wire>

  /** Whether the key and the value type of a column are UUIDs that refer to another table. */
  datatype Column = Column(keyRef: bool, valRef: bool)

  type Schema = map<string, map<string, Column>>

  /** The column's reference types; a column the schema does not know refers to nothing. */
  function ColumnOf(schema: Schema, table: string, col: string): (c: Column)
    ensures table in schema && col in schema[table] ==> c == schema[table][col]
    ensures !(table in schema && col in schema[table]) ==> !c.keyRef && !c.valRef
  {
    if table in schema && col in schema[table] then schema[table][col] else Column(false, false)
  }

  predicate Dangling(e: Elem, present: set<string>) {
    e.Ref? && e.uuid !in present
  }

  function KeptElems(elems: seq<Elem>, present: set<string>): seq<Elem> {
    if elems == [] then []
    else
      KeptElems(elems[..|elems| - 1], present)
      + (if Dangling(elems[|elems| - 1], present) then [] else [elems[|elems| - 1]])
  }

  predicate KeepsEntry(k: Elem, v: Elem, c: Column, present: set<string>) {
    !(c.keyRef && Dangling(k, present)) && !(c.valRef && Dangling(v, present))
  }

  function KeptEntries(entries: map<Elem, Elem>, c: Column, present: set<string>): map<Elem, Elem> {
    map k | k in entries && KeepsEntry(k, entries[k], c, present) :: entries[k]
  }

  /** A required atomic reference to a missing row; an empty UUID is left alone. */
  predicate DropsColumn(v: Wire, c: Column, present: set<string>) {
    v.AtomicUuid? && c.keyRef && v.uuid != "" && v.uuid !in present
  }

  function PrunedValue(v: Wire, c: Column, present: set<string>): Wire {
    match v
    case SetOf(elems) => if c.keyRef then SetOf(KeptElems(elems, present)) else v
    case MapOf(entries) => if c.keyRef || c.valRef then MapOf(KeptEntries(entries, c, present)) else v
    case _ => v
  }

  function Pruned(schema: Schema, table: string, row: WireRow, present: set<string>): WireRow {
    map col | col in row && !DropsColumn(row[col], ColumnOf(schema, table, col), present) ::
      PrunedValue(row[col], ColumnOf(schema, table, col), present)
  }

  // ---------- the loops ----------

  method KeepElems(elems: seq<Elem>, present: set<string>) returns (kept: seq<Elem>)
    ensures kept == KeptElems(elems, present)
  {
    kept := [];
    for i := 0 to |elems|
      invariant kept == KeptElems(elems[..i], present)
    {
      assert elems[..i + 1][..i] == elems[..i];
      if elems[i].Ref? && elems[i].uuid !in present {
        continue;
      }
      kept := kept + [elems[i]];
    }
    assert elems[..|elems|] == elems;
  }

  method KeepEntries(entries: map<Elem, Elem>, c: Column, present: set<string>) returns (kept: map<Elem, Elem>)
    ensures kept == KeptEntries(entries, c, present)
  {
    kept := map[];
    var rest := entries.Keys;
    while rest != {}
      invariant rest <= entries.Keys
      invariant kept == map k | k in entries && k !in rest && KeepsEntry(k, entries[k], c, present) :: entries[k]
      decreases |rest|
    {
      var k := Pick(rest);
      rest := rest - {k};
      if c.keyRef && k.Ref? && k.uuid !in present {
        continue;
      }
      if c.valRef && entries[k].Ref? && entries[k].uuid !in present {
        continue;
      }
      kept := kept[k := entries[k]];
    }
  }

  /** One column of the row. */
  method PruneColumn(row: WireRow, col: string, c: Column, present: set<string>) returns (out: WireRow)
    requires col in row
    ensures out == if DropsColumn(row[col], c, present) then row - {col}
              else row[col := PrunedValue(row[col], c, present)]
  {
    out := row;
    if !c.keyRef && !c.valRef {
      return;
    }
    match row[col]
    case AtomicUuid(u) =>
      if c.keyRef && u != "" && u !in present {
        out := row - {col};
      }
    case SetOf(elems) =>
      if c.keyRef {
        var kept := KeepElems(elems, present);
        out := row[col := SetOf(kept)];
      }
    case MapOf(entries) =>
      var kept := KeepEntries(entries, c, present);
      out := row[col := MapOf(kept)];
    case Scalar(_) =>
  }

  method PruneDanglingRowRefs(schema: Schema, table: string, row: WireRow, present: set<string>) returns (out: WireRow)
    ensures out == Pruned(schema, table, row, present)
  {
    hide DropsColumn, PrunedValue;
    if table !in schema {
      NothingToPrune(schema, table, row, present);
      return row;
    }
    out := row;
    var rest := row.Keys;
    while rest != {}
      invariant rest <= row.Keys
      invariant out ==
                map col | col in row && (col in rest
                  || !DropsColumn(row[col], ColumnOf(schema, table, col), present)) ::
                  if col in rest then row[col] else PrunedValue(row[col], ColumnOf(schema, table, col), present)
      decreases |rest|
    {
      var col := Pick(rest);
      rest := rest - {col};
      out := PruneColumn(out, col, ColumnOf(schema, table, col), present);
    }
  }

  lemma NothingToPrune(schema: Schema, table: string, row: WireRow, present: set<string>)
    requires table !in schema
    ensures Pruned(schema, table, row, present) == row
  {
  }

  // ---------- what is left ----------

  /** The UUIDs a value refers to in a column of these types. */
  function RefsIn(v: Wire, c: Column): set<string> {
    match v
    case AtomicUuid(u) => if c.keyRef then {u} else {}
    case SetOf(elems) => if c.keyRef then set e | e in elems && e.Ref? :: e.uuid else {}
    case MapOf(entries) =>
      (if c.keyRef then set k | k in entries && k.Ref? :: k.uuid else {})
      + (if c.valRef then set k | k in entries && entries[k].Ref? :: entries[k].uuid else {})
    case Scalar(_) => {}
  }

  ghost predicate NoDanglingRefs(schema: Schema, table: string, row: WireRow, present: set<string>) {
    forall col | col in row :: RefsIn(row[col], ColumnOf(schema, table, col)) <= present
  }

  /** A reference column holds the empty UUID. */
  ghost predicate HasEmptyRef(schema: Schema, table: string, row: WireRow) {
    exists col :: col in row && row[col] == AtomicUuid("") && ColumnOf(schema, table, col).keyRef
  }

  lemma {:induction false} KeptElemsAre(elems: seq<Elem>, present: set<string>)
    ensures forall e :: e in KeptElems(elems, present) <==> e in elems && !Dangling(e, present)
    ensures KeptElems(elems, present) == elems <==> forall e | e in elems :: !Dangling(e, present)
    ensures |KeptElems(elems, present)| <= |elems|
  {
    if elems != [] {
      var front, last := elems[..|elems| - 1], elems[|elems| - 1];
      assert elems == front + [last];
      KeptElemsAre(front, present);
      if KeptElems(elems, present) == elems {
        assert !Dangling(last, present) by {
          assert Dangling(last, present) ==> |KeptElems(elems, present)| < |elems|;
        }
        assert KeptElems(front, present) == front;
      }
    }
  }

  lemma PrunedValueRefs(v: Wire, c: Column, present: set<string>)
    requires !DropsColumn(v, c, present) && !(c.keyRef && v == AtomicUuid(""))
    ensures RefsIn(PrunedValue(v, c, present), c) <= present
  {
    if v.SetOf? {
      KeptElemsAre(v.elems, present);
    }
  }

  /** What remains refers to present rows only, except for an empty atomic reference, which is kept. */
  lemma PrunedHasNoDanglingRefs(schema: Schema, table: string, row: WireRow, present: set<string>)
    requires "" !in present
    ensures NoDanglingRefs(schema, table, Pruned(schema, table, row, present), present) <==>
              !HasEmptyRef(schema, table, row)
  {
    hide DropsColumn, PrunedValue, RefsIn;
    var out := Pruned(schema, table, row, present);
    forall col | col in out && !(row[col] == AtomicUuid("") && ColumnOf(schema, table, col).keyRef)
      ensures RefsIn(out[col], ColumnOf(schema, table, col)) <= present
    {
      PrunedValueRefs(row[col], ColumnOf(schema, table, col), present);
    }
    if HasEmptyRef(schema, table, row) {
      var col :| col in row && row[col] == AtomicUuid("") && ColumnOf(schema, table, col).keyRef;
      EmptyRefStays(ColumnOf(schema, table, col), present);
      assert col in out;
    }
  }

  lemma EmptyRefStays(c: Column, present: set<string>)
    requires "" !in present && c.keyRef
    ensures !DropsColumn(AtomicUuid(""), c, present) && PrunedValue(AtomicUuid(""), c, present) == AtomicUuid("")
    ensures "" in RefsIn(AtomicUuid(""), c)
  {
  }

  /** Everything else is kept: each element and entry that refers to no missing row, and nothing is added. */
  lemma PrunedKeepsTheRest(v: Wire, c: Column, present: set<string>)
    ensures RefsIn(v, c) <= present ==> !DropsColumn(v, c, present) && PrunedValue(v, c, present) == v
    ensures v.SetOf? ==> PrunedValue(v, c, present).SetOf?
    ensures v.MapOf? ==> PrunedValue(v, c, present).MapOf?
    ensures v.SetOf? ==> forall e ::
              e in PrunedValue(v, c, present).elems <==> e in v.elems && !(c.keyRef && Dangling(e, present))
    ensures v.MapOf? ==> forall k :: k in PrunedValue(v, c, present).entries <==>
                                       k in v.entries && KeepsEntry(k, v.entries[k], c, present)
    ensures v.MapOf? ==> forall k | k in PrunedValue(v, c, present).entries ::
              PrunedValue(v, c, present).entries[k] == v.entries[k]
  {
    if v.SetOf? {
      KeptElemsAre(v.elems, present);
    }
    if v.MapOf? {
      assert (forall k | k in v.entries :: KeepsEntry(k, v.entries[k], c, present)) ==>
                KeptEntries(v.entries, c, present) == v.entries;
    }
  }

  /** The column refers to rows by its keys. */
  ghost predicate RefersByKey(schema: Schema, table: string, col: string) {
    table in schema && col in schema[table] && schema[table][col].keyRef
  }

  /**
   * Exactly the required references to missing rows are dropped whole; single values that stay are
   * unchanged, and order is kept.
   */
  lemma PrunedColumns(schema: Schema, table: string, row: WireRow, present: set<string>, col: string)
    ensures var out := Pruned(schema, table, row, present);
            && (col in out <==>
                  && col in row
                  && !(row[col].AtomicUuid? && RefersByKey(schema, table, col) && row[col].uuid != ""
                        && row[col].uuid !in present))
            && (col in out && (row[col].AtomicUuid? || row[col].Scalar?) ==> out[col] == row[col])
            && (col in out && row[col].SetOf? ==>
                  out[col] == if RefersByKey(schema, table, col) then SetOf(KeptElems(row[col].elems, present))
                    else row[col])
  {
  }

  /** Elements are kept or dropped one by one, in place. */
  lemma {:induction false} KeptElemsConcat(a: seq<Elem>, b: seq<Elem>, present: set<string>)
    ensures KeptElems(a + b, present) == KeptElems(a, present) + KeptElems(b, present)
    ensures forall u | u in present :: KeptElems([Ref(u)], present) == [Ref(u)]
    ensures forall u | u !in present :: KeptElems([Ref(u)], present) == []
    ensures forall text :: KeptElems([Atom(text)], present) == [Atom(text)]
    decreases |b|
  {
    if b == [] {
      assert a + b == a;
    } else {
      assert (a + b)[..|a + b| - 1] == a + b[..|b| - 1];
      KeptElemsConcat(a, b[..|b| - 1], present);
    }
  }

  lemma PrunedValueTwice(v: Wire, c: Column, present: set<string>)
    requires !DropsColumn(v, c, present)
    ensures !DropsColumn(PrunedValue(v, c, present), c, present)
    ensures PrunedValue(PrunedValue(v, c, present), c, present) == PrunedValue(v, c, present)
  {
    if v.SetOf? {
      KeptElemsAre(v.elems, present);
      KeptElemsAre(KeptElems(v.elems, present), present);
    }
    if v.MapOf? {
      assert KeptEntries(KeptEntries(v.entries, c, present), c, present) == KeptEntries(v.entries, c, present);
    }
  }

  /** A second pass changes nothing. */
  lemma PruningIsIdempotent(schema: Schema, table: string, row: WireRow, present: set<string>)
    ensures Pruned(schema, table, Pruned(schema, table, row, present), present) == Pruned(schema, table, row, present)
  {
    hide DropsColumn, PrunedValue;
    var out := Pruned(schema, table, row, present);
    forall col | col in out
      ensures !DropsColumn(out[col], ColumnOf(schema, table, col), present)
      ensures PrunedValue(out[col], ColumnOf(schema, table, col), present) == out[col]
    {
      PrunedValueTwice(row[col], ColumnOf(schema, table, col), present);
    }
  }
}
