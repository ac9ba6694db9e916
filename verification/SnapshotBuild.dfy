/** Assembling a snapshot from history rows: references are pruned by what was captured, not by what is kept. */
module SnapshotBuild {
  import opened Wrappers
  import opened SnapshotPruning

  /** A decoded JSON column value. */
  datatype Json =
    | Text(s: string)
    | List(elems: seq<Json>)
    | Object(entries: map<string, Json>)
    | OtherJson(text: string)

  type Data = map<string, Json>

  predicate Missing(v: Json, present: set<string>) {
    v.Text? && v.s !in present
  }

  function KeptList(elems: seq<Json>, present: set<string>): seq<Json> {
    if elems == [] then []
    else
      KeptList(elems[..|elems| - 1], present) +
        (if Missing(elems[|elems| - 1], present) then [] else [elems[|elems| - 1]])
  }

  predicate KeepsPair(k: string, v: Json, c: Column, present: set<string>) {
    !(c.keyRef && k !in present) && !(c.valRef && Missing(v, present))
  }

  function KeptPairs(entries: map<string, Json>, c: Column, present: set<string>): map<string, Json> {
    map k | k in entries && KeepsPair(k, entries[k], c, present) :: entries[k]
  }

  predicate DropsField(v: Json, c: Column, present: set<string>) {
    c.keyRef && Missing(v, present)
  }

  function PrunedJson(v: Json, c: Column, present: set<string>): Json {
    match v
    case List(elems) => if c.keyRef then List(KeptList(elems, present)) else v
    case Object(entries) => Object(KeptPairs(entries, c, present))
    case _ => v
  }

  function PrunedData(schema: Schema, table: string, data: Data, present: set<string>): Data {
    map col | col in data && !DropsField(data[col], ColumnOf(schema, table, col), present) ::
      PrunedJson(data[col], ColumnOf(schema, table, col), present)
  }

  // ---------- the loops ----------

  method KeepList(elems: seq<Json>, present: set<string>) returns (kept: seq<Json>)
    ensures kept == KeptList(elems, present)
  {
    kept := [];
    for i := 0 to |elems|
      invariant kept == KeptList(elems[..i], present)
    {
      assert elems[..i + 1][..i] == elems[..i];
      if elems[i].Text? && elems[i].s !in present {
        continue;
      }
      kept := kept + [elems[i]];
    }
    assert elems[..|elems|] == elems;
  }

  method KeepPairs(entries: map<string, Json>, c: Column, present: set<string>)
    returns (kept: map<string, Json>, changed: bool)
    ensures kept == KeptPairs(entries, c, present)
    ensures changed <==> kept != entries
  {
    hide KeepsPair, KeptPairs;
    kept, changed := map[], false;
    var rest := entries.Keys;
    while rest != {}
      invariant rest <= entries.Keys
      invariant forall k :: k in kept <==> k in entries && k !in rest && KeepsPair(k, entries[k], c, present)
      invariant forall k | k in kept :: kept[k] == entries[k]
      invariant !changed ==> forall k | k in entries && k !in rest :: KeepsPair(k, entries[k], c, present)
      invariant changed ==> exists k :: k in entries && !KeepsPair(k, entries[k], c, present)
      decreases |rest|
    {
      var k := Pick(rest);
      rest := rest - {k};
      if !KeepsPair(k, entries[k], c, present) {
        changed := true;
        continue;
      }
      kept := kept[k := entries[k]];
    }
    PairsComplete(entries, c, present, kept);
  }

  lemma PairsComplete(entries: map<string, Json>, c: Column, present: set<string>, kept: map<string, Json>)
    requires forall k :: k in kept <==> k in entries && KeepsPair(k, entries[k], c, present)
    requires forall k | k in kept :: kept[k] == entries[k]
    ensures kept == KeptPairs(entries, c, present)
    ensures kept == entries <==> forall k | k in entries :: KeepsPair(k, entries[k], c, present)
  {
    hide KeepsPair;
    if forall k | k in entries :: KeepsPair(k, entries[k], c, present) {
      assert kept.Keys == entries.Keys;
    }
  }

  lemma {:induction false} KeptListIs(elems: seq<Json>, present: set<string>)
    ensures forall e :: e in KeptList(elems, present) <==> e in elems && !Missing(e, present)
    ensures |KeptList(elems, present)| <= |elems|
    ensures |KeptList(elems, present)| == |elems| ==> KeptList(elems, present) == elems
  {
    if elems != [] {
      var front, last := elems[..|elems| - 1], elems[|elems| - 1];
      assert elems == front + [last];
      KeptListIs(front, present);
    }
  }

  /** One column; changed says whether the row had to be copied for it. */
  method PruneField(data: Data, col: string, c: Column, present: set<string>) returns (out: Data, changed: bool)
    requires col in data
    ensures out == if DropsField(data[col], c, present) then data - {col}
              else data[col := PrunedJson(data[col], c, present)]
    ensures changed <==> out != data
  {
    out, changed := data, false;
    match data[col]
    case Text(s) =>
      if c.keyRef && s !in present {
        out, changed := data - {col}, true;
      }
    case List(elems) =>
      if c.keyRef {
        var kept := KeepList(elems, present);
        KeptListIs(elems, present);
        if |kept| != |elems| {
          out, changed := data[col := List(kept)], true;
          assert out[col] != data[col];
        }
      }
    case Object(entries) =>
      var kept, differs := KeepPairs(entries, c, present);
      if differs {
        out, changed := data[col := Object(kept)], true;
        assert out[col] != data[col];
      }
    case OtherJson(_) =>
  }

  /** Copy on write: the given data itself comes back, uncopied, exactly if nothing needs pruning. */
  method PruneDanglingRefs(schema: Schema, table: string, data: Data, present: set<string>)
    returns (out: Data, copied: bool)
    ensures out == PrunedData(schema, table, data, present)
    ensures copied <==> out != data
  {
    hide DropsField, PrunedJson;
    out, copied := data, false;
    if table !in schema {
      UnknownTableIsKept(schema, table, data, present);
      return;
    }
    var rest := data.Keys;
    while rest != {}
      invariant rest <= data.Keys
      invariant out ==
                map col | col in data && (col in rest
                  || !DropsField(data[col], ColumnOf(schema, table, col), present)) ::
                  if col in rest then data[col] else PrunedJson(data[col], ColumnOf(schema, table, col), present)
      invariant !copied ==> out == data
      invariant copied ==> exists col :: col in data && col !in rest && (col !in out || out[col] != data[col])
      decreases |rest|
    {
      var col := Pick(rest);
      rest := rest - {col};
      var changed;
      out, changed := PruneField(out, col, ColumnOf(schema, table, col), present);
      assert changed <==> col !in out || out[col] != data[col];
      copied := copied || changed;
    }
  }

  lemma UnknownTableIsKept(schema: Schema, table: string, data: Data, present: set<string>)
    requires table !in schema
    ensures PrunedData(schema, table, data, present) == data
  {
    forall col | col in data
      ensures PrunedJson(data[col], ColumnOf(schema, table, col), present) == data[col]
    {
      if data[col].Object? {
        assert KeptPairs(data[col].entries, Column(false, false), present) == data[col].entries;
      }
    }
  }

  // ---------- references ----------

  function JsonRefs(v: Json, c: Column): set<string> {
    match v
    case Text(s) => if c.keyRef then {s} else {}
    case List(elems) => if c.keyRef then set e | e in elems && e.Text? :: e.s else {}
    case Object(entries) =>
      (if c.keyRef then entries.Keys else {}) + (if c.valRef then ValueRefs(entries) else {})
    case OtherJson(_) => {}
  }

  function ValueRefs(entries: map<string, Json>): set<string> {
    set k | k in entries && entries[k].Text? :: entries[k].s
  }

  ghost function DataRefs(schema: Schema, table: string, data: Data): set<string> {
    set col, u | col in data && u in JsonRefs(data[col], ColumnOf(schema, table, col)) :: u
  }

  /** No map column refers to rows by its keys and by its values at once; so in the NB and SB schemas. */
  ghost predicate OneSided(schema: Schema) {
    forall table, col | table in schema && col in schema[table] ::
      !(schema[table][col].keyRef && schema[table][col].valRef)
  }

  lemma PrunedJsonRefs(v: Json, c: Column, present: set<string>)
    requires !(c.keyRef && c.valRef)
    ensures (if DropsField(v, c, present) then {} else JsonRefs(PrunedJson(v, c, present), c)) ==
              JsonRefs(v, c) * present
  {
    match v
    case List(elems) =>
      ListRefs(elems, present);
    case Object(entries) =>
      ObjectRefs(entries, c, present);
    case _ =>
  }

  lemma ListRefs(elems: seq<Json>, present: set<string>)
    ensures (set e | e in KeptList(elems, present) && e.Text? :: e.s) ==
              (set e | e in elems && e.Text? :: e.s) * present
  {
    KeptListIs(elems, present);
  }

  lemma ObjectRefs(entries: map<string, Json>, c: Column, present: set<string>)
    requires !(c.keyRef && c.valRef)
    ensures c.keyRef ==> KeptPairs(entries, c, present).Keys == entries.Keys * present
    ensures c.valRef ==> ValueRefs(KeptPairs(entries, c, present)) == ValueRefs(entries) * present
  {
    if c.valRef {
      forall u
        ensures u in ValueRefs(KeptPairs(entries, c, present)) <==> u in ValueRefs(entries) && u in present
      {
        if u in ValueRefs(entries) && u in present {
          var k :| k in entries && entries[k].Text? && entries[k].s == u;
          assert k in KeptPairs(entries, c, present);
        }
      }
    }
  }

  /** Everything that refers to no missing row stays as it is, and only required references to missing rows go whole. */
  lemma PrunedDataKeepsTheRest(schema: Schema, table: string, data: Data, present: set<string>, col: string)
    ensures var out, c := PrunedData(schema, table, data, present), ColumnOf(schema, table, col);
            && (col in out <==> col in data && !(c.keyRef && data[col].Text? && data[col].s !in present))
            && (col in data && JsonRefs(data[col], c) <= present ==> col in out && out[col] == data[col])
            && (col in out && data[col].List? ==>
                  out[col].List? && forall e ::
                    e in out[col].elems <==> e in data[col].elems && !(c.keyRef && e.Text? && e.s !in present))
            && (col in out && data[col].Object? ==>
                  && out[col].Object?
                  && (forall k | k in out[col].entries ::
                        k in data[col].entries && out[col].entries[k] == data[col].entries[k])
                  && (forall k | k in data[col].entries :: k in out[col].entries <==>
                        (c.keyRef ==> k in present)
                        && (c.valRef && data[col].entries[k].Text? ==> data[col].entries[k].s in present)))
  {
    if col in data {
      var c := ColumnOf(schema, table, col);
      match data[col]
      case List(elems) =>
        KeptListIs(elems, present);
        if c.keyRef && JsonRefs(data[col], c) <= present {
          KeptWhole(elems, present);
        }
      case Object(entries) =>
        if JsonRefs(data[col], c) <= present {
          forall k | k in entries
            ensures KeepsPair(k, entries[k], c, present)
          {
            assert c.valRef && entries[k].Text? ==> entries[k].s in ValueRefs(entries);
          }
          assert KeptPairs(entries, c, present) == entries;
        }
      case _ =>
    }
  }

  lemma {:induction false} KeptWhole(elems: seq<Json>, present: set<string>)
    requires (set e | e in elems && e.Text? :: e.s) <= present
    ensures KeptList(elems, present) == elems
  {
    if elems != [] {
      var front, last := elems[..|elems| - 1], elems[|elems| - 1];
      assert elems == front + [last] && last in elems;
      assert last.Text? ==> last.s in (set e | e in elems && e.Text? :: e.s);
      forall x | x in (set e | e in front && e.Text? :: e.s)
        ensures x in present
      {
        assert x in (set e | e in elems && e.Text? :: e.s);
      }
      KeptWhole(front, present);
    }
  }

  /** Elements are kept or dropped one by one, in place. */
  lemma {:induction false} KeptListConcat(a: seq<Json>, b: seq<Json>, present: set<string>)
    ensures KeptList(a + b, present) == KeptList(a, present) + KeptList(b, present)
    ensures forall s :: KeptList([Text(s)], present) == if s in present then [Text(s)] else []
    decreases |b|
  {
    if b == [] {
      assert a + b == a;
    } else {
      assert (a + b)[..|a + b| - 1] == a + b[..|b| - 1];
      KeptListConcat(a, b[..|b| - 1], present);
    }
  }

  /** Pruning keeps exactly the references to present rows. */
  lemma PrunedDataRefs(schema: Schema, table: string, data: Data, present: set<string>)
    requires OneSided(schema)
    ensures DataRefs(schema, table, PrunedData(schema, table, data, present)) == DataRefs(schema, table, data) * present
  {
    hide DropsField, PrunedJson, JsonRefs;
    var out := PrunedData(schema, table, data, present);
    forall u
      ensures u in DataRefs(schema, table, out) <==> u in DataRefs(schema, table, data) && u in present
    {
      if u in DataRefs(schema, table, out) {
        var col :| col in out && u in JsonRefs(out[col], ColumnOf(schema, table, col));
        PrunedJsonRefs(data[col], ColumnOf(schema, table, col), present);
      }
      if u in DataRefs(schema, table, data) && u in present {
        var col :| col in data && u in JsonRefs(data[col], ColumnOf(schema, table, col));
        PrunedJsonRefs(data[col], ColumnOf(schema, table, col), present);
        assert col in out;
      }
    }
  }

  // ---------- building ----------

  datatype RowInput = RowInput(database: string, table: string, uuid: string, data: Data)

  datatype Built = Built(table: string, uuid: string, data: Data)

  /** One database: its schema, and the tables its models know. */
  datatype DbInfo = DbInfo(name: string, schema: Schema, known: set<string>)

  ghost function Captured(rows: seq<RowInput>, db: string): set<string> {
    set i | 0 <= i < |rows| && rows[i].database == db :: rows[i].uuid
  }

  /** The row is kept for this database. */
  predicate IsKept(info: DbInfo, r: RowInput) {
    r.database == info.name && r.table in info.known
  }

  ghost function KeptUuids(info: DbInfo, rows: seq<RowInput>): set<string> {
    set i | 0 <= i < |rows| && IsKept(info, rows[i]) :: rows[i].uuid
  }

  function BuiltOf(info: DbInfo, r: RowInput, present: set<string>): Built {
    Built(r.table, r.uuid, PrunedData(info.schema, r.table, r.data, present))
  }

  function BuiltRows(info: DbInfo, rows: seq<RowInput>, present: set<string>): seq<Built>
    decreases |rows|
  {
    if rows == [] then []
    else
      BuiltRows(info, rows[..|rows| - 1], present)
      + (if IsKept(info, rows[|rows| - 1]) then [BuiltOf(info, rows[|rows| - 1], present)] else [])
  }

  /** The rows of both databases, in order of input. */
  method BuildFromRows(nb: DbInfo, sb: DbInfo, rows: seq<RowInput>) returns (nbRows: seq<Built>, sbRows: seq<Built>)
    requires nb.name == "nb" && sb.name == "sb"
    ensures nbRows == BuiltRows(nb, rows, Captured(rows, "nb")) && sbRows == BuiltRows(sb, rows, Captured(rows, "sb"))
  {
    var nbPresent: set<string> := {};
    var sbPresent: set<string> := {};
    for i := 0 to |rows|
      invariant nbPresent == set j | 0 <= j < i && rows[j].database == "nb" :: rows[j].uuid
      invariant sbPresent == set j | 0 <= j < i && rows[j].database == "sb" :: rows[j].uuid
    {
      if rows[i].database == "nb" {
        nbPresent := nbPresent + {rows[i].uuid};
      } else if rows[i].database == "sb" {
        sbPresent := sbPresent + {rows[i].uuid};
      }
    }
    nbRows, sbRows := [], [];
    for i := 0 to |rows|
      invariant nbRows == BuiltRows(nb, rows[..i], nbPresent) && sbRows == BuiltRows(sb, rows[..i], sbPresent)
    {
      hide PrunedData;
      assert rows[..i + 1][..i] == rows[..i];
      var r := rows[i];
      if r.database == "nb" && r.table in nb.known {
        var data, _ := PruneDanglingRefs(nb.schema, r.table, r.data, nbPresent);
        nbRows := nbRows + [Built(r.table, r.uuid, data)];
      } else if r.database == "sb" && r.table in sb.known {
        var data, _ := PruneDanglingRefs(sb.schema, r.table, r.data, sbPresent);
        sbRows := sbRows + [Built(r.table, r.uuid, data)];
      }
    }
    assert rows[..|rows|] == rows;
  }

  lemma AboutOne(info: DbInfo, present: set<string>)
    ensures forall r :: IsKept(info, r) <==> r.database == info.name && r.table in info.known
    ensures forall r ::
              BuiltOf(info, r, present) == Built(r.table, r.uuid, PrunedData(info.schema, r.table, r.data, present))
  {
  }

  lemma {:induction false} BuiltAre(info: DbInfo, rows: seq<RowInput>, present: set<string>)
    ensures forall b :: b in BuiltRows(info, rows, present) <==>
              exists i :: 0 <= i < |rows| && IsKept(info, rows[i]) && b == BuiltOf(info, rows[i], present)
    ensures forall r :: IsKept(info, r) <==> r.database == info.name && r.table in info.known
    ensures forall r ::
              BuiltOf(info, r, present) == Built(r.table, r.uuid, PrunedData(info.schema, r.table, r.data, present))
    decreases |rows|
  {
    AboutOne(info, present);
    hide BuiltOf, IsKept;
    if rows != [] {
      var front, last := rows[..|rows| - 1], rows[|rows| - 1];
      BuiltAre(info, front, present);
      forall b
        ensures b in BuiltRows(info, rows, present) <==>
                  exists i :: 0 <= i < |rows| && IsKept(info, rows[i]) && b == BuiltOf(info, rows[i], present)
      {
        if exists i :: 0 <= i < |front| && IsKept(info, front[i]) && b == BuiltOf(info, front[i], present) {
          var i :| 0 <= i < |front| && IsKept(info, front[i]) && b == BuiltOf(info, front[i], present);
          assert rows[i] == front[i];
        }
        if exists i :: 0 <= i < |rows| && IsKept(info, rows[i]) && b == BuiltOf(info, rows[i], present) {
          var i :| 0 <= i < |rows| && IsKept(info, rows[i]) && b == BuiltOf(info, rows[i], present);
          assert i < |front| ==> front[i] == rows[i];
        }
      }
    }
  }

  /**
   * The references of the built rows all resolve among them exactly if no kept row refers to
   * a row that was captured under tables the models do not know only.
   */
  lemma BuiltRefsResolve(info: DbInfo, rows: seq<RowInput>)
    requires OneSided(info.schema)
    ensures var built := BuiltRows(info, rows, Captured(rows, info.name));
            (forall b | b in built :: DataRefs(info.schema, b.table, b.data) <= KeptUuids(info, rows)) <==>
            (forall i | 0 <= i < |rows| && IsKept(info, rows[i]) ::
               DataRefs(info.schema, rows[i].table, rows[i].data) * Captured(rows, info.name) <= KeptUuids(info, rows))
  {
    hide DataRefs, Captured, KeptUuids, IsKept, PrunedData;
    var present := Captured(rows, info.name);
    BuiltAre(info, rows, present);
    forall i | 0 <= i < |rows|
      ensures DataRefs(info.schema, rows[i].table, BuiltOf(info, rows[i], present).data)
           == DataRefs(info.schema, rows[i].table, rows[i].data) * present
    {
      PrunedDataRefs(info.schema, rows[i].table, rows[i].data, present);
    }
    var built := BuiltRows(info, rows, present);
    if forall b | b in built :: DataRefs(info.schema, b.table, b.data) <= KeptUuids(info, rows) {
      forall i | 0 <= i < |rows| && IsKept(info, rows[i])
        ensures DataRefs(info.schema, rows[i].table, rows[i].data) * present <= KeptUuids(info, rows)
      {
        assert BuiltOf(info, rows[i], present) in built;
      }
    }
  }

  /** A reference into a skipped table survives: the built row refers to a row that was not built. */
  lemma SkippedTableLeavesDangling(info: DbInfo, t: string, skipped: string, col: string, u: string, v: string)
    requires t in info.known && skipped !in info.known && u != v
    requires ColumnOf(info.schema, t, col).keyRef
    ensures var rows := [RowInput(info.name, t, u, map[col := Text(v)]), RowInput(info.name, skipped, v, map[])];
            && BuiltRows(info, rows, Captured(rows, info.name)) == [Built(t, u, map[col := Text(v)])]
            && v !in KeptUuids(info, rows)
  {
    var first, second := RowInput(info.name, t, u, map[col := Text(v)]), RowInput(info.name, skipped, v, map[]);
    var rows := [first, second];
    var present := Captured(rows, info.name);
    assert rows[0].uuid == u && rows[1].uuid == v;
    assert v in present;
    assert PrunedData(info.schema, t, first.data, present) == first.data;
    assert rows[..1] == [first] && [first][..0] == [];
    assert BuiltRows(info, [first], present) == [BuiltOf(info, first, present)];
  }
}
