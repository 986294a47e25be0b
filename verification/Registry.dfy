/** Registering fields and sensors: check-then-insert over two tables, and the sensor type as text. */
module Registry {
  import opened Common
  import opened Decimal

  // ---- the sensor type column ----

  function LegacyKind(text: string): Option<int> {
    if text == "temperature" then Some(0)
    else if text == "humidity" then Some(1)
    else if text == "ph_level" then Some(2)
    else None
  }

  function KindOf(text: string): Option<int> {
    var n := Atoi(text);
    if n.Some? then n else LegacyKind(text)
  }

  /** Every type number survives the column; the legacy names are no numbers and keep their meaning. */
  lemma KindRoundTrip(kind: int)
    requires -0x8000_0000_0000_0000 <= kind <= 0x7FFF_FFFF_FFFF_FFFF
    ensures KindOf(Print(kind)) == Some(kind)
    ensures KindOf("temperature") == Some(0) && KindOf("humidity") == Some(1) && KindOf("ph_level") == Some(2)
  {
    AtoiInvertsPrint(kind);
    assert "temperature"[10] == 'e' && "humidity"[7] == 'y' && "ph_level"[7] == 'l';
    NotANumber("temperature");
    NotANumber("humidity");
    NotANumber("ph_level");
    assert "humidity"[0] == 'h' && "ph_level"[0] == 'p' && "temperature"[0] == 't';
  }

  // ---- the tables ----

  /** A `sensors_by_field` row; columns an upsert did not set are null. */
  datatype Row = Row(field: nat, id: nat, name: Option<string>, kind: Option<string>, login: Option<string>)

  /** A `sensors` row. */
  datatype SensorRow = SensorRow(id: nat, name: string, kind: string)

  datatype FieldRow = FieldRow(user: nat, id: nat, name: string)

  function IndexOf(rows: seq<Row>, field: nat, id: nat): (i: nat)
    ensures i <= |rows|
    ensures i < |rows| ==> rows[i].field == field && rows[i].id == id
    ensures forall j :: 0 <= j < i ==> !(rows[j].field == field && rows[j].id == id)
  {
    if rows == [] || (rows[0].field == field && rows[0].id == id) then 0 else 1 + IndexOf(rows[1..], field, id)
  }

  /** An UPDATE is an upsert: it would create the row if there were none. */
  function WithLogin(rows: seq<Row>, field: nat, id: nat, login: string): seq<Row> {
    var i := IndexOf(rows, field, id);
    if i < |rows| then rows[i := rows[i].(login := Some(login))]
    else rows + [Row(field, id, None, None, Some(login))]
  }

  function Partition(rows: seq<Row>, field: nat): seq<nat> {
    if rows == [] then []
    else (if rows[0].field == field then [rows[0].id] else []) + Partition(rows[1..], field)
  }

  /** A null column reads as the empty text. */
  function Text(column: Option<string>): string {
    if column.Some? then column.value else ""
  }

  /** The name a row's id reads back as, if there is such a row. */
  function NameAt(rows: seq<Row>, field: nat, id: nat): Option<string> {
    var i := IndexOf(rows, field, id);
    if i < |rows| then Some(Text(rows[i].name)) else None
  }

  ghost predicate HasName(rows: seq<Row>, field: nat, name: string) {
    exists r :: r in rows && r.field == field && Text(r.name) == name
  }

  ghost predicate KeysUnique(rows: seq<Row>) {
    forall i, j :: 0 <= i < j < |rows| ==> !(rows[i].field == rows[j].field && rows[i].id == rows[j].id)
  }

  /** Names are unique within each field. */
  ghost predicate NamesUnique(rows: seq<Row>) {
    forall i, j :: 0 <= i < j < |rows| && rows[i].field == rows[j].field ==> Text(rows[i].name) != Text(rows[j].name)
  }

  /** Each `sensors` row has a `sensors_by_field` row of the same id, name and type. */
  ghost predicate Included(rows: seq<Row>, sensors: seq<SensorRow>) {
    forall s :: s in sensors ==> exists r :: r in rows && Matches(r, s)
  }

  predicate Matches(r: Row, s: SensorRow) {
    r.id == s.id && r.name == Some(s.name) && r.kind == Some(s.kind)
  }

  ghost predicate ValidTables(rows: seq<Row>, sensors: seq<SensorRow>, nextId: nat) {
    && KeysUnique(rows)
    && (forall r :: r in rows ==> r.id < nextId)
    && Included(rows, sensors)
  }

  /** However far a registration gets, the tables stay valid. */
  lemma RegistrationKeepsValid(rows: seq<Row>, sensors: seq<SensorRow>, nextId: nat, row: Row, sensor: SensorRow)
    requires ValidTables(rows, sensors, nextId)
    requires row.id == nextId && Matches(row, sensor)
    ensures ValidTables(rows, sensors, nextId + 1)
    ensures ValidTables(rows + [row], sensors, nextId + 1)
    ensures ValidTables(rows + [row], sensors + [sensor], nextId + 1)
  {
    IncludedGrows(rows, sensors, row, sensor);
    assert forall i :: 0 <= i < |rows| ==> rows[i] in rows;
  }

  lemma IncludedGrows(rows: seq<Row>, sensors: seq<SensorRow>, row: Row, sensor: SensorRow)
    requires Included(rows, sensors)
    ensures Included(rows + [row], sensors)
    ensures Matches(row, sensor) ==> Included(rows + [row], sensors + [sensor])
  {
    forall s | s in sensors
      ensures exists r :: r in rows + [row] && Matches(r, s)
    {
      var r :| r in rows && Matches(r, s);
      assert r in rows + [row];
    }
    assert row in rows + [row];
  }

  lemma {:induction false} PartitionIds(rows: seq<Row>, field: nat)
    ensures forall id :: id in Partition(rows, field) <==> IndexOf(rows, field, id) < |rows|
  {
    if rows != [] {
      PartitionIds(rows[1..], field);
    }
  }

  lemma NameAtUnique(rows: seq<Row>, i: nat)
    requires KeysUnique(rows) && i < |rows|
    ensures NameAt(rows, rows[i].field, rows[i].id) == Some(Text(rows[i].name))
  {
    var j := IndexOf(rows, rows[i].field, rows[i].id);
    assert !(j < i);
  }

  // ---- sequential calls ----

  datatype Outcome = Registered(id: nat) | Duplicate | ReadError | WriteError

  /** How the requests of one registration end.  `broken` is the number of ids the listing yields
      before it fails, if it does; `unread` the ids whose name cannot be read. */
  datatype Faults = Faults(broken: Option<nat>, unread: set<nat>, first: Fate, second: Fate)

  function Listed(ids: seq<nat>, broken: Option<nat>): seq<nat> {
    if broken.Some? && broken.value < |ids| then ids[..broken.value] else ids
  }

  class MetaStore {
    var byField: seq<Row>
    var sensors: seq<SensorRow>
    var fields: seq<FieldRow>
    /** The static `field_name` column; nothing modelled here writes it. */
    var fieldNames: map<nat, string>
    /** The supply of UUIDs, which never repeat. */
    var nextId: nat

    constructor ()
      ensures byField == [] && sensors == [] && fields == [] && fieldNames == map[] && nextId == 0
    {
      byField, sensors, fields, fieldNames, nextId := [], [], [], map[], 0;
    }

    /** Ids are in use at most once, and every sensor is also listed under its field. */
    ghost predicate Valid()
      reads this
    {
      ValidTables(byField, sensors, nextId)
    }

    method RegisterSensor(field: nat, name: string, kind: int, f: Faults) returns (r: Outcome)
      modifies this`byField, this`sensors, this`nextId
      ensures r == Duplicate <==>
                exists id :: id in Listed(Partition(old(byField), field), f.broken) && id !in f.unread
                             && NameAt(old(byField), field, id) == Some(name)
      ensures r == ReadError <==> r != Duplicate && f.broken.Some?
      ensures r.Registered? <==> r != Duplicate && f.broken == None && f.first == f.second == Delivered
      ensures r.Registered? ==> r.id == old(nextId)
      ensures var row := Row(field, old(nextId), Some(name), Some(Print(kind)), None);
              byField == old(byField) + if r.Duplicate? || r.ReadError? || f.first == Dropped then [] else [row]
      ensures var row := SensorRow(old(nextId), name, Print(kind));
              sensors == old(sensors) + if r.Duplicate? || r.ReadError? || f.first != Delivered || f.second == Dropped
                                        then [] else [row]
      ensures nextId == old(nextId) + if r.Duplicate? || r.ReadError? then 0 else 1
      ensures old(Valid()) ==> Valid()
      ensures old(Valid()) && f.broken == None && f.unread == {} ==> (r == Duplicate <==> old(HasName(byField, field, name)))
      ensures old(NamesUnique(byField)) ==>
                (NamesUnique(byField)
                 <==> !old(HasName(byField, field, name)) || r.Duplicate? || r.ReadError? || f.first == Dropped)
      ensures old(Valid() && NamesUnique(byField)) && f.unread == {} ==> NamesUnique(byField)
    {
      ghost var row := Row(field, nextId, Some(name), Some(Print(kind)), None);
      if Valid() {
        ReadableCheckIsExact(byField, field, name);
        RegistrationKeepsValid(byField, sensors, nextId, row, SensorRow(nextId, name, Print(kind)));
      }
      if NamesUnique(byField) {
        UniqueAfterInsert(byField, row);
      }
      var ids := Listed(Partition(byField, field), f.broken);
      for i := 0 to |ids|
        invariant byField == old(byField) && sensors == old(sensors) && nextId == old(nextId)
        invariant forall k :: 0 <= k < i ==> ids[k] in f.unread || NameAt(byField, field, ids[k]) != Some(name)
      {
        if ids[i] !in f.unread && NameAt(byField, field, ids[i]) == Some(name) {
          return Duplicate;
        }
      }
      if f.broken.Some? {
        return ReadError;
      }
      var newId := nextId;
      nextId := nextId + 1;
      if f.first != Dropped {
        byField := byField + [Row(field, newId, Some(name), Some(Print(kind)), None)];
      }
      if f.first != Delivered {
        return WriteError;
      }
      if f.second != Dropped {
        sensors := sensors + [SensorRow(newId, name, Print(kind))];
      }
      if f.second != Delivered {
        return WriteError;
      }
      return Registered(newId);
    }

    method StoreSensorCredentials(field: nat, id: nat, login: string, fate: Fate) returns (ok: bool)
      modifies this`byField
      ensures byField == if fate == Dropped then old(byField) else WithLogin(old(byField), field, id, login)
      ensures ok <==> fate == Delivered
      ensures fate != Dropped ==> HasLogin(byField, field, id, login) && OnlyLogin(old(byField), byField, field, id)
    {
      LoginExactly(byField, field, id, login);
      if fate != Dropped {
        var i := IndexOf(byField, field, id);
        if i < |byField| {
          byField := byField[i := byField[i].(login := Some(login))];
        } else {
          byField := byField + [Row(field, id, None, None, Some(login))];
        }
      }
      ok := fate == Delivered;
    }

    /** One user's fields: the same check, then one insert. */
    method RegisterField(user: nat, name: string, broken: Option<nat>, unread: set<nat>, insert: Fate) returns (r: Outcome)
      modifies this`fields, this`nextId
      ensures var mine := OfUser(old(fields), user);
              var seen := if broken.Some? && broken.value < |mine| then mine[..broken.value] else mine;
              && (r == Duplicate <==> exists x :: x in seen && x.id !in unread && x.name == name)
              && (r == ReadError <==> r != Duplicate && broken.Some?)
              && (r.Registered? <==> r != Duplicate && broken == None && insert == Delivered)
              && fields == old(fields) + if r.Duplicate? || r.ReadError? || insert == Dropped then []
                                         else [FieldRow(user, old(nextId), name)]
      ensures broken == None && unread == {} ==>
                (r == Duplicate <==> exists x :: x in old(fields) && x.user == user && x.name == name)
      ensures old(FieldNamesUnique(fields)) && broken == None && unread == {} ==> FieldNamesUnique(fields)
    {
      OfUserExactly(fields, user);
      var mine := OfUser(fields, user);
      var seen := if broken.Some? && broken.value < |mine| then mine[..broken.value] else mine;
      for i := 0 to |seen|
        invariant fields == old(fields) && nextId == old(nextId)
        invariant forall k :: 0 <= k < i ==> seen[k].id in unread || seen[k].name != name
      {
        if seen[i].id !in unread && seen[i].name == name {
          return Duplicate;
        }
      }
      if broken.Some? {
        return ReadError;
      }
      var newId := nextId;
      nextId := nextId + 1;
      if insert != Dropped {
        fields := fields + [FieldRow(user, newId, name)];
      }
      if insert != Delivered {
        return WriteError;
      }
      return Registered(newId);
    }

    /** The sensors of a field, as far as their type can be decoded, and the field's name as their rows
        give it.  `broken` is the number of rows the listing yields before it fails, if it does. */
    method GetSensorsByFieldID(field: nat, broken: Option<nat>) returns (r: Option<(seq<Sensor>, string)>)
      ensures r == None <==> broken.Some?
      ensures r.Some? ==> r.value.0 == Listing(byField, field)
      ensures r.Some? ==> r.value.1 == if r.value.0 != [] && field in fieldNames then fieldNames[field] else ""
    {
      var results: seq<Sensor> := [];
      var fieldName: Option<string> := None;
      var scanned := 0;
      for i := 0 to |byField|
        invariant broken == None ==> results == Listing(byField[..i], field)
        invariant fieldName == if results == [] then None
                               else Some(if field in fieldNames then fieldNames[field] else "")
      {
        var row := byField[i];
        assert byField[..i + 1][..i] == byField[..i];
        if row.field != field {
          continue;
        }
        if broken == Some(scanned) {
          return None;
        }
        scanned := scanned + 1;
        var sType := Atoi(Text(row.kind));
        if sType == None {
          sType := LegacyKind(Text(row.kind));
          if sType == None {
            continue;
          }
        }
        results := results + [Sensor(row.id, Text(row.name), sType.value)];
        if fieldName == None {
          fieldName := Some(if field in fieldNames then fieldNames[field] else "");
        }
      }
      assert byField[..|byField|] == byField;
      if broken.Some? {
        return None;
      }
      r := Some((results, Text(fieldName)));
    }
  }

  datatype Sensor = Sensor(id: nat, name: string, kind: int)

  function OfUser(rows: seq<FieldRow>, user: nat): seq<FieldRow> {
    if rows == [] then []
    else (if rows[0].user == user then [rows[0]] else []) + OfUser(rows[1..], user)
  }

  lemma {:induction false} OfUserExactly(rows: seq<FieldRow>, user: nat)
    ensures forall x :: x in OfUser(rows, user) <==> x in rows && x.user == user
  {
    if rows != [] {
      OfUserExactly(rows[1..], user);
      assert forall x :: x in rows <==> x == rows[0] || x in rows[1..];
    }
  }

  /** Field names are unique within each user's fields. */
  ghost predicate FieldNamesUnique(rows: seq<FieldRow>) {
    forall i, j :: 0 <= i < j < |rows| && rows[i].user == rows[j].user ==> rows[i].name != rows[j].name
  }

  /** A row of the field as a sensor, if its type can be decoded. */
  function AsSensor(r: Row, field: nat): Option<Sensor> {
    var kind := KindOf(Text(r.kind));
    if r.field == field && kind.Some? then Some(Sensor(r.id, Text(r.name), kind.value)) else None
  }

  function Listing(rows: seq<Row>, field: nat): seq<Sensor> {
    if rows == [] then []
    else
      var x := AsSensor(rows[|rows| - 1], field);
      Listing(rows[..|rows| - 1], field) + if x.Some? then [x.value] else []
  }

  /** With the whole partition read, a sensor is turned away exactly if its name is taken; so
      uncontended registrations keep names unique within each field. */
  lemma ReadableCheckIsExact(rows: seq<Row>, field: nat, name: string)
    requires KeysUnique(rows)
    ensures (exists id :: id in Partition(rows, field) && NameAt(rows, field, id) == Some(name))
            <==> HasName(rows, field, name)
  {
    PartitionIds(rows, field);
    if HasName(rows, field, name) {
      var r :| r in rows && r.field == field && Text(r.name) == name;
      var i :| 0 <= i < |rows| && rows[i] == r;
      NameAtUnique(rows, i);
      assert !(IndexOf(rows, field, r.id) == |rows|);
    }
    if id :| id in Partition(rows, field) && NameAt(rows, field, id) == Some(name) {
      assert rows[IndexOf(rows, field, id)] in rows;
    }
  }

  lemma UniqueAfterInsert(rows: seq<Row>, row: Row)
    requires NamesUnique(rows)
    ensures NamesUnique(rows + [row]) <==> !HasName(rows, row.field, Text(row.name))
  {
    var rows' := rows + [row];
    if HasName(rows, row.field, Text(row.name)) {
      var r :| r in rows && r.field == row.field && Text(r.name) == Text(row.name);
      var i :| 0 <= i < |rows| && rows[i] == r;
      assert rows'[i].field == rows'[|rows|].field && Text(rows'[i].name) == Text(rows'[|rows|].name);
    } else {
      forall i | 0 <= i < |rows| && rows[i].field == row.field
        ensures Text(rows[i].name) != Text(row.name)
      {
        assert rows[i] in rows;
      }
    }
  }

  /** `out` lists exactly the rows that `f` makes something of, which are at positions `at`, in order. */
  ghost predicate InOrder(rows: seq<Row>, f: Row -> Option<Sensor>, at: seq<nat>, out: seq<Sensor>) {
    && |at| == |out|
    && (forall j, k :: 0 <= j < k < |at| ==> at[j] < at[k])
    && (forall k :: 0 <= k < |at| ==> at[k] < |rows| && f(rows[at[k]]) == Some(out[k]))
    && (forall i :: 0 <= i < |rows| && f(rows[i]).Some? ==> i in at)
  }

  /** A listing keeps every decodable row of the field, once and in scan order, and nothing else. */
  lemma {:induction false} ListingIsInOrder(rows: seq<Row>, field: nat) returns (at: seq<nat>)
    ensures InOrder(rows, r => AsSensor(r, field), at, Listing(rows, field))
  {
    at := [];
    if rows != [] {
      var n, f := |rows| - 1, (r: Row) => AsSensor(r, field);
      at := ListingIsInOrder(rows[..n], field);
      var out := Listing(rows[..n], field);
      assert rows == rows[..n] + [rows[n]];
      if f(rows[n]).Some? {
        InOrderTakes(rows[..n], f, at, out, rows[n]);
        at := at + [n];
      } else {
        InOrderSkips(rows[..n], f, at, out, rows[n]);
        assert out + [] == out;
      }
    }
  }

  lemma InOrderTakes(rows: seq<Row>, f: Row -> Option<Sensor>, at: seq<nat>, out: seq<Sensor>, row: Row)
    requires InOrder(rows, f, at, out) && f(row).Some?
    ensures InOrder(rows + [row], f, at + [|rows|], out + [f(row).value])
  {
    var at' := at + [|rows|];
    assert forall i :: i in at ==> i in at';
    assert at'[|at|] == |rows|;
  }

  lemma InOrderSkips(rows: seq<Row>, f: Row -> Option<Sensor>, at: seq<nat>, out: seq<Sensor>, row: Row)
    requires InOrder(rows, f, at, out) && f(row) == None
    ensures InOrder(rows + [row], f, at, out)
  {
  }

  // ---- in plain terms ----

  /** Which texts the type column decodes, and to what. */
  lemma KindExactly(text: string, k: int)
    ensures KindOf(text) == Some(k) <==>
              || Atoi(text) == Some(k)
              || (Atoi(text) == None
                  && ((text == "temperature" && k == 0) || (text == "humidity" && k == 1) || (text == "ph_level" && k == 2)))
  {
  }

  /** What a row is listed as. */
  lemma AsSensorExactly(r: Row, field: nat, x: Sensor)
    ensures AsSensor(r, field) == Some(x) <==>
              && r.field == field && x.id == r.id
              && x.name == (if r.name.Some? then r.name.value else "")
              && KindOf(if r.kind.Some? then r.kind.value else "") == Some(x.kind)
  {
  }

  /** Register, then list: a registered sensor is listed in its field with its id, name and type, and
      other listings do not change. */
  lemma RegisteredIsListed(rows: seq<Row>, field: nat, id: nat, name: string, kind: int, other: nat)
    requires -0x8000_0000_0000_0000 <= kind <= 0x7FFF_FFFF_FFFF_FFFF
    ensures var rows' := rows + [Row(field, id, Some(name), Some(Print(kind)), None)];
            && Listing(rows', field) == Listing(rows, field) + [Sensor(id, name, kind)]
            && (other != field ==> Listing(rows', other) == Listing(rows, other))
  {
    var row := Row(field, id, Some(name), Some(Print(kind)), None);
    KindRoundTrip(kind);
    assert (rows + [row])[..|rows|] == rows && (rows + [row])[|rows|] == row;
    assert Listing(rows, other) + [] == Listing(rows, other);
  }

  /** A name is taken in a field if some row of it has the name, a null name counting as the empty one. */
  lemma TakenExactly(rows: seq<Row>, field: nat, name: string)
    ensures HasName(rows, field, name) <==>
              exists i :: 0 <= i < |rows| && rows[i].field == field
                          && (rows[i].name == Some(name) || (rows[i].name == None && name == ""))
  {
    if HasName(rows, field, name) {
      var r :| r in rows && r.field == field && Text(r.name) == name;
      var i :| 0 <= i < |rows| && rows[i] == r;
    }
  }

  /** A listing that breaks after k ids has yielded the first k. */
  lemma ListedExactly(ids: seq<nat>, broken: Option<nat>, k: nat)
    ensures k < |Listed(ids, broken)| <==> k < |ids| && (broken.Some? ==> k < broken.value)
    ensures k < |Listed(ids, broken)| ==> Listed(ids, broken)[k] == ids[k]
  {
  }

  /** The ids of a field's rows, in scan order. */
  lemma PartitionGrows(rows: seq<Row>, row: Row, field: nat)
    ensures Partition(rows + [row], field) == Partition(rows, field) + if row.field == field then [row.id] else []
  {
    if rows != [] {
      assert (rows + [row])[1..] == rows[1..] + [row];
      PartitionGrows(rows[1..], row, field);
    } else {
      assert [row][1..] == [];
    }
  }

  /** Some row of this key has this login. */
  ghost predicate HasLogin(rows: seq<Row>, field: nat, id: nat, login: string) {
    exists i :: 0 <= i < |rows| && rows[i].field == field && rows[i].id == id && rows[i].login == Some(login)
  }

  /** Rows change in the login of this key only; if the key had no row, one with nothing else is added. */
  ghost predicate OnlyLogin(rows: seq<Row>, later: seq<Row>, field: nat, id: nat) {
    && |rows| <= |later|
    && (forall i :: 0 <= i < |rows| ==>
          later[i] == rows[i] || (rows[i].field == field && rows[i].id == id && later[i] == rows[i].(login := later[i].login)))
    && (|later| == |rows| <==> exists i :: 0 <= i < |rows| && rows[i].field == field && rows[i].id == id)
    && (|later| > |rows| ==> |later| == |rows| + 1 && later[|rows|] == Row(field, id, None, None, later[|rows|].login))
  }

  /** The credential update stores the login under its key and touches nothing else. */
  lemma LoginExactly(rows: seq<Row>, field: nat, id: nat, login: string)
    ensures HasLogin(WithLogin(rows, field, id, login), field, id, login)
    ensures OnlyLogin(rows, WithLogin(rows, field, id, login), field, id)
  {
    var i, later := IndexOf(rows, field, id), WithLogin(rows, field, id, login);
    assert later[i].login == Some(login) && later[i].field == field && later[i].id == id;
    if i < |rows| {
      assert rows[i].field == field && rows[i].id == id;
    }
  }
}
