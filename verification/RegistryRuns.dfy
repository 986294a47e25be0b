/** Sensor registrations running at the same time, each failing wherever it likes.

    A call begins with its listing, modelled as one read: the ids of a field come in one page. */
module RegistryRuns {
  import opened Common
  import opened Decimal
  import opened Registry

  datatype Pc =
    | Checking(todo: seq<nat>, broken: bool)
    | PuttingFirst
    | PuttingSecond(id: nat)
    | Crediting(id: nat)
    | Ended(outcome: Outcome)

  datatype Call = Call(field: nat, name: string, kind: int, pc: Pc)

  datatype Sys = Sys(byField: seq<Row>, sensors: seq<SensorRow>, nextId: nat, calls: seq<Call>)

  datatype Step =
    | Begin(field: nat, name: string, kind: int, broken: Option<nat>)
    | ReadName(c: nat, ok: bool)
    | PutFirst(c: nat, fate: Fate)
    | PutSecond(c: nat, fate: Fate)
    | Credit(c: nat, login: string, fate: Fate)

  function Move(s: Sys, c: nat, pc: Pc): Sys
    requires c < |s.calls|
  {
    s.(calls := s.calls[c := s.calls[c].(pc := pc)])
  }

  function Next(s: Sys, step: Step): Sys {
    match step
    case Begin(field, name, kind, broken) =>
      s.(calls := s.calls + [Call(field, name, kind, Checking(Listed(Partition(s.byField, field), broken), broken.Some?))])
    case ReadName(c, ok) =>
      if c >= |s.calls| || !s.calls[c].pc.Checking? then s
      else
        var call := s.calls[c];
        if call.pc.todo == [] then Move(s, c, if call.pc.broken then Ended(ReadError) else PuttingFirst)
        else if ok && NameAt(s.byField, call.field, call.pc.todo[0]) == Some(call.name) then Move(s, c, Ended(Duplicate))
        else Move(s, c, Checking(call.pc.todo[1..], call.pc.broken))
    case PutFirst(c, fate) =>
      if c >= |s.calls| || !s.calls[c].pc.PuttingFirst? then s
      else
        var call, id := s.calls[c], s.nextId;
        var put := if fate == Dropped then [] else [Row(call.field, id, Some(call.name), Some(Print(call.kind)), None)];
        Move(s, c, if fate == Delivered then PuttingSecond(id) else Ended(WriteError))
          .(byField := s.byField + put, nextId := id + 1)
    case PutSecond(c, fate) =>
      if c >= |s.calls| || !s.calls[c].pc.PuttingSecond? then s
      else
        var call, id := s.calls[c], s.calls[c].pc.id;
        var put := if fate == Dropped then [] else [SensorRow(id, call.name, Print(call.kind))];
        Move(s, c, if fate == Delivered then Crediting(id) else Ended(WriteError)).(sensors := s.sensors + put)
    case Credit(c, login, fate) =>
      if c >= |s.calls| || !s.calls[c].pc.Crediting? then s
      else
        var call, id := s.calls[c], s.calls[c].pc.id;
        var rows := if fate == Dropped then s.byField else WithLogin(s.byField, call.field, id, login);
        Move(s, c, Ended(Registered(id))).(byField := rows)
  }

  function Run(s: Sys, steps: seq<Step>): Sys
    decreases |steps|
  {
    if steps == [] then s else Run(Next(s, steps[0]), steps[1..])
  }

  /** The call's row is in `sensors_by_field`. */
  ghost predicate HasRow(rows: seq<Row>, call: Call, id: nat) {
    exists i :: 0 <= i < |rows| && rows[i].field == call.field && Matches(rows[i], SensorRow(id, call.name, Print(call.kind)))
  }

  ghost predicate CallOk(s: Sys, call: Call) {
    && (call.pc.PuttingSecond? ==> HasRow(s.byField, call, call.pc.id))
    && (call.pc.Crediting? ==> HasRow(s.byField, call, call.pc.id))
  }

  ghost predicate Inv(s: Sys) {
    && ValidTables(s.byField, s.sensors, s.nextId)
    && forall i :: 0 <= i < |s.calls| ==> CallOk(s, s.calls[i])
  }

  /** Two versions of the table that differ in credentials only. */
  ghost predicate SameButLogins(a: seq<Row>, b: seq<Row>) {
    |a| == |b| && forall i :: 0 <= i < |a| ==> b[i] == a[i].(login := b[i].login)
  }

  /** On a row that is there, the credential upsert is an update of its credentials. */
  lemma LoginTouchesNothingElse(rows: seq<Row>, i: nat, login: string)
    requires i < |rows|
    ensures SameButLogins(rows, WithLogin(rows, rows[i].field, rows[i].id, login))
  {
  }

  lemma SameButLoginsKeeps(s: Sys, rows: seq<Row>)
    requires Inv(s) && SameButLogins(s.byField, rows)
    ensures Inv(s.(byField := rows))
  {
    var s' := s.(byField := rows);
    forall x | x in s.sensors
      ensures exists r :: r in rows && Matches(r, x)
    {
      var r :| r in s.byField && Matches(r, x);
      var i :| 0 <= i < |s.byField| && s.byField[i] == r;
      assert rows[i] in rows && Matches(rows[i], x);
    }
    forall i | 0 <= i < |s.calls|
      ensures CallOk(s', s.calls[i])
    {
      assert CallOk(s, s.calls[i]);
      HasRowKeeps(s.byField, rows, s.calls[i]);
    }
    forall r | r in rows
      ensures r.id < s.nextId
    {
      var i :| 0 <= i < |rows| && rows[i] == r;
      assert s.byField[i] in s.byField;
    }
  }

  lemma HasRowKeeps(a: seq<Row>, b: seq<Row>, call: Call)
    requires SameButLogins(a, b)
    ensures forall id :: HasRow(a, call, id) ==> HasRow(b, call, id)
  {
    forall id | HasRow(a, call, id)
      ensures HasRow(b, call, id)
    {
      var i :| 0 <= i < |a| && a[i].field == call.field && Matches(a[i], SensorRow(id, call.name, Print(call.kind)));
      assert Matches(b[i], SensorRow(id, call.name, Print(call.kind)));
    }
  }

  lemma MoveKeeps(s: Sys, c: nat, pc: Pc)
    requires Inv(s) && c < |s.calls| && CallOk(s, s.calls[c].(pc := pc))
    ensures Inv(Move(s, c, pc))
  {
    var s' := Move(s, c, pc);
    forall i | 0 <= i < |s'.calls|
      ensures CallOk(s', s'.calls[i])
    {
      assert CallOk(s, s'.calls[i]);
    }
  }

  lemma RowAdded(s: Sys, row: Row)
    requires Inv(s) && row.id == s.nextId && row.name.Some? && row.kind.Some?
    ensures Inv(s.(byField := s.byField + [row], nextId := s.nextId + 1))
    ensures Inv(s.(nextId := s.nextId + 1))
  {
    var rows := s.byField + [row];
    RegistrationKeepsValid(s.byField, s.sensors, s.nextId, row, SensorRow(row.id, row.name.value, row.kind.value));
    forall i | 0 <= i < |s.calls|
      ensures CallOk(s.(byField := rows, nextId := s.nextId + 1), s.calls[i])
    {
      assert CallOk(s, s.calls[i]);
      HasRowAppends(s.byField, row, s.calls[i]);
    }
    forall i | 0 <= i < |s.calls|
      ensures CallOk(s.(nextId := s.nextId + 1), s.calls[i])
    {
      assert CallOk(s, s.calls[i]);
    }
  }

  lemma HasRowAppends(rows: seq<Row>, row: Row, call: Call)
    ensures forall id :: HasRow(rows, call, id) ==> HasRow(rows + [row], call, id)
  {
    forall id | HasRow(rows, call, id)
      ensures HasRow(rows + [row], call, id)
    {
      var i :| 0 <= i < |rows| && rows[i].field == call.field && Matches(rows[i], SensorRow(id, call.name, Print(call.kind)));
      assert (rows + [row])[i] == rows[i];
    }
  }

  lemma PutFirstKeeps(s: Sys, c: nat, fate: Fate)
    requires Inv(s) && c < |s.calls| && s.calls[c].pc.PuttingFirst?
    ensures Inv(Next(s, PutFirst(c, fate)))
  {
    var call := s.calls[c];
    var row := Row(call.field, s.nextId, Some(call.name), Some(Print(call.kind)), None);
    RowAdded(s, row);
    var s1 := if fate == Dropped then s.(nextId := s.nextId + 1)
              else s.(byField := s.byField + [row], nextId := s.nextId + 1);
    assert fate == Dropped ==> s.byField + [] == s.byField;
    if fate == Delivered {
      assert s1.byField[|s.byField|] == row;
      MoveKeeps(s1, c, PuttingSecond(s.nextId));
    } else {
      MoveKeeps(s1, c, Ended(WriteError));
    }
  }

  lemma PutSecondKeeps(s: Sys, c: nat, fate: Fate)
    requires Inv(s) && c < |s.calls| && s.calls[c].pc.PuttingSecond?
    ensures Inv(Next(s, PutSecond(c, fate)))
  {
    var call, id := s.calls[c], s.calls[c].pc.id;
    assert CallOk(s, call);
    var x := SensorRow(id, call.name, Print(call.kind));
    var s1 := if fate == Dropped then s else s.(sensors := s.sensors + [x]);
    assert fate == Dropped ==> s.sensors + [] == s.sensors;
    var i :| 0 <= i < |s.byField| && s.byField[i].field == call.field && Matches(s.byField[i], x);
    assert s.byField[i] in s.byField;
    assert Inv(s1) by {
      forall k | 0 <= k < |s.calls|
        ensures CallOk(s1, s.calls[k])
      {
        assert CallOk(s, s.calls[k]);
      }
    }
    MoveKeeps(s1, c, if fate == Delivered then Crediting(id) else Ended(WriteError));
  }

  lemma CreditFinds(s: Sys, c: nat) returns (i: nat)
    requires Inv(s) && c < |s.calls| && s.calls[c].pc.Crediting?
    ensures i < |s.byField| && s.byField[i].field == s.calls[c].field && s.byField[i].id == s.calls[c].pc.id
  {
    var call, id := s.calls[c], s.calls[c].pc.id;
    assert CallOk(s, call);
    i :| 0 <= i < |s.byField| && s.byField[i].field == call.field
         && Matches(s.byField[i], SensorRow(id, call.name, Print(call.kind)));
  }

  lemma CreditTouches(s: Sys, c: nat, login: string, fate: Fate)
    requires Inv(s) && c < |s.calls| && s.calls[c].pc.Crediting?
    ensures SameButLogins(s.byField, Next(s, Credit(c, login, fate)).byField)
  {
    var i := CreditFinds(s, c);
    LoginTouchesNothingElse(s.byField, i, login);
  }

  lemma CreditIsMove(s: Sys, c: nat, login: string, fate: Fate)
    requires c < |s.calls| && s.calls[c].pc.Crediting?
    ensures var s' := Next(s, Credit(c, login, fate));
            s' == Move(s.(byField := s'.byField), c, Ended(Registered(s.calls[c].pc.id)))
  {
  }

  /** The credential update finds the row the registration wrote: it adds none and changes no name,
      type or id, and afterwards everything is as the invariant says. */
  lemma CreditKeeps(s: Sys, c: nat, login: string, fate: Fate)
    requires Inv(s) && c < |s.calls| && s.calls[c].pc.Crediting?
    ensures Inv(Next(s, Credit(c, login, fate)))
    ensures SameButLogins(s.byField, Next(s, Credit(c, login, fate)).byField)
  {
    CreditTouches(s, c, login, fate);
    CreditIsMove(s, c, login, fate);
    var rows := Next(s, Credit(c, login, fate)).byField;
    SameButLoginsKeeps(s, rows);
    MoveKeeps(s.(byField := rows), c, Ended(Registered(s.calls[c].pc.id)));
  }

  /** Unless it is dropped, it stores the login with that row. */
  lemma CreditStores(s: Sys, c: nat, login: string, fate: Fate)
    requires c < |s.calls| && s.calls[c].pc.Crediting? && fate != Dropped
    ensures HasLogin(Next(s, Credit(c, login, fate)).byField, s.calls[c].field, s.calls[c].pc.id, login)
  {
    LoginExactly(s.byField, s.calls[c].field, s.calls[c].pc.id, login);
  }

  lemma StepKeepsInv(s: Sys, step: Step)
    requires Inv(s)
    ensures Inv(Next(s, step))
    ensures step.Credit? ==> SameButLogins(s.byField, Next(s, step).byField)
  {
    match step
    case Begin(field, name, kind, broken) =>
      var s' := Next(s, step);
      forall i | 0 <= i < |s'.calls|
        ensures CallOk(s', s'.calls[i])
      {
        if i < |s.calls| {
          assert CallOk(s, s.calls[i]);
        }
      }
    case ReadName(c, ok) =>
      if Next(s, step) != s {
        MoveKeeps(s, c, Next(s, step).calls[c].pc);
      }
    case PutFirst(c, fate) =>
      if c < |s.calls| && s.calls[c].pc.PuttingFirst? {
        PutFirstKeeps(s, c, fate);
      }
    case PutSecond(c, fate) =>
      if c < |s.calls| && s.calls[c].pc.PuttingSecond? {
        PutSecondKeeps(s, c, fate);
      }
    case Credit(c, login, fate) =>
      if c < |s.calls| && s.calls[c].pc.Crediting? {
        CreditKeeps(s, c, login, fate);
      }
  }

  lemma {:induction false} RunKeepsInv(s: Sys, steps: seq<Step>)
    requires Inv(s)
    ensures Inv(Run(s, steps))
    decreases |steps|
  {
    if steps != [] {
      StepKeepsInv(s, steps[0]);
      RunKeepsInv(Next(s, steps[0]), steps[1..]);
    }
  }

  function Fresh(byField: seq<Row>, sensors: seq<SensorRow>, nextId: nat): Sys {
    Sys(byField, sensors, nextId, [])
  }

  /** In every run of concurrent registrations, with failures between any two writes, each sensor has
      its `sensors_by_field` row of the same id, name and type, and a credential update, whenever it
      comes, leaves the rows' number, ids, names and types alone. */
  lemma SensorsAreListed(byField: seq<Row>, sensors: seq<SensorRow>, nextId: nat, steps: seq<Step>, step: Step)
    requires ValidTables(byField, sensors, nextId)
    ensures var s := Run(Fresh(byField, sensors, nextId), steps);
            && KeysUnique(s.byField)
            && Included(s.byField, s.sensors)
            && (step.Credit? ==> SameButLogins(s.byField, Next(s, step).byField))
  {
    RunKeepsInv(Fresh(byField, sensors, nextId), steps);
    StepKeepsInv(Run(Fresh(byField, sensors, nextId), steps), step);
  }

  lemma {:induction false} RunSnoc(s: Sys, steps: seq<Step>, step: Step)
    ensures Run(s, steps + [step]) == Next(Run(s, steps), step)
    decreases |steps|
  {
    if steps == [] {
      assert ([] + [step])[1..] == [];
    } else {
      assert (steps + [step])[1..] == steps[1..] + [step];
      RunSnoc(Next(s, steps[0]), steps[1..], step);
    }
  }

  /** Name uniqueness is for serialised calls only: two calls whose checks overlap both register the
      same name in the same field. */
  lemma OverlapDuplicatesName(field: nat, name: string, kind: int)
    ensures var begin := Begin(field, name, kind, None);
            var s := Run(Fresh([], [], 0), [begin] + [begin] + [ReadName(0, true)] + [ReadName(1, true)]
                                           + [PutFirst(0, Delivered)] + [PutFirst(1, Delivered)]);
            ValidTables([], [], 0) && !NamesUnique(s.byField)
  {
    var s0, begin := Fresh([], [], 0), Begin(field, name, kind, None);
    var s1 := Next(s0, begin);
    var s2 := Next(s1, begin);
    assert s2.calls == [Call(field, name, kind, Checking([], false)), Call(field, name, kind, Checking([], false))];
    var s3 := Next(s2, ReadName(0, true));
    var s4 := Next(s3, ReadName(1, true));
    assert s4.calls == [Call(field, name, kind, PuttingFirst), Call(field, name, kind, PuttingFirst)];
    var s5 := Next(s4, PutFirst(0, Delivered));
    var s6 := Next(s5, PutFirst(1, Delivered));
    assert s6.byField[0].name == s6.byField[1].name == Some(name);
    RunSnoc(s0, [], begin);
    assert [] + [begin] == [begin];
    RunSnoc(s0, [begin], begin);
    RunSnoc(s0, [begin] + [begin], ReadName(0, true));
    RunSnoc(s0, [begin] + [begin] + [ReadName(0, true)], ReadName(1, true));
    RunSnoc(s0, [begin] + [begin] + [ReadName(0, true)] + [ReadName(1, true)], PutFirst(0, Delivered));
    RunSnoc(s0, [begin] + [begin] + [ReadName(0, true)] + [ReadName(1, true)] + [PutFirst(0, Delivered)], PutFirst(1, Delivered));
  }

  // ---- a call nobody interferes with ----

  /** Whether the check of `RegisterSensor` meets the name among these ids. */
  predicate Meets(rows: seq<Row>, field: nat, name: string, ids: seq<nat>, unread: set<nat>) {
    exists id | id in ids :: id !in unread && NameAt(rows, field, id) == Some(name)
  }

  function CheckSteps(c: nat, ids: seq<nat>, unread: set<nat>): seq<Step> {
    if ids == [] then [ReadName(c, true)]
    else [ReadName(c, ids[0] !in unread)] + CheckSteps(c, ids[1..], unread)
  }

  /** The check loop, alone. */
  lemma {:induction false} CheckAlone(s: Sys, c: nat, ids: seq<nat>, broken: bool, unread: set<nat>)
    requires c < |s.calls| && s.calls[c].pc == Checking(ids, broken)
    ensures var call := s.calls[c];
            Run(s, CheckSteps(c, ids, unread))
            == Move(s, c, if Meets(s.byField, call.field, call.name, ids, unread) then Ended(Duplicate)
                          else if broken then Ended(ReadError) else PuttingFirst)
    decreases |ids|
  {
    var call := s.calls[c];
    if ids == [] {
      assert [ReadName(c, true)][1..] == [];
    } else {
      var step := ReadName(c, ids[0] !in unread);
      var s' := Next(s, step);
      assert CheckSteps(c, ids, unread)[1..] == CheckSteps(c, ids[1..], unread);
      if s'.calls[c].pc == Ended(Duplicate) {
        assert ids[0] in ids;
        EndedStays(s', c, ids[1..], unread);
      } else {
        CheckAlone(s', c, ids[1..], broken, unread);
        assert forall id :: id in ids <==> id == ids[0] || id in ids[1..];
      }
    }
  }

  lemma {:induction false} EndedStays(s: Sys, c: nat, ids: seq<nat>, unread: set<nat>)
    requires c < |s.calls| && s.calls[c].pc.Ended?
    ensures Run(s, CheckSteps(c, ids, unread)) == s
    decreases |ids|
  {
    if ids == [] {
      assert [ReadName(c, true)][1..] == [];
    } else {
      assert CheckSteps(c, ids, unread)[1..] == CheckSteps(c, ids[1..], unread);
      EndedStays(s, c, ids[1..], unread);
    }
  }

  lemma {:induction false} RunConcat(s: Sys, a: seq<Step>, b: seq<Step>)
    ensures Run(s, a + b) == Run(Run(s, a), b)
    decreases |a|
  {
    if a == [] {
      assert [] + b == b;
    } else {
      assert (a + b)[1..] == a[1..] + b;
      RunConcat(Next(s, a[0]), a[1..], b);
    }
  }

  /** A registration on its own, with any faults, does to the tables what `RegisterSensor` states. */
  lemma AloneIsRegisterSensor(s: Sys, field: nat, name: string, kind: int, f: Faults)
    ensures var c, ids := |s.calls|, Listed(Partition(s.byField, field), f.broken);
            var steps := [Begin(field, name, kind, f.broken)] + CheckSteps(c, ids, f.unread)
                         + [PutFirst(c, f.first)] + [PutSecond(c, f.second)];
            var e := Run(s, steps);
            var stopped := Meets(s.byField, field, name, ids, f.unread) || f.broken.Some?;
            && e.byField == s.byField + (if stopped || f.first == Dropped then []
                                         else [Row(field, s.nextId, Some(name), Some(Print(kind)), None)])
            && e.sensors == s.sensors + (if stopped || f.first != Delivered || f.second == Dropped then []
                                         else [SensorRow(s.nextId, name, Print(kind))])
            && |e.calls| == c + 1
            && (e.calls[c].pc.Crediting? <==> !stopped && f.first == f.second == Delivered)
  {
    var c, ids := |s.calls|, Listed(Partition(s.byField, field), f.broken);
    var begin := Begin(field, name, kind, f.broken);
    var s1 := Next(s, begin);
    assert Run(s, [begin]) == s1 by {
      assert [begin][1..] == [];
    }
    CheckAlone(s1, c, ids, f.broken.Some?, f.unread);
    RunConcat(s, [begin], CheckSteps(c, ids, f.unread));
    var a := [begin] + CheckSteps(c, ids, f.unread);
    RunSnoc(s, a, PutFirst(c, f.first));
    RunSnoc(s, a + [PutFirst(c, f.first)], PutSecond(c, f.second));
    WriteAlone(Run(s, a), c, f);
    assert s.byField + [] == s.byField && s.sensors + [] == s.sensors;
  }

  /** The two inserts, alone. */
  lemma WriteAlone(s: Sys, c: nat, f: Faults)
    requires c < |s.calls| && (s.calls[c].pc.PuttingFirst? || s.calls[c].pc.Ended?)
    ensures var e, call := Next(Next(s, PutFirst(c, f.first)), PutSecond(c, f.second)), s.calls[c];
            var stopped := call.pc.Ended?;
            && (stopped || f.first == Dropped ==> e.byField == s.byField)
            && (!stopped && f.first != Dropped ==>
                  e.byField == s.byField + [Row(call.field, s.nextId, Some(call.name), Some(Print(call.kind)), None)])
            && (stopped || f.first != Delivered || f.second == Dropped ==> e.sensors == s.sensors)
            && (!stopped && f.first == Delivered && f.second != Dropped ==>
                  e.sensors == s.sensors + [SensorRow(s.nextId, call.name, Print(call.kind))])
            && |e.calls| == |s.calls|
            && (e.calls[c].pc.Crediting? <==> !stopped && f.first == f.second == Delivered)
  {
  }
}
