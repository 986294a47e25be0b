/** Field registrations running at the same time.  A field registration does on `fields` what a sensor
    registration does on `sensors_by_field` up to its first insert; the runs of the one are runs of
    the other, and so inherit when names stay unique. */
module FieldRuns {
  import opened Common
  import opened Decimal
  import opened Registry
  import R = RegistryRuns
  import T = RegistryTheorems

  datatype Pc =
    | Checking(todo: seq<nat>, broken: bool)
    | Inserting
    | Ended(outcome: Outcome)

  datatype Call = Call(user: nat, name: string, pc: Pc)

  datatype Sys = Sys(fields: seq<FieldRow>, nextId: nat, calls: seq<Call>)

  datatype Step =
    | Begin(user: nat, name: string, broken: Option<nat>)
    | ReadName(c: nat, ok: bool)
    | Insert(c: nat, fate: Fate)

  function IdsOf(rows: seq<FieldRow>): (ids: seq<nat>)
    ensures |ids| == |rows| && forall i :: 0 <= i < |rows| ==> ids[i] == rows[i].id
  {
    seq(|rows|, i requires 0 <= i < |rows| => rows[i].id)
  }

  /** The name of a user's field, if there is such a row. */
  function NameOf(rows: seq<FieldRow>, user: nat, id: nat): Option<string> {
    if rows == [] then None
    else if rows[0].user == user && rows[0].id == id then Some(rows[0].name)
    else NameOf(rows[1..], user, id)
  }

  function Move(s: Sys, c: nat, pc: Pc): Sys
    requires c < |s.calls|
  {
    s.(calls := s.calls[c := s.calls[c].(pc := pc)])
  }

  function Next(s: Sys, step: Step): Sys {
    match step
    case Begin(user, name, broken) =>
      s.(calls := s.calls + [Call(user, name, Checking(Listed(IdsOf(OfUser(s.fields, user)), broken), broken.Some?))])
    case ReadName(c, ok) =>
      if c >= |s.calls| || !s.calls[c].pc.Checking? then s
      else
        var call := s.calls[c];
        if call.pc.todo == [] then Move(s, c, if call.pc.broken then Ended(ReadError) else Inserting)
        else if ok && NameOf(s.fields, call.user, call.pc.todo[0]) == Some(call.name) then Move(s, c, Ended(Duplicate))
        else Move(s, c, Checking(call.pc.todo[1..], call.pc.broken))
    case Insert(c, fate) =>
      if c >= |s.calls| || !s.calls[c].pc.Inserting? then s
      else
        var call, id := s.calls[c], s.nextId;
        var put := if fate == Dropped then [] else [FieldRow(call.user, id, call.name)];
        Move(s, c, Ended(if fate == Delivered then Registered(id) else WriteError))
          .(fields := s.fields + put, nextId := id + 1)
  }

  function Run(s: Sys, steps: seq<Step>): Sys
    decreases |steps|
  {
    if steps == [] then s else Run(Next(s, steps[0]), steps[1..])
  }

  // ---- as sensor registrations ----

  function AsRow(f: FieldRow): Row {
    Row(f.user, f.id, Some(f.name), Some(Print(0)), None)
  }

  function AsRows(rows: seq<FieldRow>): (r: seq<Row>)
    ensures |r| == |rows| && forall i :: 0 <= i < |rows| ==> r[i] == AsRow(rows[i])
  {
    seq(|rows|, i requires 0 <= i < |rows| => AsRow(rows[i]))
  }

  /** A registered field has put its row; the second insert of a sensor never comes. */
  function AsPc(pc: Pc): R.Pc {
    match pc
    case Checking(todo, broken) => R.Checking(todo, broken)
    case Inserting => R.PuttingFirst
    case Ended(outcome) => if outcome.Registered? then R.PuttingSecond(outcome.id) else R.Ended(outcome)
  }

  function AsCall(c: Call): R.Call {
    R.Call(c.user, c.name, 0, AsPc(c.pc))
  }

  function AsCalls(calls: seq<Call>): (r: seq<R.Call>)
    ensures |r| == |calls| && forall i :: 0 <= i < |calls| ==> r[i] == AsCall(calls[i])
  {
    seq(|calls|, i requires 0 <= i < |calls| => AsCall(calls[i]))
  }

  function AsSensors(s: Sys): R.Sys {
    R.Sys(AsRows(s.fields), [], s.nextId, AsCalls(s.calls))
  }

  function AsStep(x: Step): R.Step {
    match x
    case Begin(user, name, broken) => R.Begin(user, name, 0, broken)
    case ReadName(c, ok) => R.ReadName(c, ok)
    case Insert(c, fate) => R.PutFirst(c, fate)
  }

  function AsSteps(xs: seq<Step>): (r: seq<R.Step>)
    ensures |r| == |xs| && forall i :: 0 <= i < |xs| ==> r[i] == AsStep(xs[i])
  {
    seq(|xs|, i requires 0 <= i < |xs| => AsStep(xs[i]))
  }

  lemma {:induction false} SameListing(rows: seq<FieldRow>, user: nat)
    ensures Partition(AsRows(rows), user) == IdsOf(OfUser(rows, user))
  {
    if rows != [] {
      assert AsRows(rows)[1..] == AsRows(rows[1..]);
      SameListing(rows[1..], user);
    }
  }

  lemma {:induction false} SameNames(rows: seq<FieldRow>, user: nat, id: nat)
    ensures NameAt(AsRows(rows), user, id) == NameOf(rows, user, id)
  {
    if rows != [] {
      assert AsRows(rows)[1..] == AsRows(rows[1..]);
      SameNames(rows[1..], user, id);
    }
  }

  lemma MoveRefines(s: Sys, c: nat, pc: Pc)
    requires c < |s.calls|
    ensures AsSensors(Move(s, c, pc)) == R.Move(AsSensors(s), c, AsPc(pc))
  {
    assert AsCalls(Move(s, c, pc).calls) == R.Move(AsSensors(s), c, AsPc(pc)).calls;
  }

  lemma BeginRefines(s: Sys, user: nat, name: string, broken: Option<nat>)
    ensures AsSensors(Next(s, Begin(user, name, broken))) == R.Next(AsSensors(s), R.Begin(user, name, 0, broken))
  {
    SameListing(s.fields, user);
    var s' := Next(s, Begin(user, name, broken));
    assert AsCalls(s'.calls) == AsCalls(s.calls) + [AsCall(s'.calls[|s.calls|])];
  }

  lemma ReadRefines(s: Sys, c: nat, ok: bool)
    ensures AsSensors(Next(s, ReadName(c, ok))) == R.Next(AsSensors(s), R.ReadName(c, ok))
  {
    if c < |s.calls| && s.calls[c].pc.Checking? {
      MoveRefines(s, c, Next(s, ReadName(c, ok)).calls[c].pc);
      if s.calls[c].pc.todo != [] {
        SameNames(s.fields, s.calls[c].user, s.calls[c].pc.todo[0]);
      }
    }
  }

  lemma InsertRefines(s: Sys, c: nat, fate: Fate)
    ensures AsSensors(Next(s, Insert(c, fate))) == R.Next(AsSensors(s), R.PutFirst(c, fate))
  {
    if c < |s.calls| && s.calls[c].pc.Inserting? {
      var s', put := Next(s, Insert(c, fate)), FieldRow(s.calls[c].user, s.nextId, s.calls[c].name);
      MoveRefines(s, c, s'.calls[c].pc);
      assert AsRows(s.fields + [put]) == AsRows(s.fields) + [AsRow(put)];
      assert s.fields + [] == s.fields && AsRows(s.fields) + [] == AsRows(s.fields);
    }
  }

  lemma StepRefines(s: Sys, x: Step)
    ensures AsSensors(Next(s, x)) == R.Next(AsSensors(s), AsStep(x))
  {
    match x
    case Begin(user, name, broken) => BeginRefines(s, user, name, broken);
    case ReadName(c, ok) => ReadRefines(s, c, ok);
    case Insert(c, fate) => InsertRefines(s, c, fate);
  }

  /** Runs of field registrations are runs of sensor registrations. */
  lemma {:induction false} RunRefines(s: Sys, xs: seq<Step>)
    ensures AsSensors(Run(s, xs)) == R.Run(AsSensors(s), AsSteps(xs))
    decreases |xs|
  {
    if xs != [] {
      StepRefines(s, xs[0]);
      RunRefines(Next(s, xs[0]), xs[1..]);
      assert AsSteps(xs)[1..] == AsSteps(xs[1..]);
    }
  }

  // ---- names of one user's fields ----

  /** Ids are in use once per user and below the supply. */
  ghost predicate ValidFields(rows: seq<FieldRow>, nextId: nat) {
    && (forall i, j :: 0 <= i < j < |rows| ==> !(rows[i].user == rows[j].user && rows[i].id == rows[j].id))
    && (forall i :: 0 <= i < |rows| ==> rows[i].id < nextId)
  }

  ghost predicate Inv(s: Sys) {
    R.Inv(AsSensors(s))
  }

  function Fresh(rows: seq<FieldRow>, nextId: nat): Sys {
    Sys(rows, nextId, [])
  }

  lemma FreshInv(rows: seq<FieldRow>, nextId: nat)
    requires ValidFields(rows, nextId)
    ensures Inv(Fresh(rows, nextId))
    ensures AsSensors(Fresh(rows, nextId)) == R.Fresh(AsRows(rows), [], nextId)
  {
    forall r | r in AsRows(rows)
      ensures r.id < nextId
    {
      var i :| 0 <= i < |rows| && AsRows(rows)[i] == r;
    }
    assert AsCalls([]) == [];
  }

  lemma SameUniqueness(rows: seq<FieldRow>)
    ensures NamesUnique(AsRows(rows)) <==> FieldNamesUnique(rows)
  {
    if NamesUnique(AsRows(rows)) {
      forall i, j | 0 <= i < j < |rows| && rows[i].user == rows[j].user
        ensures rows[i].name != rows[j].name
      {
        assert AsRows(rows)[i].field == AsRows(rows)[j].field;
      }
    }
  }

  predicate Active(pc: Pc) {
    pc.Checking? || pc.Inserting?
  }

  /** No call begins while another of its user and name is between its beginning and its insert, and
      every listing and name read succeeds. */
  ghost predicate Serial(s: Sys, steps: seq<Step>)
    decreases |steps|
  {
    steps != [] ==>
      && (steps[0].Begin? ==>
            && steps[0].broken == None
            && forall i :: 0 <= i < |s.calls| && Active(s.calls[i].pc) ==>
                             s.calls[i].user != steps[0].user || s.calls[i].name != steps[0].name)
      && (steps[0].ReadName? ==> steps[0].ok)
      && Serial(Next(s, steps[0]), steps[1..])
  }

  lemma {:induction false} SerialRefines(s: Sys, xs: seq<Step>)
    requires Serial(s, xs)
    ensures T.Serial(AsSensors(s), AsSteps(xs))
    decreases |xs|
  {
    if xs != [] {
      StepRefines(s, xs[0]);
      SerialRefines(Next(s, xs[0]), xs[1..]);
      assert AsSteps(xs)[1..] == AsSteps(xs[1..]);
    }
  }

  /** In every run of field registrations without such an overlap and with no failing read, each user's
      field names stay unique, whatever inserts fail. */
  lemma UniqueIfSerial(rows: seq<FieldRow>, nextId: nat, steps: seq<Step>)
    requires ValidFields(rows, nextId) && FieldNamesUnique(rows) && Serial(Fresh(rows, nextId), steps)
    ensures FieldNamesUnique(Run(Fresh(rows, nextId), steps).fields)
  {
    FreshInv(rows, nextId);
    SameUniqueness(rows);
    RunRefines(Fresh(rows, nextId), steps);
    SerialRefines(Fresh(rows, nextId), steps);
    T.UniqueIfSerial(AsRows(rows), [], nextId, AsSteps(steps));
    SameUniqueness(Run(Fresh(rows, nextId), steps).fields);
  }

  /** A call whose reads succeed is turned away exactly if its name was taken when it began. */
  lemma BeginDecides(s: Sys, user: nat, name: string, steps: seq<Step>)
    requires Inv(s)
    requires forall x :: x in steps && x.ReadName? && x.c == |s.calls| ==> x.ok
    ensures var c, e := |s.calls|, Run(Next(s, Begin(user, name, None)), steps);
            && c < |e.calls|
            && (!e.calls[c].pc.Checking? ==>
                  (e.calls[c].pc == Ended(Duplicate) <==> HasName(AsRows(s.fields), user, name)))
  {
    BeginRefines(s, user, name, None);
    RunRefines(Next(s, Begin(user, name, None)), steps);
    forall x | x in AsSteps(steps) && x.ReadName? && x.c == |s.calls|
      ensures x.ok
    {
      var i :| 0 <= i < |steps| && AsSteps(steps)[i] == x;
      assert steps[i] in steps;
    }
    T.BeginDecides(AsSensors(s), user, name, 0, AsSteps(steps));
  }

  function Named(rows: seq<FieldRow>, user: nat, name: string): nat {
    if rows == [] then 0
    else
      var n := |rows| - 1;
      Named(rows[..n], user, name) + if rows[n].user == user && rows[n].name == name then 1 else 0
  }

  lemma {:induction false} SameCount(rows: seq<FieldRow>, user: nat, name: string)
    ensures T.Named(AsRows(rows), user, name) == Named(rows, user, name)
  {
    if rows != [] {
      var n := |rows| - 1;
      assert AsRows(rows)[..n] == AsRows(rows[..n]);
      SameCount(rows[..n], user, name);
    }
  }

  /** No field of the user has the name, and no call is about to insert it. */
  ghost predicate FreeOf(s: Sys, user: nat, name: string) {
    && (forall i :: 0 <= i < |s.fields| ==> s.fields[i].user != user || s.fields[i].name != name)
    && (forall i :: 0 <= i < |s.calls| && Active(s.calls[i].pc) ==> s.calls[i].user != user || s.calls[i].name != name)
  }

  predicate Undisturbing(x: Step, user: nat, name: string, c: nat, d: nat) {
    && (x.Begin? ==> x.user != user || x.name != name)
    && (x.ReadName? && (x.c == c || x.c == d) ==> x.ok)
    && (x.Insert? && (x.c == c || x.c == d) ==> x.fate != Dropped)
  }

  /** The state in which the second of two calls of a name begins. */
  function AtSecond(s: Sys, user: nat, name: string, between: seq<Step>): Sys {
    Run(Next(s, Begin(user, name, None)), between)
  }

  lemma FreeRefines(s: Sys, user: nat, name: string)
    requires FreeOf(s, user, name)
    ensures T.FreeOf(AsSensors(s), user, name)
  {
    var rows := AsRows(s.fields);
    assert forall i :: 0 <= i < |rows| ==> rows[i].field != user || Text(rows[i].name) != name;
  }

  lemma UndisturbingRefines(xs: seq<Step>, user: nat, name: string, c: nat, d: nat)
    requires forall x :: x in xs ==> Undisturbing(x, user, name, c, d)
    ensures forall x :: x in AsSteps(xs) ==> T.Undisturbing(x, user, name, c, d)
  {
    forall x | x in AsSteps(xs)
      ensures T.Undisturbing(x, user, name, c, d)
    {
      var i :| 0 <= i < |xs| && AsSteps(xs)[i] == x;
      assert xs[i] in xs;
    }
  }

  lemma AtSecondRefines(s: Sys, user: nat, name: string, between: seq<Step>)
    ensures AsSensors(AtSecond(s, user, name, between)) == T.AtSecond(AsSensors(s), user, name, 0, AsSteps(between))
  {
    BeginRefines(s, user, name, None);
    RunRefines(Next(s, Begin(user, name, None)), between);
  }

  /** Two calls register the same free name for a user, with calls of any other user or name around them.
      Once both are past their insert, there are two fields of the name if the second began before the
      first inserted, and one if it did not. */
  lemma BothInsertIffOverlap(s: Sys, user: nat, name: string, between: seq<Step>, after: seq<Step>)
    requires Inv(s) && FreeOf(s, user, name)
    requires forall x :: x in between ==> Undisturbing(x, user, name, |s.calls|, |s.calls|)
    requires var c, d := |s.calls|, |AtSecond(s, user, name, between).calls|;
             forall x :: x in after ==> Undisturbing(x, user, name, c, d)
    ensures var c, m := |s.calls|, AtSecond(s, user, name, between);
            var d, e := |m.calls|, Run(Next(m, Begin(user, name, None)), after);
            && c < d < |e.calls|
            && (!Active(e.calls[c].pc) && !Active(e.calls[d].pc) ==>
                  && Named(e.fields, user, name) == (if Active(m.calls[c].pc) then 2 else 1)
                  && (Active(m.calls[c].pc) ==> !FieldNamesUnique(e.fields)))
  {
    var c, m := |s.calls|, AtSecond(s, user, name, between);
    var d, m1 := |m.calls|, Next(m, Begin(user, name, None));
    var e := Run(m1, after);
    FreeRefines(s, user, name);
    UndisturbingRefines(between, user, name, c, c);
    UndisturbingRefines(after, user, name, c, d);
    AtSecondRefines(s, user, name, between);
    BeginRefines(m, user, name, None);
    RunRefines(m1, after);
    T.BothInsertIffOverlap(AsSensors(s), user, name, 0, 0, AsSteps(between), AsSteps(after));
    SameCount(e.fields, user, name);
    SameUniqueness(e.fields);
  }

  // ---- a call nobody interferes with ----

  function CheckSteps(c: nat, ids: seq<nat>, unread: set<nat>): seq<Step> {
    if ids == [] then [ReadName(c, true)]
    else [ReadName(c, ids[0] !in unread)] + CheckSteps(c, ids[1..], unread)
  }

  lemma {:induction false} CheckStepsRefine(c: nat, ids: seq<nat>, unread: set<nat>)
    ensures AsSteps(CheckSteps(c, ids, unread)) == R.CheckSteps(c, ids, unread)
  {
    if ids != [] {
      var x := ReadName(c, ids[0] !in unread);
      CheckStepsRefine(c, ids[1..], unread);
      assert AsSteps([x] + CheckSteps(c, ids[1..], unread)) == [AsStep(x)] + AsSteps(CheckSteps(c, ids[1..], unread));
    }
  }

  lemma AsRowsInjective(a: seq<FieldRow>, b: seq<FieldRow>)
    requires AsRows(a) == AsRows(b)
    ensures a == b
  {
    forall i | 0 <= i < |a|
      ensures a[i] == b[i]
    {
      assert AsRow(a[i]) == AsRow(b[i]);
    }
  }

  lemma ListedName(rows: seq<FieldRow>, nextId: nat, user: nat, x: FieldRow)
    requires ValidFields(rows, nextId) && x in OfUser(rows, user)
    ensures x.user == user && NameAt(AsRows(rows), user, x.id) == Some(x.name)
  {
    OfUserExactly(rows, user);
    var i :| 0 <= i < |rows| && rows[i] == x;
    NameAtUnique(AsRows(rows), i);
  }

  /** The rows a listing yields before it breaks, if it does. */
  function Seen(mine: seq<FieldRow>, broken: Option<nat>): (seen: seq<FieldRow>)
    ensures forall x :: x in seen ==> x in mine
    ensures IdsOf(seen) == Listed(IdsOf(mine), broken)
  {
    if broken.Some? && broken.value < |mine| then
      assert IdsOf(mine[..broken.value]) == IdsOf(mine)[..broken.value];
      mine[..broken.value]
    else mine
  }

  /** What the check of `RegisterField` looks for, by row and by id. */
  lemma MeetsByRow(rows: seq<FieldRow>, nextId: nat, user: nat, name: string, broken: Option<nat>, unread: set<nat>)
    requires ValidFields(rows, nextId)
    ensures var mine := OfUser(rows, user);
            R.Meets(AsRows(rows), user, name, Listed(IdsOf(mine), broken), unread)
            <==> exists x :: x in Seen(mine, broken) && x.id !in unread && x.name == name
  {
    var seen := Seen(OfUser(rows, user), broken);
    forall x | x in seen
      ensures NameAt(AsRows(rows), user, x.id) == Some(x.name)
    {
      ListedName(rows, nextId, user, x);
    }
    IdsAndRows(seen);
  }

  lemma IdsAndRows(seen: seq<FieldRow>)
    ensures forall x :: x in seen ==> x.id in IdsOf(seen)
    ensures forall id :: id in IdsOf(seen) ==> exists x :: x in seen && x.id == id
  {
    forall x | x in seen
      ensures x.id in IdsOf(seen)
    {
      var k :| 0 <= k < |seen| && seen[k] == x;
      assert IdsOf(seen)[k] == x.id;
    }
    forall id | id in IdsOf(seen)
      ensures exists x :: x in seen && x.id == id
    {
      var k :| 0 <= k < |seen| && IdsOf(seen)[k] == id;
      assert seen[k] in seen;
    }
  }

  lemma AloneSteps(c: nat, user: nat, name: string, broken: Option<nat>, ids: seq<nat>, unread: set<nat>, insert: Fate)
    ensures AsSteps([Begin(user, name, broken)] + CheckSteps(c, ids, unread) + [Insert(c, insert)])
         == [R.Begin(user, name, 0, broken)] + R.CheckSteps(c, ids, unread) + [R.PutFirst(c, insert)]
  {
    CheckStepsRefine(c, ids, unread);
    var checks := CheckSteps(c, ids, unread);
    assert AsSteps([Begin(user, name, broken)] + checks) == [R.Begin(user, name, 0, broken)] + AsSteps(checks);
  }

  /** A field registration on its own, with any faults, does to the table what `RegisterField` states. */
  lemma AloneIsRegisterField(s: Sys, user: nat, name: string, broken: Option<nat>, unread: set<nat>, insert: Fate)
    ensures var c, ids := |s.calls|, Listed(IdsOf(OfUser(s.fields, user)), broken);
            var steps := [Begin(user, name, broken)] + CheckSteps(c, ids, unread) + [Insert(c, insert)];
            var stopped := R.Meets(AsRows(s.fields), user, name, ids, unread) || broken.Some?;
            Run(s, steps).fields
            == s.fields + if stopped || insert == Dropped then [] else [FieldRow(user, s.nextId, name)]
  {
    var c, ids := |s.calls|, Listed(IdsOf(OfUser(s.fields, user)), broken);
    var steps := [Begin(user, name, broken)] + CheckSteps(c, ids, unread) + [Insert(c, insert)];
    var stopped := R.Meets(AsRows(s.fields), user, name, ids, unread) || broken.Some?;
    RunRefines(s, steps);
    AloneSteps(c, user, name, broken, ids, unread, insert);
    SameListing(s.fields, user);
    AloneOnSensors(AsSensors(s), user, name, broken, ids, unread, insert);
    RowsBack(Run(s, steps).fields, s.fields, FieldRow(user, s.nextId, name), !stopped && insert != Dropped);
  }

  lemma RowsBack(later: seq<FieldRow>, rows: seq<FieldRow>, row: FieldRow, put: bool)
    requires AsRows(later) == AsRows(rows) + if put then [AsRow(row)] else []
    ensures later == rows + if put then [row] else []
  {
    assert AsRows(rows + [row]) == AsRows(rows) + [AsRow(row)];
    assert rows + [] == rows && AsRows(rows) + [] == AsRows(rows);
    AsRowsInjective(later, if put then rows + [row] else rows);
  }

  lemma AloneOnSensors(s: R.Sys, field: nat, name: string, broken: Option<nat>, ids: seq<nat>, unread: set<nat>, fate: Fate)
    requires ids == Listed(Partition(s.byField, field), broken)
    ensures var c := |s.calls|;
            var steps := [R.Begin(field, name, 0, broken)] + R.CheckSteps(c, ids, unread) + [R.PutFirst(c, fate)];
            var stopped := R.Meets(s.byField, field, name, ids, unread) || broken.Some?;
            R.Run(s, steps).byField
            == s.byField + if stopped || fate == Dropped then []
                           else [Row(field, s.nextId, Some(name), Some(Print(0)), None)]
  {
    var c, begin := |s.calls|, R.Begin(field, name, 0, broken);
    var s1 := R.Next(s, begin);
    assert R.Run(s, [begin]) == s1 by {
      assert [begin][1..] == [];
    }
    R.CheckAlone(s1, c, ids, broken.Some?, unread);
    R.RunConcat(s, [begin], R.CheckSteps(c, ids, unread));
    R.RunSnoc(s, [begin] + R.CheckSteps(c, ids, unread), R.PutFirst(c, fate));
    assert s.byField + [] == s.byField;
  }
}
