/** When names stay unique although registrations overlap: the check of a call is decided the moment
    it begins, so what counts is whether another call of that name has put its row by then. */
module RegistryTheorems {
  import opened Common
  import opened Decimal
  import opened Registry
  import opened RegistryRuns

  /** Between its beginning and its first insert. */
  predicate Active(pc: Pc) {
    pc.Checking? || pc.PuttingFirst?
  }

  /** Past its first insert. */
  predicate Put(pc: Pc) {
    pc.PuttingSecond? || pc.Crediting? || (pc.Ended? && (pc.outcome.WriteError? || pc.outcome.Registered?))
  }

  // ---- rows never lose their place or name ----

  ghost predicate Extends(rows: seq<Row>, later: seq<Row>) {
    |rows| <= |later| && forall i :: 0 <= i < |rows| ==> later[i] == rows[i].(login := later[i].login)
  }

  lemma RowsExtend(s: Sys, step: Step)
    requires Inv(s)
    ensures Extends(s.byField, Next(s, step).byField)
  {
    if step.Credit? {
      StepKeepsInv(s, step);
    } else if !step.PutFirst? {
      assert Next(s, step).byField == s.byField;
    }
  }

  lemma NameAtExtends(rows: seq<Row>, later: seq<Row>, field: nat, id: nat)
    requires Extends(rows, later) && IndexOf(rows, field, id) < |rows|
    ensures NameAt(later, field, id) == NameAt(rows, field, id)
  {
    var i, j := IndexOf(rows, field, id), IndexOf(later, field, id);
    assert later[i].field == field && later[i].id == id;
    assert forall k :: 0 <= k < i ==> later[k].field == rows[k].field && later[k].id == rows[k].id;
    assert i == j;
  }

  // ---- a check is decided when it begins ----

  ghost predicate ListsTaken(rows: seq<Row>, field: nat, name: string, todo: seq<nat>) {
    && (forall id :: id in todo ==> IndexOf(rows, field, id) < |rows|)
    && (HasName(rows, field, name) <==> exists id :: id in todo && NameAt(rows, field, id) == Some(name))
  }

  /** Where call `c` stands, given the rows there were when it began. */
  ghost predicate DecidedBy(rows: seq<Row>, s: Sys, c: nat) {
    && c < |s.calls|
    && Extends(rows, s.byField)
    && var call := s.calls[c];
       && (call.pc.Checking? ==> !call.pc.broken && ListsTaken(rows, call.field, call.name, call.pc.todo))
       && (call.pc.PuttingFirst? || Put(call.pc) ==> !HasName(rows, call.field, call.name))
       && (call.pc == Ended(Duplicate) ==> HasName(rows, call.field, call.name))
       && call.pc != Ended(ReadError)
  }

  lemma ReadDecided(rows: seq<Row>, s: Sys, c: nat)
    requires DecidedBy(rows, s, c)
    ensures DecidedBy(rows, Next(s, ReadName(c, true)), c)
  {
    var call := s.calls[c];
    if call.pc.Checking? && call.pc.todo != [] {
      var id, rest := call.pc.todo[0], call.pc.todo[1..];
      NameAtExtends(rows, s.byField, call.field, id);
      assert forall x :: x in call.pc.todo <==> x == id || x in rest;
    }
  }

  lemma OthersLeaveDecided(rows: seq<Row>, s: Sys, s': Sys, c: nat)
    requires DecidedBy(rows, s, c)
    requires Extends(s.byField, s'.byField)
    requires c < |s'.calls| && s'.calls[c] == s.calls[c]
    ensures DecidedBy(rows, s', c)
  {
  }

  lemma DecidedStep(rows: seq<Row>, s: Sys, step: Step, c: nat)
    requires Inv(s) && DecidedBy(rows, s, c)
    requires step.ReadName? && step.c == c ==> step.ok
    ensures DecidedBy(rows, Next(s, step), c)
  {
    RowsExtend(s, step);
    var s' := Next(s, step);
    if step.ReadName? && step.c == c {
      ReadDecided(rows, s, c);
    } else if s'.calls[c] == s.calls[c] {
      OthersLeaveDecided(rows, s, s', c);
    } else {
      assert Extends(rows, s'.byField);
    }
  }

  lemma BeginsDecided(s: Sys, field: nat, name: string, kind: int)
    requires Inv(s)
    ensures DecidedBy(s.byField, Next(s, Begin(field, name, kind, None)), |s.calls|)
  {
    PartitionIds(s.byField, field);
    ReadableCheckIsExact(s.byField, field, name);
  }

  lemma KeyStays(s: Sys, step: Step, c: nat)
    requires c < |s.calls|
    ensures var e := Next(s, step);
            c < |e.calls| && e.calls[c].field == s.calls[c].field && e.calls[c].name == s.calls[c].name
  {
  }

  lemma {:induction false} DecidedRun(rows: seq<Row>, s: Sys, steps: seq<Step>, c: nat)
    requires Inv(s) && DecidedBy(rows, s, c)
    requires forall x :: x in steps && x.ReadName? && x.c == c ==> x.ok
    ensures DecidedBy(rows, Run(s, steps), c)
    ensures var call := Run(s, steps).calls[c]; call.field == s.calls[c].field && call.name == s.calls[c].name
    decreases |steps|
  {
    if steps != [] {
      StepKeepsInv(s, steps[0]);
      DecidedStep(rows, s, steps[0], c);
      KeyStays(s, steps[0], c);
      DecidedRun(rows, Next(s, steps[0]), steps[1..], c);
    }
  }

  /** Whatever else goes on, a call whose own reads succeed is turned away as a duplicate if and only
      if its name was taken when it began, not when it looked or when it inserts.  (A call begins
      with its listing, which is one read here: a field's sensors fit one page.) */
  lemma BeginDecides(s: Sys, field: nat, name: string, kind: int, steps: seq<Step>)
    requires Inv(s)
    requires forall x :: x in steps && x.ReadName? && x.c == |s.calls| ==> x.ok
    ensures var c := |s.calls|;
            var e := Run(Next(s, Begin(field, name, kind, None)), steps);
            && c < |e.calls|
            && var pc := e.calls[c].pc;
               && (Active(pc) || Put(pc) || pc == Ended(Duplicate))
               && (!pc.Checking? ==> (pc == Ended(Duplicate) <==> HasName(s.byField, field, name)))
  {
    var begin := Begin(field, name, kind, None);
    BeginsDecided(s, field, name, kind);
    StepKeepsInv(s, begin);
    DecidedRun(s.byField, Next(s, begin), steps, |s.calls|);
  }

  // ---- calls of one name one after the other ----

  ghost predicate SameKey(a: Call, b: Call) {
    a.field == b.field && a.name == b.name
  }

  /** No call begins while another of its field and name is between its beginning and its first
      insert, and every listing and name read succeeds. */
  ghost predicate Serial(s: Sys, steps: seq<Step>)
    decreases |steps|
  {
    steps != [] ==>
      && (steps[0].Begin? ==>
            && steps[0].broken == None
            && forall i :: 0 <= i < |s.calls| && Active(s.calls[i].pc) ==>
                             s.calls[i].field != steps[0].field || s.calls[i].name != steps[0].name)
      && (steps[0].ReadName? ==> steps[0].ok)
      && Serial(Next(s, steps[0]), steps[1..])
  }

  /** What an active call still has to find out about the rows there are now. */
  ghost predicate Informed(rows: seq<Row>, call: Call) {
    && (call.pc.Checking? ==>
          && !call.pc.broken
          && forall k :: 0 <= k < |rows| && rows[k].field == call.field && Text(rows[k].name) == call.name ==>
                           rows[k].id in call.pc.todo)
    && (call.pc.PuttingFirst? ==> !HasName(rows, call.field, call.name))
  }

  ghost predicate OneByOne(s: Sys) {
    && NamesUnique(s.byField)
    && (forall i :: 0 <= i < |s.calls| ==> Informed(s.byField, s.calls[i]))
    && (forall i, j :: 0 <= i < j < |s.calls| && Active(s.calls[i].pc) && Active(s.calls[j].pc) ==>
                         !SameKey(s.calls[i], s.calls[j]))
  }

  lemma InformedBegin(rows: seq<Row>, field: nat, name: string, kind: int)
    ensures Informed(rows, Call(field, name, kind, Checking(Partition(rows, field), false)))
  {
    PartitionIds(rows, field);
    forall k | 0 <= k < |rows| && rows[k].field == field
      ensures rows[k].id in Partition(rows, field)
    {
      assert IndexOf(rows, field, rows[k].id) <= k;
    }
  }

  lemma InformedRead(s: Sys, c: nat)
    requires KeysUnique(s.byField) && c < |s.calls| && s.calls[c].pc.Checking? && Informed(s.byField, s.calls[c])
    ensures Informed(s.byField, Next(s, ReadName(c, true)).calls[c])
  {
    var call := s.calls[c];
    if call.pc.todo != [] {
      forall k | 0 <= k < |s.byField| && s.byField[k].field == call.field && Text(s.byField[k].name) == call.name
        ensures s.byField[k].id == call.pc.todo[0] ==> NameAt(s.byField, call.field, call.pc.todo[0]) == Some(call.name)
      {
        NameAtUnique(s.byField, k);
      }
    }
  }

  lemma InformedAppend(rows: seq<Row>, row: Row, call: Call)
    requires Informed(rows, call)
    requires Active(call.pc) ==> row.field != call.field || Text(row.name) != call.name
    ensures Informed(rows + [row], call)
  {
    if call.pc.PuttingFirst? {
      assert forall r :: r in rows + [row] <==> r in rows || r == row;
    }
  }

  lemma InformedLogins(a: seq<Row>, b: seq<Row>, call: Call)
    requires SameButLogins(a, b) && Informed(a, call)
    ensures Informed(b, call)
  {
    NamesSurviveLogins(a, b, call.field, call.name);
  }

  lemma NamesSurviveLogins(a: seq<Row>, b: seq<Row>, field: nat, name: string)
    requires SameButLogins(a, b)
    ensures HasName(a, field, name) <==> HasName(b, field, name)
    ensures NamesUnique(a) ==> NamesUnique(b)
  {
    if HasName(a, field, name) {
      var r :| r in a && r.field == field && Text(r.name) == name;
      var i :| 0 <= i < |a| && a[i] == r;
      assert b[i] in b;
    }
    if HasName(b, field, name) {
      var r :| r in b && r.field == field && Text(r.name) == name;
      var i :| 0 <= i < |b| && b[i] == r;
      assert a[i] in a;
    }
  }

  lemma PutOneByOne(s: Sys, c: nat, fate: Fate)
    requires OneByOne(s) && c < |s.calls| && s.calls[c].pc.PuttingFirst?
    ensures OneByOne(Next(s, PutFirst(c, fate)))
  {
    var s', call := Next(s, PutFirst(c, fate)), s.calls[c];
    var row := Row(call.field, s.nextId, Some(call.name), Some(Print(call.kind)), None);
    if fate == Dropped {
      assert s'.byField == s.byField;
    } else {
      assert Informed(s.byField, call);
      UniqueAfterInsert(s.byField, row);
      forall i | 0 <= i < |s'.calls|
        ensures Informed(s'.byField, s'.calls[i])
      {
        if i != c {
          assert Active(s.calls[i].pc) ==> !SameKey(s.calls[i], call);
          InformedAppend(s.byField, row, s.calls[i]);
        }
      }
    }
  }

  lemma LoginsOneByOne(s: Sys, rows: seq<Row>)
    requires OneByOne(s) && SameButLogins(s.byField, rows)
    ensures OneByOne(s.(byField := rows))
  {
    NamesSurviveLogins(s.byField, rows, 0, "");
    forall i | 0 <= i < |s.calls|
      ensures Informed(rows, s.calls[i])
    {
      InformedLogins(s.byField, rows, s.calls[i]);
    }
  }

  lemma EndOneByOne(s: Sys, c: nat, pc: Pc)
    requires OneByOne(s) && c < |s.calls| && !Active(pc)
    ensures OneByOne(Move(s, c, pc))
  {
  }

  lemma CreditOneByOne(s: Sys, c: nat, login: string, fate: Fate)
    requires Inv(s) && OneByOne(s)
    ensures OneByOne(Next(s, Credit(c, login, fate)))
  {
    if c < |s.calls| && s.calls[c].pc.Crediting? {
      var s' := Next(s, Credit(c, login, fate));
      CreditKeeps(s, c, login, fate);
      LoginsOneByOne(s, s'.byField);
      EndOneByOne(s.(byField := s'.byField), c, s'.calls[c].pc);
    }
  }

  lemma BeginOneByOne(s: Sys, field: nat, name: string, kind: int)
    requires OneByOne(s)
    requires forall i :: 0 <= i < |s.calls| && Active(s.calls[i].pc) ==> s.calls[i].field != field || s.calls[i].name != name
    ensures OneByOne(Next(s, Begin(field, name, kind, None)))
  {
    InformedBegin(s.byField, field, name, kind);
  }

  lemma ReadOneByOne(s: Sys, c: nat)
    requires Inv(s) && OneByOne(s)
    ensures OneByOne(Next(s, ReadName(c, true)))
  {
    if c < |s.calls| && s.calls[c].pc.Checking? {
      InformedRead(s, c);
    }
  }

  lemma OneByOneStep(s: Sys, steps: seq<Step>)
    requires Inv(s) && OneByOne(s) && steps != [] && Serial(s, steps)
    ensures OneByOne(Next(s, steps[0]))
  {
    match steps[0]
    case Begin(field, name, kind, _) => BeginOneByOne(s, field, name, kind);
    case ReadName(c, _) => ReadOneByOne(s, c);
    case PutFirst(c, fate) =>
      if c < |s.calls| && s.calls[c].pc.PuttingFirst? {
        PutOneByOne(s, c, fate);
      }
    case PutSecond(c, fate) => SecondOneByOne(s, c, fate);
    case Credit(c, login, fate) => CreditOneByOne(s, c, login, fate);
  }

  lemma SecondOneByOne(s: Sys, c: nat, fate: Fate)
    requires OneByOne(s)
    ensures OneByOne(Next(s, PutSecond(c, fate)))
  {
  }

  lemma {:induction false} OneByOneRun(s: Sys, steps: seq<Step>)
    requires Inv(s) && OneByOne(s) && Serial(s, steps)
    ensures OneByOne(Run(s, steps))
    decreases |steps|
  {
    if steps != [] {
      StepKeepsInv(s, steps[0]);
      OneByOneStep(s, steps);
      OneByOneRun(Next(s, steps[0]), steps[1..]);
    }
  }

  /** In every run of registrations, however interleaved and whatever writes fail: if calls of one
      field and name do not begin before each other's first insert and no read fails, names stay
      unique within fields. */
  lemma UniqueIfSerial(byField: seq<Row>, sensors: seq<SensorRow>, nextId: nat, steps: seq<Step>)
    requires ValidTables(byField, sensors, nextId) && NamesUnique(byField)
    requires Serial(Fresh(byField, sensors, nextId), steps)
    ensures NamesUnique(Run(Fresh(byField, sensors, nextId), steps).byField)
  {
    OneByOneRun(Fresh(byField, sensors, nextId), steps);
  }

  // ---- two calls of one name ----

  function Named(rows: seq<Row>, field: nat, name: string): nat {
    if rows == [] then 0
    else
      var n := |rows| - 1;
      Named(rows[..n], field, name) + if rows[n].field == field && Text(rows[n].name) == name then 1 else 0
  }

  lemma {:induction false} NamedZero(rows: seq<Row>, field: nat, name: string)
    ensures Named(rows, field, name) == 0 <==> !HasName(rows, field, name)
  {
    if rows != [] {
      var n := |rows| - 1;
      NamedZero(rows[..n], field, name);
      assert forall r :: r in rows <==> r in rows[..n] || r == rows[n];
    }
  }

  lemma {:induction false} NamedTwice(rows: seq<Row>, field: nat, name: string)
    requires NamesUnique(rows)
    ensures Named(rows, field, name) <= 1
  {
    if rows != [] {
      var n := |rows| - 1;
      NamedTwice(rows[..n], field, name);
      NamedZero(rows[..n], field, name);
      assert rows == rows[..n] + [rows[n]];
      UniqueAfterInsert(rows[..n], rows[n]);
    }
  }

  lemma {:induction false} NamedLogins(a: seq<Row>, b: seq<Row>, field: nat, name: string)
    requires SameButLogins(a, b)
    ensures Named(a, field, name) == Named(b, field, name)
  {
    if a != [] {
      NamedLogins(a[..|a| - 1], b[..|b| - 1], field, name);
    }
  }

  lemma NamedAppend(rows: seq<Row>, row: Row, field: nat, name: string)
    ensures Named(rows + [row], field, name)
         == Named(rows, field, name) + if row.field == field && Text(row.name) == name then 1 else 0
  {
    assert (rows + [row])[..|rows|] == rows;
  }

  function PutsOf(s: Sys, c: nat): nat {
    if c < |s.calls| && Put(s.calls[c].pc) then 1 else 0
  }

  function PutsOfBoth(s: Sys, c: nat, d: nat): nat {
    PutsOf(s, c) + if c == d then 0 else PutsOf(s, d)
  }

  /** Calls `c` and `d` are the only ones of the name that may still insert, and the rows of that
      name are theirs. */
  ghost predicate OnlyTheirs(s: Sys, field: nat, name: string, c: nat, d: nat) {
    && (forall i :: 0 <= i < |s.calls| && Active(s.calls[i].pc) && s.calls[i].field == field && s.calls[i].name == name ==>
                      i == c || i == d)
    && (forall i :: (i == c || i == d) && 0 <= i < |s.calls| ==> s.calls[i].field == field && s.calls[i].name == name)
    && Named(s.byField, field, name) == PutsOfBoth(s, c, d)
  }

  /** Neither another beginning of that name nor a dropped first insert of the two. */
  predicate Undisturbing(x: Step, field: nat, name: string, c: nat, d: nat) {
    && (x.Begin? ==> x.field != field || x.name != name)
    && (x.ReadName? && (x.c == c || x.c == d) ==> x.ok)
    && (x.PutFirst? && (x.c == c || x.c == d) ==> x.fate != Dropped)
  }

  /** A call moves without passing its first insert, or two versions of the table name the same. */
  lemma TheirsMove(s: Sys, i: nat, pc: Pc, field: nat, name: string, c: nat, d: nat)
    requires OnlyTheirs(s, field, name, c, d) && i < |s.calls|
    requires Put(pc) == Put(s.calls[i].pc) && (Active(pc) ==> Active(s.calls[i].pc))
    ensures OnlyTheirs(Move(s, i, pc), field, name, c, d)
  {
    var s' := Move(s, i, pc);
    assert PutsOf(s', c) == PutsOf(s, c) && PutsOf(s', d) == PutsOf(s, d);
  }

  lemma TheirsRows(s: Sys, rows: seq<Row>, field: nat, name: string, c: nat, d: nat)
    requires OnlyTheirs(s, field, name, c, d) && Named(rows, field, name) == Named(s.byField, field, name)
    ensures OnlyTheirs(s.(byField := rows), field, name, c, d)
  {
    var s' := s.(byField := rows);
    assert PutsOf(s', c) == PutsOf(s, c) && PutsOf(s', d) == PutsOf(s, d);
  }

  lemma TheirsCredit(s: Sys, x: Step, field: nat, name: string, c: nat, d: nat)
    requires Inv(s) && OnlyTheirs(s, field, name, c, d) && x.Credit?
    ensures OnlyTheirs(Next(s, x), field, name, c, d)
  {
    if x.c < |s.calls| && s.calls[x.c].pc.Crediting? {
      var rows := Next(s, x).byField;
      StepKeepsInv(s, x);
      NamedLogins(s.byField, rows, field, name);
      TheirsRows(s, rows, field, name, c, d);
      TheirsMove(s.(byField := rows), x.c, Ended(Registered(s.calls[x.c].pc.id)), field, name, c, d);
    }
  }

  lemma TheirsRead(s: Sys, x: Step, field: nat, name: string, c: nat, d: nat)
    requires OnlyTheirs(s, field, name, c, d) && Undisturbing(x, field, name, c, d) && x.ReadName?
    ensures OnlyTheirs(Next(s, x), field, name, c, d)
  {
    if x.c < |s.calls| && s.calls[x.c].pc.Checking? {
      TheirsMove(s, x.c, Next(s, x).calls[x.c].pc, field, name, c, d);
    }
  }

  lemma TheirsSecond(s: Sys, x: Step, field: nat, name: string, c: nat, d: nat)
    requires OnlyTheirs(s, field, name, c, d) && x.PutSecond?
    ensures OnlyTheirs(Next(s, x), field, name, c, d)
  {
    if x.c < |s.calls| && s.calls[x.c].pc.PuttingSecond? {
      TheirsMove(s, x.c, Next(s, x).calls[x.c].pc, field, name, c, d);
      var s' := Move(s, x.c, Next(s, x).calls[x.c].pc);
      assert OnlyTheirs(s'.(sensors := Next(s, x).sensors), field, name, c, d);
    }
  }

  lemma OthersPut(s: Sys, i: nat, pc: Pc, field: nat, name: string, c: nat, d: nat)
    requires OnlyTheirs(s, field, name, c, d) && i < |s.calls| && i != c && i != d && !Active(pc)
    ensures OnlyTheirs(Move(s, i, pc), field, name, c, d)
  {
    var s' := Move(s, i, pc);
    assert PutsOf(s', c) == PutsOf(s, c) && PutsOf(s', d) == PutsOf(s, d);
  }

  lemma TheirOwnPut(s: Sys, i: nat, pc: Pc, rows: seq<Row>, field: nat, name: string, c: nat, d: nat)
    requires OnlyTheirs(s, field, name, c, d) && i < |s.calls| && (i == c || i == d)
    requires s.calls[i].pc.PuttingFirst? && Put(pc) && Named(rows, field, name) == Named(s.byField, field, name) + 1
    ensures OnlyTheirs(Move(s, i, pc).(byField := rows), field, name, c, d)
  {
    var s' := Move(s, i, pc).(byField := rows);
    assert PutsOf(s', i) == PutsOf(s, i) + 1;
    assert i != c ==> PutsOf(s', c) == PutsOf(s, c);
    assert i != d ==> PutsOf(s', d) == PutsOf(s, d);
  }

  lemma TheirsPut(s: Sys, x: Step, field: nat, name: string, c: nat, d: nat)
    requires OnlyTheirs(s, field, name, c, d) && Undisturbing(x, field, name, c, d) && x.PutFirst?
    ensures OnlyTheirs(Next(s, x), field, name, c, d)
  {
    if x.c < |s.calls| && s.calls[x.c].pc.PuttingFirst? {
      var call, s' := s.calls[x.c], Next(s, x);
      var pc := s'.calls[x.c].pc;
      NamedAppend(s.byField, Row(call.field, s.nextId, Some(call.name), Some(Print(call.kind)), None), field, name);
      assert s.byField + [] == s.byField;
      if x.c == c || x.c == d {
        TheirOwnPut(s, x.c, pc, s'.byField, field, name, c, d);
        LaterId(Move(s, x.c, pc).(byField := s'.byField), s'.nextId, field, name, c, d);
      } else {
        OthersPut(s, x.c, pc, field, name, c, d);
        TheirsRows(Move(s, x.c, pc), s'.byField, field, name, c, d);
        LaterId(Move(s, x.c, pc).(byField := s'.byField), s'.nextId, field, name, c, d);
      }
    }
  }

  lemma LaterId(s: Sys, nextId: nat, field: nat, name: string, c: nat, d: nat)
    requires OnlyTheirs(s, field, name, c, d)
    ensures OnlyTheirs(s.(nextId := nextId), field, name, c, d)
  {
    var s' := s.(nextId := nextId);
    assert PutsOf(s', c) == PutsOf(s, c) && PutsOf(s', d) == PutsOf(s, d);
  }

  lemma TheirsBegin(s: Sys, x: Step, field: nat, name: string, c: nat, d: nat)
    requires OnlyTheirs(s, field, name, c, d) && Undisturbing(x, field, name, c, d) && x.Begin?
    requires c < |s.calls| && d < |s.calls|
    ensures OnlyTheirs(Next(s, x), field, name, c, d)
  {
  }

  lemma TheirsStep(s: Sys, x: Step, field: nat, name: string, c: nat, d: nat)
    requires Inv(s) && OnlyTheirs(s, field, name, c, d) && Undisturbing(x, field, name, c, d)
    requires c < |s.calls| && d < |s.calls|
    ensures OnlyTheirs(Next(s, x), field, name, c, d)
  {
    match x
    case Begin(_, _, _, _) => TheirsBegin(s, x, field, name, c, d);
    case ReadName(_, _) => TheirsRead(s, x, field, name, c, d);
    case PutFirst(_, _) => TheirsPut(s, x, field, name, c, d);
    case PutSecond(_, _) => TheirsSecond(s, x, field, name, c, d);
    case Credit(_, _, _) => TheirsCredit(s, x, field, name, c, d);
  }

  lemma {:induction false} TheirsRun(s: Sys, steps: seq<Step>, field: nat, name: string, c: nat, d: nat)
    requires Inv(s) && OnlyTheirs(s, field, name, c, d)
    requires forall x :: x in steps ==> Undisturbing(x, field, name, c, d)
    requires c < |s.calls| && d < |s.calls|
    ensures OnlyTheirs(Run(s, steps), field, name, c, d)
    decreases |steps|
  {
    if steps != [] {
      StepKeepsInv(s, steps[0]);
      TheirsStep(s, steps[0], field, name, c, d);
      TheirsRun(Next(s, steps[0]), steps[1..], field, name, c, d);
    }
  }

  /** The name is free and nobody is about to take it. */
  ghost predicate FreeOf(s: Sys, field: nat, name: string) {
    && !HasName(s.byField, field, name)
    && forall i :: 0 <= i < |s.calls| && Active(s.calls[i].pc) ==> s.calls[i].field != field || s.calls[i].name != name
  }

  lemma FirstBegins(s: Sys, field: nat, name: string, kind: int)
    requires FreeOf(s, field, name)
    ensures OnlyTheirs(Next(s, Begin(field, name, kind, None)), field, name, |s.calls|, |s.calls|)
  {
    NamedZero(s.byField, field, name);
  }

  lemma SecondBegins(s: Sys, field: nat, name: string, kind: int, c: nat)
    requires OnlyTheirs(s, field, name, c, c) && c < |s.calls|
    ensures OnlyTheirs(Next(s, Begin(field, name, kind, None)), field, name, c, |s.calls|)
  {
  }

  /** The state in which the second of two calls of a name begins. */
  function AtSecond(s: Sys, field: nat, name: string, kind: int, between: seq<Step>): Sys {
    Run(Next(s, Begin(field, name, kind, None)), between)
  }

  /** The first call is done or still active when the second begins. */
  lemma FirstOfTwo(s: Sys, field: nat, name: string, k0: int, between: seq<Step>)
    requires Inv(s) && FreeOf(s, field, name)
    requires forall x :: x in between ==> Undisturbing(x, field, name, |s.calls|, |s.calls|)
    ensures var m, c := AtSecond(s, field, name, k0, between), |s.calls|;
            && Inv(m) && c < |m.calls| && OnlyTheirs(m, field, name, c, c)
            && DecidedBy(s.byField, m, c)
            && m.calls[c].field == field && m.calls[c].name == name
            && (HasName(m.byField, field, name) <==> !Active(m.calls[c].pc))
  {
    var c, begin := |s.calls|, Begin(field, name, k0, None);
    var s1, m := Next(s, begin), AtSecond(s, field, name, k0, between);
    StepKeepsInv(s, begin);
    RunKeepsInv(s1, between);
    FirstBegins(s, field, name, k0);
    TheirsRun(s1, between, field, name, c, c);
    BeginsDecided(s, field, name, k0);
    DecidedRun(s.byField, s1, between, c);
    NamedZero(m.byField, field, name);
  }

  /** Two calls register the same free name, with any other calls around them.  Once both are past
      their first insert, there are two rows of the name if the second began before the first
      inserted, and one if it did not: both insert exactly in the former case. */
  lemma BothInsertIffOverlap(s: Sys, field: nat, name: string, k0: int, k1: int, between: seq<Step>, after: seq<Step>)
    requires Inv(s) && FreeOf(s, field, name)
    requires forall x :: x in between ==> Undisturbing(x, field, name, |s.calls|, |s.calls|)
    requires var c, d := |s.calls|, |AtSecond(s, field, name, k0, between).calls|;
             forall x :: x in after ==> Undisturbing(x, field, name, c, d)
    ensures var c, m := |s.calls|, AtSecond(s, field, name, k0, between);
            var d, e := |m.calls|, Run(Next(m, Begin(field, name, k1, None)), after);
            && c < d < |e.calls|
            && (!Active(e.calls[c].pc) && !Active(e.calls[d].pc) ==>
                  && Named(e.byField, field, name) == (if Active(m.calls[c].pc) then 2 else 1)
                  && Put(e.calls[c].pc)
                  && (Put(e.calls[d].pc) <==> Active(m.calls[c].pc))
                  && (Active(m.calls[c].pc) ==> !NamesUnique(e.byField)))
  {
    var c, m := |s.calls|, AtSecond(s, field, name, k0, between);
    FirstOfTwo(s, field, name, k0, between);
    var d, begin := |m.calls|, Begin(field, name, k1, None);
    var m1 := Next(m, begin);
    StepKeepsInv(m, begin);
    SecondBegins(m, field, name, k1, c);
    TheirsRun(m1, after, field, name, c, d);
    DecidedStep(s.byField, m, begin, c);
    DecidedRun(s.byField, m1, after, c);
    BeginsDecided(m, field, name, k1);
    DecidedRun(m.byField, m1, after, d);
    var e := Run(m1, after);
    if NamesUnique(e.byField) {
      NamedTwice(e.byField, field, name);
    }
  }
}
