/** A restart pass while the watcher, the jobs and the operator go on. */
module ControlLoopPasses {
  import opened Common
  import opened Arroyo
  import opened Watcher
  import opened Supervisor
  import opened ControlLoops

  /** A pipeline of the snapshot whose jobs were asked for, and whether that showed a failed one. */
  datatype Exam = Exam(id: nat, failed: bool)

  function TodoOf(s: Sys): seq<nat> {
    if s.supervisor == Resting then [] else s.supervisor.todo
  }

  /** Found failed, its restart not begun yet. */
  function Due(s: Sys): seq<nat> {
    if s.supervisor.Fetching? then [s.supervisor.id] else []
  }

  function ExamOf(s: Sys, step: Step): seq<Exam> {
    if step.ReadJobs? && s.supervisor.Scanning? && s.supervisor.todo != [] then
      var id := s.supervisor.todo[0];
      var jobs := JobsOf(s.server, id);
      [Exam(id, step.fate == Delivered && (Stopped in jobs || Failed in jobs))]
    else []
  }

  function Examined(s: Sys, steps: seq<Step>): seq<Exam>
    decreases |steps|
  {
    if steps == [] then [] else ExamOf(s, steps[0]) + Examined(Next(s, steps[0]), steps[1..])
  }

  function AttemptOf(s: Sys, step: Step): seq<nat> {
    if step.FetchOld? && s.supervisor.Fetching? then [s.supervisor.id] else []
  }

  /** The pipelines a restart was begun on. */
  function Attempted(s: Sys, steps: seq<Step>): seq<nat>
    decreases |steps|
  {
    if steps == [] then [] else AttemptOf(s, steps[0]) + Attempted(Next(s, steps[0]), steps[1..])
  }

  function IdsOf(xs: seq<Exam>): seq<nat> {
    if xs == [] then [] else [xs[0].id] + IdsOf(xs[1..])
  }

  function FailedOf(xs: seq<Exam>): seq<nat> {
    if xs == [] then [] else (if xs[0].failed then [xs[0].id] else []) + FailedOf(xs[1..])
  }

  lemma Prepend(x: seq<Exam>, xs: seq<Exam>)
    requires |x| <= 1
    ensures IdsOf(x + xs) == IdsOf(x) + IdsOf(xs)
    ensures FailedOf(x + xs) == FailedOf(x) + FailedOf(xs)
  {
    if x == [] {
      assert x + xs == xs;
    } else {
      assert x == [x[0]] && x[1..] == [] && (x + xs)[1..] == xs;
    }
  }

  lemma ExamStep(s: Sys, step: Step)
    requires !step.Snapshot?
    ensures IdsOf(ExamOf(s, step)) + TodoOf(Next(s, step)) == TodoOf(s)
    ensures AttemptOf(s, step) + Due(Next(s, step)) == Due(s) + FailedOf(ExamOf(s, step))
  {
    var x := ExamOf(s, step);
    if x != [] {
      FailedExactly(JobsOf(s.server, x[0].id));
      assert x[1..] == [] && s.supervisor.todo == [s.supervisor.todo[0]] + s.supervisor.todo[1..];
    }
  }

  lemma {:induction false} ExamRun(s: Sys, steps: seq<Step>)
    requires forall x :: x in steps ==> !x.Snapshot?
    ensures IdsOf(Examined(s, steps)) + TodoOf(Run(s, steps)) == TodoOf(s)
    ensures Attempted(s, steps) + Due(Run(s, steps)) == Due(s) + FailedOf(Examined(s, steps))
    decreases |steps|
  {
    if steps != [] {
      var s', rest := Next(s, steps[0]), steps[1..];
      ExamStep(s, steps[0]);
      ExamRun(s', rest);
      Prepend(ExamOf(s, steps[0]), Examined(s', rest));
      var e := Run(s', rest);
      Chain(IdsOf(ExamOf(s, steps[0])), TodoOf(s'), TodoOf(s), IdsOf(Examined(s', rest)), TodoOf(e));
      Shift(AttemptOf(s, steps[0]), Due(s'), Due(s), FailedOf(ExamOf(s, steps[0])),
            Attempted(s', rest), Due(e), FailedOf(Examined(s', rest)));
    }
  }

  lemma Chain(a: seq<nat>, mid: seq<nat>, whole: seq<nat>, b: seq<nat>, rest: seq<nat>)
    requires a + mid == whole && b + rest == mid
    ensures (a + b) + rest == whole
  {
  }

  lemma Shift(a: seq<nat>, mid: seq<nat>, start: seq<nat>, f: seq<nat>, b: seq<nat>, rest: seq<nat>, g: seq<nat>)
    requires a + mid == start + f && b + rest == mid + g
    ensures (a + b) + rest == start + (f + g)
  {
    assert (a + b) + rest == a + (b + rest) == a + (mid + g) == (a + mid) + g == (start + f) + g;
  }

  lemma {:induction false} FailedAreExamined(xs: seq<Exam>)
    ensures forall id :: id in FailedOf(xs) ==> id in IdsOf(xs)
    ensures Distinct(IdsOf(xs)) ==> Distinct(FailedOf(xs))
  {
    if xs != [] {
      FailedAreExamined(xs[1..]);
      if Distinct(IdsOf(xs)) {
        var ids := IdsOf(xs);
        assert ids[1..] == IdsOf(xs[1..]);
        assert Distinct(ids[1..]) && ids[0] !in ids[1..];
      }
    }
  }

  // ---- pipelines added meanwhile ----

  /** `later` has pipelines of `st`, under their ids and definitions, and ones with newer ids. */
  ghost predicate Since(st: ServerState, later: ServerState) {
    && st.nextId <= later.nextId
    && forall i :: 0 <= i < |later.pipelines| && later.pipelines[i].id < st.nextId ==> IsOf(st, later.pipelines[i])
  }

  predicate IsOf(st: ServerState, p: Pipeline) {
    exists q | q in st.pipelines :: q.id == p.id && q.def == p.def
  }

  lemma SinceCreate(st: ServerState, m: ServerState, def: Definition, fate: Fate)
    requires Since(st, m)
    ensures Since(st, Create(m, def, fate).0)
  {
    var m' := Create(m, def, fate).0;
    assert forall i :: 0 <= i < |m.pipelines| ==> m'.pipelines[i] == m.pipelines[i];
  }

  lemma SinceDelete(st: ServerState, m: ServerState, id: nat, fate: Fate)
    requires Since(st, m)
    ensures Since(st, Delete(m, id, fate).0)
  {
    var m', i := Delete(m, id, fate).0, IndexOf(m.pipelines, id);
    if m' != m {
      assert forall k :: 0 <= k < |m'.pipelines| ==> m'.pipelines[k] == m.pipelines[if k < i then k else k + 1];
    }
  }

  lemma SinceJobs(st: ServerState, m: ServerState, i: nat, jobs: seq<JobState>)
    requires Since(st, m) && i < |m.pipelines|
    ensures Since(st, m.(pipelines := m.pipelines[i := m.pipelines[i].(jobs := jobs)]))
  {
    if m.pipelines[i].id < st.nextId {
      assert IsOf(st, m.pipelines[i]);
      assert IsOf(st, m.pipelines[i].(jobs := jobs));
    }
  }

  lemma SinceStep(st: ServerState, s: Sys, step: Step)
    requires Since(st, s.server)
    ensures Since(st, Next(s, step).server)
  {
    match step
    case PostFlow(fate) =>
      if s.watcher.MakingPipeline? {
        SinceCreate(st, s.server, FlowDefinition(s.watcher.topic), fate);
      }
    case Recreate(fate) =>
      if s.supervisor.Recreating? {
        SinceCreate(st, s.server, Normal(s.supervisor.def), fate);
      }
    case OperatorRun(name, fate) => SinceCreate(st, s.server, Definition(name, OPERATOR_QUERY, Some(3), 0), fate);
    case DeleteOld(fate) =>
      if s.supervisor.Deleting? {
        SinceDelete(st, s.server, s.supervisor.id, fate);
      }
    case JobsChange(id, jobs) =>
      var i := IndexOf(s.server.pipelines, id);
      if i < |s.server.pipelines| {
        SinceJobs(st, s.server, i, jobs);
      }
    case _ => SinceQuiet(st, s, step);
  }

  lemma SinceQuiet(st: ServerState, s: Sys, step: Step)
    requires Since(st, s.server)
    requires !step.PostFlow? && !step.Recreate? && !step.OperatorRun? && !step.DeleteOld? && !step.JobsChange?
    ensures Since(st, Next(s, step).server)
  {
    assert Next(s, step).server == s.server.(tables := Next(s, step).server.tables);
  }

  lemma {:induction false} SinceRun(st: ServerState, s: Sys, steps: seq<Step>)
    requires Since(st, s.server)
    ensures Since(st, Run(s, steps).server)
    decreases |steps|
  {
    if steps != [] {
      SinceStep(st, s, steps[0]);
      SinceRun(st, Next(s, steps[0]), steps[1..]);
    }
  }

  // ---- pipelines no restart is attempted on ----

  /** A pipeline with this id and definition is on the server. */
  predicate Holds(st: ServerState, id: nat, def: Definition) {
    exists p | p in st.pipelines :: p.id == id && p.def == def
  }

  /** The next deletion, if one is prepared, is of another pipeline. */
  predicate Spared(s: Sys, id: nat) {
    s.supervisor.Deleting? ==> s.supervisor.id != id
  }

  lemma HoldsAfterCreate(st: ServerState, def: Definition, fate: Fate, id: nat, kept: Definition)
    requires Holds(st, id, kept)
    ensures Holds(Create(st, def, fate).0, id, kept)
  {
  }

  lemma HoldsAfterDelete(st: ServerState, other: nat, fate: Fate, id: nat, kept: Definition)
    requires Holds(st, id, kept) && other != id
    ensures Holds(Delete(st, other, fate).0, id, kept)
  {
    var i, st' := IndexOf(st.pipelines, other), Delete(st, other, fate).0;
    var p :| p in st.pipelines && p.id == id && p.def == kept;
    if st' != st {
      var k :| 0 <= k < |st.pipelines| && st.pipelines[k] == p;
      assert st'.pipelines[if k < i then k else k - 1] == p;
    }
  }

  lemma HoldsAfterJobs(st: ServerState, i: nat, jobs: seq<JobState>, id: nat, kept: Definition)
    requires Holds(st, id, kept) && i < |st.pipelines|
    ensures Holds(st.(pipelines := st.pipelines[i := st.pipelines[i].(jobs := jobs)]), id, kept)
  {
    var ps' := st.pipelines[i := st.pipelines[i].(jobs := jobs)];
    var p :| p in st.pipelines && p.id == id && p.def == kept;
    var k :| 0 <= k < |st.pipelines| && st.pipelines[k] == p;
    assert ps'[k] in ps' && ps'[k].id == id && ps'[k].def == kept;
  }

  lemma HoldsStep(s: Sys, step: Step, id: nat, kept: Definition)
    requires Holds(s.server, id, kept) && Spared(s, id)
    ensures Holds(Next(s, step).server, id, kept)
  {
    match step
    case PostFlow(fate) =>
      if s.watcher.MakingPipeline? {
        HoldsAfterCreate(s.server, FlowDefinition(s.watcher.topic), fate, id, kept);
      }
    case Recreate(fate) =>
      if s.supervisor.Recreating? {
        HoldsAfterCreate(s.server, Normal(s.supervisor.def), fate, id, kept);
      }
    case OperatorRun(name, fate) =>
      HoldsAfterCreate(s.server, Definition(name, OPERATOR_QUERY, Some(3), 0), fate, id, kept);
    case DeleteOld(fate) =>
      if s.supervisor.Deleting? {
        HoldsAfterDelete(s.server, s.supervisor.id, fate, id, kept);
      }
    case JobsChange(other, jobs) =>
      var i := IndexOf(s.server.pipelines, other);
      if i < |s.server.pipelines| {
        HoldsAfterJobs(s.server, i, jobs, id, kept);
      }
    case _ =>
      assert Next(s, step).server == s.server.(tables := Next(s, step).server.tables);
  }

  lemma SparedStep(s: Sys, step: Step, id: nat)
    requires Spared(s, id) && id !in AttemptOf(s, step)
    ensures Spared(Next(s, step), id)
  {
  }

  /** A pipeline no restart is begun on stays, under its id and definition. */
  lemma {:induction false} UnattemptedStays(s: Sys, steps: seq<Step>, id: nat, kept: Definition)
    requires Holds(s.server, id, kept) && Spared(s, id) && id !in Attempted(s, steps)
    ensures Holds(Run(s, steps).server, id, kept)
    decreases |steps|
  {
    if steps != [] {
      HoldsStep(s, steps[0], id, kept);
      SparedStep(s, steps[0], id);
      UnattemptedStays(Next(s, steps[0]), steps[1..], id, kept);
    }
  }

  /** From a snapshot on, until the next one, with anything going on around it: the pipelines of the
      snapshot are examined in order and each once; a restart is attempted on exactly those whose jobs
      could be read and then included a stopped or failed one, each once; an attempted pipeline that is still
      on the server is the snapshot's own, never a replacement or another addition; and every other
      pipeline of the snapshot is still there under its id and definition. */
  lemma PassInAnyRun(s: Sys, steps: seq<Step>)
    requires Valid(s.server) && s.supervisor == Resting
    requires forall x :: x in steps ==> !x.Snapshot?
    ensures var s1 := Next(s, Snapshot(Delivered));
            var e, exams, tried := Run(s1, steps), Examined(s1, steps), Attempted(s1, steps);
            && IdsOf(exams) + TodoOf(e) == Ids(s.server.pipelines)
            && tried + Due(e) == FailedOf(exams)
            && Distinct(tried)
            && (forall id :: id in tried ==> id in Ids(s.server.pipelines))
            && (e.supervisor == Resting ==> IdsOf(exams) == Ids(s.server.pipelines) && tried == FailedOf(exams))
            && (forall i :: 0 <= i < |e.server.pipelines| && e.server.pipelines[i].id in tried ==>
                              IsOf(s.server, e.server.pipelines[i]))
            && (forall q :: q in s.server.pipelines && q.id !in tried ==> Holds(e.server, q.id, q.def))
  {
    PassExamines(s, steps);
    PassAttempts(s, steps);
    var s1 := Next(s, Snapshot(Delivered));
    forall q | q in s.server.pipelines && q.id !in Attempted(s1, steps)
      ensures Holds(Run(s1, steps).server, q.id, q.def)
    {
      UnattemptedStays(s1, steps, q.id, q.def);
    }
  }

  lemma PassExamines(s: Sys, steps: seq<Step>)
    requires Valid(s.server) && s.supervisor == Resting
    requires forall x :: x in steps ==> !x.Snapshot?
    ensures var s1 := Next(s, Snapshot(Delivered));
            var e, exams, tried := Run(s1, steps), Examined(s1, steps), Attempted(s1, steps);
            && IdsOf(exams) + TodoOf(e) == Ids(s.server.pipelines)
            && tried + Due(e) == FailedOf(exams)
            && (e.supervisor == Resting ==> IdsOf(exams) == Ids(s.server.pipelines) && tried == FailedOf(exams))
  {
    var s1 := Next(s, Snapshot(Delivered));
    var e, exams, tried := Run(s1, steps), Examined(s1, steps), Attempted(s1, steps);
    ExamRun(s1, steps);
    assert TodoOf(s1) == Ids(s.server.pipelines) && Due(s1) == [];
    assert [] + FailedOf(exams) == FailedOf(exams);
    assert IdsOf(exams) + [] == IdsOf(exams) && tried + [] == tried;
  }

  lemma PassAttempts(s: Sys, steps: seq<Step>)
    requires Valid(s.server) && s.supervisor == Resting
    requires forall x :: x in steps ==> !x.Snapshot?
    ensures var s1 := Next(s, Snapshot(Delivered));
            var e, tried := Run(s1, steps), Attempted(s1, steps);
            && Distinct(tried)
            && (forall id :: id in tried ==> id in Ids(s.server.pipelines))
            && (forall i :: 0 <= i < |e.server.pipelines| && e.server.pipelines[i].id in tried ==>
                              IsOf(s.server, e.server.pipelines[i]))
  {
    var s1, ids := Next(s, Snapshot(Delivered)), Ids(s.server.pipelines);
    var e, exams, tried := Run(s1, steps), Examined(s1, steps), Attempted(s1, steps);
    PassExamines(s, steps);
    TriedWithin(exams, tried, TodoOf(e), Due(e), ids);
    SinceItself(s.server);
    SinceRun(s.server, s1, steps);
    forall i | 0 <= i < |e.server.pipelines| && e.server.pipelines[i].id in tried
      ensures IsOf(s.server, e.server.pipelines[i])
    {
      IdsBelow(s.server, e.server.pipelines[i].id);
    }
  }

  lemma TriedWithin(exams: seq<Exam>, tried: seq<nat>, todo: seq<nat>, due: seq<nat>, ids: seq<nat>)
    requires IdsOf(exams) + todo == ids && tried + due == FailedOf(exams) && Distinct(ids)
    ensures Distinct(tried) && forall id :: id in tried ==> id in ids
  {
    PrefixDistinct(IdsOf(exams), todo, ids);
    FailedAreExamined(exams);
    PrefixDistinct(tried, due, FailedOf(exams));
  }

  lemma IdsBelow(st: ServerState, id: nat)
    requires Valid(st) && id in Ids(st.pipelines)
    ensures id < st.nextId
  {
    var i :| 0 <= i < |st.pipelines| && Ids(st.pipelines)[i] == id;
  }

  lemma SinceItself(st: ServerState)
    ensures Since(st, st)
  {
    assert forall i :: 0 <= i < |st.pipelines| ==> st.pipelines[i] in st.pipelines;
  }

  lemma PrefixDistinct(a: seq<nat>, b: seq<nat>, whole: seq<nat>)
    requires a + b == whole && Distinct(whole)
    ensures Distinct(a) && forall id :: id in a ==> id in whole
  {
    assert forall i :: 0 <= i < |a| ==> whole[i] == a[i];
  }
}
