/** The watcher and the supervisor as two goroutines acting on one Arroyo server.

    Every request is one atomic step; between any two requests of one loop the other loop, the
    server's jobs and the operator's route may move.  The ledger fields `born` and `lost` record
    which definitions ever came into being and which went missing in a restart. */
module ControlLoops {
  import opened Common
  import opened Arroyo
  import opened Watcher
  import opened Supervisor

  /** What identifies a definition for the ledger: a restart must keep both. */
  datatype Ident = Ident(name: string, query: string)

  datatype WatcherPc =
    | Unseeded
    | Idle
    | MakingTable(topic: string)
    | MakingPipeline(topic: string)
    | Marking(topic: string)

  datatype SupervisorPc =
    | Resting
    | Scanning(todo: seq<nat>)
    | Fetching(id: nat, todo: seq<nat>)
    | Deleting(id: nat, def: Definition, todo: seq<nat>)
    | Recreating(def: Definition, todo: seq<nat>)

  datatype Sys = Sys(
    server: ServerState,
    known: set<string>,
    watcher: WatcherPc,
    supervisor: SupervisorPc,
    born: seq<Ident>,
    lost: seq<Ident>)

  datatype Step =
    // watcher
    | Seed(fate: Fate)
    | PickTopic(topic: string)
    | PostTable(fate: Fate)
    | PostFlow(fate: Fate)
    | MarkKnown
    // supervisor
    | Snapshot(fate: Fate)
    | ReadJobs(fate: Fate)
    | FetchOld(fate: Fate)
    | DeleteOld(fate: Fate)
    | Recreate(fate: Fate)
    // surroundings
    | JobsChange(id: nat, jobs: seq<JobState>)
    | OperatorRun(name: string, fate: Fate)

  function IdentOf(def: Definition): Ident {
    Ident(def.name, def.query)
  }

  function Idents(ps: seq<Pipeline>): (r: seq<Ident>)
    ensures |r| == |ps| && forall i :: 0 <= i < |ps| ==> r[i] == IdentOf(ps[i].def)
  {
    seq(|ps|, i requires 0 <= i < |ps| => IdentOf(ps[i].def))
  }

  /** The definition taken off the server and not yet put back. */
  function InFlight(s: Sys): seq<Ident> {
    if s.supervisor.Recreating? then [IdentOf(s.supervisor.def)] else []
  }

  /** Every definition that is on the server, in flight or lost. */
  ghost function Held(s: Sys): multiset<Ident> {
    multiset(Idents(s.server.pipelines)) + multiset(InFlight(s)) + multiset(s.lost)
  }

  /** Identities of the pipelines a step added at the end of the server's list. */
  function Added(before: ServerState, after: ServerState): seq<Ident> {
    if |after.pipelines| > |before.pipelines| then Idents(after.pipelines[|before.pipelines|..]) else []
  }

  const OPERATOR_QUERY := "\nINSERT INTO temperatures_docker\nSELECT\n    *\nFROM\n    kafka2\n"

  /** One step; a step that is not enabled changes nothing. */
  function Next(s: Sys, step: Step): Sys {
    match step
    case Seed(fate) =>
      if s.watcher != Unseeded then s
      else s.(watcher := Idle,
              known := if fate.Delivered? then s.known + set p | p in s.server.pipelines :: p.def.name else s.known)
    case PickTopic(topic) =>
      if s.watcher == Idle && Wanted(s.known, topic) then s.(watcher := MakingTable(topic)) else s
    case PostTable(fate) =>
      if !s.watcher.MakingTable? then s
      else
        var (server, a) := CreateTable(s.server, KafkaName(s.watcher.topic), fate);
        s.(server := server, watcher := if Tolerated(a) then MakingPipeline(s.watcher.topic) else Idle)
    case PostFlow(fate) =>
      if !s.watcher.MakingPipeline? then s
      else
        var (server, a) := Create(s.server, FlowDefinition(s.watcher.topic), fate);
        s.(server := server, born := s.born + Added(s.server, server),
           watcher := if Tolerated(a) then Marking(s.watcher.topic) else Idle)
    case MarkKnown =>
      if !s.watcher.Marking? then s
      else s.(known := s.known + {s.watcher.topic}, watcher := Idle)
    case Snapshot(fate) =>
      if s.supervisor == Resting && fate.Delivered?
      then s.(supervisor := Scanning(Ids(s.server.pipelines)))
      else s
    case ReadJobs(fate) =>
      if !s.supervisor.Scanning? then s
      else if s.supervisor.todo == [] then s.(supervisor := Resting)
      else
        var id, rest := s.supervisor.todo[0], s.supervisor.todo[1..];
        s.(supervisor := if fate.Delivered? && HasFailed(JobsOf(s.server, id)) then Fetching(id, rest)
                         else Scanning(rest))
    case FetchOld(fate) =>
      if !s.supervisor.Fetching? then s
      else
        var def := Fetch(s.server, s.supervisor.id, fate);
        s.(supervisor := if def.Some? then Deleting(s.supervisor.id, def.value, s.supervisor.todo)
                         else Scanning(s.supervisor.todo))
    case DeleteOld(fate) =>
      if !s.supervisor.Deleting? then s
      else
        var (server, ok) := Delete(s.server, s.supervisor.id, fate);
        var gone := if |server.pipelines| < |s.server.pipelines| && !ok then [IdentOf(s.supervisor.def)] else [];
        s.(server := server, lost := s.lost + gone,
           supervisor := if ok then Recreating(s.supervisor.def, s.supervisor.todo)
                         else Scanning(s.supervisor.todo))
    case Recreate(fate) =>
      if !s.supervisor.Recreating? then s
      else
        var (server, _) := Create(s.server, Normal(s.supervisor.def), fate);
        var gone := if |server.pipelines| == |s.server.pipelines| then [IdentOf(s.supervisor.def)] else [];
        s.(server := server, lost := s.lost + gone, supervisor := Scanning(s.supervisor.todo))
    case JobsChange(id, jobs) =>
      var i := IndexOf(s.server.pipelines, id);
      if i == |s.server.pipelines| then s
      else s.(server := s.server.(pipelines := s.server.pipelines[i := s.server.pipelines[i].(jobs := jobs)]))
    case OperatorRun(name, fate) =>
      var (server, _) := Create(s.server, Definition(name, OPERATOR_QUERY, Some(3), 0), fate);
      s.(server := server, born := s.born + Added(s.server, server))
  }

  function Run(s: Sys, steps: seq<Step>): Sys
    decreases |steps|
  {
    if steps == [] then s else Run(Next(s, steps[0]), steps[1..])
  }

  lemma {:induction false} RunConcat(s: Sys, a: seq<Step>, b: seq<Step>)
    ensures Run(s, a + b) == Run(Run(s, a), b)
    decreases |a|
  {
    if a == [] {
      assert [] + b == b;
    } else {
      assert (a + b)[1..] == a[1..] + b;
      RunConcat(Next(s, a[0]), a[1..], b);
    }
  }

  /** The process has just started: both loops at rest, nothing known, the ledger opened with
      whatever the server already holds. */
  ghost predicate Start(s: Sys) {
    && Valid(s.server)
    && s.known == {}
    && s.watcher == Unseeded
    && s.supervisor == Resting
    && s.born == Idents(s.server.pipelines)
    && s.lost == []
  }

  // ---- conservation: holds in every run, whatever requests fail and however ----

  /** What the supervisor holds in its hands is what the server holds, as long as it holds it. */
  ghost predicate InHand(s: Sys) {
    s.supervisor.Deleting? ==>
      && s.supervisor.id < s.server.nextId
      && forall i :: 0 <= i < |s.server.pipelines| && s.server.pipelines[i].id == s.supervisor.id ==>
                       IdentOf(s.server.pipelines[i].def) == IdentOf(s.supervisor.def)
  }

  ghost predicate Books(s: Sys) {
    && Valid(s.server)
    && InHand(s)
    && Held(s) == multiset(s.born)
  }

  lemma IdentsAppend(ps: seq<Pipeline>, p: Pipeline)
    ensures Idents(ps + [p]) == Idents(ps) + [IdentOf(p.def)]
    ensures Idents((ps + [p])[|ps|..]) == [IdentOf(p.def)]
  {
  }

  lemma IdentsWithout(ps: seq<Pipeline>, i: nat)
    requires i < |ps|
    ensures multiset(Idents(ps)) == multiset(Idents(Without(ps, i))) + multiset{IdentOf(ps[i].def)}
  {
    assert Idents(Without(ps, i)) == Without(Idents(ps), i);
    WithoutMultiset(Idents(ps), i);
  }

  lemma CreateBooks(st: ServerState, def: Definition, fate: Fate)
    requires Valid(st)
    ensures var st' := Create(st, def, fate).0;
            && Valid(st')
            && st'.nextId >= st.nextId
            && (|st'.pipelines| == |st.pipelines| ==> st' == st && Added(st, st') == [])
            && (|st'.pipelines| != |st.pipelines| ==>
                  && |st'.pipelines| == |st.pipelines| + 1
                  && st'.pipelines[..|st.pipelines|] == st.pipelines
                  && st'.pipelines[|st.pipelines|].id == st.nextId
                  && Added(st, st') == [IdentOf(def)])
            && Idents(st'.pipelines) == Idents(st.pipelines) + Added(st, st')
  {
    assert Idents(st.pipelines) + [] == Idents(st.pipelines);
    CreateValid(st, def, fate);
    IdentsAppend(st.pipelines, Pipeline(st.nextId, def, []));
  }

  /** A deletion that takes effect, or one that does not. */
  lemma DeleteShape(s: Sys, fate: Fate)
    requires Valid(s.server) && s.supervisor.Deleting?
    ensures var s', i := Next(s, DeleteOld(fate)), IndexOf(s.server.pipelines, s.supervisor.id);
            && Valid(s'.server) && !s'.supervisor.Deleting? && s'.born == s.born
            && (if fate == Dropped || i == |s.server.pipelines| then
                  s'.server == s.server && InFlight(s') == [] && s'.lost == s.lost
                else
                  && s'.server.pipelines == Without(s.server.pipelines, i)
                  && (|| (InFlight(s') == [IdentOf(s.supervisor.def)] && s'.lost == s.lost)
                      || (InFlight(s') == [] && s'.lost == s.lost + [IdentOf(s.supervisor.def)])))
  {
    var i := IndexOf(s.server.pipelines, s.supervisor.id);
    if i < |s.server.pipelines| {
      DeleteFrees(s.server, i);
    }
  }

  lemma DeleteBooks(s: Sys, fate: Fate)
    requires Books(s) && s.supervisor.Deleting?
    ensures Books(Next(s, DeleteOld(fate)))
  {
    DeleteShape(s, fate);
    var i := IndexOf(s.server.pipelines, s.supervisor.id);
    if i < |s.server.pipelines| {
      IdentsWithout(s.server.pipelines, i);
    }
  }

  lemma RecreateBooks(s: Sys, fate: Fate)
    requires Books(s) && s.supervisor.Recreating?
    ensures Books(Next(s, Recreate(fate)))
  {
    CreateBooks(s.server, Normal(s.supervisor.def), fate);
  }

  lemma CreationInHand(s: Sys, s': Sys, def: Definition, fate: Fate)
    requires Valid(s.server) && InHand(s)
    requires s'.server == Create(s.server, def, fate).0 && s'.supervisor == s.supervisor
    ensures InHand(s')
  {
  }

  lemma CreationBooks(s: Sys, s': Sys, def: Definition, fate: Fate)
    requires Books(s)
    requires s'.server == Create(s.server, def, fate).0
    requires s'.born == s.born + Added(s.server, s'.server)
    requires s'.supervisor == s.supervisor && s'.lost == s.lost
    ensures Books(s')
  {
    CreateBooks(s.server, def, fate);
    CreationInHand(s, s', def, fate);
    CreatedHeld(s, s', Added(s.server, s'.server));
  }

  lemma CreatedHeld(s: Sys, s': Sys, added: seq<Ident>)
    requires Idents(s'.server.pipelines) == Idents(s.server.pipelines) + added
    requires s'.supervisor == s.supervisor && s'.lost == s.lost
    requires Held(s) == multiset(s.born) && s'.born == s.born + added
    ensures Held(s') == multiset(s'.born)
  {
    RegroupSum(multiset(Idents(s.server.pipelines)), multiset(added), multiset(InFlight(s)), multiset(s.lost));
  }

  lemma RegroupSum(a: multiset<Ident>, x: multiset<Ident>, f: multiset<Ident>, l: multiset<Ident>)
    ensures (a + x) + f + l == (a + f + l) + x
  {
  }

  lemma JobsIdents(ps: seq<Pipeline>, i: nat, jobs: seq<JobState>)
    requires i < |ps|
    ensures var ps' := ps[i := ps[i].(jobs := jobs)];
            && Idents(ps') == Idents(ps)
            && forall j :: 0 <= j < |ps| ==> ps'[j].id == ps[j].id && ps'[j].def == ps[j].def
  {
  }

  lemma JobsBooks(s: Sys, id: nat, jobs: seq<JobState>)
    requires Books(s)
    ensures Books(Next(s, JobsChange(id, jobs)))
  {
    var i := IndexOf(s.server.pipelines, id);
    if i < |s.server.pipelines| {
      var s' := Next(s, JobsChange(id, jobs));
      JobsIdents(s.server.pipelines, i, jobs);
    }
  }

  /** A step that moves no definition. */
  lemma QuietBooks(s: Sys, s': Sys)
    requires Books(s)
    requires s'.server == s.server.(tables := s'.server.tables) && s'.born == s.born && s'.lost == s.lost
    requires InFlight(s') == InFlight(s)
    requires s'.supervisor.Deleting? ==>
               s'.supervisor == s.supervisor
               || (s.supervisor.Fetching? && s.supervisor.id == s'.supervisor.id
                   && exists fate :: Fetch(s.server, s.supervisor.id, fate) == Some(s'.supervisor.def))
    ensures Books(s')
  {
    if s'.supervisor.Deleting? && s'.supervisor != s.supervisor {
      IndexOfUnique(s.server, IndexOf(s.server.pipelines, s.supervisor.id));
    }
  }

  lemma WatcherKeepsBooks(s: Sys, step: Step)
    requires Books(s)
    requires step.Seed? || step.PickTopic? || step.PostTable? || step.PostFlow? || step.MarkKnown?
    ensures Books(Next(s, step))
  {
    if step.PostFlow? && s.watcher.MakingPipeline? {
      CreationBooks(s, Next(s, step), FlowDefinition(s.watcher.topic), step.fate);
    } else {
      QuietBooks(s, Next(s, step));
    }
  }

  lemma SupervisorKeepsBooks(s: Sys, step: Step)
    requires Books(s)
    requires step.Snapshot? || step.ReadJobs? || step.FetchOld? || step.DeleteOld? || step.Recreate?
    ensures Books(Next(s, step))
  {
    if step.DeleteOld? && s.supervisor.Deleting? {
      DeleteBooks(s, step.fate);
    } else if step.Recreate? && s.supervisor.Recreating? {
      RecreateBooks(s, step.fate);
    } else {
      QuietBooks(s, Next(s, step));
    }
  }

  lemma StepKeepsBooks(s: Sys, step: Step)
    requires Books(s)
    ensures Books(Next(s, step))
  {
    match step
    case JobsChange(id, jobs) => JobsBooks(s, id, jobs);
    case OperatorRun(name, fate) =>
      CreationBooks(s, Next(s, step), Definition(name, OPERATOR_QUERY, Some(3), 0), fate);
    case Seed(_) => WatcherKeepsBooks(s, step);
    case PickTopic(_) => WatcherKeepsBooks(s, step);
    case PostTable(_) => WatcherKeepsBooks(s, step);
    case PostFlow(_) => WatcherKeepsBooks(s, step);
    case MarkKnown => WatcherKeepsBooks(s, step);
    case _ => SupervisorKeepsBooks(s, step);
  }

  lemma {:induction false} RunKeepsBooks(s: Sys, steps: seq<Step>)
    requires Books(s)
    ensures Books(Run(s, steps))
    decreases |steps|
  {
    if steps != [] {
      StepKeepsBooks(s, steps[0]);
      RunKeepsBooks(Next(s, steps[0]), steps[1..]);
    }
  }

  /** Conservation.  In every run from a start, with any requests dropped or losing their reply, the
      definitions ever present are exactly those on the server, the one in flight and those lost. */
  lemma Conservation(s: Sys, steps: seq<Step>)
    requires Start(s)
    ensures var e := Run(s, steps);
            multiset(Idents(e.server.pipelines)) + multiset(InFlight(e)) + multiset(e.lost) == multiset(e.born)
  {
    RunKeepsBooks(s, steps);
  }

  /** What the operator's route adds to a server that takes the name. */
  lemma OperatorText(s: Sys, name: string, fate: Fate)
    requires fate != Dropped && !(s.server.rejects && HasName(s.server.pipelines, name))
    ensures Next(s, OperatorRun(name, fate)).server.pipelines
         == s.server.pipelines
            + [Pipeline(s.server.nextId,
                        Definition(name, "\nINSERT INTO temperatures_docker\nSELECT\n    *\nFROM\n    kafka2\n", Some(3), 0), [])]
  {
  }
}
