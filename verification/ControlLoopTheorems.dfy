/** What holds of every interleaving of the two loops, and what each precondition is there for. */
module ControlLoopTheorems {
  import opened Common
  import opened Arroyo
  import opened Watcher
  import opened Supervisor
  import opened ControlLoops

  function Count(ids: seq<Ident>, name: string): nat {
    if ids == [] then 0
    else Count(ids[..|ids| - 1], name) + if ids[|ids| - 1].name == name then 1 else 0
  }

  lemma {:induction false} CountConcat(a: seq<Ident>, b: seq<Ident>, name: string)
    ensures Count(a + b, name) == Count(a, name) + Count(b, name)
  {
    if b == [] {
      assert a + b == a;
    } else {
      assert (a + b)[..|a + b| - 1] == a + b[..|b| - 1];
      CountConcat(a, b[..|b| - 1], name);
    }
  }

  lemma {:induction false} CountPermutation(a: seq<Ident>, b: seq<Ident>, name: string)
    requires multiset(a) == multiset(b)
    ensures Count(a, name) == Count(b, name)
  {
    if a == [] {
      assert |multiset(b)| == 0;
    } else {
      var i := DropLast(a, b);
      CountPermutation(a[..|a| - 1], Without(b, i), name);
      assert b == b[..i] + ([b[i]] + b[i + 1..]);
      CountConcat(b[..i], [b[i]] + b[i + 1..], name);
      CountConcat([b[i]], b[i + 1..], name);
      CountConcat(b[..i], b[i + 1..], name);
      assert [b[i]][..0] == [];
    }
  }

  lemma {:induction false} CountZero(ps: seq<Pipeline>, name: string)
    ensures Count(Idents(ps), name) == 0 <==> !HasName(ps, name)
  {
    if ps != [] {
      var n := |ps| - 1;
      CountZero(ps[..n], name);
      assert Idents(ps)[..n] == Idents(ps[..n]);
      assert forall p :: p in ps <==> p in ps[..n] || p == ps[n];
    }
  }

  /** Births of a name, as the places its definitions are in. */
  lemma CountPlaces(s: Sys, name: string)
    requires Books(s)
    ensures Count(s.born, name)
         == Count(Idents(s.server.pipelines), name) + Count(InFlight(s), name) + Count(s.lost, name)
  {
    CountPermutation(Idents(s.server.pipelines) + InFlight(s) + s.lost, s.born, name);
    CountConcat(Idents(s.server.pipelines) + InFlight(s), s.lost, name);
    CountConcat(Idents(s.server.pipelines), InFlight(s), name);
  }

  // ---- each managed topic is created once ----

  /** No managed topic has two pipelines when the process starts. */
  ghost predicate UniqueManaged(st: ServerState) {
    forall t :: IsKafkaManagedTopic(t) ==> Count(Idents(st.pipelines), t) <= 1
  }

  predicate Committed(s: Sys, t: string) {
    t in s.known || s.watcher == Marking(t)
  }

  /** Before seeding nothing has left the server. */
  ghost predicate Untouched(s: Sys) {
    && Books(s)
    && s.watcher == Unseeded && s.known == {}
    && !s.supervisor.Recreating? && s.lost == []
    && (forall t :: IsKafkaManagedTopic(t) ==> Count(s.born, t) <= 1)
  }

  /** After seeding a managed topic has been born exactly if it is known or about to be. */
  ghost predicate BornOnce(s: Sys) {
    && Books(s)
    && s.watcher != Unseeded
    && (s.watcher.MakingTable? || s.watcher.MakingPipeline? ==>
          IsKafkaManagedTopic(s.watcher.topic) && s.watcher.topic !in s.known)
    && (forall t :: IsKafkaManagedTopic(t) ==> Count(s.born, t) == if Committed(s, t) then 1 else 0)
  }

  /** What the theorems below assume of the surroundings: a creation the watcher is told failed had
      no effect, and the operator's route is not used for managed names. */
  predicate Fair(step: Step) {
    && (step.PostFlow? ==> step.fate != ReplyLost)
    && (step.OperatorRun? ==> !IsKafkaManagedTopic(step.name))
  }

  lemma CountOne(i: Ident, t: string)
    ensures Count([i], t) == if i.name == t then 1 else 0
  {
    assert [i][..0] == [];
  }

  lemma OperatorAdds(s: Sys, name: string, fate: Fate)
    requires Valid(s.server)
    ensures var s' := Next(s, OperatorRun(name, fate));
            s'.born == s.born || s'.born == s.born + [Ident(name, OPERATOR_QUERY)]
  {
    CreateBooks(s.server, Definition(name, OPERATOR_QUERY, Some(3), 0), fate);
    assert s.born + [] == s.born;
  }

  lemma OperatorKeepsCounts(s: Sys, name: string, fate: Fate, t: string)
    requires Books(s) && IsKafkaManagedTopic(t) && !IsKafkaManagedTopic(name)
    ensures Count(Next(s, OperatorRun(name, fate)).born, t) == Count(s.born, t)
  {
    OperatorAdds(s, name, fate);
    CountConcat(s.born, [Ident(name, OPERATOR_QUERY)], t);
    CountOne(Ident(name, OPERATOR_QUERY), t);
  }

  lemma UntouchedStep(s: Sys, step: Step)
    requires Untouched(s) && Fair(step) && !step.Seed? && !step.DeleteOld?
    ensures Untouched(Next(s, step))
  {
    StepKeepsBooks(s, step);
    if step.OperatorRun? {
      forall t | IsKafkaManagedTopic(t)
        ensures Count(Next(s, step).born, t) == Count(s.born, t)
      {
        OperatorKeepsCounts(s, step.name, step.fate, t);
      }
    }
  }

  lemma SeedGivesBornOnce(s: Sys)
    requires Untouched(s)
    ensures BornOnce(Next(s, Seed(Delivered)))
  {
    StepKeepsBooks(s, Seed(Delivered));
    var s' := Next(s, Seed(Delivered));
    forall t | IsKafkaManagedTopic(t)
      ensures Count(s'.born, t) == if Committed(s', t) then 1 else 0
    {
      CountPlaces(s, t);
      CountZero(s.server.pipelines, t);
      assert t in s'.known <==> HasName(s.server.pipelines, t);
    }
  }

  lemma UncommittedIsAbsent(s: Sys, t: string)
    requires BornOnce(s) && IsKafkaManagedTopic(t) && !Committed(s, t)
    ensures !HasName(s.server.pipelines, t)
  {
    CountPlaces(s, t);
    CountZero(s.server.pipelines, t);
  }

  /** A creation by the watcher: an "already exists" would contradict the topic being unknown, so
      the answer is a real creation, and it is the topic's first. */
  lemma FlowStep(s: Sys, fate: Fate)
    requires BornOnce(s) && s.watcher.MakingPipeline? && fate != ReplyLost
    ensures var s', topic := Next(s, PostFlow(fate)), s.watcher.topic;
            && s'.known == s.known
            && (s'.watcher == Marking(topic) || s'.watcher == Idle)
            && s'.born == s.born + if s'.watcher == Marking(topic) then [IdentOf(FlowDefinition(topic))] else []
  {
    UncommittedIsAbsent(s, s.watcher.topic);
    CreateBooks(s.server, FlowDefinition(s.watcher.topic), fate);
  }

  lemma FlowKeepsBornOnce(s: Sys, fate: Fate)
    requires BornOnce(s) && s.watcher.MakingPipeline? && fate != ReplyLost
    ensures BornOnce(Next(s, PostFlow(fate)))
  {
    StepKeepsBooks(s, PostFlow(fate));
    FlowStep(s, fate);
    var topic, s' := s.watcher.topic, Next(s, PostFlow(fate));
    forall t | IsKafkaManagedTopic(t)
      ensures Count(s'.born, t) == if Committed(s', t) then 1 else 0
    {
      var added := s'.born[|s.born|..];
      assert s'.born == s.born + added;
      CountConcat(s.born, added, t);
      CountOne(IdentOf(FlowDefinition(topic)), t);
    }
  }

  /** Steps other than a creation commit to nothing new. */
  lemma QuietStep(s: Sys, step: Step)
    requires !step.PostFlow? && !step.OperatorRun?
    ensures var s' := Next(s, step);
            && s'.born == s.born
            && (s.watcher != Unseeded ==>
                  && s'.watcher != Unseeded
                  && (|| (s'.watcher == s.watcher && s'.known == s.known)
                      || (s'.watcher == Idle && s.watcher.MakingTable? && s'.known == s.known)
                      || (s'.watcher.MakingTable? && Wanted(s.known, s'.watcher.topic)
                          && s.watcher == Idle && s'.known == s.known)
                      || (s.watcher.MakingTable? && s'.watcher == MakingPipeline(s.watcher.topic)
                          && s'.known == s.known)
                      || (s.watcher.Marking? && s'.watcher == Idle && s'.known == s.known + {s.watcher.topic})))
  {
  }

  lemma BornOnceStep(s: Sys, step: Step)
    requires BornOnce(s) && Fair(step)
    ensures BornOnce(Next(s, step))
  {
    StepKeepsBooks(s, step);
    var s' := Next(s, step);
    if step.PostFlow? {
      if s.watcher.MakingPipeline? {
        FlowKeepsBornOnce(s, step.fate);
      }
    } else if step.OperatorRun? {
      forall t | IsKafkaManagedTopic(t)
        ensures Count(s'.born, t) == if Committed(s', t) then 1 else 0
      {
        OperatorKeepsCounts(s, step.name, step.fate, t);
      }
    } else {
      QuietStep(s, step);
    }
  }

  lemma {:induction false} UntouchedRun(s: Sys, steps: seq<Step>)
    requires Untouched(s)
    requires forall st :: st in steps ==> Fair(st) && !st.Seed? && !st.DeleteOld?
    ensures Untouched(Run(s, steps))
    decreases |steps|
  {
    if steps != [] {
      UntouchedStep(s, steps[0]);
      UntouchedRun(Next(s, steps[0]), steps[1..]);
    }
  }

  lemma {:induction false} BornOnceRun(s: Sys, steps: seq<Step>)
    requires BornOnce(s)
    requires forall st :: st in steps ==> Fair(st)
    ensures BornOnce(Run(s, steps))
    decreases |steps|
  {
    if steps != [] {
      BornOnceStep(s, steps[0]);
      BornOnceRun(Next(s, steps[0]), steps[1..]);
    }
  }

  /** The run consists of steps before any deletion, a seeding that succeeds, and anything after. */
  ghost predicate SeededFirst(before: seq<Step>, after: seq<Step>) {
    && (forall st :: st in before ==> Fair(st) && !st.Seed? && !st.DeleteOld?)
    && (forall st :: st in after ==> Fair(st))
  }

  /** In every interleaving, on either kind of server: a managed topic the watcher knows (or has just
      created) is in exactly one place - on the server, in flight in a restart, or lost in one -
      and a topic it does not know is in none.  So there are never two pipelines for a topic, not
      even counting the one a restart holds, and a lost one is never replaced. */
  lemma ExactlyOnePlace(s: Sys, before: seq<Step>, after: seq<Step>, t: string)
    requires Start(s) && UniqueManaged(s.server) && SeededFirst(before, after)
    requires IsKafkaManagedTopic(t)
    ensures var e := Run(s, before + [Seed(Delivered)] + after);
            Count(Idents(e.server.pipelines), t) + Count(InFlight(e), t) + Count(e.lost, t)
            == if Committed(e, t) then 1 else 0
  {
    UntouchedRun(s, before);
    var m := Run(s, before);
    SeedGivesBornOnce(m);
    BornOnceRun(Next(m, Seed(Delivered)), after);
    RunConcat(s, before + [Seed(Delivered)], after);
    RunConcat(s, before, [Seed(Delivered)]);
    assert Run(m, [Seed(Delivered)]) == Next(m, Seed(Delivered));
    CountPlaces(Run(s, before + [Seed(Delivered)] + after), t);
  }

  // ---- definitions keep their routing ----

  /** `n` is the number of definitions present at the start. */
  ghost predicate Routed(s: Sys, n: nat) {
    && n <= |s.born|
    && (forall b :: b in s.born && IsKafkaManagedTopic(b.name) ==> b.query == FlowQuery(b.name))
    && (forall i :: n <= i < |s.born| && IsKafkaManagedTopic(s.born[i].name) ==>
                      KafkaName(s.born[i].name) in s.server.tables)
    && (s.watcher.MakingPipeline? ==> KafkaName(s.watcher.topic) in s.server.tables)
  }

  lemma CreationRouted(s: Sys, s': Sys, def: Definition, fate: Fate, n: nat)
    requires Books(s) && Routed(s, n)
    requires s'.server == Create(s.server, def, fate).0 && s'.born == s.born + Added(s.server, s'.server)
    requires !s'.watcher.MakingPipeline? || s'.watcher == s.watcher
    requires IsKafkaManagedTopic(def.name) ==>
               def.query == FlowQuery(def.name) && KafkaName(def.name) in s.server.tables
    ensures Routed(s', n)
  {
    CreateBooks(s.server, def, fate);
  }

  lemma RoutedStep(s: Sys, step: Step, n: nat)
    requires Books(s) && Routed(s, n)
    requires step.OperatorRun? ==> !IsKafkaManagedTopic(step.name)
    ensures Routed(Next(s, step), n)
    ensures s.server.tables <= Next(s, step).server.tables
  {
    var s' := Next(s, step);
    if step.PostFlow? && s.watcher.MakingPipeline? {
      CreationRouted(s, s', FlowDefinition(s.watcher.topic), step.fate, n);
    } else if step.OperatorRun? {
      CreationRouted(s, s', Definition(step.name, OPERATOR_QUERY, Some(3), 0), step.fate, n);
    } else {
      assert s'.born == s.born;
    }
  }

  lemma {:induction false} RoutedRun(s: Sys, steps: seq<Step>, n: nat)
    requires Books(s) && Routed(s, n)
    requires forall st :: st in steps && st.OperatorRun? ==> !IsKafkaManagedTopic(st.name)
    ensures Routed(Run(s, steps), n)
    decreases |steps|
  {
    if steps != [] {
      StepKeepsBooks(s, steps[0]);
      RoutedStep(s, steps[0], n);
      RoutedRun(Next(s, steps[0]), steps[1..], n);
    }
  }

  /** Routing survives every run, whatever fails: a managed definition on the server or in flight
      reads its own Kafka table and inserts into its family's table; those born in this run also
      have that Kafka table on the server. */
  lemma RoutingPreserved(s: Sys, steps: seq<Step>, i: Ident)
    requires Start(s)
    requires forall b :: b in s.born && IsKafkaManagedTopic(b.name) ==> b.query == FlowQuery(b.name)
    requires forall st :: st in steps && st.OperatorRun? ==> !IsKafkaManagedTopic(st.name)
    requires IsKafkaManagedTopic(i.name)
    ensures var e := Run(s, steps);
            && (i in Idents(e.server.pipelines) + InFlight(e) ==>
                  && i.query == FlowQuery(i.name)
                  && (i !in s.born ==> KafkaName(i.name) in e.server.tables))
  {
    RunKeepsBooks(s, steps);
    RoutedRun(s, steps, |s.born|);
    BornGrows(s, steps);
    var e := Run(s, steps);
    if i in Idents(e.server.pipelines) + InFlight(e) {
      assert i in Held(e);
      assert i in multiset(e.born);
      var k :| 0 <= k < |e.born| && e.born[k] == i;
      if k < |s.born| {
        assert s.born[k] == i;
      }
    }
  }

  lemma {:induction false} BornGrows(s: Sys, steps: seq<Step>)
    ensures s.born <= Run(s, steps).born
    decreases |steps|
  {
    if steps != [] {
      BornGrows(Next(s, steps[0]), steps[1..]);
    }
  }

  // ---- the loops' own procedures are runs of this machine ----

  /** An undisturbed restart takes the machine's three steps. */
  lemma RestartIsARun(s: Sys, id: nat, todo: seq<nat>, f: RestartFates)
    requires s.supervisor == Fetching(id, todo)
    ensures var e := Run(s, [FetchOld(f.fetch), DeleteOld(f.delete), Recreate(f.create)]);
            e.server == Restart(s.server, id, f).0 && e.supervisor == Scanning(todo) && e.known == s.known
  {
    var s1 := Next(s, FetchOld(f.fetch));
    var s2 := Next(s1, DeleteOld(f.delete));
    var s3 := Next(s2, Recreate(f.create));
    assert Run(s2, [Recreate(f.create)]) == s3;
    assert [DeleteOld(f.delete), Recreate(f.create)][1..] == [Recreate(f.create)];
    assert [FetchOld(f.fetch), DeleteOld(f.delete), Recreate(f.create)][1..] == [DeleteOld(f.delete), Recreate(f.create)];
  }

  /** An undisturbed flow creation takes four. */
  lemma FlowIsARun(s: Sys, topic: string, f: FlowFates)
    requires s.watcher == Idle && Wanted(s.known, topic)
    ensures var e := Run(s, [PickTopic(topic), PostTable(f.table), PostFlow(f.pipeline), MarkKnown]);
            var (server, ok) := Flow(s.server, topic, f);
            && e.server == server && e.watcher == Idle && e.supervisor == s.supervisor
            && e.known == if ok then s.known + {topic} else s.known
  {
    var s1 := Next(s, PickTopic(topic));
    var s2 := Next(s1, PostTable(f.table));
    var s3 := Next(s2, PostFlow(f.pipeline));
    var s4 := Next(s3, MarkKnown);
    var (tabled, a) := CreateTable(s.server, KafkaName(topic), f.table);
    assert s2.server == tabled;
    if Tolerated(a) {
      assert s3.server == Create(tabled, FlowDefinition(topic), f.pipeline).0;
    } else {
      assert s4 == s2;
    }
    var steps := [PickTopic(topic), PostTable(f.table), PostFlow(f.pipeline), MarkKnown];
    assert Run(s3, [MarkKnown]) == s4;
    assert steps[1..][1..][1..] == [MarkKnown];
    assert Run(s2, steps[1..][1..]) == s4;
    assert Run(s1, steps[1..]) == s4;
  }

  function FlowSteps(topic: string, f: FlowFates): seq<Step> {
    [PickTopic(topic), PostTable(f.table), PostFlow(f.pipeline), MarkKnown]
  }

  /** A topic that is not wanted is passed over. */
  lemma UnwantedIsSkipped(s: Sys, topic: string, f: FlowFates)
    requires s.watcher == Idle && !Wanted(s.known, topic)
    ensures Run(s, FlowSteps(topic, f)) == s
  {
    var steps := FlowSteps(topic, f);
    assert steps == [steps[0]] + ([steps[1]] + ([steps[2]] + [steps[3]]));
    RunConcat(s, [steps[2]], [steps[3]]);
    RunConcat(s, [steps[1]], [steps[2]] + [steps[3]]);
    RunConcat(s, [steps[0]], [steps[1]] + ([steps[2]] + [steps[3]]));
    assert forall i :: 0 <= i < 4 ==> Next(s, steps[i]) == s && Run(s, [steps[i]]) == s;
  }

  function ScanSteps(topics: seq<string>, fates: seq<FlowFates>): seq<Step>
    requires |fates| == |topics|
  {
    if topics == [] then []
    else
      var n := |topics| - 1;
      ScanSteps(topics[..n], fates[..n]) + FlowSteps(topics[n], fates[n])
  }

  /** An undisturbed scan of a topic list is a run, with the outcome `ScanTopics` states. */
  lemma {:induction false} ScanIsARun(s: Sys, topics: seq<string>, fates: seq<FlowFates>)
    requires |fates| == |topics| && s.watcher == Idle
    ensures var e := Run(s, ScanSteps(topics, fates));
            && (e.known, e.server) == Scan(s.known, s.server, topics, fates)
            && e.watcher == Idle && e.supervisor == s.supervisor
    decreases |topics|
  {
    if topics != [] {
      var n := |topics| - 1;
      ScanIsARun(s, topics[..n], fates[..n]);
      var m := Run(s, ScanSteps(topics[..n], fates[..n]));
      RunConcat(s, ScanSteps(topics[..n], fates[..n]), FlowSteps(topics[n], fates[n]));
      if Wanted(m.known, topics[n]) {
        FlowIsARun(m, topics[n], fates[n]);
      } else {
        UnwantedIsSkipped(m, topics[n], fates[n]);
      }
    }
  }

  function TurnSteps(turn: Turn): seq<Step> {
    [ReadJobs(turn.jobs)] + [FetchOld(turn.restart.fetch), DeleteOld(turn.restart.delete), Recreate(turn.restart.create)]
  }

  /** One turn of a pass: a restart if the jobs could be read and one had stopped or failed, nothing
      otherwise. */
  lemma TurnIsARun(s: Sys, id: nat, todo: seq<nat>, turn: Turn)
    requires s.supervisor == Scanning([id] + todo)
    ensures var e := Run(s, TurnSteps(turn));
            && e.server == (if Selected(s.server, id, turn) then Restart(s.server, id, turn.restart).0 else s.server)
            && e.supervisor == Scanning(todo)
  {
    var s1 := Next(s, ReadJobs(turn.jobs));
    var f := turn.restart;
    assert ([id] + todo)[0] == id && ([id] + todo)[1..] == todo;
    assert Run(s, [ReadJobs(turn.jobs)]) == s1;
    RunConcat(s, [ReadJobs(turn.jobs)], [FetchOld(f.fetch), DeleteOld(f.delete), Recreate(f.create)]);
    if Selected(s.server, id, turn) {
      RestartIsARun(s1, id, todo, f);
    } else {
      var rest := [FetchOld(f.fetch), DeleteOld(f.delete), Recreate(f.create)];
      assert Next(s1, rest[0]) == s1 && Next(s1, rest[1]) == s1 && Next(s1, rest[2]) == s1;
      assert rest == [rest[0]] + rest[1..] && rest[1..] == [rest[1]] + [rest[2]];
      RunConcat(s1, [rest[1]], [rest[2]]);
      RunConcat(s1, [rest[0]], rest[1..]);
      assert Run(s1, [rest[2]]) == Run(s1, [rest[1]]) == Run(s1, [rest[0]]) == s1;
    }
  }

  function PassSteps(turns: seq<Turn>): seq<Step> {
    if turns == [] then [] else PassSteps(turns[..|turns| - 1]) + TurnSteps(turns[|turns| - 1])
  }

  /** An undisturbed pass over a snapshot is a run, with the outcome `CheckAndRestartPipelines` states. */
  lemma {:induction false} PassIsARun(s: Sys, ids: seq<nat>, todo: seq<nat>, turns: seq<Turn>)
    requires |ids| == |turns| && s.supervisor == Scanning(ids + todo)
    ensures Run(s, PassSteps(turns)).server == Pass(s.server, ids, turns).0
    ensures Run(s, PassSteps(turns)).supervisor == Scanning(todo)
    decreases |ids|
  {
    if ids == [] {
      assert ids + todo == todo;
    } else {
      var n := |ids| - 1;
      assert ids + todo == ids[..n] + ([ids[n]] + todo);
      PassIsARun(s, ids[..n], [ids[n]] + todo, turns[..n]);
      RunConcat(s, PassSteps(turns[..n]), TurnSteps(turns[n]));
      TurnIsARun(Run(s, PassSteps(turns[..n])), ids[n], todo, turns[n]);
    }
  }
}
