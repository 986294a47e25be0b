/** Each precondition of `ExactlyOnePlace` is needed: for every managed topic and either kind of
    server, dropping it admits a run that ends with two definitions of the topic, one on the
    server and one in flight. */
module ControlLoopLimits {
  import opened Common
  import opened Arroyo
  import opened Watcher
  import opened Supervisor
  import opened ControlLoops
  import opened ControlLoopTheorems

  function Initial(server: ServerState): Sys {
    Sys(server, {}, Unseeded, Resting, Idents(server.pipelines), [])
  }

  function EmptyServer(rejects: bool): ServerState {
    ServerState([], {}, 0, rejects)
  }

  /** A server on which the topic's only pipeline has a failed job. */
  function FailedServer(t: string, rejects: bool): ServerState {
    ServerState([Pipeline(0, FlowDefinition(t), [Failed])], {KafkaName(t)}, 1, rejects)
  }

  ghost predicate Doubled(s: Sys, t: string) {
    Count(Idents(s.server.pipelines), t) + Count(InFlight(s), t) == 2
  }

  const TAKEN: seq<Step> := [Snapshot(Delivered), ReadJobs(Delivered), FetchOld(Delivered), DeleteOld(Delivered)]

  function Create3(t: string): seq<Step> {
    [PickTopic(t), PostTable(Delivered), PostFlow(Delivered)]
  }

  lemma RunOne(s: Sys, a: Step)
    ensures Run(s, [a]) == Next(s, a)
  {
    assert [a][1..] == [];
  }

  lemma RunThree(s: Sys, a: Step, b: Step, c: Step)
    ensures Run(s, [a, b, c]) == Next(Next(Next(s, a), b), c)
  {
    assert [a, b, c] == [a] + [b] + [c];
    RunOne(s, a);
    RunOne(Next(s, a), b);
    RunOne(Next(Next(s, a), b), c);
    RunConcat(s, [a], [b]);
    RunConcat(s, [a] + [b], [c]);
  }

  lemma RunFour(s: Sys, a: Step, b: Step, c: Step, d: Step)
    ensures Run(s, [a, b, c, d]) == Next(Next(Next(Next(s, a), b), c), d)
  {
    assert [a, b, c, d] == [a, b, c] + [d];
    RunThree(s, a, b, c);
    RunOne(Run(s, [a, b, c]), d);
    RunConcat(s, [a, b, c], [d]);
  }

  /** The supervisor picks the only pipeline and fetches its definition. */
  lemma Picked(s: Sys)
    requires |s.server.pipelines| == 1 && HasFailed(s.server.pipelines[0].jobs)
    requires s.supervisor == Resting
    ensures var p := s.server.pipelines[0];
            Next(Next(Next(s, Snapshot(Delivered)), ReadJobs(Delivered)), FetchOld(Delivered))
            == s.(supervisor := Deleting(p.id, p.def, []))
  {
    var p := s.server.pipelines[0];
    assert IndexOf(s.server.pipelines, p.id) == 0;
    assert Ids(s.server.pipelines) == [p.id] && [p.id][1..] == [];
    var s1 := Next(s, Snapshot(Delivered));
    assert s1 == s.(supervisor := Scanning([p.id]));
    var s2 := Next(s1, ReadJobs(Delivered));
    assert s2 == s.(supervisor := Fetching(p.id, []));
  }

  /** The supervisor takes the only pipeline off the server. */
  lemma Taken(s: Sys)
    requires |s.server.pipelines| == 1 && HasFailed(s.server.pipelines[0].jobs)
    requires s.supervisor == Resting
    ensures var p := s.server.pipelines[0];
            Run(s, TAKEN) == s.(server := s.server.(pipelines := []), supervisor := Recreating(p.def, []))
  {
    var p := s.server.pipelines[0];
    RunFour(s, Snapshot(Delivered), ReadJobs(Delivered), FetchOld(Delivered), DeleteOld(Delivered));
    Picked(s);
    assert IndexOf(s.server.pipelines, p.id) == 0;
    assert Without(s.server.pipelines, 0) == [];
  }

  /** Meanwhile the watcher, not knowing the topic, creates it again. */
  lemma Overtaken(s: Sys, t: string)
    requires IsKafkaManagedTopic(t) && t !in s.known
    requires s.server.pipelines == [] && s.watcher == Idle
    requires s.supervisor.Recreating? && s.supervisor.def.name == t
    ensures Doubled(Run(s, Create3(t)), t)
  {
    ManagedTopicsAreRouted(t, "temperatures_");
    var s2 := Next(Next(s, PickTopic(t)), PostTable(Delivered));
    var e := Next(s2, PostFlow(Delivered));
    RunThree(s, PickTopic(t), PostTable(Delivered), PostFlow(Delivered));
    assert s2.watcher == MakingPipeline(t);
    assert Idents(e.server.pipelines) == [IdentOf(FlowDefinition(t))];
    CountOne(IdentOf(FlowDefinition(t)), t);
    CountOne(IdentOf(s.supervisor.def), t);
  }

  lemma TakenThenOvertaken(s: Sys, t: string)
    requires IsKafkaManagedTopic(t) && t !in s.known && s.watcher == Idle && s.supervisor == Resting
    requires |s.server.pipelines| == 1 && s.server.pipelines[0].def.name == t
    requires HasFailed(s.server.pipelines[0].jobs)
    ensures Doubled(Run(s, TAKEN + Create3(t)), t)
  {
    Taken(s);
    Overtaken(Run(s, TAKEN), t);
    RunConcat(s, TAKEN, Create3(t));
  }

  function SilentFlow(t: string): seq<Step> {
    [PickTopic(t), PostTable(Delivered), PostFlow(ReplyLost), JobsChange(0, [Failed])]
  }

  /** The watcher gives up on a creation that did happen. */
  lemma SilentlyCreated(s: Sys, t: string, rejects: bool)
    requires IsKafkaManagedTopic(t)
    requires s == Initial(EmptyServer(rejects)).(watcher := Idle)
    ensures var e := Run(s, SilentFlow(t));
            && e.server.pipelines == [Pipeline(0, FlowDefinition(t), [Failed])]
            && e.known == {} && e.watcher == Idle && e.supervisor == Resting
  {
    ManagedTopicsAreRouted(t, "temperatures_");
    RunFour(s, PickTopic(t), PostTable(Delivered), PostFlow(ReplyLost), JobsChange(0, [Failed]));
    var s2 := Next(Next(s, PickTopic(t)), PostTable(Delivered));
    assert s2.watcher == MakingPipeline(t);
    var s3 := Next(s2, PostFlow(ReplyLost));
    assert s3.server.pipelines == [Pipeline(0, FlowDefinition(t), [])];
    assert IndexOf(s3.server.pipelines, 0) == 0;
  }

  /** A creation that takes effect but is reported as failed. */
  lemma LostReplyBreaks(t: string, rejects: bool)
    requires IsKafkaManagedTopic(t)
    ensures var s := Initial(EmptyServer(rejects));
            && Start(s) && UniqueManaged(s.server)
            && Doubled(Run(s, [Seed(Delivered)] + SilentFlow(t) + (TAKEN + Create3(t))), t)
  {
    var s := Initial(EmptyServer(rejects));
    var s1 := Next(s, Seed(Delivered));
    assert s1 == s.(watcher := Idle);
    assert Run(s, [Seed(Delivered)]) == s1;
    SilentlyCreated(s1, t, rejects);
    assert Failed in [Failed];
    TakenThenOvertaken(Run(s1, SilentFlow(t)), t);
    RunConcat(s, [Seed(Delivered)], SilentFlow(t));
    RunConcat(s, [Seed(Delivered)] + SilentFlow(t), TAKEN + Create3(t));
  }

  lemma FailedServerStarts(t: string, rejects: bool)
    ensures var s := Initial(FailedServer(t, rejects));
            Start(s) && UniqueManaged(s.server) && HasFailed(s.server.pipelines[0].jobs)
  {
    var s := Initial(FailedServer(t, rejects));
    assert Failed in s.server.pipelines[0].jobs;
    forall u
      ensures Count(Idents(s.server.pipelines), u) <= 1
    {
      assert Idents(s.server.pipelines) == [IdentOf(FlowDefinition(t))];
      CountOne(IdentOf(FlowDefinition(t)), u);
    }
  }

  /** A seeding that comes after a deletion. */
  lemma LateSeedBreaks(t: string, rejects: bool)
    requires IsKafkaManagedTopic(t)
    ensures var s := Initial(FailedServer(t, rejects));
            && Start(s) && UniqueManaged(s.server)
            && Doubled(Run(s, TAKEN + ([Seed(Delivered)] + Create3(t))), t)
  {
    FailedServerStarts(t, rejects);
    var s := Initial(FailedServer(t, rejects));
    Taken(s);
    var s1 := Run(s, TAKEN);
    var s2 := Next(s1, Seed(Delivered));
    assert Run(s1, [Seed(Delivered)]) == s2;
    Overtaken(s2, t);
    RunConcat(s1, [Seed(Delivered)], Create3(t));
    RunConcat(s, TAKEN, [Seed(Delivered)] + Create3(t));
  }

  /** A seeding that fails. */
  lemma FailedSeedBreaks(t: string, rejects: bool)
    requires IsKafkaManagedTopic(t)
    ensures var s := Initial(FailedServer(t, rejects));
            && Start(s) && UniqueManaged(s.server)
            && Doubled(Run(s, [Seed(Dropped)] + (TAKEN + Create3(t))), t)
  {
    FailedServerStarts(t, rejects);
    var s := Initial(FailedServer(t, rejects));
    var s1 := Next(s, Seed(Dropped));
    assert Run(s, [Seed(Dropped)]) == s1;
    TakenThenOvertaken(s1, t);
    RunConcat(s, [Seed(Dropped)], TAKEN + Create3(t));
  }

  lemma OperatorFirst(s: Sys, t: string, rejects: bool)
    requires s == Initial(EmptyServer(rejects))
    ensures var e := Next(Next(Next(s, Seed(Delivered)), OperatorRun(t, Delivered)), JobsChange(0, [Failed]));
            && e.watcher == Idle && e.known == {} && e.supervisor == Resting
            && |e.server.pipelines| == 1 && e.server.pipelines[0].def.name == t
            && HasFailed(e.server.pipelines[0].jobs)
  {
    var s1 := Next(s, Seed(Delivered));
    assert s1 == s.(watcher := Idle);
    var s2 := Next(s1, OperatorRun(t, Delivered));
    assert s2.server.pipelines == [Pipeline(0, Definition(t, OPERATOR_QUERY, Some(3), 0), [])];
    assert IndexOf(s2.server.pipelines, 0) == 0;
    assert Failed in [Failed];
  }

  /** The operator's route used for a managed name. */
  lemma OperatorNameBreaks(t: string, rejects: bool)
    requires IsKafkaManagedTopic(t)
    ensures var s := Initial(EmptyServer(rejects));
            var run := [Seed(Delivered), OperatorRun(t, Delivered), JobsChange(0, [Failed])];
            && Start(s) && UniqueManaged(s.server)
            && Doubled(Run(s, run + (TAKEN + Create3(t))), t)
  {
    var s := Initial(EmptyServer(rejects));
    var run := [Seed(Delivered), OperatorRun(t, Delivered), JobsChange(0, [Failed])];
    RunThree(s, Seed(Delivered), OperatorRun(t, Delivered), JobsChange(0, [Failed]));
    var s1 := Run(s, run);
    OperatorFirst(s, t, rejects);
    TakenThenOvertaken(s1, t);
    RunConcat(s, run, TAKEN + Create3(t));
  }
}
