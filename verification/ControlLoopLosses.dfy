/** When a managed topic ends up without a pipeline: exactly the requests that lose one. */
module ControlLoopLosses {
  import opened Common
  import opened Arroyo
  import opened Watcher
  import opened Supervisor
  import opened ControlLoops
  import opened ControlLoopTheorems

  /** A recreate without effect, or a deletion that takes effect but is reported as failed. */
  predicate Loses(s: Sys, step: Step, t: string) {
    || (step.Recreate? && s.supervisor.Recreating? && s.supervisor.def.name == t && step.fate == Dropped)
    || (&& step.DeleteOld? && s.supervisor.Deleting? && s.supervisor.def.name == t && step.fate == ReplyLost
        && IndexOf(s.server.pipelines, s.supervisor.id) < |s.server.pipelines|)
  }

  function Losses(s: Sys, steps: seq<Step>, t: string): nat
    decreases |steps|
  {
    if steps == [] then 0
    else (if Loses(s, steps[0], t) then 1 else 0) + Losses(Next(s, steps[0]), steps[1..], t)
  }

  lemma {:induction false} LossesConcat(s: Sys, a: seq<Step>, b: seq<Step>, t: string)
    ensures Losses(s, a + b, t) == Losses(s, a, t) + Losses(Run(s, a), b, t)
    decreases |a|
  {
    if a == [] {
      assert [] + b == b;
    } else {
      assert (a + b)[1..] == a[1..] + b;
      LossesConcat(Next(s, a[0]), a[1..], b, t);
    }
  }

  /** Once a topic is born at most once, the definition in flight is the only one of its name. */
  lemma InFlightIsAlone(s: Sys)
    requires BornOnce(s) && s.supervisor.Recreating? && IsKafkaManagedTopic(s.supervisor.def.name)
    ensures !HasName(s.server.pipelines, s.supervisor.def.name)
  {
    var t := s.supervisor.def.name;
    CountPlaces(s, t);
    CountOne(IdentOf(s.supervisor.def), t);
    CountZero(s.server.pipelines, t);
  }

  lemma RecreateLost(s: Sys, fate: Fate)
    requires s.supervisor.Recreating?
    requires fate != Dropped ==> !HasName(s.server.pipelines, s.supervisor.def.name) || !s.server.rejects
    ensures Next(s, Recreate(fate)).lost == s.lost + if fate == Dropped then [IdentOf(s.supervisor.def)] else []
  {
    assert s.lost + [] == s.lost;
  }

  lemma DeleteLost(s: Sys, fate: Fate)
    requires s.supervisor.Deleting?
    ensures var there := IndexOf(s.server.pipelines, s.supervisor.id) < |s.server.pipelines|;
            Next(s, DeleteOld(fate)).lost == s.lost + if there && fate == ReplyLost then [IdentOf(s.supervisor.def)] else []
  {
    var i := IndexOf(s.server.pipelines, s.supervisor.id);
    if i < |s.server.pipelines| {
      assert |Without(s.server.pipelines, i)| < |s.server.pipelines|;
    }
    assert s.lost + [] == s.lost;
  }

  lemma CountOneMore(ids: seq<Ident>, i: Ident, more: bool, t: string)
    ensures Count(ids + (if more then [i] else []), t) == Count(ids, t) + if more && i.name == t then 1 else 0
  {
    if more {
      CountConcat(ids, [i], t);
      CountOne(i, t);
    } else {
      assert ids + [] == ids;
    }
  }

  /** Under the invariant a recreate is lost exactly if it is dropped. */
  lemma RecreateLoses(s: Sys, fate: Fate, t: string)
    requires BornOnce(s) && s.supervisor.Recreating? && IsKafkaManagedTopic(t)
    ensures Count(Next(s, Recreate(fate)).lost, t)
         == Count(s.lost, t) + if Loses(s, Recreate(fate), t) then 1 else 0
  {
    if s.supervisor.def.name == t {
      InFlightIsAlone(s);
      RecreateLost(s, fate);
      CountOneMore(s.lost, IdentOf(s.supervisor.def), fate == Dropped, t);
    } else {
      RecreateOfAnother(s, fate, t);
    }
  }

  lemma RecreateOfAnother(s: Sys, fate: Fate, t: string)
    requires s.supervisor.Recreating? && s.supervisor.def.name != t
    ensures Count(Next(s, Recreate(fate)).lost, t) == Count(s.lost, t)
  {
    CountOneMore(s.lost, IdentOf(s.supervisor.def), true, t);
    assert s.lost + [] == s.lost;
  }

  lemma DeleteLoses(s: Sys, fate: Fate, t: string)
    requires s.supervisor.Deleting?
    ensures Count(Next(s, DeleteOld(fate)).lost, t)
         == Count(s.lost, t) + if Loses(s, DeleteOld(fate), t) then 1 else 0
  {
    var there := IndexOf(s.server.pipelines, s.supervisor.id) < |s.server.pipelines|;
    DeleteLost(s, fate);
    CountOneMore(s.lost, IdentOf(s.supervisor.def), there && fate == ReplyLost, t);
  }

  lemma StepLoses(s: Sys, step: Step, t: string)
    requires BornOnce(s) && IsKafkaManagedTopic(t)
    ensures Count(Next(s, step).lost, t) == Count(s.lost, t) + if Loses(s, step, t) then 1 else 0
  {
    if step.Recreate? && s.supervisor.Recreating? {
      RecreateLoses(s, step.fate, t);
    } else if step.DeleteOld? && s.supervisor.Deleting? {
      DeleteLoses(s, step.fate, t);
    } else {
      assert Next(s, step).lost == s.lost;
    }
  }

  lemma {:induction false} RunLoses(s: Sys, steps: seq<Step>, t: string)
    requires BornOnce(s) && IsKafkaManagedTopic(t)
    requires forall x :: x in steps ==> Fair(x)
    ensures Count(Run(s, steps).lost, t) == Count(s.lost, t) + Losses(s, steps, t)
    decreases |steps|
  {
    if steps != [] {
      BornOnceStep(s, steps[0]);
      StepLoses(s, steps[0], t);
      RunLoses(Next(s, steps[0]), steps[1..], t);
    }
  }

  lemma {:induction false} NothingLostBefore(s: Sys, steps: seq<Step>, t: string)
    requires Untouched(s)
    requires forall x :: x in steps ==> Fair(x) && !x.Seed? && !x.DeleteOld?
    ensures Losses(s, steps, t) == 0
    decreases |steps|
  {
    if steps != [] {
      UntouchedStep(s, steps[0]);
      NothingLostBefore(Next(s, steps[0]), steps[1..], t);
    }
  }

  lemma SeedLosesNothing(m: Sys, t: string)
    ensures Run(m, [Seed(Delivered)]) == Next(m, Seed(Delivered))
    ensures Losses(m, [Seed(Delivered)], t) == 0
  {
    assert [Seed(Delivered)][1..] == [];
  }

  lemma LostCounts(s: Sys, before: seq<Step>, after: seq<Step>, t: string)
    requires Untouched(s) && SeededFirst(before, after) && IsKafkaManagedTopic(t)
    ensures var steps := before + [Seed(Delivered)] + after;
            Count(Run(s, steps).lost, t) == Losses(s, steps, t)
  {
    var seed := [Seed(Delivered)];
    UntouchedRun(s, before);
    NothingLostBefore(s, before, t);
    var m := Run(s, before);
    SeedGivesBornOnce(m);
    SeedLosesNothing(m, t);
    RunLoses(Next(m, Seed(Delivered)), after, t);
    LossesConcat(s, before + seed, after, t);
    LossesConcat(s, before, seed, t);
    RunConcat(s, before + seed, after);
    RunConcat(s, before, seed);
  }

  /** In every interleaving, on either kind of server, a managed topic is lost exactly as often as a
      recreate of it is dropped or a deletion of it goes through unreported - at most once - and a
      known topic is on no server and in no hands exactly after that.  In particular a recreate is
      never lost to a duplicate. */
  lemma LostExactly(s: Sys, before: seq<Step>, after: seq<Step>, t: string)
    requires Start(s) && UniqueManaged(s.server) && SeededFirst(before, after)
    requires IsKafkaManagedTopic(t)
    ensures var steps := before + [Seed(Delivered)] + after;
            var e := Run(s, steps);
            && Count(e.lost, t) == Losses(s, steps, t) <= 1
            && (Committed(e, t) ==>
                  (Count(Idents(e.server.pipelines), t) + Count(InFlight(e), t) == 0 <==> Losses(s, steps, t) == 1))
  {
    LostCounts(s, before, after, t);
    ExactlyOnePlace(s, before, after, t);
  }
}
