/** What the records of a run stand for: each cached aggregate is the answer some request gave, and the
    versions it was read from were current between that request's start and its answer. */
module AggregateCacheTrace {
  import opened Common
  import opened Readings
  import opened Aggregates
  import opened AggregateHandler
  import opened AggregateCache

  /** Version `v` had come about by instant `t` and was not replaced before it. */
  predicate CurrentAt(since: seq<int>, v: nat, t: int) {
    v < |since| && since[v] <= t && (v + 1 < |since| ==> t <= since[v + 1])
  }

  ghost predicate CurrentDuring(since: seq<int>, v: nat, lo: int, hi: int) {
    exists t :: lo <= t <= hi && CurrentAt(since, v, t)
  }

  lemma DuringWidens(since: seq<int>, v: nat, lo: int, hi: int, lo': int, hi': int)
    requires CurrentDuring(since, v, lo, hi) && lo' <= lo && hi <= hi'
    ensures CurrentDuring(since, v, lo', hi')
  {
    var t :| lo <= t <= hi && CurrentAt(since, v, t);
    assert lo' <= t <= hi';
  }

  /** A request in the world gave this aggregate as its answer, at the recorded time. */
  ghost predicate Gave(requests: seq<Request>, o: Origin, agg: Aggregate) {
    exists r :: 0 <= r < |requests| && requests[r] == Request(o.query, o.now, o.begun, Answered(Fresh(agg), o.done))
  }

  /** The recorded versions were current when the request started, when it answered, and in between. */
  ghost predicate ReadInTime(since: seq<int>, o: Origin) {
    && o.now <= o.done
    && CurrentAt(since, o.begun, o.now)
    && CurrentAt(since, o.closed, o.done)
    && forall i :: 0 <= i < |o.seen| ==> CurrentDuring(since, o.seen[i], o.now, o.done)
  }

  ghost predicate TracedOrigin(w: World, o: Origin, agg: Aggregate) {
    o.done <= w.clock && ReadInTime(w.since, o) && Gave(w.requests, o, agg)
  }

  ghost predicate TracedRequest(w: World, r: Request) {
    && r.now <= w.clock
    && CurrentAt(w.since, r.begun, r.now)
    && (r.phase.Reading? ==> forall i :: 0 <= i < |r.phase.seen| ==> CurrentDuring(w.since, r.phase.seen[i], r.now, w.clock))
  }

  ghost predicate TracedWrite(p: Platform, w: World, x: Write) {
    p.decode(x.text).Some? && TracedOrigin(w, x.origin, p.decode(x.text).value)
  }

  ghost predicate TracedEntry(p: Platform, w: World, key: string)
    requires key in w.entries
  {
    var agg := p.decode(w.entries[key].text);
    agg.Some? ==>
      && key in w.origins
      && TracedOrigin(w, w.origins[key], agg.value)
      && w.origins[key].done <= w.entries[key].expires - TTL_MS
  }

  ghost predicate Dated(w: World) {
    |w.since| == |w.history| > 0 && w.since[|w.since| - 1] <= w.clock
  }

  ghost predicate Traced(p: Platform, w: World) {
    && Dated(w)
    && (forall i {:trigger TracedRequest(w, w.requests[i])} :: 0 <= i < |w.requests| ==> TracedRequest(w, w.requests[i]))
    && (forall i {:trigger TracedWrite(p, w, w.pending[i])} :: 0 <= i < |w.pending| ==> TracedWrite(p, w, w.pending[i]))
    && (forall key {:trigger TracedEntry(p, w, key)} :: key in w.entries ==> TracedEntry(p, w, key))
  }

  // ---- its preservation ----

  /** Answers stay, time goes on, and a new version is dated now. */
  ghost predicate Later(w: World, w': World) {
    && w.clock <= w'.clock
    && (w'.since == w.since || w'.since == w.since + [w.clock])
    && |w.requests| <= |w'.requests|
    && forall r :: 0 <= r < |w.requests| && w.requests[r].phase.Answered? ==> w'.requests[r] == w.requests[r]
  }

  lemma StepIsLater(p: Platform, delay: nat, w: World, step: Step)
    requires Servable(p, w)
    ensures Later(w, Next(p, delay, w, step))
    ensures Dated(w) ==> Dated(Next(p, delay, w, step))
  {
  }

  lemma CurrentStays(since: seq<int>, clock: int, v: nat, t: int)
    requires CurrentAt(since, v, t) && t <= clock
    ensures CurrentAt(since + [clock], v, t)
  {
  }

  lemma DuringStays(since: seq<int>, clock: int, v: nat, lo: int, hi: int)
    requires CurrentDuring(since, v, lo, hi) && hi <= clock
    ensures CurrentDuring(since + [clock], v, lo, hi)
  {
    var t :| lo <= t <= hi && CurrentAt(since, v, t);
    CurrentStays(since, clock, v, t);
  }

  lemma ReadInTimeStays(since: seq<int>, clock: int, o: Origin)
    requires ReadInTime(since, o) && o.done <= clock
    ensures ReadInTime(since + [clock], o)
  {
    CurrentStays(since, clock, o.begun, o.now);
    CurrentStays(since, clock, o.closed, o.done);
    forall i | 0 <= i < |o.seen|
      ensures CurrentDuring(since + [clock], o.seen[i], o.now, o.done)
    {
      DuringStays(since, clock, o.seen[i], o.now, o.done);
    }
  }

  lemma OriginStays(w: World, w': World, o: Origin, agg: Aggregate)
    requires Later(w, w') && TracedOrigin(w, o, agg)
    ensures TracedOrigin(w', o, agg)
  {
    if w'.since != w.since {
      ReadInTimeStays(w.since, w.clock, o);
    }
    var r :| 0 <= r < |w.requests| && w.requests[r] == Request(o.query, o.now, o.begun, Answered(Fresh(agg), o.done));
    assert w'.requests[r] == w.requests[r];
  }

  lemma RequestStays(w: World, w': World, r: Request)
    requires Later(w, w') && TracedRequest(w, r)
    ensures TracedRequest(w', r)
  {
    if w'.since != w.since {
      CurrentStays(w.since, w.clock, r.begun, r.now);
    }
    if r.phase.Reading? {
      forall i | 0 <= i < |r.phase.seen|
        ensures CurrentDuring(w'.since, r.phase.seen[i], r.now, w'.clock)
      {
        if w'.since != w.since {
          DuringStays(w.since, w.clock, r.phase.seen[i], r.now, w.clock);
        }
        DuringWidens(w'.since, r.phase.seen[i], r.now, w.clock, r.now, w'.clock);
      }
    }
  }

  /** The parts of a world that a step may change only to others in order. */
  lemma PartsStay(p: Platform, w: World, w': World)
    requires Traced(p, w) && Later(w, w') && Dated(w')
    requires forall i :: 0 <= i < |w'.requests| ==> w'.requests[i] in w.requests || TracedRequest(w', w'.requests[i])
    requires forall i :: 0 <= i < |w'.pending| ==> w'.pending[i] in w.pending || TracedWrite(p, w', w'.pending[i])
    requires forall key :: key in w'.entries ==> KeptEntry(w, w', key) || TracedEntry(p, w', key)
    ensures Traced(p, w')
  {
    forall i | 0 <= i < |w'.requests|
      ensures TracedRequest(w', w'.requests[i])
    {
      if w'.requests[i] in w.requests {
        var j :| 0 <= j < |w.requests| && w.requests[j] == w'.requests[i];
        assert TracedRequest(w, w.requests[j]);
        RequestStays(w, w', w.requests[j]);
      }
    }
    forall i | 0 <= i < |w'.pending|
      ensures TracedWrite(p, w', w'.pending[i])
    {
      if w'.pending[i] in w.pending {
        var j :| 0 <= j < |w.pending| && w.pending[j] == w'.pending[i];
        assert TracedWrite(p, w, w.pending[j]);
        OriginStays(w, w', w.pending[j].origin, p.decode(w.pending[j].text).value);
      }
    }
    forall key | key in w'.entries
      ensures TracedEntry(p, w', key)
    {
      if KeptEntry(w, w', key) && p.decode(w.entries[key].text).Some? {
        assert TracedEntry(p, w, key);
        OriginStays(w, w', w.origins[key], p.decode(w.entries[key].text).value);
      }
    }
  }

  predicate KeptEntry(w: World, w': World, key: string) {
    && key in w.entries && key in w'.entries && w'.entries[key] == w.entries[key]
    && (key in w.origins ==> key in w'.origins && w'.origins[key] == w.origins[key])
  }

  lemma LatestNow(w: World, v: nat)
    requires Dated(w) && v == |w.history| - 1
    ensures CurrentAt(w.since, v, w.clock)
  {
  }

  lemma ReadIsTraced(p: Platform, delay: nat, w: World, r: nat, ok: bool)
    requires Servable(p, w) && Traced(p, w) && r < |w.requests|
    ensures TracedRequest(w, Next(p, delay, w, ReadBucket(r, ok)).requests[r])
  {
    assert TracedRequest(w, w.requests[r]);
    LatestNow(w, |w.history| - 1);
    assert CurrentDuring(w.since, |w.history| - 1, w.requests[r].now, w.clock);
  }

  lemma FinishIsTraced(p: Platform, delay: nat, w: World, r: nat)
    requires Lawful(p) && Servable(p, w) && Traced(p, w) && r < |w.requests| && w.requests[r].phase.Reading?
    ensures var w' := Next(p, delay, w, Finish(r));
            forall i :: 0 <= i < |w'.pending| ==> w'.pending[i] in w.pending || TracedWrite(p, w', w'.pending[i])
  {
    var w', req := Next(p, delay, w, Finish(r)), w.requests[r];
    if w'.pending != w.pending {
      var x := w'.pending[|w.pending|];
      assert TracedRequest(w, req);
      LatestNow(w, |w.history| - 1);
      assert w'.requests[r] == Request(x.origin.query, x.origin.now, x.origin.begun,
                                       Answered(Fresh(p.decode(x.text).value), x.origin.done));
      assert Gave(w'.requests, x.origin, p.decode(x.text).value);
      assert TracedWrite(p, w', x);
    }
  }

  lemma LandIsTraced(p: Platform, delay: nat, w: World, i: nat)
    requires Servable(p, w) && Traced(p, w) && i < |w.pending|
    ensures var w' := Next(p, delay, w, Land(i));
            && (forall key :: key in w'.entries ==> KeptEntry(w, w', key) || TracedEntry(p, w', key))
            && (forall j :: 0 <= j < |w'.pending| ==> w'.pending[j] in w.pending)
  {
    var w', x := Next(p, delay, w, Land(i)), w.pending[i];
    assert TracedWrite(p, w, x);
    if w' != w {
      OriginStays(w, w', x.origin, p.decode(x.text).value);
      assert TracedEntry(p, w', x.key);
    }
  }

  lemma StepIsTraced(p: Platform, delay: nat, w: World, step: Step)
    requires Lawful(p) && Servable(p, w) && Traced(p, w)
    ensures Traced(p, Next(p, delay, w, step))
  {
    var w' := Next(p, delay, w, step);
    StepIsLater(p, delay, w, step);
    match step
    case Open(q) => OpenIsTraced(p, delay, w, q);
    case Look(r, fate) =>
      if r < |w.requests| {
        LookIsTraced(p, delay, w, r, fate);
      }
    case ReadBucket(r, ok) =>
      if r < |w.requests| {
        ReadIsTraced(p, delay, w, r, ok);
        RequestMovesTraced(p, w, w', r);
      }
    case Finish(r) =>
      if r < |w.requests| && w.requests[r].phase.Reading? {
        FinishIsTraced(p, delay, w, r);
        FinishMoves(p, delay, w, r);
      }
    case Land(i) =>
      if i < |w.pending| {
        LandIsTraced(p, delay, w, i);
        PartsStay(p, w, w');
      }
    case _ => QuietIsTraced(p, delay, w, step);
  }

  lemma RequestMovesTraced(p: Platform, w: World, w': World, r: nat)
    requires Traced(p, w) && Later(w, w') && Dated(w') && r < |w.requests| == |w'.requests|
    requires w' == w.(requests := w.requests[r := w'.requests[r]]) && TracedRequest(w, w'.requests[r])
    ensures Traced(p, w')
  {
    RequestStays(w, w', w'.requests[r]);
    PartsStay(p, w, w');
  }

  lemma FinishMoves(p: Platform, delay: nat, w: World, r: nat)
    requires Servable(p, w) && Traced(p, w) && r < |w.requests| && w.requests[r].phase.Reading?
    requires var w' := Next(p, delay, w, Finish(r));
             forall i :: 0 <= i < |w'.pending| ==> w'.pending[i] in w.pending || TracedWrite(p, w', w'.pending[i])
    ensures Traced(p, Next(p, delay, w, Finish(r)))
  {
    var w' := Next(p, delay, w, Finish(r));
    StepIsLater(p, delay, w, Finish(r));
    assert TracedRequest(w, w.requests[r]);
    if w' != w {
      RequestStays(w, w', w.requests[r].(phase := w'.requests[r].phase));
    }
    PartsStay(p, w, w');
  }

  lemma LookIsTraced(p: Platform, delay: nat, w: World, r: nat, fate: Fate)
    requires Servable(p, w) && Traced(p, w) && r < |w.requests|
    ensures Traced(p, Next(p, delay, w, Look(r, fate)))
  {
    var w' := Next(p, delay, w, Look(r, fate));
    StepIsLater(p, delay, w, Look(r, fate));
    assert TracedRequest(w, w.requests[r]);
    RequestMovesTraced(p, w, w', r);
  }

  lemma OpenIsTraced(p: Platform, delay: nat, w: World, q: Query)
    requires Servable(p, w) && Traced(p, w)
    ensures Traced(p, Next(p, delay, w, Open(q)))
  {
    var w' := Next(p, delay, w, Open(q));
    StepIsLater(p, delay, w, Open(q));
    LatestNow(w, |w.history| - 1);
    PartsStay(p, w, w');
  }

  lemma QuietIsTraced(p: Platform, delay: nat, w: World, step: Step)
    requires Servable(p, w) && Traced(p, w)
    requires step.Tick? || step.Insert? || step.Lose? || step.Evict? || step.Corrupt?
    ensures Traced(p, Next(p, delay, w, step))
  {
    StepIsLater(p, delay, w, step);
    PartsStay(p, w, Next(p, delay, w, step));
  }

  /** In every run from a traced world, a fresh start for one: every cached aggregate that decodes is
      what some request answered, read from versions current between its start and its answer. */
  lemma {:induction false} TracedRun(p: Platform, delay: nat, w: World, steps: seq<Step>)
    requires Lawful(p) && Inv(p, delay, w) && Traced(p, w)
    ensures Inv(p, delay, Run(p, delay, w, steps)) && Traced(p, Run(p, delay, w, steps))
    decreases |steps|
  {
    RunKeepsInv(p, delay, w, steps);
    if steps != [] {
      StepKeepsInv(p, delay, w, steps[0]);
      StepIsTraced(p, delay, w, steps[0]);
      TracedRun(p, delay, Next(p, delay, w, steps[0]), steps[1..]);
    }
  }

  lemma RunIsTraced(p: Platform, delay: nat, s: World, steps: seq<Step>)
    requires Lawful(p) && s.since == [s.clock] && |s.history| == 1
    requires s == Start(s.clock, s.history[0])
    ensures Inv(p, delay, Run(p, delay, s, steps)) && Traced(p, Run(p, delay, s, steps))
  {
    TracedRun(p, delay, s, steps);
  }

  /** The dates are those of the run: the version that is the latest in some state of a run is, for the
      rest of the run, recorded as current at that state's clock. */
  lemma {:induction false} LatestIsCurrent(p: Platform, delay: nat, w: World, steps: seq<Step>, v: nat, t: int)
    requires Lawful(p) && Inv(p, delay, w)
    requires CurrentAt(w.since, v, t) && t <= w.clock && v < |w.history|
    ensures var e := Run(p, delay, w, steps);
            CurrentAt(e.since, v, t) && v < |e.history| && e.history[v] == w.history[v]
    decreases |steps|
  {
    if steps != [] {
      var w' := Next(p, delay, w, steps[0]);
      StepKeepsInv(p, delay, w, steps[0]);
      StepIsLater(p, delay, w, steps[0]);
      if w'.since != w.since {
        CurrentStays(w.since, w.clock, v, t);
      }
      assert w'.history == w.history || w'.history[..|w.history|] == w.history;
      LatestIsCurrent(p, delay, w', steps[1..], v, t);
    }
  }

  lemma StateIsCurrent(p: Platform, delay: nat, w: World, steps: seq<Step>)
    requires Lawful(p) && Inv(p, delay, w) && Traced(p, w)
    ensures var e, v := Run(p, delay, w, steps), |w.history| - 1;
            CurrentAt(e.since, v, w.clock) && v < |e.history| && e.history[v] == w.history[v]
  {
    LatestNow(w, |w.history| - 1);
    LatestIsCurrent(p, delay, w, steps, |w.history| - 1, w.clock);
  }
}
