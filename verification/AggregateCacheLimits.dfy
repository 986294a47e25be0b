/** How far a cached aggregate stands for the tables: it is the summary of one state exactly for
    windows within one UTC day. */
module AggregateCacheLimits {
  import opened Common
  import opened Readings
  import opened Aggregates
  import opened AggregateHandler
  import opened AggregateCache
  import opened AggregateCacheTheorems
  import opened AggregateCacheTrace

  lemma {:induction false} RunConcat(p: Platform, delay: nat, w: World, a: seq<Step>, b: seq<Step>)
    requires Lawful(p) && Inv(p, delay, w)
    ensures Inv(p, delay, Run(p, delay, w, a))
    ensures Run(p, delay, w, a + b) == Run(p, delay, Run(p, delay, w, a), b)
    decreases |a|
  {
    RunKeepsInv(p, delay, w, a);
    if a == [] {
      assert [] + b == b;
    } else {
      StepKeepsInv(p, delay, w, a[0]);
      assert (a + b)[1..] == a[1..] + b;
      RunConcat(p, delay, Next(p, delay, w, a[0]), a[1..], b);
    }
  }

  lemma InvServable(p: Platform, delay: nat, w: World)
    requires Inv(p, delay, w)
    ensures Servable(p, w)
  {
  }

  /** Buckets a read still has to query; none from the start if the window ends on an earlier day. */
  function Remaining(req: Request): nat
    requires req.phase.Reading?
  {
    if req.phase.next > Day(req.now) then 0 else Day(req.now) + 1 - req.phase.next
  }

  /** Buckets of a window. */
  function Buckets(p: Platform, q: Query, now: int): nat
    requires Admissible(p, q)
  {
    if Day(From(p, q, now)) > Day(now) then 0 else DaysOf(p, q, now)
  }

  /** From the middle of a read to the answer, undisturbed. */
  lemma FinishReading(p: Platform, delay: nat, w: World, r: nat) returns (seen: seq<nat>)
    requires Lawful(p) && Inv(p, delay, w) && Servable(p, w)
    requires r < |w.requests| && w.requests[r].phase.Reading?
    ensures var n := Remaining(w.requests[r]);
            var m := ReadState(p, w, r, n, seen);
            && Servable(p, m)
            && Run(p, delay, w, Reads(r, n) + [Finish(r)]) == Next(p, delay, m, Finish(r))
  {
    var n := Remaining(w.requests[r]);
    seen := SeenAfter(w, r, n);
    ReadOn(p, delay, w, r, n);
    RunAppend(p, delay, w, Reads(r, n), Finish(r));
    InvServable(p, delay, Run(p, delay, w, Reads(r, n)));
  }

  /** The state a request is in after opening and missing the cache. */
  function Missed(p: Platform, w: World, q: Query): World
    requires Admissible(p, q) && w.history != []
  {
    w.(requests := w.requests + [Request(q, w.clock, |w.history| - 1, Reading(Day(From(p, q, w.clock)), [], []))])
  }

  lemma OpenAndMiss(p: Platform, delay: nat, w: World, q: Query, fate: Fate)
    requires Lawful(p) && Inv(p, delay, w) && Admissible(p, q) && p.uuidOf(q.sensorText).Some?
    requires Usable(p, w.entries, CacheKey(p, q.sensorText, w.clock, q.window), w.clock, fate) == None
    ensures Run(p, delay, w, [Open(q), Look(|w.requests|, fate)]) == Missed(p, w, q)
    ensures Inv(p, delay, Missed(p, w, q)) && Servable(p, Missed(p, w, q))
  {
    var r := |w.requests|;
    assert [Open(q), Look(r, fate)] == [] + [Open(q)] + [Look(r, fate)];
    RunAppend(p, delay, w, [], Open(q));
    RunAppend(p, delay, w, [] + [Open(q)], Look(r, fate));
    RunKeepsInv(p, delay, w, [Open(q), Look(r, fate)]);
    assert Run(p, delay, w, [] + [Open(q)]).requests[r] == Request(q, w.clock, |w.history| - 1, Looking);
  }

  /** Answering with what was gathered. */
  lemma Answer(p: Platform, delay: nat, w: World, r: nat)
    requires Servable(p, w) && r < |w.requests|
    requires w.requests[r].phase.Reading? && w.requests[r].phase.next > Day(w.requests[r].now)
    ensures var e, q, now := Next(p, delay, w, Finish(r)), w.requests[r].query, w.requests[r].now;
            var agg := AggregateOf(w.requests[r].phase.acc, now);
            && |e.requests| == |w.requests|
            && e.requests[r].phase == Answered(if agg == None then NotFound else Fresh(agg.value), w.clock)
            && e == w.(requests := e.requests, pending := e.pending)
            && (agg == None ==> e.pending == w.pending)
            && (agg.Some? ==>
                  e.pending == w.pending + [Write(CacheKey(p, q.sensorText, now, q.window), p.encode(agg.value),
                    Origin(q, now, w.requests[r].begun, w.requests[r].phase.seen, |w.history| - 1, w.clock))])
  {
  }

  lemma MissedGathers(p: Platform, w: World, q: Query)
    requires Admissible(p, q) && w.history != []
    ensures var m, r := Missed(p, w, q), |w.requests|;
            [] + Gathered(p, m, m.requests[r], Buckets(p, q, w.clock))
            == Read(TableOf(w.history[|w.history| - 1], q.sType), SensorOf(p, q), From(p, q, w.clock), w.clock)
  {
  }

  lemma MissAnswered(p: Platform, delay: nat, w: World, q: Query, seen: seq<nat>)
    requires Admissible(p, q) && w.history != [] && p.uuidOf(q.sensorText).Some?
    requires Servable(p, ReadState(p, Missed(p, w, q), |w.requests|, Buckets(p, q, w.clock), seen))
    ensures var r := |w.requests|;
            var e := Next(p, delay, ReadState(p, Missed(p, w, q), r, Buckets(p, q, w.clock), seen), Finish(r));
            var reply := MissReply(p, w.history[|w.history| - 1], q, w.clock, {});
            && |e.requests| == r + 1
            && e.requests[r].phase == Answered(reply, w.clock)
            && e == w.(requests := e.requests, pending := e.pending)
            && (reply.Fresh? ==>
                  && |e.pending| == |w.pending| + 1
                  && var x := e.pending[|w.pending|];
                     && x.key == CacheKey(p, q.sensorText, w.clock, q.window)
                     && x.text == p.encode(reply.agg)
                     && x.origin.query == q && x.origin.now == w.clock)
  {
    MissedGathers(p, w, q);
    Answer(p, delay, ReadState(p, Missed(p, w, q), |w.requests|, Buckets(p, q, w.clock), seen), |w.requests|);
  }

  lemma MissReads(p: Platform, delay: nat, w: World, q: Query) returns (seen: seq<nat>)
    requires Lawful(p) && Admissible(p, q) && w.history != []
    requires Inv(p, delay, Missed(p, w, q)) && Servable(p, Missed(p, w, q))
    ensures var m, r, n := Missed(p, w, q), |w.requests|, Buckets(p, q, w.clock);
            && Servable(p, ReadState(p, m, r, n, seen))
            && Run(p, delay, m, Reads(r, n) + [Finish(r)]) == Next(p, delay, ReadState(p, m, r, n, seen), Finish(r))
  {
    var m, r := Missed(p, w, q), |w.requests|;
    assert m.requests[r] == Request(q, w.clock, |w.history| - 1, Reading(Day(From(p, q, w.clock)), [], []));
    seen := FinishReading(p, delay, m, r);
  }

  /** A request nobody disturbs gets the handler's miss reply for the current tables, and hands the
      handler's cache write to the driver. */
  lemma UndisturbedMiss(p: Platform, delay: nat, w: World, q: Query, fate: Fate)
    requires Lawful(p) && Inv(p, delay, w) && Admissible(p, q) && p.uuidOf(q.sensorText).Some?
    requires Usable(p, w.entries, CacheKey(p, q.sensorText, w.clock, q.window), w.clock, fate) == None
    ensures var r, n := |w.requests|, Buckets(p, q, w.clock);
            var e := Run(p, delay, w, [Open(q), Look(r, fate)] + (Reads(r, n) + [Finish(r)]));
            var reply := MissReply(p, w.history[|w.history| - 1], q, w.clock, {});
            && |e.requests| == r + 1
            && e.requests[r].phase == Answered(reply, w.clock)
            && e == w.(requests := e.requests, pending := e.pending)
            && (reply.Fresh? ==>
                  && |e.pending| == |w.pending| + 1
                  && var x := e.pending[|w.pending|];
                     && x.key == CacheKey(p, q.sensorText, w.clock, q.window)
                     && x.text == p.encode(reply.agg)
                     && x.origin.query == q && x.origin.now == w.clock)
  {
    var r, n := |w.requests|, Buckets(p, q, w.clock);
    OpenAndMiss(p, delay, w, q, fate);
    var seen := MissReads(p, delay, w, q);
    RunConcat(p, delay, w, [Open(q), Look(r, fate)], Reads(r, n) + [Finish(r)]);
    MissAnswered(p, delay, w, q, seen);
  }

  /** If the query on bucket k fails, the answer is the handler's for that day failing. */
  lemma FailedBucketMiss(p: Platform, delay: nat, w: World, q: Query, fate: Fate, k: nat)
    requires Lawful(p) && Inv(p, delay, w) && Admissible(p, q) && p.uuidOf(q.sensorText).Some?
    requires Usable(p, w.entries, CacheKey(p, q.sensorText, w.clock, q.window), w.clock, fate) == None
    requires k < Buckets(p, q, w.clock)
    ensures var r, day := |w.requests|, Day(From(p, q, w.clock)) + k;
            var e := Run(p, delay, w, [Open(q), Look(r, fate)] + (Reads(r, k) + [ReadBucket(r, false)]));
            && |e.requests| == r + 1
            && e.requests[r].phase == Answered(MissReply(p, w.history[|w.history| - 1], q, w.clock, {day}), w.clock)
            && e.requests[r].phase.reply == ReadError
            && e == w.(requests := e.requests)
  {
    var r := |w.requests|;
    OpenAndMiss(p, delay, w, q, fate);
    RunConcat(p, delay, w, [Open(q), Look(r, fate)], Reads(r, k) + [ReadBucket(r, false)]);
    var m := Missed(p, w, q);
    assert m.requests[r] == Request(q, w.clock, |w.history| - 1, Reading(Day(From(p, q, w.clock)), [], []));
    ReadOn(p, delay, m, r, k);
    RunAppend(p, delay, m, Reads(r, k), ReadBucket(r, false));
    FailsAt(p, delay, w, q, k, SeenAfter(m, r, k));
  }

  lemma FailsAt(p: Platform, delay: nat, w: World, q: Query, k: nat, seen: seq<nat>)
    requires Admissible(p, q) && w.history != [] && k < Buckets(p, q, w.clock)
    requires Servable(p, ReadState(p, Missed(p, w, q), |w.requests|, k, seen))
    ensures var r, day := |w.requests|, Day(From(p, q, w.clock)) + k;
            var e := Next(p, delay, ReadState(p, Missed(p, w, q), r, k, seen), ReadBucket(r, false));
            && |e.requests| == r + 1
            && e.requests[r].phase == Answered(ReadError, w.clock)
            && MissReply(p, w.history[|w.history| - 1], q, w.clock, {day}) == ReadError
            && e == w.(requests := e.requests)
  {
    var day := Day(From(p, q, w.clock)) + k;
    assert day in {day};
  }

  /** A sensor id that does not parse is a read error here as in the handler. */
  lemma UnparsableMiss(p: Platform, delay: nat, w: World, q: Query, fate: Fate)
    requires Lawful(p) && Inv(p, delay, w) && Admissible(p, q) && p.uuidOf(q.sensorText) == None
    requires Usable(p, w.entries, CacheKey(p, q.sensorText, w.clock, q.window), w.clock, fate) == None
    ensures var r := |w.requests|;
            var e := Run(p, delay, w, [Open(q), Look(r, fate)]);
            && |e.requests| == r + 1
            && e.requests[r].phase == Answered(MissReply(p, w.history[|w.history| - 1], q, w.clock, {}), w.clock)
            && e == w.(requests := e.requests)
  {
    var r := |w.requests|;
    assert [Open(q), Look(r, fate)] == [] + [Open(q)] + [Look(r, fate)];
    RunAppend(p, delay, w, [], Open(q));
    RunAppend(p, delay, w, [] + [Open(q)], Look(r, fate));
    assert Run(p, delay, w, [] + [Open(q)]).requests[r] == Request(q, w.clock, |w.history| - 1, Looking);
  }

  // ---- one state of the tables, or several ----

  /** The entry under `key`, if computed by this query at this instant, is the flat summary of one
      version that was current at some instant between the request and its answer. */
  ghost predicate OneState(p: Platform, w: World, key: string, q: Query, now: int)
    requires Admissible(p, q)
  {
    && key in w.entries && key in w.origins && w.origins[key].query == q && w.origins[key].now == now
    && p.decode(w.entries[key].text).Some?
    ==>
      exists v: nat :: v < |w.history| && CurrentDuring(w.since, v, now, w.origins[key].done)
                       && FlatAggregate(p, w.history[v], q, now) == p.decode(w.entries[key].text)
  }

  /** ... in every run whose tables stay well bucketed. */
  ghost predicate AlwaysOneState(p: Platform, delay: nat, q: Query, now: int)
    requires Lawful(p) && Admissible(p, q)
  {
    forall data: Tables, clock: int, steps: seq<Step>, key: string ::
      AllWellBucketed(Run(p, delay, Start(clock, data), steps).history) ==>
        OneState(p, Run(p, delay, Start(clock, data), steps), key, q, now)
  }

  lemma OneDayIsOneState(p: Platform, delay: nat, data: Tables, clock: int, steps: seq<Step>, key: string,
                         q: Query, now: int)
    requires Lawful(p) && Admissible(p, q) && Day(From(p, q, now)) >= Day(now)
    requires AllWellBucketed(Run(p, delay, Start(clock, data), steps).history)
    ensures OneState(p, Run(p, delay, Start(clock, data), steps), key, q, now)
  {
    RunIsTraced(p, delay, Start(clock, data), steps);
    var w := Run(p, delay, Start(clock, data), steps);
    if key in w.entries && key in w.origins && w.origins[key].query == q && w.origins[key].now == now
       && p.decode(w.entries[key].text).Some?
    {
      var v := OneDayIsOneVersion(p, delay, w, key);
    }
  }

  /** If the window does not begin on an earlier day, its one bucket was read at one version. */
  lemma OneDayIsOneVersion(p: Platform, delay: nat, w: World, key: string) returns (v: nat)
    requires Inv(p, delay, w) && Traced(p, w) && AllWellBucketed(w.history)
    requires key in w.entries && p.decode(w.entries[key].text).Some?
    requires key in w.origins && Admissible(p, w.origins[key].query)
    requires var o := w.origins[key]; Day(From(p, o.query, o.now)) >= Day(o.now)
    ensures var o := w.origins[key];
            && v < |w.history| && CurrentDuring(w.since, v, o.now, o.done)
            && FlatAggregate(p, w.history[v], o.query, o.now) == p.decode(w.entries[key].text)
  {
    var o, agg := w.origins[key], p.decode(w.entries[key].text).value;
    assert EntryOk(p, delay, w, key);
    assert TracedEntry(p, w, key);
    if |o.seen| == 0 {
      assert false;
    }
    v := o.seen[0];
    SameVersionIsFlat(p, w.history, o, agg, v);
  }

  /** For a window within one day, a hit is the flat summary of one version of the tables, and that
      version was current within the last TTL + delay. */
  lemma OneDayHitIsRecent(p: Platform, delay: nat, data: Tables, clock: int, steps: seq<Step>, r: nat, fate: Fate)
    returns (v: nat)
    requires Lawful(p)
    requires var w := Run(p, delay, Start(clock, data), steps);
             && r < |w.requests| && w.requests[r].phase == Looking && AllWellBucketed(w.history)
    requires Servable(p, Run(p, delay, Start(clock, data), steps))
    requires var w := Run(p, delay, Start(clock, data), steps);
             var phase := Next(p, delay, w, Look(r, fate)).requests[r].phase;
             && phase.Answered? && phase.reply.Hit?
             && Admissible(p, w.requests[r].query)
             && Day(From(p, w.requests[r].query, phase.reply.agg.timestamp)) >= Day(phase.reply.agg.timestamp)
    ensures var w := Run(p, delay, Start(clock, data), steps);
            var q, now := w.requests[r].query, w.requests[r].now;
            var key, agg := CacheKey(p, q.sensorText, now, q.window), Next(p, delay, w, Look(r, fate)).requests[r].phase.reply.agg;
            && key in w.origins && SharesKey(w.origins[key].query, q) && Admissible(p, w.origins[key].query)
            && v < |w.history| && CurrentDuring(w.since, v, w.clock - (TTL_MS + delay), w.clock)
            && FlatAggregate(p, w.history[v], w.origins[key].query, agg.timestamp) == Some(agg)
  {
    RunIsTraced(p, delay, Start(clock, data), steps);
    HitIsAnEarlierMiss(p, delay, data, clock, steps, r, fate);
    var w := Run(p, delay, Start(clock, data), steps);
    var q, now := w.requests[r].query, w.requests[r].now;
    var key := CacheKey(p, q.sensorText, now, q.window);
    assert EntryOk(p, delay, w, key);
    var o := w.origins[key];
    assert From(p, o.query, o.now) == From(p, q, o.now);
    v := OneDayIsOneVersion(p, delay, w, key);
    DuringWidens(w.since, v, o.now, o.done, w.clock - (TTL_MS + delay), w.clock);
  }

  // the torn read

  const EMPTY := Tables([], [], [])

  function Early(p: Platform, q: Query, now: int): Row
    requires Admissible(p, q)
  {
    Row(SensorOf(p, q), Day(From(p, q, now)), From(p, q, now), 1.0)
  }

  function LateRow(p: Platform, q: Query, now: int): Row
    requires Admissible(p, q)
  {
    Row(SensorOf(p, q), Day(now), now, 2.0)
  }

  /** The tables before, between and after two inserts, one at each end of the window. */
  function TornHistory(p: Platform, q: Query, now: int): seq<Tables>
    requires Admissible(p, q)
  {
    var t1 := WithRow(EMPTY, q.sType, Early(p, q, now));
    [EMPTY, t1, WithRow(t1, q.sType, LateRow(p, q, now))]
  }

  lemma TornTables(p: Platform, q: Query, now: int)
    requires Admissible(p, q) && Day(From(p, q, now)) < Day(now)
    ensures var h := TornHistory(p, q, now);
            && TableOf(h[0], q.sType) == []
            && TableOf(h[1], q.sType) == [Early(p, q, now)]
            && TableOf(h[2], q.sType) == [Early(p, q, now), LateRow(p, q, now)]
            && AllWellBucketed(h)
  {
    assert Upsert([Early(p, q, now)], LateRow(p, q, now)) == [Early(p, q, now)] + Upsert([], LateRow(p, q, now));
  }

  /** No version's flat summary is that of the late row alone. */
  lemma TornMatchesNone(p: Platform, q: Query, now: int, v: nat)
    requires Admissible(p, q) && Day(From(p, q, now)) < Day(now) && v < 3
    ensures FlatAggregate(p, TornHistory(p, q, now)[v], q, now) != AggregateOf([2.0], now)
  {
    TornTables(p, q, now);
    var h, from := TornHistory(p, q, now), From(p, q, now);
    var e, l := Early(p, q, now), LateRow(p, q, now);
    var t := TableOf(h[v], q.sType);
    FlatOne(e, SensorOf(p, q), from, now);
    if v == 2 {
      assert t[..1] == [e];
      assert Flat(t, SensorOf(p, q), from, now) == [1.0] + [2.0];
    }
  }

  lemma FlatOne(r: Row, sensor: nat, from: int, to: int)
    ensures Flat([r], sensor, from, to) == if InWindow(r, sensor, from, to) then [r.value] else []
  {
    assert [r][..0] == [];
  }

  lemma PickTwo(e: Row, l: Row, sensor: nat, from: int, to: int, lo: int, hi: int)
    requires e.bucket < lo <= l.bucket <= hi && InWindow(l, sensor, from, to)
    ensures Pick([e, l], sensor, from, to, lo, hi) == [l.value]
  {
    assert [e, l][..1] == [e] && [e][..0] == [];
    assert Pick([e], sensor, from, to, lo, hi) == [];
  }

  lemma ScanOne(t: Table, sensor: nat, from: int, to: int, lo: int, hi: int, value: real, now: int)
    requires Pick(t, sensor, from, to, lo, hi) == [value]
    ensures AggregateOf(Scan(t, sensor, from, to, lo, hi), now) == AggregateOf([value], now)
  {
    ScanIsPick(t, sensor, from, to, lo, hi);
    AggregatePermutation(Scan(t, sensor, from, to, lo, hi), [value], now);
  }

  /** After the first bucket, only the late row is left to find. */
  lemma TornRest(p: Platform, q: Query, now: int)
    requires Admissible(p, q) && Day(From(p, q, now)) < Day(now)
    ensures var from := From(p, q, now);
            AggregateOf(Scan([Early(p, q, now), LateRow(p, q, now)], SensorOf(p, q), from, now, Day(from) + 1, Day(now)), now)
            == AggregateOf([2.0], now)
  {
    var from, sensor := From(p, q, now), SensorOf(p, q);
    PickTwo(Early(p, q, now), LateRow(p, q, now), sensor, from, now, Day(from) + 1, Day(now));
    ScanOne([Early(p, q, now), LateRow(p, q, now)], sensor, from, now, Day(from) + 1, Day(now), 2.0, now);
  }

  /** The request, its first bucket query, then the two inserts. */
  function TornSteps(p: Platform, q: Query, now: int): seq<Step>
    requires Admissible(p, q)
  {
    [Open(q), Look(0, Delivered)] + [ReadBucket(0, true)] + [Insert(q.sType, Early(p, q, now))]
    + [Insert(q.sType, LateRow(p, q, now))]
  }

  /** The world halfway through the request, with the tables as in `history`. */
  function TornWorld(p: Platform, q: Query, now: int, history: seq<Tables>): World
    requires Admissible(p, q)
  {
    World(now, history, seq(|history|, _ => now), map[], map[], [Request(q, now, 0, Reading(Day(From(p, q, now)) + 1, [], [0]))], [])
  }

  lemma TornFirst(p: Platform, delay: nat, q: Query, now: int)
    requires Admissible(p, q) && Day(From(p, q, now)) < Day(now)
    ensures var m := Missed(p, Start(now, EMPTY), q);
            Servable(p, m) && Next(p, delay, m, ReadBucket(0, true)) == TornWorld(p, q, now, [EMPTY])
  {
    var m, day := Missed(p, Start(now, EMPTY), q), Day(From(p, q, now));
    assert TableOf(EMPTY, q.sType) == [];
    assert QueryNow(p, EMPTY, q, now, day) == [];
    assert m.requests == [Request(q, now, 0, Reading(day, [], []))];
    var e := Next(p, delay, m, ReadBucket(0, true));
    var acc: seq<real>, seen: seq<nat> := [], [];
    assert acc + acc == acc && seen + [0] == [0];
    assert e == Set(m, 0, Reading(day + 1, acc + acc, seen + [0]));
    assert e.requests == [Request(q, now, 0, Reading(day + 1, [], [0]))];
  }

  lemma TornInserts(p: Platform, delay: nat, q: Query, now: int)
    requires Admissible(p, q)
    ensures var w := TornWorld(p, q, now, [EMPTY]);
            && Servable(p, w)
            && var w1 := Next(p, delay, w, Insert(q.sType, Early(p, q, now)));
               && Servable(p, w1)
               && Next(p, delay, w1, Insert(q.sType, LateRow(p, q, now))) == TornWorld(p, q, now, TornHistory(p, q, now))
  {
    var t1 := WithRow(EMPTY, q.sType, Early(p, q, now));
    var t2 := WithRow(t1, q.sType, LateRow(p, q, now));
    assert [EMPTY] + [t1] == [EMPTY, t1];
    assert [EMPTY, t1] + [t2] == [EMPTY, t1, t2];
    var w1 := Next(p, delay, TornWorld(p, q, now, [EMPTY]), Insert(q.sType, Early(p, q, now)));
    assert w1 == TornWorld(p, q, now, [EMPTY, t1]);
    assert w1.history[|w1.history| - 1] == t1;
    assert TornHistory(p, q, now) == [EMPTY, t1, t2];
    var w2 := Next(p, delay, w1, Insert(q.sType, LateRow(p, q, now)));
    assert w2.history == [EMPTY, t1] + [t2];
    assert w2 == TornWorld(p, q, now, [EMPTY, t1, t2]);
  }

  lemma TornStart(p: Platform, delay: nat, q: Query, now: int)
    requires Lawful(p) && Admissible(p, q) && p.uuidOf(q.sensorText).Some? && Day(From(p, q, now)) < Day(now)
    ensures var w := Run(p, delay, Start(now, EMPTY), TornSteps(p, q, now));
            Inv(p, delay, w) && w == TornWorld(p, q, now, TornHistory(p, q, now))
  {
    var s := Start(now, EMPTY);
    OpenAndMiss(p, delay, s, q, Delivered);
    var a := [Open(q), Look(0, Delivered)];
    var e, l := Early(p, q, now), LateRow(p, q, now);
    TornFirst(p, delay, q, now);
    RunAppend(p, delay, s, a, ReadBucket(0, true));
    TornInserts(p, delay, q, now);
    RunAppend(p, delay, s, a + [ReadBucket(0, true)], Insert(q.sType, e));
    RunAppend(p, delay, s, a + [ReadBucket(0, true)] + [Insert(q.sType, e)], Insert(q.sType, l));
    RunKeepsInv(p, delay, s, TornSteps(p, q, now));
  }

  lemma TornReads(p: Platform, delay: nat, q: Query, now: int) returns (seen: seq<nat>)
    requires Lawful(p) && Admissible(p, q) && Day(From(p, q, now)) < Day(now)
    requires Inv(p, delay, TornWorld(p, q, now, TornHistory(p, q, now)))
    ensures var w, n := TornWorld(p, q, now, TornHistory(p, q, now)), Day(now) - Day(From(p, q, now));
            && Servable(p, ReadState(p, w, 0, n, seen)) && Servable(p, w)
            && Run(p, delay, w, Reads(0, n) + [Finish(0)]) == Next(p, delay, ReadState(p, w, 0, n, seen), Finish(0))
  {
    var w := TornWorld(p, q, now, TornHistory(p, q, now));
    InvServable(p, delay, w);
    assert w.requests[0] == Request(q, now, 0, Reading(Day(From(p, q, now)) + 1, [], [0]));
    seen := FinishReading(p, delay, w, 0);
  }

  /** The rest of the read sees both inserts. */
  lemma TornRun(p: Platform, delay: nat, q: Query, now: int) returns (steps: seq<Step>, seen: seq<nat>)
    requires Lawful(p) && Admissible(p, q) && p.uuidOf(q.sensorText).Some? && Day(From(p, q, now)) < Day(now)
    ensures var m := ReadState(p, TornWorld(p, q, now, TornHistory(p, q, now)), 0, Day(now) - Day(From(p, q, now)), seen);
            Servable(p, m) && Run(p, delay, Start(now, EMPTY), steps) == Next(p, delay, m, Finish(0))
  {
    var n := Day(now) - Day(From(p, q, now));
    TornStart(p, delay, q, now);
    seen := TornReads(p, delay, q, now);
    steps := TornSteps(p, q, now) + (Reads(0, n) + [Finish(0)]);
    RunConcat(p, delay, Start(now, EMPTY), TornSteps(p, q, now), Reads(0, n) + [Finish(0)]);
  }

  /** It finds only the later one. */
  lemma TornAnswer(p: Platform, delay: nat, q: Query, now: int) returns (steps: seq<Step>)
    requires Lawful(p) && Admissible(p, q) && p.uuidOf(q.sensorText).Some? && Day(From(p, q, now)) < Day(now)
    ensures var e := Run(p, delay, Start(now, EMPTY), steps);
            && e.clock == now && e.history == TornHistory(p, q, now)
            && |e.pending| == 1
            && var x := e.pending[0];
               && x.key == CacheKey(p, q.sensorText, now, q.window)
               && x.origin.query == q && x.origin.now == now
               && x.text == p.encode(AggregateOf([2.0], now).value)
  {
    var seen;
    steps, seen := TornRun(p, delay, q, now);
    TornFinish(p, delay, q, now, seen);
  }

  lemma TornFinish(p: Platform, delay: nat, q: Query, now: int, seen: seq<nat>)
    requires Admissible(p, q) && Day(From(p, q, now)) < Day(now)
    requires var w := TornWorld(p, q, now, TornHistory(p, q, now));
             Servable(p, ReadState(p, w, 0, Day(now) - Day(From(p, q, now)), seen))
    ensures var w := TornWorld(p, q, now, TornHistory(p, q, now));
            var e := Next(p, delay, ReadState(p, w, 0, Day(now) - Day(From(p, q, now)), seen), Finish(0));
            && e.clock == now && e.history == TornHistory(p, q, now)
            && |e.pending| == 1
            && var x := e.pending[0];
               && x.key == CacheKey(p, q.sensorText, now, q.window)
               && x.origin.query == q && x.origin.now == now
               && x.text == p.encode(AggregateOf([2.0], now).value)
  {
    var w := TornWorld(p, q, now, TornHistory(p, q, now));
    var acc := TornAcc(p, q, now, seen);
    Answer(p, delay, ReadState(p, w, 0, Day(now) - Day(From(p, q, now)), seen), 0);
  }

  lemma GatheredFrom(p: Platform, w: World, req: Request, n: nat, t: Table)
    requires Admissible(p, req.query) && req.phase.Reading? && w.history != []
    requires TableOf(w.history[|w.history| - 1], req.query.sType) == t
    ensures Gathered(p, w, req, n)
         == Scan(t, SensorOf(p, req.query), From(p, req.query, req.now), req.now, req.phase.next, req.phase.next + n - 1)
  {
  }

  lemma ReadStateOfOne(p: Platform, w: World, req: Request, n: nat, seen: seq<nat>)
    requires w.requests == [req] && req.phase.Reading? && Admissible(p, req.query) && w.history != []
    ensures ReadState(p, w, 0, n, seen)
         == w.(requests := [req.(phase := Reading(req.phase.next + n, req.phase.acc + Gathered(p, w, req, n), seen))])
  {
  }

  /** Finishing a read that has gathered nothing so far, the only request there is. */
  lemma ReadRest(p: Platform, w: World, req: Request, t: Table, last: int, n: nat, seen: seq<nat>)
    requires w.requests == [req] && req.phase.Reading? && req.phase.acc == [] && n == last + 1 - req.phase.next
    requires Admissible(p, req.query) && w.history != []
    requires TableOf(w.history[|w.history| - 1], req.query.sType) == t
    ensures var rest := Scan(t, SensorOf(p, req.query), From(p, req.query, req.now), req.now, req.phase.next, last);
            ReadState(p, w, 0, n, seen) == w.(requests := [req.(phase := Reading(last + 1, rest, seen))])
  {
    GatheredFrom(p, w, req, n, t);
    ReadStateOfOne(p, w, req, n, seen);
    var rest := Gathered(p, w, req, n);
    assert [] + rest == rest;
  }

  /** The table the rest of the read sees. */
  lemma TornLast(p: Platform, q: Query, now: int) returns (t: Table)
    requires Admissible(p, q) && Day(From(p, q, now)) < Day(now)
    ensures t == TableOf(TornHistory(p, q, now)[2], q.sType)
    ensures var from := From(p, q, now);
            AggregateOf(Scan(t, SensorOf(p, q), from, now, Day(from) + 1, Day(now)), now) == AggregateOf([2.0], now)
  {
    TornTables(p, q, now);
    TornRest(p, q, now);
    t := [Early(p, q, now), LateRow(p, q, now)];
  }

  lemma TornAcc(p: Platform, q: Query, now: int, seen: seq<nat>) returns (acc: seq<real>)
    requires Admissible(p, q) && Day(From(p, q, now)) < Day(now)
    ensures var w := TornWorld(p, q, now, TornHistory(p, q, now));
            ReadState(p, w, 0, Day(now) - Day(From(p, q, now)), seen)
            == w.(requests := [Request(q, now, 0, Reading(Day(now) + 1, acc, seen))])
    ensures AggregateOf(acc, now) == AggregateOf([2.0], now)
  {
    var t := TornLast(p, q, now);
    var w, first, last := TornWorld(p, q, now, TornHistory(p, q, now)), Day(From(p, q, now)) + 1, Day(now);
    ReadRest(p, w, Request(q, now, 0, Reading(first, [], [0])), t, last, last + 1 - first, seen);
    acc := Scan(t, SensorOf(p, q), From(p, q, now), now, first, last);
  }

  lemma NotOneState(p: Platform, w: World, key: string, q: Query, now: int, agg: Aggregate)
    requires Admissible(p, q)
    requires key in w.entries && key in w.origins && w.origins[key].query == q && w.origins[key].now == now
    requires p.decode(w.entries[key].text) == Some(agg)
    requires forall v: nat :: v < |w.history| ==> FlatAggregate(p, w.history[v], q, now) != Some(agg)
    ensures !OneState(p, w, key, q, now)
  {
  }

  lemma LandOnly(p: Platform, delay: nat, w: World)
    requires Servable(p, w) && |w.pending| == 1 && w.clock <= w.pending[0].origin.now + delay
    ensures var e, x := Next(p, delay, w, Land(0)), w.pending[0];
            && e.history == w.history
            && x.key in e.entries && e.entries[x.key].text == x.text
            && x.key in e.origins && e.origins[x.key] == x.origin
  {
  }

  /** A window that reaches back over midnight can be read torn: the cached aggregate then is the
      flat summary of no version there ever was. */
  lemma TornRead(p: Platform, delay: nat, q: Query, now: int) returns (steps: seq<Step>, key: string)
    requires Lawful(p) && Admissible(p, q) && p.uuidOf(q.sensorText).Some? && Day(From(p, q, now)) < Day(now)
    ensures AllWellBucketed(Run(p, delay, Start(now, EMPTY), steps).history)
    ensures !OneState(p, Run(p, delay, Start(now, EMPTY), steps), key, q, now)
  {
    var before := TornAnswer(p, delay, q, now);
    steps, key := before + [Land(0)], CacheKey(p, q.sensorText, now, q.window);
    RunAppend(p, delay, Start(now, EMPTY), before, Land(0));
    var w := Run(p, delay, Start(now, EMPTY), before);
    InvServable(p, delay, w);
    LandOnly(p, delay, w);
    TornTables(p, q, now);
    var agg := AggregateOf([2.0], now).value;
    forall v: nat | v < 3
      ensures FlatAggregate(p, TornHistory(p, q, now)[v], q, now) != Some(agg)
    {
      TornMatchesNone(p, q, now, v);
    }
    NotOneState(p, Next(p, delay, w, Land(0)), key, q, now, agg);
  }

  /** For a sensor that parses, cached aggregates stand for one state of the tables in every run if
      and only if the window does not begin on an earlier UTC day than it ends. */
  lemma OneStateIffOneDay(p: Platform, delay: nat, q: Query, now: int)
    requires Lawful(p) && Admissible(p, q) && p.uuidOf(q.sensorText).Some?
    ensures AlwaysOneState(p, delay, q, now) <==> Day(From(p, q, now)) >= Day(now)
  {
    if Day(From(p, q, now)) >= Day(now) {
      forall data: Tables, clock: int, steps: seq<Step>, key: string |
        AllWellBucketed(Run(p, delay, Start(clock, data), steps).history)
        ensures OneState(p, Run(p, delay, Start(clock, data), steps), key, q, now)
      {
        OneDayIsOneState(p, delay, data, clock, steps, key, q, now);
      }
    } else {
      var steps, key := TornRead(p, delay, q, now);
    }
  }
}
