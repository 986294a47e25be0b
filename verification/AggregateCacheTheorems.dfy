/** What a served aggregate means, in every run of concurrent requests and table writes. */
module AggregateCacheTheorems {
  import opened Common
  import opened Readings
  import opened Aggregates
  import opened AggregateHandler
  import opened AggregateCache
  import opened AggregateCacheTrace

  lemma {:induction false} RunAppend(p: Platform, delay: nat, w: World, steps: seq<Step>, step: Step)
    requires Lawful(p) && Inv(p, delay, w)
    ensures Inv(p, delay, Run(p, delay, w, steps))
    ensures Run(p, delay, w, steps + [step]) == Next(p, delay, Run(p, delay, w, steps), step)
    decreases |steps|
  {
    RunKeepsInv(p, delay, w, steps);
    if steps == [] {
      assert ([] + [step])[1..] == [];
      StepKeepsInv(p, delay, w, step);
    } else {
      StepKeepsInv(p, delay, w, steps[0]);
      assert (steps + [step])[1..] == steps[1..] + [step];
      RunAppend(p, delay, Next(p, delay, w, steps[0]), steps[1..], step);
    }
  }

  // ---- hits ----

  /** Every hit is the answer an earlier request gave, for the same sensor text, window text and UTC
      day; it is less than TTL + delay old, and so is the data: each of its buckets was read at a
      version current at some instant between that request and its answer.  The sensor type is not
      among the things the two requests share. */
  lemma HitIsAnEarlierMiss(p: Platform, delay: nat, data: Tables, clock: int, steps: seq<Step>, r: nat, fate: Fate)
    requires Lawful(p)
    requires r < |Run(p, delay, Start(clock, data), steps).requests|
    requires Run(p, delay, Start(clock, data), steps).requests[r].phase == Looking
    ensures var w := Run(p, delay, Start(clock, data), steps);
            var q, now := w.requests[r].query, w.requests[r].now;
            var key := CacheKey(p, q.sensorText, now, q.window);
            Inv(p, delay, w) &&
            var reply := Next(p, delay, w, Look(r, fate)).requests[r].phase;
            reply.Answered? && reply.reply.Hit? ==>
              && key in w.origins
              && var o, agg := w.origins[key], reply.reply.agg;
                 && o.query.sensorText == q.sensorText && o.query.window == q.window && Day(o.now) == Day(now)
                 && Explains(p, w.history, o, agg)
                 && Gave(w.requests, o, agg)
                 && ReadInTime(w.since, o)
                 && agg.timestamp == o.now <= o.done
                 && w.clock - (TTL_MS + delay) < o.now && o.done <= w.clock
  {
    RunIsTraced(p, delay, Start(clock, data), steps);
    var w := Run(p, delay, Start(clock, data), steps);
    var q, now := w.requests[r].query, w.requests[r].now;
    var key := CacheKey(p, q.sensorText, now, q.window);
    assert RequestOk(p, w, w.requests[r]);
    if Usable(p, w.entries, key, w.clock, fate).Some? {
      assert EntryOk(p, delay, w, key);
      assert TracedEntry(p, w, key);
      var o := w.origins[key];
      KeysAreInjective(p, q.sensorText, now, q.window, o.query.sensorText, o.now, o.query.window);
    }
  }

  /** Whatever text a request names as its sensor, what the service itself stores under a key belongs to
      a sensor id that parsed, a window that parsed, and the day of its own timestamp. */
  lemma StoredKeysHoldSensors(p: Platform, delay: nat, data: Tables, clock: int, steps: seq<Step>, key: string)
    requires Lawful(p)
    requires key in Run(p, delay, Start(clock, data), steps).entries
    requires p.decode(Run(p, delay, Start(clock, data), steps).entries[key].text).Some?
    ensures var w := Run(p, delay, Start(clock, data), steps);
            && key in w.origins
            && var q, agg := w.origins[key].query, p.decode(w.entries[key].text).value;
               && p.uuidOf(q.sensorText).Some? && p.durationOf(q.window).Some?
               && key == CacheKey(p, q.sensorText, agg.timestamp, q.window)
  {
    RunKeepsInv(p, delay, Start(clock, data), steps);
    var w := Run(p, delay, Start(clock, data), steps);
    assert EntryOk(p, delay, w, key);
  }

  // ---- which queries may be asked together ----

  /** Everything asked so far is among the allowed queries. */
  ghost predicate Asked(w: World, allowed: Query -> bool) {
    && (forall i :: 0 <= i < |w.requests| ==> allowed(w.requests[i].query))
    && (forall i :: 0 <= i < |w.pending| ==> allowed(w.pending[i].origin.query))
    && (forall key :: key in w.origins ==> allowed(w.origins[key].query))
  }

  ghost predicate OpensOnly(steps: seq<Step>, allowed: Query -> bool) {
    forall x :: x in steps && x.Open? ==> allowed(x.query)
  }

  lemma AskedSet(w: World, r: nat, phase: Phase, allowed: Query -> bool)
    requires Asked(w, allowed) && r < |w.requests|
    ensures Asked(Set(w, r, phase), allowed)
  {
  }

  lemma AskedFinish(p: Platform, delay: nat, w: World, r: nat, allowed: Query -> bool)
    requires Inv(p, delay, w) && Asked(w, allowed)
    ensures Asked(Next(p, delay, w, Finish(r)), allowed)
  {
    var w' := Next(p, delay, w, Finish(r));
    if w' != w {
      AskedSet(w, r, w'.requests[r].phase, allowed);
    }
  }

  lemma AskedLand(p: Platform, delay: nat, w: World, i: nat, allowed: Query -> bool)
    requires Inv(p, delay, w) && Asked(w, allowed)
    ensures Asked(Next(p, delay, w, Land(i)), allowed)
  {
  }

  lemma AskedStep(p: Platform, delay: nat, w: World, step: Step, allowed: Query -> bool)
    requires Inv(p, delay, w) && Asked(w, allowed)
    requires step.Open? ==> allowed(step.query)
    ensures Asked(Next(p, delay, w, step), allowed)
  {
    var w' := Next(p, delay, w, step);
    match step
    case Finish(r) => AskedFinish(p, delay, w, r, allowed);
    case Land(i) => AskedLand(p, delay, w, i, allowed);
    case Look(r, _) =>
      if w' != w {
        AskedSet(w, r, w'.requests[r].phase, allowed);
      }
    case ReadBucket(r, _) =>
      if w' != w {
        AskedSet(w, r, w'.requests[r].phase, allowed);
      }
    case _ =>
  }

  lemma {:induction false} AskedRun(p: Platform, delay: nat, w: World, steps: seq<Step>, allowed: Query -> bool)
    requires Lawful(p) && Inv(p, delay, w) && Asked(w, allowed) && OpensOnly(steps, allowed)
    ensures Asked(Run(p, delay, w, steps), allowed)
    decreases |steps|
  {
    if steps != [] {
      StepKeepsInv(p, delay, w, steps[0]);
      AskedStep(p, delay, w, steps[0], allowed);
      AskedRun(p, delay, Next(p, delay, w, steps[0]), steps[1..], allowed);
    }
  }

  lemma {:induction false} InvertedBucket(t: Table, sensor: nat, day: int, from: int, to: int)
    requires from > to
    ensures QueryBucket(t, sensor, day, from, to) == []
  {
    if t != [] {
      InvertedBucket(t[..|t| - 1], sensor, day, from, to);
    }
  }

  lemma {:induction false} InvertedAssembly(ts: seq<Table>, sensor: nat, from: int, to: int, seen: seq<nat>)
    requires from > to && forall i :: 0 <= i < |seen| ==> seen[i] < |ts|
    ensures Assemble(ts, sensor, from, to, seen) == []
  {
    if seen != [] {
      var n := |seen| - 1;
      InvertedAssembly(ts, sensor, from, to, seen[..n]);
      InvertedBucket(ts[seen[n]], sensor, Day(from) + n, from, to);
    }
  }

  /** A query an aggregate can be cached for: its sensor parses and its window is not inverted. */
  predicate Cacheable(p: Platform, q: Query) {
    Admissible(p, q) && p.uuidOf(q.sensorText).Some? && p.durationOf(q.window).value >= 0
  }

  lemma ExplainedIsCacheable(p: Platform, history: seq<Tables>, o: Origin, agg: Aggregate)
    requires Explains(p, history, o, agg)
    ensures Cacheable(p, o.query)
  {
    if From(p, o.query, o.now) > o.now {
      InvertedAssembly(Versions(history, o.query.sType), SensorOf(p, o.query), From(p, o.query, o.now), o.now, o.seen);
    }
  }

  predicate SharesKey(a: Query, b: Query) {
    a.sensorText == b.sensorText && a.window == b.window
  }

  /** No two allowed queries that can be cached share a sensor and a window but not the type. */
  ghost predicate OneTypeEach(p: Platform, allowed: Query -> bool) {
    forall a, b {:trigger allowed(a), allowed(b)} ::
      allowed(a) && allowed(b) && Cacheable(p, a) && Cacheable(p, b) && SharesKey(a, b) ==> a.sType == b.sType
  }

  /** If request `r` is served a hit, its aggregate was computed by the very same query. */
  ghost predicate HitMatches(p: Platform, delay: nat, w: World, r: nat, fate: Fate)
    requires Servable(p, w) && r < |w.requests| && w.requests[r].phase == Looking
  {
    var q, now := w.requests[r].query, w.requests[r].now;
    var key := CacheKey(p, q.sensorText, now, q.window);
    var phase := Next(p, delay, w, Look(r, fate)).requests[r].phase;
    phase.Answered? && phase.reply.Hit? ==> key in w.origins && w.origins[key].query == q
  }

  lemma HitMatchesIn(p: Platform, delay: nat, data: Tables, clock: int, steps: seq<Step>, r: nat, fate: Fate,
                     allowed: Query -> bool)
    requires Lawful(p) && OneTypeEach(p, allowed) && OpensOnly(steps, allowed)
    requires r < |Run(p, delay, Start(clock, data), steps).requests|
    requires Run(p, delay, Start(clock, data), steps).requests[r].phase == Looking
    ensures Inv(p, delay, Run(p, delay, Start(clock, data), steps))
    ensures HitMatches(p, delay, Run(p, delay, Start(clock, data), steps), r, fate)
  {
    HitIsAnEarlierMiss(p, delay, data, clock, steps, r, fate);
    AskedRun(p, delay, Start(clock, data), steps, allowed);
    var w := Run(p, delay, Start(clock, data), steps);
    var q, now := w.requests[r].query, w.requests[r].now;
    var key := CacheKey(p, q.sensorText, now, q.window);
    var phase := Next(p, delay, w, Look(r, fate)).requests[r].phase;
    if phase.Answered? && phase.reply.Hit? {
      var o := w.origins[key];
      ExplainedIsCacheable(p, w.history, o, phase.reply.agg);
      assert allowed(q) && allowed(o.query) && Cacheable(p, q);
    }
  }

  // ---- what a composed read amounts to ----

  lemma {:induction false} SameVersionIsScan(ts: seq<Table>, sensor: nat, from: int, to: int, seen: seq<nat>, v: nat)
    requires v < |ts| && forall i :: 0 <= i < |seen| ==> seen[i] == v
    ensures Assemble(ts, sensor, from, to, seen) == Scan(ts[v], sensor, from, to, Day(from), Day(from) + |seen| - 1)
  {
    if seen != [] {
      SameVersionIsScan(ts, sensor, from, to, seen[..|seen| - 1], v);
    }
  }

  ghost predicate AllWellBucketed(history: seq<Tables>) {
    forall v, k :: 0 <= v < |history| && 0 <= k <= 2 ==> WellBucketed(TableOf(history[v], k))
  }

  /** The flat window of a query in one version of the tables. */
  function FlatOf(p: Platform, data: Tables, q: Query, now: int): seq<real>
    requires Admissible(p, q)
  {
    Flat(TableOf(data, q.sType), SensorOf(p, q), From(p, q, now), now)
  }

  /** Its summary. */
  function FlatAggregate(p: Platform, data: Tables, q: Query, now: int): Option<Aggregate>
    requires Admissible(p, q)
  {
    AggregateOf(FlatOf(p, data, q, now), now)
  }

  lemma ReadAggregates(t: Table, sensor: nat, from: int, now: int)
    requires WellBucketed(t)
    ensures AggregateOf(Scan(t, sensor, from, now, Day(from), Day(now)), now) == AggregateOf(Flat(t, sensor, from, now), now)
  {
    ReadIsFlat(t, sensor, from, now);
    AggregatePermutation(Read(t, sensor, from, now), Flat(t, sensor, from, now), now);
  }

  lemma ComposedAtOne(p: Platform, history: seq<Tables>, q: Query, now: int, seen: seq<nat>, v: nat)
    requires Admissible(p, q) && v < |history| && |seen| == DaysOf(p, q, now)
    requires forall i :: 0 <= i < |seen| ==> seen[i] == v
    ensures Composed(p, history, q, now, seen)
         == Scan(TableOf(history[v], q.sType), SensorOf(p, q), From(p, q, now), now, Day(From(p, q, now)), Day(now))
  {
    SameVersionIsScan(Versions(history, q.sType), SensorOf(p, q), From(p, q, now), now, seen, v);
  }

  /** If all buckets were read at one version, the aggregate is that version's flat summary. */
  lemma SameVersionIsFlat(p: Platform, history: seq<Tables>, o: Origin, agg: Aggregate, v: nat)
    requires Explains(p, history, o, agg) && v < |history|
    requires AllWellBucketed(history)
    requires forall i :: 0 <= i < |o.seen| ==> o.seen[i] == v
    ensures FlatAggregate(p, history[v], o.query, o.now) == Some(agg)
  {
    var t := TableOf(history[v], o.query.sType);
    assert WellBucketed(t);
    ComposedAtOne(p, history, o.query, o.now, o.seen, v);
    ReadAggregates(t, SensorOf(p, o.query), From(p, o.query, o.now), o.now);
  }

  /** Tables to which rows are only ever added under fresh keys. */
  ghost predicate AppendOnly(history: seq<Tables>) {
    forall i, j, k :: 0 <= i <= j < |history| && 0 <= k <= 2 ==> TableOf(history[i], k) <= TableOf(history[j], k)
  }

  lemma {:induction false} PickGrows(t: Table, t': Table, sensor: nat, from: int, to: int, lo: int, hi: int)
    requires t <= t'
    ensures multiset(Pick(t, sensor, from, to, lo, hi)) <= multiset(Pick(t', sensor, from, to, lo, hi))
    decreases |t'|
  {
    if t != t' {
      PickGrows(t, t'[..|t'| - 1], sensor, from, to, lo, hi);
    }
  }

  /** Occurrences of one value. */
  function Occurs(x: real, s: seq<real>): nat {
    if s == [] then 0 else Occurs(x, s[..|s| - 1]) + if s[|s| - 1] == x then 1 else 0
  }

  lemma {:induction false} OccursIsMultiplicity(x: real, s: seq<real>)
    ensures Occurs(x, s) == multiset(s)[x]
  {
    if s != [] {
      OccursIsMultiplicity(x, s[..|s| - 1]);
      assert s == s[..|s| - 1] + [s[|s| - 1]];
    }
  }

  lemma AssembleLast(ts: seq<Table>, sensor: nat, from: int, to: int, seen: seq<nat>, n: nat, x: real)
    requires |seen| == n + 1 && forall i :: 0 <= i < |seen| ==> seen[i] < |ts|
    ensures Occurs(x, Assemble(ts, sensor, from, to, seen))
         == Occurs(x, Assemble(ts, sensor, from, to, seen[..n]))
            + Occurs(x, Bucket(ts[seen[n]], sensor, Day(from) + n, from, to))
  {
    assert Assemble(ts, sensor, from, to, seen)
        == Assemble(ts, sensor, from, to, seen[..n]) + Bucket(ts[seen[n]], sensor, Day(from) + n, from, to);
    OccursConcat(x, Assemble(ts, sensor, from, to, seen[..n]), Bucket(ts[seen[n]], sensor, Day(from) + n, from, to));
  }

  lemma OccursConcat(x: real, a: seq<real>, b: seq<real>)
    ensures Occurs(x, a + b) == Occurs(x, a) + Occurs(x, b)
  {
    OccursIsMultiplicity(x, a);
    OccursIsMultiplicity(x, b);
    OccursIsMultiplicity(x, a + b);
  }

  lemma PickLast(t: Table, sensor: nat, from: int, to: int, first: int, last: int, x: real)
    requires first <= last
    ensures Occurs(x, Pick(t, sensor, from, to, first, last))
         == Occurs(x, Pick(t, sensor, from, to, first, last - 1)) + Occurs(x, Pick(t, sensor, from, to, last, last))
  {
    PickSplit(t, sensor, from, to, first, last - 1, last);
    OccursIsMultiplicity(x, Pick(t, sensor, from, to, first, last));
    OccursIsMultiplicity(x, Pick(t, sensor, from, to, first, last - 1));
    OccursIsMultiplicity(x, Pick(t, sensor, from, to, last, last));
  }

  /** Every version read lies between two tables that only had rows added in between. */
  ghost predicate Bracketed(ts: seq<Table>, seen: seq<nat>, tLo: Table, tHi: Table) {
    forall i :: 0 <= i < |seen| ==> seen[i] < |ts| && tLo <= ts[seen[i]] <= tHi
  }

  lemma BracketedBefore(ts: seq<Table>, seen: seq<nat>, tLo: Table, tHi: Table)
    requires Bracketed(ts, seen, tLo, tHi) && seen != []
    ensures Bracketed(ts, seen[..|seen| - 1], tLo, tHi)
    ensures forall i :: 0 <= i < |seen| ==> seen[i] < |ts|
  {
  }

  lemma AssembleMore(ts: seq<Table>, sensor: nat, from: int, to: int,
                     seen: seq<nat>, tLo: Table, tHi: Table, last: int, x: real)
    requires seen != [] && Bracketed(ts, seen, tLo, tHi)
    requires last == Day(from) + |seen| - 1
    requires Occurs(x, Pick(tLo, sensor, from, to, Day(from), last - 1))
          <= Occurs(x, Assemble(ts, sensor, from, to, seen[..|seen| - 1]))
          <= Occurs(x, Pick(tHi, sensor, from, to, Day(from), last - 1))
    ensures Occurs(x, Pick(tLo, sensor, from, to, Day(from), last))
         <= Occurs(x, Assemble(ts, sensor, from, to, seen))
         <= Occurs(x, Pick(tHi, sensor, from, to, Day(from), last))
  {
    var n := |seen| - 1;
    AssembleLast(ts, sensor, from, to, seen, n, x);
    PickLast(tLo, sensor, from, to, Day(from), last, x);
    PickLast(tHi, sensor, from, to, Day(from), last, x);
    BucketBetween(tLo, ts[seen[n]], tHi, sensor, last, from, to, x);
  }

  lemma {:induction false} AssembleBetween(ts: seq<Table>, sensor: nat, from: int, to: int,
                                           seen: seq<nat>, tLo: Table, tHi: Table, last: int, x: real)
    requires Bracketed(ts, seen, tLo, tHi)
    requires last == Day(from) + |seen| - 1
    ensures Occurs(x, Pick(tLo, sensor, from, to, Day(from), last))
         <= Occurs(x, Assemble(ts, sensor, from, to, seen))
         <= Occurs(x, Pick(tHi, sensor, from, to, Day(from), last))
    decreases |seen|
  {
    if seen == [] {
      PickNone(tLo, sensor, from, to, Day(from), last);
      assert Assemble(ts, sensor, from, to, seen) == [];
    } else {
      BracketedBefore(ts, seen, tLo, tHi);
      AssembleBetween(ts, sensor, from, to, seen[..|seen| - 1], tLo, tHi, last - 1, x);
      AssembleMore(ts, sensor, from, to, seen, tLo, tHi, last, x);
    }
  }

  lemma BucketBetween(tLo: Table, t: Table, tHi: Table, sensor: nat, day: int, from: int, to: int, x: real)
    requires tLo <= t <= tHi
    ensures Occurs(x, Pick(tLo, sensor, from, to, day, day))
         <= Occurs(x, Bucket(t, sensor, day, from, to))
         <= Occurs(x, Pick(tHi, sensor, from, to, day, day))
  {
    BucketIsPick(t, sensor, day, from, to);
    PickGrows(tLo, t, sensor, from, to, day, day);
    PickGrows(t, tHi, sensor, from, to, day, day);
    OccursIsMultiplicity(x, Pick(tLo, sensor, from, to, day, day));
    OccursIsMultiplicity(x, Pick(tHi, sensor, from, to, day, day));
    OccursIsMultiplicity(x, Bucket(t, sensor, day, from, to));
  }

  /** With append-only tables, even a read spread over many days and versions misses no row that
      was there when the request started and returns none that came after it answered. */
  lemma ReadIsSandwiched(p: Platform, history: seq<Tables>, o: Origin, agg: Aggregate, x: real)
    requires Explains(p, history, o, agg)
    requires AllWellBucketed(history) && AppendOnly(history)
    ensures o.begun <= o.closed
    ensures Occurs(x, FlatOf(p, history[o.begun], o.query, o.now))
         <= Occurs(x, Composed(p, history, o.query, o.now, o.seen))
         <= Occurs(x, FlatOf(p, history[o.closed], o.query, o.now))
  {
    var ts, k := Versions(history, o.query.sType), o.query.sType;
    var sensor, from, to := SensorOf(p, o.query), From(p, o.query, o.now), o.now;
    assert o.begun <= o.seen[0] <= o.closed;
    SeenBetween(history, k, o.seen, o.begun, o.closed);
    assert WellBucketed(TableOf(history[o.begun], k)) && WellBucketed(TableOf(history[o.closed], k));
    AssembleBetween(ts, sensor, from, to, o.seen, ts[o.begun], ts[o.closed], Day(to), x);
    WellBucketedPick(ts[o.begun], sensor, from, to);
    WellBucketedPick(ts[o.closed], sensor, from, to);
  }

  /** In every run whose tables stay well bucketed and only have rows added: a cached aggregate was
      answered by a request, and read each value at least as often as the tables held it when that
      request started, and at most as often as they held it when it answered. */
  lemma EntryIsSandwiched(p: Platform, delay: nat, data: Tables, clock: int, steps: seq<Step>, key: string, x: real)
    requires Lawful(p)
    requires var w := Run(p, delay, Start(clock, data), steps);
             && AllWellBucketed(w.history) && AppendOnly(w.history)
             && key in w.entries && p.decode(w.entries[key].text).Some?
    ensures var w := Run(p, delay, Start(clock, data), steps);
            var agg := p.decode(w.entries[key].text).value;
            && key in w.origins
            && var o := w.origins[key];
               && Gave(w.requests, o, agg) && ReadInTime(w.since, o) && Explains(p, w.history, o, agg)
               && o.begun < |w.history|
               && Occurs(x, FlatOf(p, w.history[o.begun], o.query, o.now))
               <= Occurs(x, Composed(p, w.history, o.query, o.now, o.seen))
               <= Occurs(x, FlatOf(p, w.history[o.closed], o.query, o.now))
  {
    RunIsTraced(p, delay, Start(clock, data), steps);
    var w := Run(p, delay, Start(clock, data), steps);
    assert EntryOk(p, delay, w, key);
    assert TracedEntry(p, w, key);
    ReadIsSandwiched(p, w.history, w.origins[key], p.decode(w.entries[key].text).value, x);
  }

  // ---- runs that keep the tables in order ----

  lemma {:induction false} UpsertKeepsBuckets(t: Table, row: Row)
    requires WellBucketed(t) && row.bucket == Day(row.ts)
    ensures WellBucketed(Upsert(t, row))
  {
    if t != [] {
      assert t[0].bucket == Day(t[0].ts);
      assert WellBucketed(t[1..]);
      UpsertKeepsBuckets(t[1..], row);
    }
  }

  lemma {:induction false} UpsertAppends(t: Table, row: Row)
    requires forall i :: 0 <= i < |t| ==> !SameKey(t[i], row)
    ensures Upsert(t, row) == t + [row]
  {
    if t != [] {
      UpsertAppends(t[1..], row);
    }
  }

  /** What an insert does to each table of the latest version. */
  lemma InsertedTable(data: Tables, sType: int, row: Row, k: int)
    requires 0 <= k <= 2
    ensures var into := if sType == 0 || sType == 1 then sType else 2;
            TableOf(WithRow(data, sType, row), k) == if k == into then Upsert(TableOf(data, k), row) else TableOf(data, k)
  {
  }

  /** A row put in the bucket of its own UTC day keeps all versions well bucketed. */
  lemma InsertKeepsWellBucketed(h: seq<Tables>, sType: int, row: Row)
    requires h != [] && AllWellBucketed(h) && row.bucket == Day(row.ts)
    ensures AllWellBucketed(h + [WithRow(h[|h| - 1], sType, row)])
  {
    var h' := h + [WithRow(h[|h| - 1], sType, row)];
    forall v, k | 0 <= v < |h'| && 0 <= k <= 2
      ensures WellBucketed(TableOf(h'[v], k))
    {
      if v == |h| {
        InsertedTable(h[|h| - 1], sType, row, k);
        assert WellBucketed(TableOf(h[|h| - 1], k));
        UpsertKeepsBuckets(TableOf(h[|h| - 1], k), row);
      } else {
        assert h'[v] == h[v];
      }
    }
  }

  /** No row of the latest version has this key in this row's table. */
  ghost predicate FreshKey(data: Tables, sType: int, row: Row) {
    var t := TableOf(data, sType);
    forall i :: 0 <= i < |t| ==> !SameKey(t[i], row)
  }

  /** A row with a fresh key keeps the history append-only. */
  lemma InsertKeepsAppendOnly(h: seq<Tables>, sType: int, row: Row)
    requires h != [] && AppendOnly(h) && FreshKey(h[|h| - 1], sType, row)
    ensures AppendOnly(h + [WithRow(h[|h| - 1], sType, row)])
  {
    var last := h[|h| - 1];
    var h' := h + [WithRow(last, sType, row)];
    UpsertAppends(TableOf(last, sType), row);
    forall i, j, k | 0 <= i <= j < |h'| && 0 <= k <= 2
      ensures TableOf(h'[i], k) <= TableOf(h'[j], k)
    {
      InsertedTable(last, sType, row, k);
      if j < |h| {
        assert h'[i] == h[i] && h'[j] == h[j];
      } else if i < |h| {
        assert h'[i] == h[i] && TableOf(h[i], k) <= TableOf(last, k);
      }
    }
  }

  /** Every insert of the run uses a fresh key and the bucket of the row's own day. */
  ghost predicate OrderlyInserts(p: Platform, delay: nat, w: World, steps: seq<Step>)
    requires Lawful(p) && Inv(p, delay, w)
    decreases |steps|
  {
    steps != [] ==>
      && (steps[0].Insert? ==>
            && steps[0].row.bucket == Day(steps[0].row.ts)
            && FreshKey(w.history[|w.history| - 1], steps[0].sType, steps[0].row))
      && (StepKeepsInv(p, delay, w, steps[0]); OrderlyInserts(p, delay, Next(p, delay, w, steps[0]), steps[1..]))
  }

  /** Such runs keep their tables well bucketed and append-only. */
  lemma {:induction false} OrderlyRuns(p: Platform, delay: nat, w: World, steps: seq<Step>)
    requires Lawful(p) && Inv(p, delay, w) && OrderlyInserts(p, delay, w, steps)
    requires AllWellBucketed(w.history) && AppendOnly(w.history)
    ensures AllWellBucketed(Run(p, delay, w, steps).history) && AppendOnly(Run(p, delay, w, steps).history)
    decreases |steps|
  {
    if steps != [] {
      StepKeepsInv(p, delay, w, steps[0]);
      if steps[0].Insert? {
        InsertKeepsWellBucketed(w.history, steps[0].sType, steps[0].row);
        InsertKeepsAppendOnly(w.history, steps[0].sType, steps[0].row);
      } else {
        assert Next(p, delay, w, steps[0]).history == w.history;
      }
      OrderlyRuns(p, delay, Next(p, delay, w, steps[0]), steps[1..]);
    }
  }

  lemma SeenBetween(history: seq<Tables>, sType: int, seen: seq<nat>, lo: nat, hi: nat)
    requires lo <= hi < |history| && Forward(seen, lo, hi) && AppendOnly(history) && 0 <= sType <= 2
    ensures var ts := Versions(history, sType);
            forall i :: 0 <= i < |seen| ==> seen[i] < |ts| && ts[lo] <= ts[seen[i]] <= ts[hi]
  {
  }

  // ---- an undisturbed request is the handler ----

  function Reads(r: nat, n: nat): seq<Step> {
    if n == 0 then [] else Reads(r, n - 1) + [ReadBucket(r, true)]
  }

  /** What n bucket queries at the current version add to a read. */
  function Gathered(p: Platform, w: World, req: Request, n: nat): seq<real>
    requires Admissible(p, req.query) && req.phase.Reading? && w.history != []
  {
    Scan(TableOf(w.history[|w.history| - 1], req.query.sType), SensorOf(p, req.query), From(p, req.query, req.now),
         req.now, req.phase.next, req.phase.next + n - 1)
  }

  lemma GatheredLast(p: Platform, w: World, req: Request, n: nat)
    requires Admissible(p, req.query) && req.phase.Reading? && w.history != []
    ensures Gathered(p, w, req, 0) == []
    ensures n > 0 ==>
              Gathered(p, w, req, n) == Gathered(p, w, req, n - 1)
                + QueryNow(p, w.history[|w.history| - 1], req.query, req.now, req.phase.next + n - 1)
  {
  }

  lemma ReadOnce(p: Platform, delay: nat, w: World, r: nat, phase: Phase)
    requires r < |w.requests| && phase.Reading? && phase.next <= Day(w.requests[r].now)
    requires Servable(p, w)
    ensures var req, v := w.requests[r], |w.history| - 1;
            Next(p, delay, Set(w, r, phase), ReadBucket(r, true))
            == Set(w, r, Reading(phase.next + 1,
                                 phase.acc + QueryNow(p, w.history[v], req.query, req.now, phase.next),
                                 phase.seen + [v]))
  {
  }

  /** The world after n undisturbed bucket queries. */
  function ReadState(p: Platform, w: World, r: nat, n: nat, seen: seq<nat>): World
    requires r < |w.requests| && w.requests[r].phase.Reading?
    requires Admissible(p, w.requests[r].query) && w.history != []
  {
    var req := w.requests[r];
    Set(w, r, Reading(req.phase.next + n, req.phase.acc + Gathered(p, w, req, n), seen))
  }

  lemma ReadNone(p: Platform, w: World, r: nat)
    requires r < |w.requests| && w.requests[r].phase.Reading?
    requires Admissible(p, w.requests[r].query) && w.history != []
    ensures ReadState(p, w, r, 0, w.requests[r].phase.seen) == w
  {
    GatheredLast(p, w, w.requests[r], 0);
    assert w.requests[r].phase.acc + [] == w.requests[r].phase.acc;
  }

  lemma ReadOnceMore(p: Platform, delay: nat, w: World, r: nat, n: nat, before: seq<nat>)
    requires r < |w.requests| && w.requests[r].phase.Reading? && n > 0
    requires w.requests[r].phase.next + n <= Day(w.requests[r].now) + 1
    requires Servable(p, w)
    ensures Next(p, delay, ReadState(p, w, r, n - 1, before), ReadBucket(r, true))
         == ReadState(p, w, r, n, before + [|w.history| - 1])
  {
    var req := w.requests[r];
    GatheredLast(p, w, req, n);
    var acc, got := req.phase.acc, Gathered(p, w, req, n - 1);
    ReadOnce(p, delay, w, r, Reading(req.phase.next + n - 1, acc + got, before));
    var last := QueryNow(p, w.history[|w.history| - 1], req.query, req.now, req.phase.next + n - 1);
    assert (acc + got) + last == acc + (got + last);
  }

  lemma ReadOnNone(p: Platform, delay: nat, w: World, r: nat)
    requires Lawful(p) && Inv(p, delay, w)
    requires r < |w.requests| && w.requests[r].phase.Reading? && Admissible(p, w.requests[r].query)
    ensures Run(p, delay, w, Reads(r, 0)) == ReadState(p, w, r, 0, w.requests[r].phase.seen)
  {
    ReadNone(p, w, r);
    assert Reads(r, 0) == [];
  }

  lemma ReadOnStep(p: Platform, delay: nat, w: World, r: nat, n: nat, before: seq<nat>)
    requires Lawful(p) && Inv(p, delay, w) && Servable(p, w)
    requires r < |w.requests| && w.requests[r].phase.Reading? && n > 0
    requires w.requests[r].phase.next + n <= Day(w.requests[r].now) + 1
    requires Run(p, delay, w, Reads(r, n - 1)) == ReadState(p, w, r, n - 1, before)
    ensures Run(p, delay, w, Reads(r, n)) == ReadState(p, w, r, n, before + [|w.history| - 1])
  {
    RunAppend(p, delay, w, Reads(r, n - 1), ReadBucket(r, true));
    ReadOnceMore(p, delay, w, r, n, before);
  }

  /** The versions a request has read after n more bucket queries at the current one. */
  function SeenAfter(w: World, r: nat, n: nat): seq<nat>
    requires r < |w.requests| && w.requests[r].phase.Reading? && w.history != []
  {
    if n == 0 then w.requests[r].phase.seen else SeenAfter(w, r, n - 1) + [|w.history| - 1]
  }

  /** n undisturbed bucket queries. */
  lemma {:induction false} ReadOn(p: Platform, delay: nat, w: World, r: nat, n: nat)
    requires Lawful(p) && Inv(p, delay, w) && Servable(p, w)
    requires r < |w.requests| && w.requests[r].phase.Reading?
    requires n == 0 || w.requests[r].phase.next + n <= Day(w.requests[r].now) + 1
    ensures Run(p, delay, w, Reads(r, n)) == ReadState(p, w, r, n, SeenAfter(w, r, n))
  {
    if n == 0 {
      ReadOnNone(p, delay, w, r);
    } else {
      ReadOn(p, delay, w, r, n - 1);
      ReadOnStep(p, delay, w, r, n, SeenAfter(w, r, n - 1));
    }
  }
}
