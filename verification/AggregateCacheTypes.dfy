/** The cache key leaves the sensor type out: hits answer the query asked exactly if the queries in
    use never differ in the type alone. */
module AggregateCacheTypes {
  import opened Common
  import opened Readings
  import opened Aggregates
  import opened AggregateHandler
  import opened AggregateCache
  import opened AggregateCacheTheorems
  import opened AggregateCacheLimits

  /** A table with a single reading, where query `q` looks for it. */
  function Single(p: Platform, q: Query, now: int): Tables
    requires Admissible(p, q)
  {
    WithRow(EMPTY, q.sType, LateRow(p, q, now))
  }

  lemma SingleTables(p: Platform, q: Query, q': Query, now: int)
    requires Admissible(p, q') && q.sType != q'.sType && Cacheable(p, q)
    ensures FlatAggregate(p, Single(p, q, now), q', now) == None
    ensures MissReply(p, Single(p, q, now), q, now, {}).Fresh?
  {
    var t := TableOf(Single(p, q, now), q.sType);
    assert t == [LateRow(p, q, now)];
    assert TableOf(Single(p, q, now), q'.sType) == [];
    MissReplyMeetsSpec(t, SensorOf(p, q), From(p, q, now), now, now);
    assert InWindow(t[0], SensorOf(p, q), From(p, q, now), now);
  }

  lemma {:induction false} ReadsOpenNothing(r: nat, n: nat)
    ensures forall x :: x in Reads(r, n) ==> !x.Open?
  {
    if n > 0 {
      ReadsOpenNothing(r, n - 1);
    }
  }

  /** The world after the first request: its aggregate is cached under the key both requests share. */
  ghost predicate Cached(p: Platform, w: World, q: Query, now: int) {
    var key := CacheKey(p, q.sensorText, now, q.window);
    && w.clock == now && |w.requests| == 1
    && Usable(p, w.entries, key, now, Delivered).Some?
    && key in w.origins && w.origins[key].query == q
  }

  lemma FirstRequest(p: Platform, delay: nat, q: Query, now: int) returns (steps: seq<Step>)
    requires Lawful(p) && Cacheable(p, q)
    requires MissReply(p, Single(p, q, now), q, now, {}).Fresh?
    ensures forall x :: x in steps && x.Open? ==> x.query == q
    ensures Cached(p, Run(p, delay, Start(now, Single(p, q, now)), steps), q, now)
  {
    var s, n := Start(now, Single(p, q, now)), Buckets(p, q, now);
    UndisturbedMiss(p, delay, s, q, Delivered);
    var before := [Open(q), Look(0, Delivered)] + (Reads(0, n) + [Finish(0)]);
    steps := before + [Land(0)];
    ReadsOpenNothing(0, n);
    RunAppend(p, delay, s, before, Land(0));
    var w := Run(p, delay, s, before);
    InvServable(p, delay, w);
    LandCaches(p, delay, w, q, now);
  }

  lemma LandCaches(p: Platform, delay: nat, w: World, q: Query, now: int)
    requires Lawful(p) && Servable(p, w) && w.clock == now && |w.requests| == 1 && |w.pending| == 1
    requires var x := w.pending[0];
             && x.key == CacheKey(p, q.sensorText, now, q.window)
             && x.origin.query == q && x.origin.now == now
             && p.decode(x.text).Some?
    ensures Cached(p, Next(p, delay, w, Land(0)), q, now)
  {
  }

  /** Ask for one sensor and window under two types: the second request is served what the first
      computed, although its own table holds nothing in the window. */
  lemma UntypedHit(p: Platform, delay: nat, q: Query, q': Query, now: int) returns (steps: seq<Step>)
    requires Lawful(p) && Cacheable(p, q) && Cacheable(p, q')
    requires q' == q.(sType := q'.sType) && q'.sType != q.sType
    ensures forall x :: x in steps && x.Open? ==> x.query == q || x.query == q'
    ensures var w := Run(p, delay, Start(now, Single(p, q, now)), steps);
            && |w.requests| == 2 && w.history != []
            && w.requests[1] == Request(q', now, |w.history| - 1, Looking)
            && Inv(p, delay, w)
            && !HitMatches(p, delay, w, 1, Delivered)
            && FlatAggregate(p, Single(p, q, now), q', now) == None
  {
    var s := Start(now, Single(p, q, now));
    SingleTables(p, q, q', now);
    var before := FirstRequest(p, delay, q, now);
    steps := before + [Open(q')];
    RunAppend(p, delay, s, before, Open(q'));
    RunKeepsInv(p, delay, s, steps);
    SecondRequest(p, delay, Run(p, delay, s, before), q, q', now);
  }

  lemma SecondRequest(p: Platform, delay: nat, w: World, q: Query, q': Query, now: int)
    requires Servable(p, w) && Admissible(p, q') && q' == q.(sType := q'.sType) && q != q'
    requires Cached(p, w, q, now)
    ensures var w1 := Next(p, delay, w, Open(q'));
            && Servable(p, w1)
            && |w1.requests| == 2
            && w1.requests[1] == Request(q', now, |w1.history| - 1, Looking)
            && !HitMatches(p, delay, w1, 1, Delivered)
  {
  }

  /** In every run that opens only allowed queries, every hit answers the query asked. */
  ghost predicate AlwaysMatches(p: Platform, delay: nat, allowed: Query -> bool)
    requires Lawful(p)
  {
    forall data: Tables, clock: int, steps: seq<Step>, r: nat, fate: Fate ::
      OpensOnly(steps, allowed) ==> MatchesAt(p, delay, Run(p, delay, Start(clock, data), steps), r, fate)
  }

  ghost predicate MatchesAt(p: Platform, delay: nat, w: World, r: nat, fate: Fate) {
    Servable(p, w) && r < |w.requests| && w.requests[r].phase == Looking ==> HitMatches(p, delay, w, r, fate)
  }

  lemma ClashMismatches(p: Platform, delay: nat, allowed: Query -> bool)
    requires Lawful(p) && !OneTypeEach(p, allowed)
    ensures !AlwaysMatches(p, delay, allowed)
  {
    var q, q' :| allowed(q) && allowed(q') && Cacheable(p, q) && Cacheable(p, q')
                 && q.sensorText == q'.sensorText && q.window == q'.window && q.sType != q'.sType;
    var steps := UntypedHit(p, delay, q, q', 0);
    assert OpensOnly(steps, allowed);
    assert !MatchesAt(p, delay, Run(p, delay, Start(0, Single(p, q, 0)), steps), 1, Delivered);
  }

  /** Hits answer the query asked, in all runs over a set of queries, if and only if no two of these
      queries that can be cached share sensor and window but differ in type. */
  lemma HitsMatchIffTyped(p: Platform, delay: nat, allowed: Query -> bool)
    requires Lawful(p)
    ensures AlwaysMatches(p, delay, allowed) <==> OneTypeEach(p, allowed)
  {
    if OneTypeEach(p, allowed) {
      forall data: Tables, clock: int, steps: seq<Step>, r: nat, fate: Fate | OpensOnly(steps, allowed)
        ensures MatchesAt(p, delay, Run(p, delay, Start(clock, data), steps), r, fate)
      {
        var w := Run(p, delay, Start(clock, data), steps);
        if Servable(p, w) && r < |w.requests| && w.requests[r].phase == Looking {
          HitMatchesIn(p, delay, data, clock, steps, r, fate, allowed);
        }
      }
    } else {
      ClashMismatches(p, delay, allowed);
    }
  }
}
