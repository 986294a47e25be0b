/** Many aggregate requests at once, over tables that keep changing.

    A request looks into the cache, otherwise queries its day buckets one at a time, then answers
    and hands a write to the cache driver.  That write may land after the answer, but no later
    than `delay` after the request captured its clock.  Table writes, other requests, evictions
    and corrupted entries come in between any two of these.  `history` lists every version the
    tables ever had and `since` the instants they came about; an `Origin` records which versions a
    computed aggregate was read from. */
module AggregateCache {
  import opened Common
  import opened Readings
  import opened Aggregates
  import opened AggregateHandler

  /** Where an aggregate comes from: the request, the versions each of its buckets was read at,
      and the versions current when it started and when it answered, at `done`. */
  datatype Origin = Origin(query: Query, now: int, begun: nat, seen: seq<nat>, closed: nat, done: int)

  datatype Phase =
    | Looking
    | Reading(next: int, acc: seq<real>, seen: seq<nat>)
    | Answered(reply: Reply, at: int)

  datatype Request = Request(query: Query, now: int, begun: nat, phase: Phase)

  datatype Write = Write(key: string, text: Text, origin: Origin)

  datatype World = World(
    clock: int,
    history: seq<Tables>,
    since: seq<int>,
    entries: map<string, Entry>,
    origins: map<string, Origin>,
    requests: seq<Request>,
    pending: seq<Write>)

  datatype Step =
    | Tick(ms: nat)
    | Insert(sType: int, row: Row)
    | Open(query: Query)
    | Look(r: nat, fate: Fate)
    | ReadBucket(r: nat, ok: bool)
    | Finish(r: nat)
    | Land(w: nat)
    | Lose(w: nat)
    | Evict(key: string)
    | Corrupt(key: string, text: Text, expires: int)

  /** A row with the primary key of an existing one replaces it. */
  function Upsert(t: Table, row: Row): Table {
    if t == [] then [row]
    else if SameKey(t[0], row) then [row] + t[1..]
    else [t[0]] + Upsert(t[1..], row)
  }

  predicate SameKey(a: Row, b: Row) {
    a.sensor == b.sensor && a.bucket == b.bucket && a.ts == b.ts
  }

  ghost predicate KeysUnique(t: Table) {
    forall i, j :: 0 <= i < j < |t| ==> !SameKey(t[i], t[j])
  }

  /** Writing keeps primary keys unique: the written row is there, every row with another key is as
      it was, and no other row is. */
  lemma {:induction false} UpsertMeaning(t: Table, row: Row)
    requires KeysUnique(t)
    ensures KeysUnique(Upsert(t, row))
    ensures forall x :: x in Upsert(t, row) <==> x == row || (x in t && !SameKey(x, row))
  {
    if t != [] {
      UpsertMeaning(t[1..], row);
      assert forall x :: x in t <==> x == t[0] || x in t[1..];
      assert forall x :: x in t[1..] ==> !SameKey(t[0], x);
      if !SameKey(t[0], row) {
        var rest := Upsert(t[1..], row);
        assert forall i :: 0 <= i < |rest| ==> rest[i] in rest;
      }
    }
  }

  function WithRow(data: Tables, sType: int, row: Row): Tables {
    if sType == 0 then data.(temperatures := Upsert(data.temperatures, row))
    else if sType == 1 then data.(humidities := Upsert(data.humidities, row))
    else data.(phLevels := Upsert(data.phLevels, row))
  }

  function SensorOf(p: Platform, q: Query): nat {
    var sid := p.uuidOf(q.sensorText);
    if sid.Some? then sid.value else 0
  }

  function QueryNow(p: Platform, data: Tables, q: Query, now: int, day: int): seq<real>
    requires Admissible(p, q)
  {
    Bucket(TableOf(data, q.sType), SensorOf(p, q), day, From(p, q, now), now)
  }

  function Set(w: World, r: nat, phase: Phase): World
    requires r < |w.requests|
  {
    w.(requests := w.requests[r := w.requests[r].(phase := phase)])
  }

  /** Every request in progress passed validation. */
  ghost predicate Servable(p: Platform, w: World) {
    w.history != [] && forall i :: 0 <= i < |w.requests| ==> Admissible(p, w.requests[i].query)
  }

  ghost function Next(p: Platform, delay: nat, w: World, step: Step): World
    requires Servable(p, w)
  {
    match step
    case Tick(ms) => w.(clock := w.clock + ms)
    case Insert(sType, row) =>
      w.(history := w.history + [WithRow(w.history[|w.history| - 1], sType, row)], since := w.since + [w.clock])
    case Open(q) =>
      if !Admissible(p, q) then w
      else w.(requests := w.requests + [Request(q, w.clock, |w.history| - 1, Looking)])
    case Look(r, fate) =>
      if r >= |w.requests| || w.requests[r].phase != Looking then w
      else
        var q, now := w.requests[r].query, w.requests[r].now;
        var cached := Usable(p, w.entries, CacheKey(p, q.sensorText, now, q.window), w.clock, fate);
        if cached.Some? then Set(w, r, Answered(Hit(cached.value), w.clock))
        else if p.uuidOf(q.sensorText) == None then Set(w, r, Answered(ReadError, w.clock))
        else Set(w, r, Reading(Day(From(p, q, now)), [], []))
    case ReadBucket(r, ok) =>
      if r >= |w.requests| || !w.requests[r].phase.Reading? then w
      else
        var q, now, ph := w.requests[r].query, w.requests[r].now, w.requests[r].phase;
        var version := |w.history| - 1;
        if ph.next > Day(now) then w
        else if !ok then Set(w, r, Answered(ReadError, w.clock))
        else Set(w, r, Reading(ph.next + 1,
                               ph.acc + QueryNow(p, w.history[version], q, now, ph.next),
                               ph.seen + [version]))
    case Finish(r) =>
      if r >= |w.requests| || !w.requests[r].phase.Reading? then w
      else
        var q, now, ph := w.requests[r].query, w.requests[r].now, w.requests[r].phase;
        var agg := AggregateOf(ph.acc, now);
        if ph.next <= Day(now) then w
        else if agg == None then Set(w, r, Answered(NotFound, w.clock))
        else
          var origin := Origin(q, now, w.requests[r].begun, ph.seen, |w.history| - 1, w.clock);
          Set(w, r, Answered(Fresh(agg.value), w.clock)).(pending :=
            w.pending + [Write(CacheKey(p, q.sensorText, now, q.window), p.encode(agg.value), origin)])
    case Land(i) =>
      if i >= |w.pending| || w.clock > w.pending[i].origin.now + delay then w
      else
        var x := w.pending[i];
        w.(entries := w.entries[x.key := Entry(x.text, w.clock + TTL_MS)],
           origins := w.origins[x.key := x.origin],
           pending := Without(w.pending, i))
    case Lose(i) =>
      if i >= |w.pending| then w else w.(pending := Without(w.pending, i))
    case Evict(key) => w.(entries := w.entries - {key})
    case Corrupt(key, text, expires) =>
      if p.decode(text).Some? then w else w.(entries := w.entries[key := Entry(text, expires)])
  }

  // ---- the invariant ----

  /** The versions of one of the tables. */
  function Versions(history: seq<Tables>, sType: int): (ts: seq<Table>)
    ensures |ts| == |history| && forall v :: 0 <= v < |ts| ==> ts[v] == TableOf(history[v], sType)
  {
    seq(|history|, v requires 0 <= v < |history| => TableOf(history[v], sType))
  }

  /** Readings put together bucket by bucket from the day of `from` on, each at its own version. */
  function Assemble(ts: seq<Table>, sensor: nat, from: int, to: int, seen: seq<nat>): seq<real>
    requires forall i :: 0 <= i < |seen| ==> seen[i] < |ts|
  {
    if seen == [] then []
    else
      var n := |seen| - 1;
      Assemble(ts, sensor, from, to, seen[..n]) + Bucket(ts[seen[n]], sensor, Day(from) + n, from, to)
  }

  /** The readings an aggregate was computed from. */
  function Composed(p: Platform, history: seq<Tables>, q: Query, now: int, seen: seq<nat>): seq<real>
    requires Admissible(p, q)
    requires forall i :: 0 <= i < |seen| ==> seen[i] < |history|
  {
    Assemble(Versions(history, q.sType), SensorOf(p, q), From(p, q, now), now, seen)
  }

  /** Versions from `lo` on, never going back. */
  ghost predicate Forward(seen: seq<nat>, lo: nat, hi: nat) {
    && (forall i :: 0 <= i < |seen| ==> lo <= seen[i] <= hi)
    && (forall i, j :: 0 <= i < j < |seen| ==> seen[i] <= seen[j])
  }

  function DaysOf(p: Platform, q: Query, now: int): int
    requires Admissible(p, q)
  {
    Day(now) - Day(From(p, q, now)) + 1
  }

  ghost predicate RequestOk(p: Platform, w: World, r: Request) {
    && Admissible(p, r.query)
    && r.now <= w.clock && r.begun < |w.history|
    && (r.phase.Reading? ==>
          && p.uuidOf(r.query.sensorText).Some?
          && Forward(r.phase.seen, r.begun, |w.history| - 1)
          && r.phase.next == Day(From(p, r.query, r.now)) + |r.phase.seen|
          && (r.phase.next <= Day(r.now) + 1 || r.phase.seen == [])
          && r.phase.acc == Composed(p, w.history, r.query, r.now, r.phase.seen))
  }

  /** `agg` is the summary of what its origin read. */
  ghost predicate Explains(p: Platform, history: seq<Tables>, o: Origin, agg: Aggregate) {
    && Admissible(p, o.query)
    && p.uuidOf(o.query.sensorText).Some?
    && o.closed < |history| && Forward(o.seen, o.begun, o.closed)
    && |o.seen| == DaysOf(p, o.query, o.now)
    && AggregateOf(Composed(p, history, o.query, o.now, o.seen), o.now) == Some(agg)
  }

  function KeyOf(p: Platform, o: Origin): string {
    CacheKey(p, o.query.sensorText, o.now, o.query.window)
  }

  ghost predicate WriteOk(p: Platform, w: World, x: Write) {
    && x.origin.now <= w.clock
    && x.key == KeyOf(p, x.origin)
    && exists agg :: x.text == p.encode(agg) && Explains(p, w.history, x.origin, agg)
  }

  /** Every entry that decodes was computed by a request for its key and landed in time. */
  ghost predicate EntryOk(p: Platform, delay: nat, w: World, key: string)
    requires key in w.entries
  {
    var agg, landed := p.decode(w.entries[key].text), w.entries[key].expires - TTL_MS;
    agg.Some? ==>
      && key in w.origins
      && key == KeyOf(p, w.origins[key])
      && Explains(p, w.history, w.origins[key], agg.value)
      && w.origins[key].now <= landed <= w.clock
      && landed <= w.origins[key].now + delay
  }

  ghost predicate Inv(p: Platform, delay: nat, w: World) {
    && Servable(p, w)
    && (forall i {:trigger RequestOk(p, w, w.requests[i])} :: 0 <= i < |w.requests| ==> RequestOk(p, w, w.requests[i]))
    && (forall i {:trigger WriteOk(p, w, w.pending[i])} :: 0 <= i < |w.pending| ==> WriteOk(p, w, w.pending[i]))
    && (forall key {:trigger EntryOk(p, delay, w, key)} :: key in w.entries ==> EntryOk(p, delay, w, key))
  }

  // ---- its preservation ----

  lemma {:induction false} AssembleStable(ts: seq<Table>, ts': seq<Table>, sensor: nat, from: int, to: int, seen: seq<nat>)
    requires ts <= ts'
    requires forall i :: 0 <= i < |seen| ==> seen[i] < |ts|
    ensures Assemble(ts, sensor, from, to, seen) == Assemble(ts', sensor, from, to, seen)
  {
    if seen != [] {
      AssembleStable(ts, ts', sensor, from, to, seen[..|seen| - 1]);
    }
  }

  /** Later versions do not change what was read at earlier ones. */
  lemma ComposedStable(p: Platform, h: seq<Tables>, h': seq<Tables>, q: Query, now: int, seen: seq<nat>)
    requires Admissible(p, q) && h <= h'
    requires forall i :: 0 <= i < |seen| ==> seen[i] < |h|
    ensures Composed(p, h, q, now, seen) == Composed(p, h', q, now, seen)
  {
    AssembleStable(Versions(h, q.sType), Versions(h', q.sType), SensorOf(p, q), From(p, q, now), now, seen);
  }

  lemma ExplainsStable(p: Platform, h: seq<Tables>, h': seq<Tables>, o: Origin, agg: Aggregate)
    requires h <= h' && Explains(p, h, o, agg)
    ensures Explains(p, h', o, agg)
  {
    ComposedStable(p, h, h', o.query, o.now, o.seen);
  }

  /** Time passing and tables changing do not disturb anything already computed. */
  lemma WorldMovesOn(p: Platform, delay: nat, w: World, w': World)
    requires Inv(p, delay, w)
    requires w.history <= w'.history && w.clock <= w'.clock
    requires w' == w.(history := w'.history, since := w'.since, clock := w'.clock)
    ensures Inv(p, delay, w')
  {
    forall i | 0 <= i < |w.requests|
      ensures RequestOk(p, w', w'.requests[i])
    {
      var r := w.requests[i];
      assert RequestOk(p, w, r);
      if r.phase.Reading? {
        ComposedStable(p, w.history, w'.history, r.query, r.now, r.phase.seen);
      }
    }
    forall i | 0 <= i < |w.pending|
      ensures WriteOk(p, w', w'.pending[i])
    {
      var x := w.pending[i];
      assert WriteOk(p, w, x);
      var agg :| x.text == p.encode(agg) && Explains(p, w.history, x.origin, agg);
      ExplainsStable(p, w.history, w'.history, x.origin, agg);
    }
    forall key | key in w'.entries
      ensures EntryOk(p, delay, w', key)
    {
      assert EntryOk(p, delay, w, key);
      var agg := p.decode(w.entries[key].text);
      if agg.Some? {
        ExplainsStable(p, w.history, w'.history, w.origins[key], agg.value);
      }
    }
  }

  /** One request changes phase. */
  lemma RequestMoves(p: Platform, delay: nat, w: World, r: nat, phase: Phase)
    requires Inv(p, delay, w) && r < |w.requests|
    requires RequestOk(p, w, w.requests[r].(phase := phase))
    ensures Inv(p, delay, Set(w, r, phase))
  {
    var w' := Set(w, r, phase);
    forall i | 0 <= i < |w'.requests|
      ensures RequestOk(p, w', w'.requests[i])
    {
      assert RequestOk(p, w, w'.requests[i]);
    }
    forall i | 0 <= i < |w'.pending|
      ensures WriteOk(p, w', w'.pending[i])
    {
      assert WriteOk(p, w, w.pending[i]);
    }
    forall key | key in w'.entries
      ensures EntryOk(p, delay, w', key)
    {
      assert EntryOk(p, delay, w, key);
    }
  }

  /** The lists of requests and writes change to others that are in order. */
  lemma BooksChange(p: Platform, delay: nat, w: World, w': World)
    requires Inv(p, delay, w)
    requires w' == w.(requests := w'.requests, pending := w'.pending)
    requires forall i :: 0 <= i < |w'.requests| ==> RequestOk(p, w, w'.requests[i])
    requires forall i :: 0 <= i < |w'.pending| ==> WriteOk(p, w, w'.pending[i])
    ensures Inv(p, delay, w')
  {
    forall i | 0 <= i < |w'.requests|
      ensures RequestOk(p, w', w'.requests[i])
    {
      assert RequestOk(p, w, w'.requests[i]);
    }
    forall i | 0 <= i < |w'.pending|
      ensures WriteOk(p, w', w'.pending[i])
    {
      assert WriteOk(p, w, w'.pending[i]);
    }
    forall key | key in w'.entries
      ensures EntryOk(p, delay, w', key)
    {
      assert EntryOk(p, delay, w, key);
    }
  }

  /** The cache changes; each entry it then has is in order. */
  lemma CacheChange(p: Platform, delay: nat, w: World, w': World)
    requires Inv(p, delay, w)
    requires w' == w.(entries := w'.entries, origins := w'.origins)
    requires forall key :: key in w'.entries ==> EntryOk(p, delay, w', key)
    ensures Inv(p, delay, w')
  {
    forall i | 0 <= i < |w'.requests|
      ensures RequestOk(p, w', w'.requests[i])
    {
      assert RequestOk(p, w, w'.requests[i]);
    }
    forall i | 0 <= i < |w'.pending|
      ensures WriteOk(p, w', w'.pending[i])
    {
      assert WriteOk(p, w, w'.pending[i]);
    }
  }

  lemma LookKeepsInv(p: Platform, delay: nat, w: World, r: nat, fate: Fate)
    requires Inv(p, delay, w) && r < |w.requests| && w.requests[r].phase == Looking
    ensures Inv(p, delay, Next(p, delay, w, Look(r, fate)))
  {
    assert RequestOk(p, w, w.requests[r]);
    RequestMoves(p, delay, w, r, Next(p, delay, w, Look(r, fate)).requests[r].phase);
  }

  lemma ReadMore(p: Platform, w: World, req: Request)
    requires w.history != [] && RequestOk(p, w, req) && req.phase.Reading? && req.phase.next <= Day(req.now)
    ensures var ph, v := req.phase, |w.history| - 1;
            RequestOk(p, w, req.(phase := Reading(ph.next + 1,
                                                  ph.acc + QueryNow(p, w.history[v], req.query, req.now, ph.next),
                                                  ph.seen + [v])))
  {
    var seen' := req.phase.seen + [|w.history| - 1];
    assert seen'[..|seen'| - 1] == req.phase.seen;
  }

  lemma ReadKeepsInv(p: Platform, delay: nat, w: World, r: nat, ok: bool)
    requires Inv(p, delay, w) && r < |w.requests| && w.requests[r].phase.Reading?
    ensures Inv(p, delay, Next(p, delay, w, ReadBucket(r, ok)))
  {
    var req := w.requests[r];
    assert RequestOk(p, w, req);
    if req.phase.next <= Day(req.now) {
      ReadMore(p, w, req);
      RequestMoves(p, delay, w, r, Next(p, delay, w, ReadBucket(r, ok)).requests[r].phase);
    }
  }

  lemma FinishKeepsInv(p: Platform, delay: nat, w: World, r: nat)
    requires Inv(p, delay, w) && r < |w.requests| && w.requests[r].phase.Reading?
    ensures Inv(p, delay, Next(p, delay, w, Finish(r)))
  {
    var req := w.requests[r];
    assert RequestOk(p, w, req);
    var agg := AggregateOf(req.phase.acc, req.now);
    var w' := Next(p, delay, w, Finish(r));
    if req.phase.next > Day(req.now) {
      RequestMoves(p, delay, w, r, w'.requests[r].phase);
      if agg.Some? {
        var x := w'.pending[|w.pending|];
        assert Explains(p, w.history, x.origin, agg.value);
        assert WriteOk(p, w, x);
        BooksChange(p, delay, Set(w, r, w'.requests[r].phase), w');
      }
    }
  }

  lemma LandKeepsInv(p: Platform, delay: nat, w: World, i: nat)
    requires Lawful(p) && Inv(p, delay, w) && i < |w.pending| && w.clock <= w.pending[i].origin.now + delay
    ensures Inv(p, delay, Next(p, delay, w, Land(i)))
  {
    var w' := Next(p, delay, w, Land(i));
    var x := w.pending[i];
    assert WriteOk(p, w, x);
    var cached := w.(entries := w'.entries, origins := w'.origins);
    forall key | key in cached.entries
      ensures EntryOk(p, delay, cached, key)
    {
      if key != x.key {
        assert EntryOk(p, delay, w, key);
      }
    }
    CacheChange(p, delay, w, cached);
    BooksChange(p, delay, cached, w');
  }

  lemma StepKeepsInv(p: Platform, delay: nat, w: World, step: Step)
    requires Lawful(p) && Inv(p, delay, w)
    ensures Inv(p, delay, Next(p, delay, w, step))
  {
    var w' := Next(p, delay, w, step);
    match step
    case Tick(_) => WorldMovesOn(p, delay, w, w');
    case Insert(_, _) => WorldMovesOn(p, delay, w, w');
    case Open(q) => BooksChange(p, delay, w, w');
    case Look(r, fate) =>
      if r < |w.requests| && w.requests[r].phase == Looking {
        LookKeepsInv(p, delay, w, r, fate);
      }
    case ReadBucket(r, ok) =>
      if r < |w.requests| && w.requests[r].phase.Reading? {
        ReadKeepsInv(p, delay, w, r, ok);
      }
    case Finish(r) =>
      if r < |w.requests| && w.requests[r].phase.Reading? {
        FinishKeepsInv(p, delay, w, r);
      }
    case Land(i) =>
      if i < |w.pending| && w.clock <= w.pending[i].origin.now + delay {
        LandKeepsInv(p, delay, w, i);
      }
    case Lose(_) => BooksChange(p, delay, w, w');
    case Evict(key) => EvictKeepsInv(p, delay, w, key);
    case Corrupt(key, text, expires) => CorruptKeepsInv(p, delay, w, key, text, expires);
  }

  lemma EvictKeepsInv(p: Platform, delay: nat, w: World, key: string)
    requires Inv(p, delay, w)
    ensures Inv(p, delay, Next(p, delay, w, Evict(key)))
  {
    var w' := Next(p, delay, w, Evict(key));
    forall k | k in w'.entries
      ensures EntryOk(p, delay, w', k)
    {
      assert EntryOk(p, delay, w, k);
    }
    CacheChange(p, delay, w, w');
  }

  lemma CorruptKeepsInv(p: Platform, delay: nat, w: World, key: string, text: Text, expires: int)
    requires Inv(p, delay, w)
    ensures Inv(p, delay, Next(p, delay, w, Corrupt(key, text, expires)))
  {
    if p.decode(text) == None {
      var w' := Next(p, delay, w, Corrupt(key, text, expires));
      forall k | k in w'.entries
        ensures EntryOk(p, delay, w', k)
      {
        if k != key {
          assert EntryOk(p, delay, w, k);
        }
      }
      CacheChange(p, delay, w, w');
    }
  }

  ghost function Run(p: Platform, delay: nat, w: World, steps: seq<Step>): World
    requires Lawful(p) && Inv(p, delay, w)
    decreases |steps|
  {
    if steps == [] then w
    else
      StepKeepsInv(p, delay, w, steps[0]);
      Run(p, delay, Next(p, delay, w, steps[0]), steps[1..])
  }

  function Start(clock: int, data: Tables): World {
    World(clock, [data], [clock], map[], map[], [], [])
  }

  lemma {:induction false} RunKeepsInv(p: Platform, delay: nat, w: World, steps: seq<Step>)
    requires Lawful(p) && Inv(p, delay, w)
    ensures Inv(p, delay, Run(p, delay, w, steps))
    decreases |steps|
  {
    if steps != [] {
      StepKeepsInv(p, delay, w, steps[0]);
      RunKeepsInv(p, delay, Next(p, delay, w, steps[0]), steps[1..]);
    }
  }
}
