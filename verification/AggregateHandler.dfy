/** The aggregate endpoint: validation, cache lookup, read, fold, cache store. */
module AggregateHandler {
  import opened Common
  import opened Decimal
  import opened Readings
  import opened Aggregates

  const TTL_MS := 300000

  /** Text in the cache: the JSON form of an aggregate, or anything else. */
  datatype Text = Json(agg: Aggregate) | Raw(raw: string)

  /** Library behaviour the handler relies on: UUID and duration parsing, the text of a UTC day,
      and the JSON encoding of an aggregate. */
  datatype Platform = Platform(
    uuidOf: string -> Option<nat>,
    durationOf: string -> Option<int>,
    dayText: int -> string,
    encode: Aggregate -> Text,
    decode: Text -> Option<Aggregate>)

  /** Accepted durations and day texts contain no colon, and day texts tell days apart. */
  ghost predicate KeyLaws(p: Platform) {
    && (forall w: string :: p.durationOf(w).Some? ==> ':' !in w)
    && (forall d: int :: ':' !in p.dayText(d))
    && (forall d: int, e: int :: p.dayText(d) == p.dayText(e) ==> d == e)
  }

  /** Decoding inverts encoding. */
  ghost predicate JsonLaw(p: Platform) {
    forall a: Aggregate :: p.decode(p.encode(a)) == Some(a)
  }

  ghost predicate Lawful(p: Platform) {
    KeyLaws(p) && JsonLaw(p)
  }

  function SampleDuration(w: string): Option<int> {
    if w == "1h" then Some(3600000) else None
  }

  function SampleDecode(t: Text): Option<Aggregate> {
    if t.Json? then Some(t.agg) else None
  }

  function Sample(): Platform {
    Platform((s: string) => if s == "s" then Some(0) else None, SampleDuration, Print, (a: Aggregate) => Json(a), SampleDecode)
  }

  lemma SampleKeys()
    ensures KeyLaws(Sample())
  {
    var p := Sample();
    forall w: string | p.durationOf(w).Some?
      ensures ':' !in w
    {
      assert w == "1h";
    }
    forall d: int, e: int
      ensures ':' !in p.dayText(d)
      ensures p.dayText(d) == p.dayText(e) ==> d == e
    {
      assert p.dayText(d) == Print(d) && p.dayText(e) == Print(e);
      PrintIsInjective(d, e);
    }
  }

  /** There are lawful platforms, and some accept windows and sensor ids. */
  lemma LawfulExists()
    ensures exists p: Platform :: Lawful(p) && p.durationOf("1h") == Some(3600000) && p.uuidOf("s") == Some(0)
  {
    SampleKeys();
    assert Lawful(Sample());
  }

  // ---- cache keys ----

  /** The sensor type is not part of the key. */
  function CacheKey(p: Platform, sensorText: string, now: int, window: string): string {
    "agg:" + sensorText + ":" + p.dayText(Day(now)) + ":" + window
  }

  lemma LastColon(x1: string, y1: string, x2: string, y2: string)
    requires ':' !in y1 && ':' !in y2
    requires x1 + ":" + y1 == x2 + ":" + y2
    ensures x1 == x2 && y1 == y2
  {
    var s := x1 + ":" + y1;
    assert s[|x1|] == ':' && s[|x2|] == ':';
    assert s[|x1| + 1..] == y1 && s[|x2| + 1..] == y2;
    if |x1| < |x2| {
      assert false;
    } else if |x2| < |x1| {
      assert false;
    }
    assert s[..|x1|] == x1 && s[..|x2|] == x2;
  }

  /** Whatever the raw sensor text contains, colons included, a key determines the sensor text, the
      UTC day and the window text. */
  lemma KeysAreInjective(p: Platform, s1: string, t1: int, w1: string, s2: string, t2: int, w2: string)
    requires KeyLaws(p) && p.durationOf(w1).Some? && p.durationOf(w2).Some?
    ensures CacheKey(p, s1, t1, w1) == CacheKey(p, s2, t2, w2) <==> s1 == s2 && Day(t1) == Day(t2) && w1 == w2
  {
    if CacheKey(p, s1, t1, w1) == CacheKey(p, s2, t2, w2) {
      var a1, a2 := "agg:" + s1 + ":" + p.dayText(Day(t1)), "agg:" + s2 + ":" + p.dayText(Day(t2));
      assert a1 + ":" + w1 == CacheKey(p, s1, t1, w1);
      assert a2 + ":" + w2 == CacheKey(p, s2, t2, w2);
      LastColon(a1, w1, a2, w2);
      LastColon("agg:" + s1, p.dayText(Day(t1)), "agg:" + s2, p.dayText(Day(t2)));
      assert ("agg:" + s1)[4..] == s1 && ("agg:" + s2)[4..] == s2;
    }
  }

  // ---- the time-limited cache ----

  datatype Entry = Entry(text: Text, expires: int)

  function Live(entries: map<string, Entry>, key: string, now: int): Option<Text> {
    if key in entries && now < entries[key].expires then Some(entries[key].text) else None
  }

  /** How a store ends: applied in time, failed without effect, or reported as timed out while
      the write is still on its way. */
  datatype StoreFate = Applied | Failed | Late

  datatype PendingSet = PendingSet(key: string, text: Text, ttl: int)

  class Cache {
    var entries: map<string, Entry>
    var underway: seq<PendingSet>

    constructor ()
      ensures entries == map[] && underway == []
    {
      entries, underway := map[], [];
    }

    method StoreAggregate(key: string, text: Text, ttl: int, now: int, fate: StoreFate) returns (ok: bool)
      modifies this
      ensures ok <==> fate == Applied
      ensures entries == if fate == Applied then old(entries)[key := Entry(text, now + ttl)] else old(entries)
      ensures underway == if fate == Late then old(underway) + [PendingSet(key, text, ttl)] else old(underway)
    {
      match fate {
        case Applied =>
          entries := entries[key := Entry(text, now + ttl)];
        case Late =>
          underway := underway + [PendingSet(key, text, ttl)];
        case Failed =>
      }
      ok := fate == Applied;
    }

    /** A write reported as timed out takes effect after all; its lifetime starts only now. */
    method Land(i: nat, now: int)
      requires i < |underway|
      modifies this
      ensures underway == Without(old(underway), i)
      ensures var w := old(underway)[i]; entries == old(entries)[w.key := Entry(w.text, now + w.ttl)]
    {
      var w := underway[i];
      entries := entries[w.key := Entry(w.text, now + w.ttl)];
      underway := underway[..i] + underway[i + 1..];
    }

    method FetchAggregate(key: string, now: int, fate: Fate) returns (text: Option<Text>)
      ensures text == if fate == Delivered then Live(entries, key, now) else None
    {
      if fate != Delivered || key !in entries || now >= entries[key].expires {
        return None;
      }
      return Some(entries[key].text);
    }
  }

  // ---- the handler ----

  datatype Reply = BadRequest | Hit(agg: Aggregate) | ReadError | NotFound | Fresh(agg: Aggregate)

  /** The request after validation. */
  datatype Query = Query(sensorText: string, sType: int, window: string)

  function Validate(p: Platform, sensorID: string, sensorType: string, windowStr: string): Option<Query> {
    if sensorID == "" || sensorType == "" || windowStr == "" then None
    else
      var t := Atoi(sensorType);
      if t == None || t.value < 0 || t.value > 2 then None
      else if p.durationOf(windowStr) == None then None
      else Some(Query(sensorID, t.value, windowStr))
  }

  /** Of the printed type numbers exactly 0, 1 and 2 pass, and pass as themselves; the other two
      parameters are handed on as they came. */
  lemma PrintedTypesValidate(p: Platform, sensorID: string, k: int, windowStr: string)
    requires INT64_MIN <= k <= INT64_MAX
    ensures Validate(p, sensorID, Print(k), windowStr)
            == if sensorID != "" && windowStr != "" && 0 <= k <= 2 && p.durationOf(windowStr).Some?
               then Some(Query(sensorID, k, windowStr)) else None
  {
    AtoiInvertsPrint(k);
  }

  /** The texts that name type k: leading zeros, a plus sign, and a minus sign before zero are accepted. */
  predicate SpellsType(text: string, k: int) {
    && 0 <= k <= 2 && text != []
    && (|| ZerosThen(text, DIGITS[k])
        || (text[0] == '+' && ZerosThen(text[1..], DIGITS[k]))
        || (text[0] == '-' && k == 0 && ZerosThen(text[1..], '0')))
  }

  /** Exactly which requests pass validation, and as what query. */
  lemma ValidateExactly(p: Platform, sensorID: string, sensorType: string, windowStr: string, q: Query)
    ensures Validate(p, sensorID, sensorType, windowStr) == Some(q) <==>
              && q.sensorText == sensorID != "" && q.window == windowStr != ""
              && SpellsType(sensorType, q.sType)
              && p.durationOf(windowStr).Some?
  {
    if 0 <= q.sType <= 2 {
      AtoiSmall(sensorType, q.sType);
    }
  }

  predicate Admissible(p: Platform, q: Query) {
    q.sensorText != "" && 0 <= q.sType <= 2 && p.durationOf(q.window).Some?
  }

  function From(p: Platform, q: Query, now: int): int
    requires Admissible(p, q)
  {
    now - p.durationOf(q.window).value
  }

  function TableOf(data: Tables, sType: int): Table {
    if sType == 0 then data.temperatures else if sType == 1 then data.humidities else data.phLevels
  }

  /** A live entry that decodes; a missing or corrupt one is no hit. */
  function Usable(p: Platform, entries: map<string, Entry>, key: string, now: int, fate: Fate): Option<Aggregate> {
    var text := Live(entries, key, now);
    if fate == Delivered && text.Some? then p.decode(text.value) else None
  }

  /** The reply when the cache is of no use. */
  function MissReply(p: Platform, data: Tables, q: Query, now: int, failing: set<int>): Reply
    requires Admissible(p, q)
  {
    var from, sid := From(p, q, now), p.uuidOf(q.sensorText);
    if sid == None || exists d | d in failing :: Day(from) <= d <= Day(now) then ReadError
    else
      var agg := AggregateOf(Read(TableOf(data, q.sType), sid.value, from, now), now);
      if agg == None then NotFound else Fresh(agg.value)
  }

  class App {
    const p: Platform
    const store: Store
    const cache: Cache

    constructor (p: Platform, store: Store, cache: Cache)
      ensures this.store == store && this.cache == cache
    {
      this.p, this.store, this.cache := p, store, cache;
    }

    method ReadAndFold(q: Query, now: int, failing: set<int>) returns (reply: Reply)
      requires Admissible(p, q)
      ensures reply == MissReply(p, store.data, q, now, failing)
    {
      var dur := p.durationOf(q.window).value;
      var r := store.GetReadings(p.uuidOf(q.sensorText), q.sType, now - dur, now, failing);
      if !r.Found? {
        return ReadError;
      }
      if |r.values| == 0 {
        return NotFound;
      }
      var agg := Fold(r.values, now);
      return Fresh(agg);
    }

    method Aggregate(sensorID: string, sensorType: string, windowStr: string, now: int,
                     fetch: Fate, failing: set<int>, storing: StoreFate) returns (reply: Reply)
      modifies cache
      ensures var q := Validate(p, sensorID, sensorType, windowStr);
              if q == None then reply == BadRequest
              else
                var cached := Usable(p, old(cache.entries), CacheKey(p, sensorID, now, windowStr), now, fetch);
                reply == if cached.Some? then Hit(cached.value) else MissReply(p, store.data, q.value, now, failing)
      ensures cache.entries ==
                if reply.Fresh? && storing == Applied
                then old(cache.entries)[CacheKey(p, sensorID, now, windowStr) := Entry(p.encode(reply.agg), now + TTL_MS)]
                else old(cache.entries)
      ensures cache.underway ==
                if reply.Fresh? && storing == Late
                then old(cache.underway) + [PendingSet(CacheKey(p, sensorID, now, windowStr), p.encode(reply.agg), TTL_MS)]
                else old(cache.underway)
    {
      if sensorID == "" || sensorType == "" || windowStr == "" {
        return BadRequest;
      }
      var sType := Atoi(sensorType);
      if sType == None || sType.value < 0 || sType.value > 2 {
        return BadRequest;
      }
      var dur := p.durationOf(windowStr);
      if dur == None {
        return BadRequest;
      }
      var cacheKey := "agg:" + sensorID + ":" + p.dayText(Day(now)) + ":" + windowStr;
      var cached := cache.FetchAggregate(cacheKey, now, fetch);
      if cached.Some? {
        var agg := p.decode(cached.value);
        if agg.Some? {
          return Hit(agg.value);
        }
      }
      reply := ReadAndFold(Query(sensorID, sType.value, windowStr), now, failing);
      if reply.Fresh? {
        var _ := cache.StoreAggregate(cacheKey, p.encode(reply.agg), TTL_MS, now, storing);
      }
    }
  }

  // ---- the endpoint in plain terms ----

  /** The values of the sensor's rows in the window, added up. */
  ghost function Total(t: Table, sensor: nat, from: int, to: int): real {
    if t == [] then 0.0
    else
      var n := |t| - 1;
      Total(t[..n], sensor, from, to)
      + if t[n].sensor == sensor && from <= t[n].ts <= to then t[n].value else 0.0
  }

  lemma SumOneMore(s: seq<real>, v: real, more: bool)
    ensures Sum(s + if more then [v] else []) == Sum(s) + if more then v else 0.0
  {
    assert s + [] == s;
    assert (s + [v])[..|s|] == s;
  }

  lemma {:induction false} TotalIsSum(t: Table, sensor: nat, from: int, to: int)
    ensures Total(t, sensor, from, to) == Sum(Flat(t, sensor, from, to))
  {
    if t != [] {
      var n := |t| - 1;
      TotalIsSum(t[..n], sensor, from, to);
      SumOneMore(Flat(t[..n], sensor, from, to), t[n].value, InWindow(t[n], sensor, from, to));
    }
  }

  lemma {:induction false} FlatHolds(t: Table, sensor: nat, from: int, to: int, x: real)
    ensures x in Flat(t, sensor, from, to)
            <==> exists i :: 0 <= i < |t| && t[i].sensor == sensor && from <= t[i].ts <= to && t[i].value == x
  {
    if t != [] {
      var n := |t| - 1;
      FlatHolds(t[..n], sensor, from, to, x);
      assert forall i :: 0 <= i < n ==> t[..n][i] == t[i];
    }
  }

  /** Some row of the sensor in the window holds `x`. */
  ghost predicate Held(t: Table, sensor: nat, from: int, to: int, x: real) {
    exists i :: 0 <= i < |t| && t[i].sensor == sensor && from <= t[i].ts <= to && t[i].value == x
  }

  /** Every row of the sensor in the window holds a value between `lo` and `hi`. */
  ghost predicate Within(t: Table, sensor: nat, from: int, to: int, lo: real, hi: real) {
    forall i :: 0 <= i < |t| && t[i].sensor == sensor && from <= t[i].ts <= to ==> lo <= t[i].value <= hi
  }

  /** The sensor has no row in the window. */
  ghost predicate NoRow(t: Table, sensor: nat, from: int, to: int) {
    forall i :: 0 <= i < |t| ==> !(t[i].sensor == sensor && from <= t[i].ts <= to)
  }

  /** `a` is the count, extremes and mean of the sensor's rows with a timestamp in from..to. */
  ghost predicate Describes(a: Aggregate, t: Table, sensor: nat, from: int, to: int) {
    && a.count == |Matching(t, sensor, from, to)| > 0
    && a.avg == Total(t, sensor, from, to) / a.count as real
    && Within(t, sensor, from, to, a.min, a.max)
    && Held(t, sensor, from, to, a.min)
    && Held(t, sensor, from, to, a.max)
  }

  lemma FlatExtremes(t: Table, sensor: nat, from: int, to: int)
    requires Flat(t, sensor, from, to) != []
    ensures var values := Flat(t, sensor, from, to);
            && Within(t, sensor, from, to, Least(values), Greatest(values))
            && Held(t, sensor, from, to, Least(values)) && Held(t, sensor, from, to, Greatest(values))
  {
    var values := Flat(t, sensor, from, to);
    Extremes(values);
    FlatHolds(t, sensor, from, to, Least(values));
    FlatHolds(t, sensor, from, to, Greatest(values));
    forall i | 0 <= i < |t| && t[i].sensor == sensor && from <= t[i].ts <= to
      ensures Least(values) <= t[i].value <= Greatest(values)
    {
      FlatHolds(t, sensor, from, to, t[i].value);
    }
  }

  lemma FlatDescribes(t: Table, sensor: nat, from: int, to: int, now: int)
    requires Flat(t, sensor, from, to) != []
    ensures Describes(AggregateOf(Flat(t, sensor, from, to), now).value, t, sensor, from, to)
  {
    FlatLength(t, sensor, from, to);
    TotalIsSum(t, sensor, from, to);
    FlatExtremes(t, sensor, from, to);
  }

  /** A day of the window whose query fails. */
  ghost predicate FailingDay(failing: set<int>, from: int, to: int) {
    exists d :: d in failing && d * 86400000 <= to && from < (d + 1) * 86400000
  }

  lemma FailingDays(failing: set<int>, from: int, to: int)
    ensures FailingDay(failing, from, to) <==> exists d :: d in failing && Day(from) <= d <= Day(to)
  {
    forall d: int
      ensures Day(from) <= d <= Day(to) <==> d * 86400000 <= to && from < (d + 1) * 86400000
    {
      DayIsUtc(from, Day(from));
      DayIsUtc(to, Day(to));
    }
  }

  /** Reading and folding, in the same terms. */
  lemma ReadDescribes(t: Table, sensor: nat, from: int, now: int)
    requires UtcBuckets(t)
    ensures var agg := AggregateOf(Read(t, sensor, from, now), now);
            if NoRow(t, sensor, from, now) then agg == None
            else agg.Some? && agg.value.timestamp == now && Describes(agg.value, t, sensor, from, now)
  {
    UtcBucketsAreWell(t);
    ReadIsFlat(t, sensor, from, now);
    AggregatePermutation(Read(t, sensor, from, now), Flat(t, sensor, from, now), now);
    FlatEmpty(t, sensor, from, now);
    if Flat(t, sensor, from, now) != [] {
      FlatDescribes(t, sensor, from, now, now);
    }
  }

  lemma MissReplyCases(p: Platform, data: Tables, q: Query, now: int, failing: set<int>)
    requires Admissible(p, q)
    ensures var from, sid := now - p.durationOf(q.window).value, p.uuidOf(q.sensorText);
            MissReply(p, data, q, now, failing)
            == if sid == None || FailingDay(failing, from, now) then ReadError
               else
                 var agg := AggregateOf(Read(TableOf(data, q.sType), sid.value, from, now), now);
                 if agg == None then NotFound else Fresh(agg.value)
  {
    FailingDays(failing, From(p, q, now), now);
  }

  /** The reply due: a read error exactly for a sensor id that does not parse or a failing day of the
      window, not found exactly if the sensor has no row in it, and otherwise the count, extremes and
      mean of exactly those rows, dated now. */
  ghost predicate Due(reply: Reply, t: Table, sid: Option<nat>, from: int, now: int, failing: set<int>) {
    if sid == None || FailingDay(failing, from, now) then reply == ReadError
    else if NoRow(t, sid.value, from, now) then reply == NotFound
    else reply.Fresh? && reply.agg.timestamp == now && Describes(reply.agg, t, sid.value, from, now)
  }

  lemma MissReplyDue(p: Platform, data: Tables, q: Query, now: int, failing: set<int>, t: Table)
    requires Admissible(p, q) && t == TableOf(data, q.sType) && UtcBuckets(t)
    ensures Due(MissReply(p, data, q, now, failing), t, p.uuidOf(q.sensorText), now - p.durationOf(q.window).value, now, failing)
  {
    var sid := p.uuidOf(q.sensorText);
    MissReplyCases(p, data, q, now, failing);
    if sid.Some? {
      ReadDescribes(t, sid.value, now - p.durationOf(q.window).value, now);
    }
  }

  /** The reply of a miss over tables bucketed by UTC day is the one due for the table of the requested
      type and the window that reaches back from `now` by the requested duration. */
  lemma MissReplyExactly(p: Platform, data: Tables, q: Query, now: int, failing: set<int>)
    requires q.sensorText != "" && 0 <= q.sType <= 2 && p.durationOf(q.window).Some?
    requires UtcBuckets(data.temperatures) && UtcBuckets(data.humidities) && UtcBuckets(data.phLevels)
    ensures Due(MissReply(p, data, q, now, failing),
                if q.sType == 0 then data.temperatures else if q.sType == 1 then data.humidities else data.phLevels,
                p.uuidOf(q.sensorText), now - p.durationOf(q.window).value, now, failing)
  {
    MissReplyDue(p, data, q, now, failing, TableOf(data, q.sType));
  }

  /** The key is the text of the sensor id, of the UTC day and of the window. */
  lemma KeyText(p: Platform, sensorText: string, now: int, window: string, d: int)
    requires d * 86400000 <= now < (d + 1) * 86400000
    ensures CacheKey(p, sensorText, now, window) == "agg:" + sensorText + ":" + p.dayText(d) + ":" + window
  {
    DayIsUtc(now, d);
  }

  /** What the handler stored at `t` is served for five minutes, to requests that reach the cache. */
  lemma ServedFiveMinutes(p: Platform, entries: map<string, Entry>, key: string, text: Text, t: int, n: int, fate: Fate)
    ensures Usable(p, entries[key := Entry(text, t + TTL_MS)], key, n, fate)
         == if fate == Delivered && n < t + 300000 then p.decode(text) else None
    ensures fate != Delivered || key !in entries ==> Usable(p, entries, key, n, fate) == None
  {
  }
}
