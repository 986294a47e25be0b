/** Sensor tables partitioned by day, and the day-by-day read of a time window. */
module Readings {
  import opened Common

  /** Instants are whole milliseconds, the resolution of a CQL timestamp. */
  function Day(ts: int): int {
    ts / 86400000
  }

  /** `bucket` is the partition the producer put the row in. */
  datatype Row = Row(sensor: nat, bucket: int, ts: int, value: real)

  type Table = seq<Row>

  datatype Tables = Tables(temperatures: Table, humidities: Table, phLevels: Table)

  predicate InWindow(r: Row, sensor: nat, from: int, to: int) {
    r.sensor == sensor && from <= r.ts <= to
  }

  /** The simple form: every row of the sensor in the window, wherever it is stored. */
  function Flat(t: Table, sensor: nat, from: int, to: int): seq<real> {
    if t == [] then []
    else
      var n := |t| - 1;
      Flat(t[..n], sensor, from, to) + if InWindow(t[n], sensor, from, to) then [t[n].value] else []
  }

  function InsertNewestFirst(r: Row, rows: seq<Row>): seq<Row> {
    if rows == [] || r.ts > rows[0].ts then [r] + rows
    else [rows[0]] + InsertNewestFirst(r, rows[1..])
  }

  /** Answer to the query on one partition, newest row first. */
  function QueryBucket(t: Table, sensor: nat, day: int, from: int, to: int): seq<Row> {
    if t == [] then []
    else
      var n := |t| - 1;
      var rest := QueryBucket(t[..n], sensor, day, from, to);
      if t[n].bucket == day && InWindow(t[n], sensor, from, to) then InsertNewestFirst(t[n], rest) else rest
  }

  function Values(rows: seq<Row>): seq<real> {
    if rows == [] then [] else [rows[0].value] + Values(rows[1..])
  }

  lemma {:induction false} ValuesConcat(a: seq<Row>, b: seq<Row>)
    ensures Values(a + b) == Values(a) + Values(b)
  {
    if a == [] {
      assert a + b == b;
    } else {
      assert (a + b)[1..] == a[1..] + b;
      ValuesConcat(a[1..], b);
    }
  }

  function Bucket(t: Table, sensor: nat, day: int, from: int, to: int): seq<real> {
    Values(QueryBucket(t, sensor, day, from, to))
  }

  /** The buckets lo..hi one after the other. */
  function Scan(t: Table, sensor: nat, from: int, to: int, lo: int, hi: int): seq<real>
    decreases hi - lo
  {
    if lo > hi then [] else Scan(t, sensor, from, to, lo, hi - 1) + Bucket(t, sensor, hi, from, to)
  }

  /** What a read of the window from..to returns when no query fails. */
  function Read(t: Table, sensor: nat, from: int, to: int): seq<real> {
    Scan(t, sensor, from, to, Day(from), Day(to))
  }

  datatype ReadResult = Found(values: seq<real>) | InvalidSensor | InvalidType | QueryFailed(day: int)

  class Store {
    var data: Tables

    constructor (data: Tables)
      ensures this.data == data
    {
      this.data := data;
    }

    /** `sid` is the parsed sensor id, if the text was one; `failing` the days whose query fails. */
    method GetReadings(sid: Option<nat>, sType: int, from: int, to: int, failing: set<int>) returns (r: ReadResult)
      ensures r == InvalidSensor <==> sid == None
      ensures r == InvalidType <==> sid.Some? && !(0 <= sType <= 2)
      ensures sid.Some? && 0 <= sType <= 2 ==>
                var t := if sType == 0 then data.temperatures else if sType == 1 then data.humidities else data.phLevels;
                if exists d :: Day(from) <= d <= Day(to) && d in failing then
                  && r.QueryFailed?
                  && Day(from) <= r.day <= Day(to) && r.day in failing
                  && (forall d :: Day(from) <= d < r.day ==> d !in failing)
                else r == Found(Read(t, sid.value, from, to))
    {
      if sid == None {
        return InvalidSensor;
      }
      var t;
      match sType {
        case 0 => t := data.temperatures;
        case 1 => t := data.humidities;
        case 2 => t := data.phLevels;
        case _ => return InvalidType;
      }
      var readings := [];
      var start, end := Day(from), Day(to);
      var date := start;
      while date <= end
        invariant start <= date && (date == start || date <= end + 1)
        invariant forall d :: start <= d < date ==> d !in failing
        invariant readings == Scan(t, sid.value, from, to, start, date - 1)
        decreases end - date
      {
        if date in failing {
          return QueryFailed(date);
        }
        var rows := QueryBucket(t, sid.value, date, from, to);
        ghost var before := readings;
        for i := 0 to |rows|
          invariant readings == before + Values(rows[..i])
        {
          readings := readings + [rows[i].value];
          ValuesConcat(rows[..i], [rows[i]]);
          assert rows[..i + 1] == rows[..i] + [rows[i]];
        }
        assert rows[..|rows|] == rows;
        date := date + 1;
      }
      if start > end {
        assert Scan(t, sid.value, from, to, start, end) == [] == readings;
      }
      r := Found(readings);
    }
  }

  // ---- the bucket loop and the flat query ----

  /** The rows of the window stored in buckets lo..hi, in storage order. */
  function Pick(t: Table, sensor: nat, from: int, to: int, lo: int, hi: int): seq<real> {
    if t == [] then []
    else
      var n := |t| - 1;
      Pick(t[..n], sensor, from, to, lo, hi)
      + if lo <= t[n].bucket <= hi && InWindow(t[n], sensor, from, to) then [t[n].value] else []
  }

  ghost predicate NewestFirst(rows: seq<Row>) {
    forall i, j :: 0 <= i < j < |rows| ==> rows[i].ts >= rows[j].ts
  }

  lemma {:induction false} InsertKeepsValues(r: Row, rows: seq<Row>)
    ensures multiset(Values(InsertNewestFirst(r, rows))) == multiset(Values(rows)) + multiset{r.value}
  {
    if rows == [] || r.ts > rows[0].ts {
      assert ([r] + rows)[1..] == rows;
    } else {
      InsertKeepsValues(r, rows[1..]);
      var s := InsertNewestFirst(r, rows[1..]);
      assert ([rows[0]] + s)[1..] == s;
    }
  }

  lemma {:induction false} InsertKeepsOrder(r: Row, rows: seq<Row>)
    requires NewestFirst(rows)
    ensures NewestFirst(InsertNewestFirst(r, rows))
    ensures forall i :: 0 <= i < |InsertNewestFirst(r, rows)| ==>
                          InsertNewestFirst(r, rows)[i] == r || InsertNewestFirst(r, rows)[i] in rows
  {
    if rows != [] && r.ts <= rows[0].ts {
      InsertKeepsOrder(r, rows[1..]);
    }
  }

  /** One partition's answer: its rows in the window, each once, newest first. */
  lemma {:induction false} BucketIsPick(t: Table, sensor: nat, day: int, from: int, to: int)
    ensures multiset(Bucket(t, sensor, day, from, to)) == multiset(Pick(t, sensor, from, to, day, day))
    ensures NewestFirst(QueryBucket(t, sensor, day, from, to))
  {
    if t != [] {
      var n := |t| - 1;
      BucketIsPick(t[..n], sensor, day, from, to);
      var rest := QueryBucket(t[..n], sensor, day, from, to);
      InsertKeepsValues(t[n], rest);
      InsertKeepsOrder(t[n], rest);
      BucketStep(t, sensor, day, from, to);
    }
  }

  lemma BucketStep(t: Table, sensor: nat, day: int, from: int, to: int)
    requires t != []
    ensures var n := |t| - 1;
            var before := Pick(t[..n], sensor, from, to, day, day);
            multiset(Pick(t, sensor, from, to, day, day))
            == if t[n].bucket == day && InWindow(t[n], sensor, from, to)
               then multiset(before) + multiset{t[n].value} else multiset(before)
  {
    var before := Pick(t[..|t| - 1], sensor, from, to, day, day);
    assert before + [] == before;
  }

  lemma {:induction false} PickSplit(t: Table, sensor: nat, from: int, to: int, lo: int, mid: int, hi: int)
    requires lo <= mid + 1 && mid <= hi
    ensures multiset(Pick(t, sensor, from, to, lo, hi))
         == multiset(Pick(t, sensor, from, to, lo, mid)) + multiset(Pick(t, sensor, from, to, mid + 1, hi))
  {
    if t != [] {
      PickSplit(t[..|t| - 1], sensor, from, to, lo, mid, hi);
    }
  }

  lemma {:induction false} PickNone(t: Table, sensor: nat, from: int, to: int, lo: int, hi: int)
    requires lo > hi
    ensures Pick(t, sensor, from, to, lo, hi) == []
  {
    if t != [] {
      PickNone(t[..|t| - 1], sensor, from, to, lo, hi);
    }
  }

  /** For any table at all: the loop returns the rows stored in the buckets it visits, each once. */
  lemma {:induction false} ScanIsPick(t: Table, sensor: nat, from: int, to: int, lo: int, hi: int)
    ensures multiset(Scan(t, sensor, from, to, lo, hi)) == multiset(Pick(t, sensor, from, to, lo, hi))
    decreases hi - lo
  {
    if lo > hi {
      PickNone(t, sensor, from, to, lo, hi);
    } else {
      ScanIsPick(t, sensor, from, to, lo, hi - 1);
      BucketIsPick(t, sensor, hi, from, to);
      PickSplit(t, sensor, from, to, lo, hi - 1, hi);
    }
  }

  /** The loop never invents or repeats a row. */
  lemma {:induction false} PickWithinFlat(t: Table, sensor: nat, from: int, to: int, lo: int, hi: int)
    ensures multiset(Pick(t, sensor, from, to, lo, hi)) <= multiset(Flat(t, sensor, from, to))
    ensures |Pick(t, sensor, from, to, lo, hi)| <= |Flat(t, sensor, from, to)|
  {
    if t != [] {
      PickWithinFlat(t[..|t| - 1], sensor, from, to, lo, hi);
    }
  }

  lemma ReadIsSound(t: Table, sensor: nat, from: int, to: int)
    ensures multiset(Read(t, sensor, from, to)) <= multiset(Flat(t, sensor, from, to))
  {
    ScanIsPick(t, sensor, from, to, Day(from), Day(to));
    PickWithinFlat(t, sensor, from, to, Day(from), Day(to));
  }

  ghost predicate WellBucketed(t: Table) {
    forall i :: 0 <= i < |t| ==> t[i].bucket == Day(t[i].ts)
  }

  lemma {:induction false} WellBucketedPick(t: Table, sensor: nat, from: int, to: int)
    requires WellBucketed(t)
    ensures Pick(t, sensor, from, to, Day(from), Day(to)) == Flat(t, sensor, from, to)
  {
    if t != [] {
      var n := |t| - 1;
      assert t[n].bucket == Day(t[n].ts);
      WellBucketedPick(t[..n], sensor, from, to);
    }
  }

  /** For well-bucketed tables and any window, even an inverted one, reading is the flat query. */
  lemma ReadIsFlat(t: Table, sensor: nat, from: int, to: int)
    requires WellBucketed(t)
    ensures multiset(Read(t, sensor, from, to)) == multiset(Flat(t, sensor, from, to))
  {
    ScanIsPick(t, sensor, from, to, Day(from), Day(to));
    WellBucketedPick(t, sensor, from, to);
  }

  lemma {:induction false} MissedRow(t: Table, i: nat, day: int)
    requires i < |t| && t[i].bucket != day
    ensures |Pick(t, t[i].sensor, t[i].ts, t[i].ts, day, day)| < |Flat(t, t[i].sensor, t[i].ts, t[i].ts)|
  {
    var n, r := |t| - 1, t[i];
    if i < n {
      MissedRow(t[..n], i, day);
    } else {
      PickWithinFlat(t[..n], r.sensor, r.ts, r.ts, day, day);
    }
  }

  /** Well-bucketing is exactly what completeness needs: a table is read in full through every
      window if and only if each row is in the bucket of its own UTC day. */
  lemma CompleteIffWellBucketed(t: Table)
    ensures WellBucketed(t) <==>
              forall sensor: nat, from: int, to: int ::
                multiset(Read(t, sensor, from, to)) == multiset(Flat(t, sensor, from, to))
  {
    if WellBucketed(t) {
      forall sensor: nat, from: int, to: int
        ensures multiset(Read(t, sensor, from, to)) == multiset(Flat(t, sensor, from, to))
      {
        ReadIsFlat(t, sensor, from, to);
      }
    } else {
      var i :| 0 <= i < |t| && t[i].bucket != Day(t[i].ts);
      var r := t[i];
      MissedRow(t, i, Day(r.ts));
      ScanIsPick(t, r.sensor, r.ts, r.ts, Day(r.ts), Day(r.ts));
      var read, flat := Read(t, r.sensor, r.ts, r.ts), Flat(t, r.sensor, r.ts, r.ts);
      assert |multiset(read)| == |multiset(Pick(t, r.sensor, r.ts, r.ts, Day(r.ts), Day(r.ts)))|;
      assert |multiset(read)| < |multiset(flat)|;
    }
  }

  // ---- windows ----

  lemma {:induction false} FlatSplit(t: Table, sensor: nat, from: int, mid: int, to: int)
    requires from <= mid + 1 && mid <= to
    ensures multiset(Flat(t, sensor, from, to))
         == multiset(Flat(t, sensor, from, mid)) + multiset(Flat(t, sensor, mid + 1, to))
  {
    if t != [] {
      FlatSplit(t[..|t| - 1], sensor, from, mid, to);
    }
  }

  /** Adjacent windows add up, also when the cut falls inside a day, whose bucket both halves read. */
  lemma WindowsAdd(t: Table, sensor: nat, from: int, mid: int, to: int)
    requires WellBucketed(t) && from <= mid + 1 && mid <= to
    ensures multiset(Read(t, sensor, from, to))
         == multiset(Read(t, sensor, from, mid)) + multiset(Read(t, sensor, mid + 1, to))
  {
    ReadIsFlat(t, sensor, from, to);
    ReadIsFlat(t, sensor, from, mid);
    ReadIsFlat(t, sensor, mid + 1, to);
    FlatSplit(t, sensor, from, mid, to);
  }

  lemma {:induction false} FlatWidens(t: Table, sensor: nat, from: int, to: int, from': int, to': int)
    requires from' <= from && to <= to'
    ensures multiset(Flat(t, sensor, from, to)) <= multiset(Flat(t, sensor, from', to'))
  {
    if t != [] {
      FlatWidens(t[..|t| - 1], sensor, from, to, from', to');
    }
  }

  lemma WiderWindowReadsMore(t: Table, sensor: nat, from: int, to: int, from': int, to': int)
    requires WellBucketed(t) && from' <= from && to <= to'
    ensures multiset(Read(t, sensor, from, to)) <= multiset(Read(t, sensor, from', to'))
  {
    ReadIsFlat(t, sensor, from, to);
    ReadIsFlat(t, sensor, from', to');
    FlatWidens(t, sensor, from, to, from', to');
  }

  // ---- the same in plain terms: milliseconds since the epoch, and the rows themselves ----

  /** A day is a UTC day: 86400000 milliseconds from midnight to midnight, day 0 beginning at 0. */
  lemma DayIsUtc(ts: int, d: int)
    ensures Day(ts) == d <==> d * 86400000 <= ts < (d + 1) * 86400000
  {
  }

  /** The positions of the rows of a sensor with a timestamp in from..to, both included. */
  function Matching(t: Table, sensor: nat, from: int, to: int): (s: set<nat>)
    ensures forall i :: i in s <==> 0 <= i < |t| && t[i].sensor == sensor && from <= t[i].ts <= to
  {
    set i: nat | i < |t| && t[i].sensor == sensor && from <= t[i].ts <= to
  }

  /** Those of them that hold the value `x`. */
  function Holding(t: Table, sensor: nat, from: int, to: int, x: real): (s: set<nat>)
    ensures forall i :: i in s <==> 0 <= i < |t| && t[i].sensor == sensor && from <= t[i].ts <= to && t[i].value == x
  {
    set i: nat | i < |t| && t[i].sensor == sensor && from <= t[i].ts <= to && t[i].value == x
  }

  lemma HoldingLast(t: Table, sensor: nat, from: int, to: int, x: real)
    requires t != []
    ensures var n := |t| - 1;
            |Holding(t, sensor, from, to, x)| == |Holding(t[..n], sensor, from, to, x)|
              + if t[n].sensor == sensor && from <= t[n].ts <= to && t[n].value == x then 1 else 0
  {
    var n := |t| - 1;
    var before, here := Holding(t[..n], sensor, from, to, x), t[n].sensor == sensor && from <= t[n].ts <= to && t[n].value == x;
    assert n !in before && forall i :: i in before ==> t[..n][i] == t[i];
    assert Holding(t, sensor, from, to, x) == before + if here then {n} else {};
  }

  lemma MatchingLast(t: Table, sensor: nat, from: int, to: int)
    requires t != []
    ensures var n := |t| - 1;
            |Matching(t, sensor, from, to)| == |Matching(t[..n], sensor, from, to)|
              + if t[n].sensor == sensor && from <= t[n].ts <= to then 1 else 0
  {
    var n := |t| - 1;
    var before, here := Matching(t[..n], sensor, from, to), t[n].sensor == sensor && from <= t[n].ts <= to;
    assert n !in before && forall i :: i in before ==> t[..n][i] == t[i];
    assert Matching(t, sensor, from, to) == before + if here then {n} else {};
  }

  lemma CountLast(s: seq<real>, v: real, more: bool, x: real)
    ensures multiset(s + if more then [v] else [])[x] == multiset(s)[x] + if more && v == x then 1 else 0
  {
    assert s + [] == s;
  }

  /** The flat query returns a value as often as rows in the window hold it. */
  lemma {:induction false} FlatCounts(t: Table, sensor: nat, from: int, to: int, x: real)
    ensures multiset(Flat(t, sensor, from, to))[x] == |Holding(t, sensor, from, to, x)|
  {
    if t == [] {
      assert Holding(t, sensor, from, to, x) == {};
    } else {
      var n := |t| - 1;
      FlatCounts(t[..n], sensor, from, to, x);
      HoldingLast(t, sensor, from, to, x);
      CountLast(Flat(t[..n], sensor, from, to), t[n].value, InWindow(t[n], sensor, from, to), x);
    }
  }

  lemma {:induction false} FlatLength(t: Table, sensor: nat, from: int, to: int)
    ensures |Flat(t, sensor, from, to)| == |Matching(t, sensor, from, to)|
  {
    if t == [] {
      assert Matching(t, sensor, from, to) == {};
    } else {
      FlatLength(t[..|t| - 1], sensor, from, to);
      MatchingLast(t, sensor, from, to);
    }
  }

  /** Every row lies in the bucket of the UTC day of its timestamp. */
  ghost predicate UtcBuckets(t: Table) {
    forall i :: 0 <= i < |t| ==> t[i].bucket * 86400000 <= t[i].ts < (t[i].bucket + 1) * 86400000
  }

  lemma UtcBucketsAreWell(t: Table)
    ensures UtcBuckets(t) <==> WellBucketed(t)
  {
    forall i | 0 <= i < |t|
      ensures t[i].bucket == Day(t[i].ts) <==> t[i].bucket * 86400000 <= t[i].ts < (t[i].bucket + 1) * 86400000
    {
      DayIsUtc(t[i].ts, t[i].bucket);
    }
  }

  /** Completeness in plain terms: with every row in the bucket of its UTC day, a read of any window
      returns each value exactly as often as rows of the sensor in the window hold it. */
  lemma ReadCounts(t: Table, sensor: nat, from: int, to: int, x: real)
    requires UtcBuckets(t)
    ensures multiset(Read(t, sensor, from, to))[x] == |Holding(t, sensor, from, to, x)|
    ensures |Read(t, sensor, from, to)| == |Matching(t, sensor, from, to)|
  {
    UtcBucketsAreWell(t);
    ReadIsFlat(t, sensor, from, to);
    FlatCounts(t, sensor, from, to, x);
    FlatLength(t, sensor, from, to);
    assert |Read(t, sensor, from, to)| == |multiset(Read(t, sensor, from, to))|;
    assert |Flat(t, sensor, from, to)| == |multiset(Flat(t, sensor, from, to))|;
  }

  /** A row outside the bucket of its UTC day is missed by some read. */
  lemma MisplacedIsMissed(t: Table)
    requires !UtcBuckets(t)
    ensures exists sensor: nat, from: int, to: int ::
              multiset(Read(t, sensor, from, to)) != multiset(Flat(t, sensor, from, to))
  {
    UtcBucketsAreWell(t);
    CompleteIffWellBucketed(t);
  }
}
