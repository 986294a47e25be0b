/** The recent-readings cache: one Valkey sorted set per prefix, the reading's value as member and
    its time in milliseconds as score. */
module RecentCache {
  import opened Common
  import opened Decimal

  const NS_PER_MS := 1000000
  const HOUR_MS := 3600000

  // ---- timestamps ----

  /** Two's-complement 64-bit wrap-around. */
  function Wrap64(x: int): int {
    (x + 0x8000_0000_0000_0000) % 0x1_0000_0000_0000_0000 - 0x8000_0000_0000_0000
  }

  /** Milliseconds of an instant in nanoseconds, rounded down. */
  function UnixMilli(ns: int): int {
    ns / NS_PER_MS
  }

  /** The instant a score is read back as: a 64-bit multiplication. */
  function FromScore(score: int): int {
    Wrap64(score * NS_PER_MS)
  }

  /** float64 represents every integer up to 2^53 in magnitude; what it does beyond is left open. */
  ghost predicate IsDouble(double: int -> int) {
    forall x: int :: -0x20_0000_0000_0000 <= x <= 0x20_0000_0000_0000 ==> double(x) == x
  }

  /** Storing and reading back floors an instant to its millisecond, without loss or overflow, exactly
      for the milliseconds whose nanoseconds fit 64 bits. */
  lemma TimestampRoundTrip(double: int -> int, ns: int)
    requires IsDouble(double)
    ensures FromScore(double(UnixMilli(ns))) == ns - ns % NS_PER_MS
            <==> -9223372036854 <= UnixMilli(ns) <= 9223372036854
  {
    var ms := UnixMilli(ns);
    assert ns - ns % NS_PER_MS == ms * NS_PER_MS;
    assert INT64_MIN <= FromScore(double(ms)) <= INT64_MAX;
  }

  // ---- sorted sets ----

  datatype Z = Z(member: string, score: int)

  predicate LexLess(a: string, b: string) {
    b != "" && (a == "" || a[0] < b[0] || (a[0] == b[0] && LexLess(a[1..], b[1..])))
  }

  /** The order of a sorted set: by score, then by member text. */
  predicate Before(a: Z, b: Z) {
    a.score < b.score || (a.score == b.score && LexLess(a.member, b.member))
  }

  lemma {:induction false} LexTotal(a: string, b: string)
    ensures a != b ==> LexLess(a, b) || LexLess(b, a)
    ensures !(LexLess(a, b) && LexLess(b, a))
  {
    if a != "" && b != "" {
      LexTotal(a[1..], b[1..]);
      if a[0] == b[0] && a[1..] == b[1..] {
        assert a == [a[0]] + a[1..] == [b[0]] + b[1..] == b;
      }
    }
  }

  lemma {:induction false} LexTransitive(a: string, b: string, c: string)
    requires LexLess(a, b) && LexLess(b, c)
    ensures LexLess(a, c)
  {
    if a != "" && a[0] == b[0] == c[0] {
      LexTransitive(a[1..], b[1..], c[1..]);
    }
  }

  ghost predicate Sorted(z: seq<Z>) {
    forall i, j :: 0 <= i < j < |z| ==> Before(z[i], z[j]) && z[i].member != z[j].member
  }

  function Remove(z: seq<Z>, member: string): seq<Z> {
    if z == [] then []
    else (if z[0].member == member then [] else [z[0]]) + Remove(z[1..], member)
  }

  function Insert(z: seq<Z>, x: Z): seq<Z> {
    if z == [] || Before(x, z[0]) then [x] + z else [z[0]] + Insert(z[1..], x)
  }

  /** ZADD: a member already present moves to its new score. */
  function ZAdd(z: seq<Z>, x: Z): seq<Z> {
    Insert(Remove(z, x.member), x)
  }

  lemma {:induction false} RemoveKeeps(z: seq<Z>, member: string)
    ensures forall y :: y in Remove(z, member) <==> y in z && y.member != member
    ensures Sorted(z) ==> Sorted(Remove(z, member))
  {
    if z != [] {
      RemoveKeeps(z[1..], member);
      assert forall y :: y in z <==> y == z[0] || y in z[1..];
    }
  }

  lemma {:induction false} InsertKeeps(z: seq<Z>, x: Z)
    requires Sorted(z) && forall y :: y in z ==> y.member != x.member
    ensures forall y :: y in Insert(z, x) <==> y == x || y in z
    ensures Sorted(Insert(z, x))
  {
    if z == [] || Before(x, z[0]) {
      forall i | 0 <= i < |z|
        ensures Before(x, z[i])
      {
        if i > 0 {
          BeforeTransitive(x, z[0], z[i]);
        }
      }
    } else {
      var rest := z[1..];
      assert forall y :: y in z <==> y == z[0] || y in rest;
      InsertKeeps(rest, x);
      LexTotal(x.member, z[0].member);
      assert Before(z[0], x);
      assert forall i :: 0 <= i < |Insert(rest, x)| ==> Insert(rest, x)[i] == x || Insert(rest, x)[i] in rest;
    }
  }

  lemma BeforeTransitive(a: Z, b: Z, c: Z)
    requires Before(a, b) && Before(b, c)
    ensures Before(a, c)
  {
    if a.score == b.score == c.score {
      LexTransitive(a.member, b.member, c.member);
    }
  }

  /** ZREVRANGE 0 stop: a negative stop counts from the end. */
  function RevRange(z: seq<Z>, stop: int): seq<Z> {
    var last := if stop < 0 then stop + |z| else if stop >= |z| then |z| - 1 else stop;
    if last < 0 then [] else seq(last + 1, i requires 0 <= i <= last => z[|z| - 1 - i])
  }

  // ---- the cache ----

  /** One number for each float64 value; nothing here computes with values. */
  type Float64 = x: int | INT64_MIN <= x <= INT64_MAX

  datatype Entry = Entry(timestamp: int, value: Float64)

  /** How member text and scores come about in the client library. */
  datatype Codec = Codec(format: Float64 -> string, parse: string -> Option<Float64>, double: int -> int)

  ghost predicate Faithful(c: Codec) {
    (forall v: Float64 :: c.parse(c.format(v)) == Some(v)) && IsDouble(c.double)
  }

  function SampleParse(text: string): Option<Float64> {
    Atoi(text)
  }

  lemma FaithfulExists()
    ensures exists c: Codec :: Faithful(c)
  {
    var c := Codec((v: Float64) => Print(v), SampleParse, (x: int) => x);
    forall v: Float64
      ensures c.parse(c.format(v)) == Some(v)
    {
      AtoiInvertsPrint(v);
    }
    assert Faithful(c);
  }

  function Encode(c: Codec, e: Entry): Z {
    Z(c.format(e.value), c.double(UnixMilli(e.timestamp)))
  }

  function Decode(c: Codec, z: Z): Entry
    requires c.parse(z.member).Some?
  {
    Entry(FromScore(z.score), c.parse(z.member).value)
  }

  /** What a key holds, and when it expires if it does. */
  datatype Slot = Slot(members: seq<Z>, expires: Option<int>)

  const VACANT := Slot([], None)

  predicate Expired(k: Slot, now: int) {
    k.expires.Some? && now >= k.expires.value
  }

  /** A sorted set that has outlived its expiry is gone. */
  function Live(k: Slot, now: int): seq<Z> {
    if Expired(k, now) then [] else k.members
  }

  /** One call of `Store`, with the time it happens at and the fates of its two requests. */
  datatype StoreCall = StoreCall(entry: Entry, now: int, zadd: Fate, expire: Fate)

  /** The expiry request is made only after a ZADD that is known to have succeeded. */
  predicate Renews(x: StoreCall) {
    x.zadd == Delivered && x.expire != Dropped
  }

  /** A new key has no expiry until one is set. */
  function ExpiryOn(e: Option<int>, x: StoreCall): Option<int> {
    if Renews(x) then Some(x.now + HOUR_MS)
    else if x.zadd != Dropped && e.Some? && x.now >= e.value then None
    else e
  }

  function StoreOn(c: Codec, k: Slot, x: StoreCall): Slot {
    if x.zadd == Dropped then k
    else Slot(ZAdd(Live(k, x.now), Encode(c, x.entry)), ExpiryOn(k.expires, x))
  }

  class Valkey {
    const c: Codec
    var slots: map<string, Slot>

    constructor (c: Codec)
      ensures this.c == c && slots == map[]
    {
      this.c, slots := c, map[];
    }

    function SlotOf(prefix: string): Slot
      reads this
    {
      if prefix in slots then slots[prefix] else VACANT
    }

    /** ZADD, then EXPIRE; the second is not attempted when the first reports failure. */
    method Store(prefix: string, entry: Entry, now: int, zadd: Fate, expire: Fate) returns (ok: bool)
      modifies this
      ensures ok <==> zadd == Delivered && expire == Delivered
      ensures SlotOf(prefix) == StoreOn(c, old(SlotOf(prefix)), StoreCall(entry, now, zadd, expire))
      ensures forall k :: k != prefix ==> SlotOf(k) == old(SlotOf(k))
    {
      if zadd == Dropped {
        return false;
      }
      if prefix !in slots || Expired(slots[prefix], now) {
        slots := slots[prefix := VACANT];
      }
      var z := Z(c.format(entry.value), c.double(UnixMilli(entry.timestamp)));
      slots := slots[prefix := Slot(ZAdd(slots[prefix].members, z), slots[prefix].expires)];
      if zadd == ReplyLost {
        return false;
      }
      if expire != Dropped {
        slots := slots[prefix := Slot(slots[prefix].members, Some(now + HOUR_MS))];
      }
      ok := expire == Delivered;
    }

    method FetchLast(prefix: string, n: int, now: int, fate: Fate) returns (ret: Option<seq<Entry>>)
      ensures ret.Some? <==>
                && fate == Delivered
                && forall x :: x in RevRange(Live(SlotOf(prefix), now), n - 1) ==> c.parse(x.member).Some?
      ensures ret.Some? ==>
                var zs := RevRange(Live(SlotOf(prefix), now), n - 1);
                && |ret.value| == |zs|
                && forall i :: 0 <= i < |zs| ==> ret.value[i] == Decode(c, zs[i])
    {
      if fate != Delivered {
        return None;
      }
      var entries := RevRange(Live(SlotOf(prefix), now), n - 1);
      var out: seq<Entry> := [];
      for i := 0 to |entries|
        invariant |out| == i
        invariant forall k :: 0 <= k < i ==> c.parse(entries[k].member).Some?
        invariant forall k :: 0 <= k < i ==> out[k] == Decode(c, entries[k])
      {
        var val := c.parse(entries[i].member);
        if val == None {
          return None;
        }
        out := out + [Entry(FromScore(entries[i].score), val.value)];
      }
      ret := Some(out);
    }
  }

  // ---- what a prefix holds after a sequence of stores ----

  function After(c: Codec, xs: seq<StoreCall>): Slot {
    if xs == [] then VACANT else StoreOn(c, After(c, xs[..|xs| - 1]), xs[|xs| - 1])
  }

  /** The stores happen in this order, and `now` is not before any of them. */
  ghost predicate Chronological(xs: seq<StoreCall>, now: int) {
    && (forall i, j :: 0 <= i < j < |xs| ==> xs[i].now <= xs[j].now)
    && (forall i :: 0 <= i < |xs| ==> xs[i].now <= now)
  }

  /** The expiry set by store `j` is not put off: no later one is set before it comes. */
  ghost predicate Final(xs: seq<StoreCall>, j: nat)
    requires j < |xs|
  {
    Renews(xs[j]) && forall i :: j < i < |xs| && Renews(xs[i]) ==> xs[j].now + HOUR_MS <= xs[i].now
  }

  /** Store `k` took effect, and the key has not expired since. */
  ghost predicate Survives(xs: seq<StoreCall>, k: nat, now: int)
    requires k < |xs|
  {
    && xs[k].zadd != Dropped
    && forall j :: 0 <= j < |xs| && Final(xs, j) && xs[k].now < xs[j].now + HOUR_MS ==> now < xs[j].now + HOUR_MS
  }

  /** Store `k` survives and no later store moved its member. */
  ghost predicate InForce(c: Codec, xs: seq<StoreCall>, k: nat, now: int)
    requires k < |xs|
  {
    && Survives(xs, k, now)
    && forall i :: k < i < |xs| && xs[i].zadd != Dropped ==>
                     Encode(c, xs[i].entry).member != Encode(c, xs[k].entry).member
  }

  ghost predicate Held(c: Codec, xs: seq<StoreCall>, now: int, z: Z) {
    exists k :: 0 <= k < |xs| && InForce(c, xs, k, now) && Encode(c, xs[k].entry) == z
  }

  lemma FinalBefore(most: seq<StoreCall>, x: StoreCall, j: nat)
    requires j < |most|
    ensures Final(most + [x], j) <==> Final(most, j) && (Renews(x) ==> most[j].now + HOUR_MS <= x.now)
  {
    var xs := most + [x];
    assert forall i :: 0 <= i < |most| ==> xs[i] == most[i];
    assert xs[|most|] == x;
  }

  /** `e` is the one deadline still ahead, if there is any. */
  ghost predicate IsDeadline(xs: seq<StoreCall>, e: Option<int>, now: int) {
    && (forall j :: 0 <= j < |xs| && Final(xs, j) && now < xs[j].now + HOUR_MS ==> e == Some(xs[j].now + HOUR_MS))
    && (e.Some? && now < e.value ==> exists j :: 0 <= j < |xs| && Final(xs, j) && xs[j].now + HOUR_MS == e.value)
  }

  lemma DeadlineStays(most: seq<StoreCall>, x: StoreCall, e: Option<int>, now: int)
    requires Chronological(most + [x], now) && IsDeadline(most, e, now) && !Renews(x)
    ensures IsDeadline(most + [x], e, now)
    ensures e.Some? && e.value <= now ==> IsDeadline(most + [x], None, now)
  {
    var xs, n := most + [x], |most|;
    forall j | 0 <= j < n
      ensures Final(xs, j) <==> Final(most, j)
    {
      FinalBefore(most, x, j);
    }
    assert !Final(xs, n);
    if e.Some? && now < e.value {
      var j :| 0 <= j < n && Final(most, j) && most[j].now + HOUR_MS == e.value;
      assert Final(xs, j) && xs[j] == most[j];
    }
  }

  lemma DeadlineMoves(most: seq<StoreCall>, x: StoreCall, now: int)
    requires Chronological(most + [x], now) && Renews(x)
    ensures IsDeadline(most + [x], Some(x.now + HOUR_MS), now)
  {
    var xs, n := most + [x], |most|;
    assert xs[n] == x && Final(xs, n);
    forall j | 0 <= j < n && Final(xs, j)
      ensures xs[j].now + HOUR_MS <= now
    {
      FinalBefore(most, x, j);
      assert xs[n].now <= now;
    }
  }

  function ExpiryAfter(xs: seq<StoreCall>): Option<int> {
    if xs == [] then None else ExpiryOn(ExpiryAfter(xs[..|xs| - 1]), xs[|xs| - 1])
  }

  lemma {:induction false} AfterExpires(c: Codec, xs: seq<StoreCall>)
    ensures After(c, xs).expires == ExpiryAfter(xs)
  {
    if xs != [] {
      AfterExpires(c, xs[..|xs| - 1]);
    }
  }

  lemma DeadlineStep(most: seq<StoreCall>, x: StoreCall, e: Option<int>, now: int)
    requires Chronological(most + [x], now) && IsDeadline(most, e, now)
    ensures IsDeadline(most + [x], ExpiryOn(e, x), now)
  {
    assert (most + [x])[|most|].now <= now;
    if Renews(x) {
      DeadlineMoves(most, x, now);
    } else {
      DeadlineStays(most, x, e, now);
    }
  }

  lemma ChronologicalBefore(most: seq<StoreCall>, x: StoreCall, now: int)
    requires Chronological(most + [x], now)
    ensures Chronological(most, now) && Chronological(most, x.now)
  {
    var xs := most + [x];
    assert forall i :: 0 <= i < |most| ==> xs[i] == most[i] && xs[i].now <= xs[|most|].now;
  }

  /** The key's expiry is that deadline. */
  lemma {:induction false} Deadlines(xs: seq<StoreCall>, now: int)
    requires Chronological(xs, now)
    ensures IsDeadline(xs, ExpiryAfter(xs), now)
  {
    if xs != [] {
      var most, x := xs[..|xs| - 1], xs[|xs| - 1];
      assert xs == most + [x];
      ChronologicalBefore(most, x, now);
      Deadlines(most, now);
      DeadlineStep(most, x, ExpiryAfter(most), now);
    }
  }

  /** What one more store does to the survival of the earlier ones. */
  lemma SurvivalStep(most: seq<StoreCall>, x: StoreCall, k: nat, now: int)
    requires Chronological(most + [x], now) && k < |most|
    ensures Survives(most + [x], k, now)
            <==> if Renews(x) then Survives(most, k, x.now) && now < x.now + HOUR_MS else Survives(most, k, now)
  {
    var xs, n := most + [x], |most|;
    assert forall i :: 0 <= i < n ==> xs[i] == most[i];
    assert xs[n] == x && xs[k].now <= xs[n].now;
    forall j | 0 <= j < n
      ensures Final(xs, j) <==> Final(most, j) && (Renews(x) ==> most[j].now + HOUR_MS <= x.now)
    {
      FinalBefore(most, x, j);
    }
    assert Final(xs, n) <==> Renews(x);
  }

  /** The newest store survives exactly as long as its key lives. */
  lemma NewestSurvives(c: Codec, most: seq<StoreCall>, x: StoreCall, now: int)
    requires Chronological(most + [x], now) && x.zadd != Dropped
    ensures Survives(most + [x], |most|, now) <==> !Expired(After(c, most + [x]), now)
  {
    var xs, n := most + [x], |most|;
    assert forall i :: 0 <= i < n ==> xs[i] == most[i];
    assert xs[n] == x && xs[..n] == most;
    assert Chronological(most, x.now) by {
      assert forall i :: 0 <= i < n ==> xs[i].now <= xs[n].now;
    }
    Deadlines(most, x.now);
    AfterExpires(c, most);
    AfterExpires(c, xs);
    forall j | 0 <= j < n
      ensures Final(xs, j) <==> Final(most, j) && (Renews(x) ==> most[j].now + HOUR_MS <= x.now)
    {
      FinalBefore(most, x, j);
    }
    assert Final(xs, n) <==> Renews(x);
  }

  /** If a store survives, so does the last one of its member. */
  lemma {:induction false} LastOf(c: Codec, xs: seq<StoreCall>, k: nat, now: int) returns (i: nat)
    requires Chronological(xs, now) && k < |xs| && Survives(xs, k, now)
    ensures k <= i < |xs| && InForce(c, xs, i, now)
    ensures Encode(c, xs[i].entry).member == Encode(c, xs[k].entry).member
    decreases |xs| - k
  {
    if InForce(c, xs, k, now) {
      i := k;
    } else {
      var next :| k < next < |xs| && xs[next].zadd != Dropped
                  && Encode(c, xs[next].entry).member == Encode(c, xs[k].entry).member;
      assert xs[k].now <= xs[next].now;
      i := LastOf(c, xs, next, now);
    }
  }

  lemma InForceStep(c: Codec, most: seq<StoreCall>, x: StoreCall, k: nat, now: int, then_: int)
    requires Chronological(most + [x], now) && k < |most|
    requires then_ == if Renews(x) then x.now else now
    ensures InForce(c, most + [x], k, now)
            <==> && InForce(c, most, k, then_)
                 && (Renews(x) ==> now < x.now + HOUR_MS)
                 && (x.zadd == Dropped || Encode(c, x.entry).member != Encode(c, most[k].entry).member)
  {
    var xs := most + [x];
    SurvivalStep(most, x, k, now);
    assert forall i :: 0 <= i < |most| ==> xs[i] == most[i];
    assert xs[|most|] == x;
  }

  /** Which elements one more store leaves in force. */
  lemma HeldStep(c: Codec, most: seq<StoreCall>, x: StoreCall, now: int, z: Z)
    requires Chronological(most + [x], now)
    ensures Held(c, most + [x], now, z)
            <==> if x.zadd == Dropped then Held(c, most, now, z)
                 else || (z == Encode(c, x.entry) && !Expired(After(c, most + [x]), now))
                      || (&& Held(c, most, if Renews(x) then x.now else now, z)
                          && (Renews(x) ==> now < x.now + HOUR_MS)
                          && z.member != Encode(c, x.entry).member)
  {
    var xs, n := most + [x], |most|;
    var then_ := if Renews(x) then x.now else now;
    forall k | 0 <= k < n
      ensures Encode(c, xs[k].entry) == Encode(c, most[k].entry)
      ensures InForce(c, xs, k, now)
              <==> && InForce(c, most, k, then_)
                   && (Renews(x) ==> now < x.now + HOUR_MS)
                   && (x.zadd == Dropped || Encode(c, x.entry).member != Encode(c, most[k].entry).member)
    {
      InForceStep(c, most, x, k, now, then_);
    }
    assert xs[n] == x;
    if x.zadd != Dropped {
      NewestSurvives(c, most, x, now);
      assert InForce(c, xs, n, now) <==> !Expired(After(c, xs), now);
    } else {
      assert !InForce(c, xs, n, now);
    }
  }

  /** After any stores, with whatever failures and at whatever times, the live set is ordered and
      holds exactly each value stored since the last expiry, under the score it was last stored with. */
  lemma {:induction false} LiveHoldsLastScores(c: Codec, xs: seq<StoreCall>, now: int)
    requires Chronological(xs, now)
    ensures Sorted(Live(After(c, xs), now))
    ensures forall z :: z in Live(After(c, xs), now) <==> Held(c, xs, now, z)
    decreases |xs|
  {
    if xs != [] {
      var n := |xs| - 1;
      var most, x := xs[..n], xs[n];
      assert xs == most + [x];
      assert Chronological(most, x.now) && Chronological(most, now);
      LiveHoldsLastScores(c, most, now);
      LiveHoldsLastScores(c, most, x.now);
      forall z
        ensures z in Live(After(c, xs), now) <==> Held(c, xs, now, z)
      {
        HeldStep(c, most, x, now, z);
        LiveOn(c, After(c, most), x, now, z);
      }
      ZAddKeeps(Live(After(c, most), x.now), Encode(c, x.entry));
    }
  }

  lemma ZAddKeeps(z: seq<Z>, x: Z)
    requires Sorted(z)
    ensures Sorted(ZAdd(z, x))
    ensures forall y :: y in ZAdd(z, x) <==> y == x || (y in z && y.member != x.member)
  {
    RemoveKeeps(z, x.member);
    InsertKeeps(Remove(z, x.member), x);
  }

  /** The same step on the set itself. */
  lemma LiveOn(c: Codec, k: Slot, x: StoreCall, now: int, z: Z)
    requires x.now <= now && Sorted(Live(k, x.now))
    ensures z in Live(StoreOn(c, k, x), now)
            <==> if x.zadd == Dropped then z in Live(k, now)
                 else || (z == Encode(c, x.entry) && !Expired(StoreOn(c, k, x), now))
                      || (&& z in Live(k, if Renews(x) then x.now else now)
                          && (Renews(x) ==> now < x.now + HOUR_MS)
                          && z.member != Encode(c, x.entry).member)
  {
    ZAddKeeps(Live(k, x.now), Encode(c, x.entry));
  }

  // ---- fetching ----

  /** The end of an ordered set, reversed: the n highest, highest first, nothing above them left out. */
  lemma TopOfSorted(z: seq<Z>, n: nat)
    requires Sorted(z) && n >= 1
    ensures var r := RevRange(z, n - 1);
            && |r| == (if n < |z| then n else |z|)
            && (forall x :: x in r ==> x in z)
            && (forall i, j :: 0 <= i < j < |r| ==> Before(r[j], r[i]) && r[i].member != r[j].member)
            && (forall x :: x in z && x !in r ==> |r| == n && forall k :: 0 <= k < |r| ==> Before(x, r[k]))
  {
    var r := RevRange(z, n - 1);
    assert forall i :: 0 <= i < |r| ==> r[i] == z[|z| - 1 - i];
    forall i | |z| - |r| <= i < |z|
      ensures z[i] in r
    {
      assert r[|z| - 1 - i] == z[i];
    }
    forall x | x in z && x !in r
      ensures |r| == n && forall k :: 0 <= k < |r| ==> Before(x, r[k])
    {
      var i :| 0 <= i < |z| && z[i] == x;
      assert i < |z| - |r|;
    }
  }

  /** After any stores, fetching the last n >= 1 gives the n elements in force of highest score. */
  lemma FetchLastIsTop(c: Codec, xs: seq<StoreCall>, now: int, n: nat)
    requires n >= 1 && Chronological(xs, now)
    ensures var r := RevRange(Live(After(c, xs), now), n - 1);
            && |r| <= n
            && (forall z :: z in r ==> Held(c, xs, now, z))
            && (forall i, j :: 0 <= i < j < |r| ==> Before(r[j], r[i]) && r[i].member != r[j].member)
            && (forall z :: Held(c, xs, now, z) && z !in r ==> |r| == n && forall k :: 0 <= k < |r| ==> Before(z, r[k]))
  {
    LiveHoldsLastScores(c, xs, now);
    TopOfSorted(Live(After(c, xs), now), n);
  }

  /** Asking for the last n <= 0: the end of the range counts from the end of the set, so the last 0
      are everything and each step below leaves off one of the lowest. */
  lemma FetchLastNonPositive(z: seq<Z>, n: int)
    requires n <= 0
    ensures var r := RevRange(z, n - 1);
            && |r| == (if |z| + n < 0 then 0 else |z| + n)
            && forall i :: 0 <= i < |r| ==> r[i] == z[|z| - 1 - i]
  {
  }

  /** At most n come back exactly for n >= 1, or when there are few enough anyway. */
  lemma AtMostN(z: seq<Z>, n: int)
    ensures |RevRange(z, n - 1)| <= (if n < 0 then 0 else n) <==> n >= 1 || |z| + n <= 0
  {
    if n >= 1 {
      assert |RevRange(z, n - 1)| == if n < |z| then n else |z|;
    } else {
      FetchLastNonPositive(z, n);
    }
  }

  /** No value that survives was stored at two different milliseconds. */
  ghost predicate NoClash(c: Codec, xs: seq<StoreCall>, now: int) {
    forall j, k {:trigger Survives(xs, j, now), Survives(xs, k, now)} ::
      0 <= j < k < |xs| && Survives(xs, j, now) && Survives(xs, k, now)
      && Encode(c, xs[j].entry).member == Encode(c, xs[k].entry).member ==>
        Encode(c, xs[j].entry) == Encode(c, xs[k].entry)
  }

  ghost predicate AllThere(c: Codec, xs: seq<StoreCall>, now: int) {
    forall k :: 0 <= k < |xs| && Survives(xs, k, now) ==> Encode(c, xs[k].entry) in Live(After(c, xs), now)
  }

  lemma ThereMeansNoClash(c: Codec, xs: seq<StoreCall>, now: int)
    requires Sorted(Live(After(c, xs), now)) && AllThere(c, xs, now)
    ensures NoClash(c, xs, now)
  {
    var z := Live(After(c, xs), now);
    forall a, b | a in z && b in z && a.member == b.member
      ensures a == b
    {
      var i, j :| 0 <= i < |z| && 0 <= j < |z| && z[i] == a && z[j] == b;
    }
  }

  /** Every store that outlived the expiries is still in the set exactly if there was no clash. */
  lemma NothingOverwritten(c: Codec, xs: seq<StoreCall>, now: int)
    requires Chronological(xs, now)
    ensures AllThere(c, xs, now) <==> NoClash(c, xs, now)
  {
    LiveHoldsLastScores(c, xs, now);
    if AllThere(c, xs, now) {
      ThereMeansNoClash(c, xs, now);
    }
    if NoClash(c, xs, now) {
      forall k | 0 <= k < |xs| && Survives(xs, k, now)
        ensures Encode(c, xs[k].entry) in Live(After(c, xs), now)
      {
        var i := LastOf(c, xs, k, now);
        assert Survives(xs, i, now);
        assert Held(c, xs, now, Encode(c, xs[i].entry));
      }
    }
  }

  /** A reading as it comes back: its value, and its time down to the millisecond. */
  function Floored(e: Entry): Entry {
    Entry(e.timestamp - e.timestamp % NS_PER_MS, e.value)
  }

  predicate InRange(e: Entry) {
    -9223372036854 <= UnixMilli(e.timestamp) <= 9223372036854
  }

  lemma EntryRoundTrip(c: Codec, e: Entry)
    requires Faithful(c) && InRange(e)
    ensures var z := Encode(c, e);
            c.parse(z.member) == Some(e.value) && Decode(c, z) == Floored(e) && z.score * NS_PER_MS == Floored(e).timestamp
  {
    TimestampRoundTrip(c.double, e.timestamp);
  }

  /** An element that decodes to a surviving reading, ordered by score as the readings are by time. */
  ghost predicate IsReading(c: Codec, xs: seq<StoreCall>, now: int, z: Z) {
    && c.parse(z.member).Some?
    && c.format(c.parse(z.member).value) == z.member
    && Decode(c, z).timestamp == z.score * NS_PER_MS
    && exists k :: 0 <= k < |xs| && Survives(xs, k, now) && Decode(c, z) == Floored(xs[k].entry)
  }

  ghost predicate AllInRange(xs: seq<StoreCall>, now: int) {
    forall k :: 0 <= k < |xs| && Survives(xs, k, now) ==> InRange(xs[k].entry)
  }

  lemma HeldIsReading(c: Codec, xs: seq<StoreCall>, now: int, z: Z)
    requires Faithful(c) && Held(c, xs, now, z) && AllInRange(xs, now)
    ensures IsReading(c, xs, now, z)
  {
    var k :| 0 <= k < |xs| && InForce(c, xs, k, now) && Encode(c, xs[k].entry) == z;
    EntryRoundTrip(c, xs[k].entry);
  }

  /** The reading of store `k` is among `r`, or `r` has n readings and none is older. */
  ghost predicate Accounted(c: Codec, r: seq<Z>, e: Entry, n: nat)
    requires forall i :: 0 <= i < |r| ==> c.parse(r[i].member).Some?
  {
    || (exists i :: 0 <= i < |r| && Decode(c, r[i]) == Floored(e))
    || (|r| == n && forall i :: 0 <= i < |r| ==> Decode(c, r[i]).timestamp >= Floored(e).timestamp)
  }

  lemma NoOlder(c: Codec, xs: seq<StoreCall>, now: int, e: Entry, z: Z)
    requires Faithful(c) && InRange(e) && IsReading(c, xs, now, z) && Before(Encode(c, e), z)
    ensures Decode(c, z).timestamp >= Floored(e).timestamp
  {
    EntryRoundTrip(c, e);
  }

  lemma SurvivorIsAccounted(c: Codec, xs: seq<StoreCall>, now: int, n: nat, k: nat)
    requires Faithful(c) && n >= 1 && Chronological(xs, now) && NoClash(c, xs, now) && AllInRange(xs, now)
    requires k < |xs| && Survives(xs, k, now)
    ensures var r := RevRange(Live(After(c, xs), now), n - 1);
            && (forall i :: 0 <= i < |r| ==> IsReading(c, xs, now, r[i]))
            && Accounted(c, r, xs[k].entry, n)
  {
    var r, z := RevRange(Live(After(c, xs), now), n - 1), Encode(c, xs[k].entry);
    FetchedAreReadings(c, xs, now, n);
    EntryRoundTrip(c, xs[k].entry);
    NothingOverwritten(c, xs, now);
    TopOfLive(c, xs, now, n);
    assert z in Live(After(c, xs), now);
    if z in r {
      var i :| 0 <= i < |r| && r[i] == z;
    } else {
      forall i | 0 <= i < |r|
        ensures c.parse(r[i].member).Some? && Decode(c, r[i]).timestamp >= Floored(xs[k].entry).timestamp
      {
        assert IsReading(c, xs, now, r[i]) && Before(z, r[i]);
        NoOlder(c, xs, now, xs[k].entry, r[i]);
      }
    }
  }

  lemma TopOfLive(c: Codec, xs: seq<StoreCall>, now: int, n: nat)
    requires n >= 1 && Chronological(xs, now)
    ensures var z, r := Live(After(c, xs), now), RevRange(Live(After(c, xs), now), n - 1);
            forall x :: x in z && x !in r ==> |r| == n && forall i :: 0 <= i < |r| ==> Before(x, r[i])
  {
    LiveHoldsLastScores(c, xs, now);
    TopOfSorted(Live(After(c, xs), now), n);
  }

  lemma FetchedAreReadings(c: Codec, xs: seq<StoreCall>, now: int, n: nat)
    requires Faithful(c) && n >= 1 && Chronological(xs, now) && AllInRange(xs, now)
    ensures var r := RevRange(Live(After(c, xs), now), n - 1);
            forall i :: 0 <= i < |r| ==> IsReading(c, xs, now, r[i])
  {
    var r := RevRange(Live(After(c, xs), now), n - 1);
    FetchLastIsTop(c, xs, now, n);
    forall i | 0 <= i < |r|
      ensures IsReading(c, xs, now, r[i])
    {
      assert r[i] in r;
      HeldIsReading(c, xs, now, r[i]);
    }
  }

  /** End to end.  If the surviving readings are in range and do not clash, a fetch of the last n >= 1
      decodes, and gives the newest n of them: each a surviving reading down to the millisecond, no
      value twice, newest first, and any other surviving reading is no newer than all n given. */
  lemma NewestReadings(c: Codec, xs: seq<StoreCall>, now: int, n: nat)
    requires Faithful(c) && n >= 1 && Chronological(xs, now) && NoClash(c, xs, now) && AllInRange(xs, now)
    ensures var r := RevRange(Live(After(c, xs), now), n - 1);
            && |r| <= n
            && (forall i :: 0 <= i < |r| ==> IsReading(c, xs, now, r[i]))
            && (forall i, j :: 0 <= i < j < |r| ==>
                  && Decode(c, r[i]).timestamp >= Decode(c, r[j]).timestamp
                  && Decode(c, r[i]).value != Decode(c, r[j]).value)
            && (forall k :: 0 <= k < |xs| && Survives(xs, k, now) ==> Accounted(c, r, xs[k].entry, n))
  {
    var r := RevRange(Live(After(c, xs), now), n - 1);
    FetchLastIsTop(c, xs, now, n);
    FetchedAreReadings(c, xs, now, n);
    forall k | 0 <= k < |xs| && Survives(xs, k, now)
      ensures Accounted(c, r, xs[k].entry, n)
    {
      SurvivorIsAccounted(c, xs, now, n, k);
    }
    forall i, j | 0 <= i < j < |r|
      ensures Decode(c, r[i]).timestamp >= Decode(c, r[j]).timestamp
      ensures Decode(c, r[i]).value != Decode(c, r[j]).value
    {
      assert IsReading(c, xs, now, r[i]) && IsReading(c, xs, now, r[j]);
      assert Before(r[j], r[i]) && r[i].member != r[j].member;
    }
  }

  // ---- in plain terms ----

  /** Members of one score are ordered as byte strings: a proper prefix first, else by the first
      character that differs. */
  lemma {:induction false} LexLessExactly(a: string, b: string)
    ensures LexLess(a, b) <==>
              || (|a| < |b| && b[..|a|] == a)
              || exists k :: 0 <= k < |a| && k < |b| && a[..k] == b[..k] && a[k] < b[k]
  {
    if a != "" && b != "" && a[0] == b[0] {
      LexLessExactly(a[1..], b[1..]);
      assert a == [a[0]] + a[1..] && b == [b[0]] + b[1..];
      if k :| 0 <= k < |a[1..]| && k < |b[1..]| && a[1..][..k] == b[1..][..k] && a[1..][k] < b[1..][k] {
        assert a[..k + 1] == [a[0]] + a[1..][..k] && b[..k + 1] == [b[0]] + b[1..][..k];
        assert a[k + 1] < b[k + 1];
      }
      if k :| 0 <= k < |a| && k < |b| && a[..k] == b[..k] && a[k] < b[k] {
        assert k > 0 && a[1..][..k - 1] == a[..k][1..] && b[1..][..k - 1] == b[..k][1..];
        assert a[1..][k - 1] < b[1..][k - 1];
      }
      if |a| < |b| && b[..|a|] == a {
        assert b[1..][..|a| - 1] == b[..|a|][1..];
      }
      if |a| < |b| && b[1..][..|a| - 1] == a[1..] {
        assert b[..|a|] == [b[0]] + b[1..][..|a| - 1];
      }
    } else if a != "" && b != "" {
      if a[0] < b[0] {
        assert a[..0] == b[..0];
      } else {
        assert forall k :: 0 < k <= |a| && k <= |b| && a[..k] == b[..k] ==> a[..k][0] == b[..k][0];
      }
    }
  }

  /** A store that goes through: from an hour on the key is empty, and until then it holds the reading
      just stored. */
  lemma StoredForAnHour(c: Codec, k: Slot, e: Entry, t: int, n: int)
    requires Sorted(Live(k, t))
    ensures var live := Live(StoreOn(c, k, StoreCall(e, t, Delivered, Delivered)), n);
            && (n >= t + 3600000 ==> live == [])
            && (n < t + 3600000 ==> Z(c.format(e.value), c.double(e.timestamp / 1000000)) in live)
  {
    ZAddKeeps(Live(k, t), Encode(c, e));
  }

  /** What each combination of fates does to the expiry and the contents of a key. */
  lemma StoreExactly(c: Codec, k: Slot, x: StoreCall)
    requires Sorted(Live(k, x.now))
    ensures var k', z := StoreOn(c, k, x), Z(c.format(x.entry.value), c.double(x.entry.timestamp / 1000000));
            var running := if k.expires.Some? && x.now >= k.expires.value then None else k.expires;
            && (x.zadd == Dropped ==> k' == k)
            && (x.zadd != Dropped ==>
                  && k'.expires == (if x.zadd == Delivered && x.expire != Dropped then Some(x.now + 3600000) else running)
                  && forall y :: y in k'.members <==> y == z || (y in Live(k, x.now) && y.member != z.member))
  {
    ZAddKeeps(Live(k, x.now), Encode(c, x.entry));
  }
}
