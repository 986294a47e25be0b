/** Topic classification, the flow created for a new topic, and the watcher's scan. */
module Watcher {
  import opened Common
  import opened Arroyo

  const PREFIXES: seq<string> := ["temperatures_", "humidities_", "ph_levels_"]

  predicate IsKafkaManagedTopic(topic: string) {
    exists p | p in PREFIXES :: p <= topic
  }

  function KafkaName(topic: string): string {
    "kafka_" + topic
  }

  function ScyllaName(topic: string): string {
    if "temperatures_" <= topic then "scylla_temperatures"
    else if "humidities_" <= topic then "scylla_humidities"
    else if "ph_levels_" <= topic then "scylla_ph_levels"
    else "scylla_" + topic
  }

  function FlowQuery(topic: string): string {
    "\nINSERT INTO " + ScyllaName(topic) + "\nSELECT * FROM \"" + KafkaName(topic) + "\";\n"
  }

  function FlowDefinition(topic: string): Definition {
    Definition(topic, FlowQuery(topic), Some(1), CHECKPOINT_MICROS)
  }

  /** The classifier and the routing switch agree: a managed topic matches exactly one prefix,
      and its sink is the table named after that prefix, never the switch's default. */
  lemma ManagedTopicsAreRouted(topic: string, p: string)
    requires IsKafkaManagedTopic(topic) && p in PREFIXES
    ensures p <= topic <==> ScyllaName(topic) == "scylla_" + p[..|p| - 1]
    ensures p <= topic ==> forall q :: q in PREFIXES && q <= topic ==> q == p
    ensures !("__" <= topic)
  {
    assert "temperatures_"[0] == 't' && "humidities_"[0] == 'h' && "ph_levels_"[0] == 'p';
    assert p == "temperatures_" || p == "humidities_" || p == "ph_levels_";
    assert topic[0] == 't' || topic[0] == 'h' || topic[0] == 'p';
    assert "scylla_temperatures"[7] == 't' && "scylla_humidities"[7] == 'h' && "scylla_ph_levels"[7] == 'p';
    assert "scylla_" + "temperatures_"[..12] == "scylla_temperatures";
    assert "scylla_" + "humidities_"[..10] == "scylla_humidities";
    assert "scylla_" + "ph_levels_"[..9] == "scylla_ph_levels";
  }

  lemma Cancel(head: string, t: string, u: string, tail: string)
    requires head + t + tail == head + u + tail
    ensures t == u
  {
    var whole := head + t + tail;
    assert |whole| == |head| + |t| + |tail| == |head| + |u| + |tail|;
    assert whole[|head|..|head| + |t|] == t;
    assert (head + u + tail)[|head|..|head| + |u|] == u;
  }

  function QueryHead(sink: string): string {
    "\nINSERT INTO " + sink + "\nSELECT * FROM \"" + "kafka_"
  }

  lemma QueryShape(t: string)
    ensures FlowQuery(t) == QueryHead(ScyllaName(t)) + t + "\";\n"
  {
    var sink, lead, from, tail := ScyllaName(t), "\nINSERT INTO ", "\nSELECT * FROM \"", "\";\n";
    assert lead + sink + from + ("kafka_" + t) + tail == lead + sink + from + "kafka_" + t + tail;
  }

  /** The query text determines the managed topic it serves. */
  lemma QueryIdentifiesTopic(t: string, u: string)
    requires IsKafkaManagedTopic(t) && IsKafkaManagedTopic(u)
    requires FlowQuery(t) == FlowQuery(u)
    ensures t == u
  {
    SinkFromQuery(t);
    SinkFromQuery(u);
    QueryShape(t);
    QueryShape(u);
    Cancel(QueryHead(ScyllaName(t)), t, u, "\";\n");
  }

  lemma SinkFromQuery(t: string)
    requires IsKafkaManagedTopic(t)
    ensures |FlowQuery(t)| > 20
    ensures ScyllaName(t) == if FlowQuery(t)[20] == 't' then "scylla_temperatures"
                             else if FlowQuery(t)[20] == 'h' then "scylla_humidities"
                             else "scylla_ph_levels"
  {
    var lead := "\nINSERT INTO ";
    assert |lead| == 13;
    assert FlowQuery(t)[20] == ScyllaName(t)[7];
    assert "scylla_temperatures"[7] == 't' && "scylla_humidities"[7] == 'h' && "scylla_ph_levels"[7] == 'p';
  }

  // ---- one flow: a Kafka table, then a pipeline ----

  datatype FlowFates = FlowFates(table: Fate, pipeline: Fate)

  /** An "already exists" answer counts as success. */
  predicate Tolerated(a: Answer) {
    a != Refused
  }

  function Flow(st: ServerState, topic: string, f: FlowFates): (ServerState, bool) {
    var (tabled, a) := CreateTable(st, KafkaName(topic), f.table);
    if !Tolerated(a) then (tabled, false)
    else
      var (piped, b) := Create(tabled, FlowDefinition(topic), f.pipeline);
      (piped, Tolerated(b))
  }

  const CLEAN := FlowFates(Delivered, Delivered)

  /** Attempts at one topic, as the watcher makes them: stop at the first that reports success. */
  function Retry(st: ServerState, topic: string, attempts: seq<FlowFates>): (ServerState, bool)
    decreases |attempts|
  {
    if attempts == [] then (st, false)
    else
      var (st', ok) := Flow(st, topic, attempts[0]);
      if ok then (st', true) else Retry(st', topic, attempts[1..])
  }

  function CountNamed(ps: seq<Pipeline>, name: string): nat {
    if ps == [] then 0
    else CountNamed(ps[..|ps| - 1], name) + if ps[|ps| - 1].def.name == name then 1 else 0
  }

  lemma {:induction false} CountNamedZero(ps: seq<Pipeline>, name: string)
    ensures CountNamed(ps, name) == 0 <==> !HasName(ps, name)
  {
    if ps != [] {
      var most, last := ps[..|ps| - 1], ps[|ps| - 1];
      CountNamedZero(most, name);
      assert forall p :: p in ps <==> p in most || p == last;
    }
  }

  /** On a server that rejects duplicates, an attempt that fails part-way, with or without effect,
      does not change what a clean attempt from there arrives at. */
  lemma FailedAttemptIsHarmless(st: ServerState, topic: string, f: FlowFates)
    requires st.rejects
    ensures var (st', ok) := Flow(st, topic, f);
            && st'.rejects
            && Flow(st', topic, CLEAN).0 == Flow(st, topic, CLEAN).0
            && (ok ==> st' == Flow(st, topic, CLEAN).0)
  {
    var (tabled, _) := CreateTable(st, KafkaName(topic), f.table);
    assert KafkaName(topic) in st.tables ==> st.tables + {KafkaName(topic)} == st.tables;
    assert CreateTable(tabled, KafkaName(topic), Delivered).0 == CreateTable(st, KafkaName(topic), Delivered).0;
    var (st', _) := Flow(st, topic, f);
    if f.pipeline != Dropped && st'.pipelines != st.pipelines {
      assert st'.pipelines[|st.pipelines|].def.name == topic;
      assert HasName(st'.pipelines, topic);
    }
  }

  /** Retry convergence: whatever the earlier attempts left behind, once an attempt reports
      success the server is in exactly the state one clean attempt would have produced. */
  lemma {:induction false} RetryConverges(st: ServerState, topic: string, attempts: seq<FlowFates>)
    requires st.rejects
    ensures var (st', ok) := Retry(st, topic, attempts);
            && Flow(st', topic, CLEAN).0 == Flow(st, topic, CLEAN).0
            && (ok ==> st' == Flow(st, topic, CLEAN).0)
    decreases |attempts|
  {
    if attempts != [] {
      FailedAttemptIsHarmless(st, topic, attempts[0]);
      var (st', ok) := Flow(st, topic, attempts[0]);
      if !ok {
        RetryConverges(st', topic, attempts[1..]);
      }
    }
  }

  /** The clean outcome: the table exists, and the pipeline that was there is kept untouched or,
      if there was none, exactly one is added. */
  lemma CleanFlow(st: ServerState, topic: string)
    requires st.rejects
    ensures var (st', ok) := Flow(st, topic, CLEAN);
            && ok
            && st'.tables == st.tables + {KafkaName(topic)}
            && (CountNamed(st.pipelines, topic) > 0 ==> st'.pipelines == st.pipelines)
            && (CountNamed(st.pipelines, topic) == 0 ==>
                  && st'.pipelines == st.pipelines + [Pipeline(st.nextId, FlowDefinition(topic), [])]
                  && CountNamed(st'.pipelines, topic) == 1)
  {
    CountNamedZero(st.pipelines, topic);
    var (st', _) := Flow(st, topic, CLEAN);
    assert KafkaName(topic) in st.tables ==> st.tables + {KafkaName(topic)} == st.tables;
    if CountNamed(st.pipelines, topic) == 0 {
      assert st'.pipelines[..|st.pipelines|] == st.pipelines;
    }
  }

  /** How many attempts, up to and including the first reported success, really created a pipeline. */
  function Effects(attempts: seq<FlowFates>): nat {
    if attempts == [] then 0
    else
      var f := attempts[0];
      (if Effective(f) then 1 else 0)
      + if f == CLEAN then 0 else Effects(attempts[1..])
  }

  /** Rejection is what convergence rests on: a server that accepts duplicate names ends up with
      one more pipeline for every attempt that took effect, reported or not. */
  lemma {:induction false} RetryOnAcceptingServer(st: ServerState, topic: string, attempts: seq<FlowFates>)
    requires !st.rejects
    ensures CountNamed(Retry(st, topic, attempts).0.pipelines, topic)
         == CountNamed(st.pipelines, topic) + Effects(attempts)
    decreases |attempts|
  {
    if attempts != [] {
      var f := attempts[0];
      var (st', ok) := Flow(st, topic, f);
      if Effective(f) {
        assert st'.pipelines[..|st.pipelines|] == st.pipelines;
      }
      if !ok {
        RetryOnAcceptingServer(st', topic, attempts[1..]);
      }
    }
  }

  // ---- one scan over the topic list ----

  predicate Wanted(known: set<string>, topic: string) {
    && !("__" <= topic)
    && IsKafkaManagedTopic(topic)
    && topic !in known
  }

  /** Effect of a scan: each wanted topic gets a flow and is known from then on if that succeeded. */
  function Scan(known: set<string>, st: ServerState, topics: seq<string>, fates: seq<FlowFates>)
    : (set<string>, ServerState)
    requires |fates| == |topics|
  {
    if topics == [] then (known, st)
    else
      var t, n := topics[|topics| - 1], |topics| - 1;
      var (known', st') := Scan(known, st, topics[..n], fates[..n]);
      if !Wanted(known', t) then (known', st')
      else
        var (st'', ok) := Flow(st', t, fates[n]);
        (if ok then known' + {t} else known', st'')
  }

  class Watcher {
    const server: Server
    var knownTopics: set<string>

    constructor (server: Server)
      ensures this.server == server && knownTopics == {}
    {
      this.server := server;
      knownTopics := {};
    }

    /** Seeding from the pipelines already on the server; a failed listing leaves the set as it is. */
    method Seed(fate: Fate)
      modifies this
      ensures fate == Delivered ==>
                forall t :: t in knownTopics <==> t in old(knownTopics) || HasName(server.pipelines, t)
      ensures fate != Delivered ==> knownTopics == old(knownTopics)
    {
      if fate != Delivered {
        return;
      }
      for i := 0 to |server.pipelines|
        invariant server.pipelines == old(server.pipelines)
        invariant forall t :: t in knownTopics <==> t in old(knownTopics) || HasName(server.pipelines[..i], t)
      {
        knownTopics := knownTopics + {server.pipelines[i].def.name};
        assert server.pipelines[..i + 1] == server.pipelines[..i] + [server.pipelines[i]];
      }
      assert server.pipelines[..|server.pipelines|] == server.pipelines;
    }

    method CreateArroyoFlow(topic: string, f: FlowFates) returns (ok: bool)
      modifies server
      ensures (server.State(), ok) == Flow(old(server.State()), topic, f)
    {
      var kafkaName := "kafka_" + topic;
      var scyllaName := "scylla_" + topic;
      var a := server.PostTable(kafkaName, f.table);
      if a == Refused {
        return false;
      }
      if "temperatures_" <= topic {
        scyllaName := "scylla_temperatures";
      } else if "humidities_" <= topic {
        scyllaName := "scylla_humidities";
      } else if "ph_levels_" <= topic {
        scyllaName := "scylla_ph_levels";
      }
      var query := "\nINSERT INTO " + scyllaName + "\nSELECT * FROM \"" + kafkaName + "\";\n";
      var b := server.PostPipeline(Definition(topic, query, Some(1), CHECKPOINT_MICROS), f.pipeline);
      ok := b != Refused;
    }

    /** The body of the watch loop for one topic listing. */
    method ScanTopics(topics: seq<string>, fates: seq<FlowFates>)
      requires |fates| == |topics|
      modifies this, server
      ensures (knownTopics, server.State()) == Scan(old(knownTopics), old(server.State()), topics, fates)
    {
      for i := 0 to |topics|
        invariant (knownTopics, server.State())
               == Scan(old(knownTopics), old(server.State()), topics[..i], fates[..i])
      {
        var topic := topics[i];
        assert topics[..i + 1][..i] == topics[..i] && fates[..i + 1][..i] == fates[..i];
        if "__" <= topic || !IsKafkaManagedTopic(topic) {
          continue;
        }
        if topic in knownTopics {
          continue;
        }
        var ok := CreateArroyoFlow(topic, fates[i]);
        if !ok {
          continue;
        }
        knownTopics := knownTopics + {topic};
      }
      assert topics[..|topics|] == topics && fates[..|topics|] == fates;
    }
  }

  /** A managed topic that is not known has no pipeline. */
  ghost predicate Tidy(known: set<string>, st: ServerState) {
    forall t :: IsKafkaManagedTopic(t) && t !in known ==> !HasName(st.pipelines, t)
  }

  /** On either kind of server and with any failures short of a lost reply to a pipeline
      creation, a scan keeps the books tidy and adds, for any topic, exactly the one pipeline
      that makes it known. */
  lemma {:induction false} ScanCreatesOnce(known: set<string>, st: ServerState, topics: seq<string>,
                                           fates: seq<FlowFates>, t: string)
    requires |fates| == |topics|
    requires Tidy(known, st)
    requires forall f :: f in fates ==> f.pipeline != ReplyLost
    ensures var (known', st') := Scan(known, st, topics, fates);
            && Tidy(known', st')
            && known <= known' <= known + (set u | u in topics)
            && st.tables <= st'.tables
            && (t in known' - known ==>
                  && IsKafkaManagedTopic(t)
                  && KafkaName(t) in st'.tables
                  && CountNamed(st'.pipelines, t) == CountNamed(st.pipelines, t) + 1 == 1)
            && (t !in known' - known ==> CountNamed(st'.pipelines, t) == CountNamed(st.pipelines, t))
  {
    if topics != [] {
      var n := |topics| - 1;
      assert forall f :: f in fates[..n] ==> f in fates;
      ScanCreatesOnce(known, st, topics[..n], fates[..n], t);
      var (known', st') := Scan(known, st, topics[..n], fates[..n]);
      if Wanted(known', topics[n]) {
        assert fates[n] in fates;
        forall u {
          FlowAddsOne(st', topics[n], fates[n], u);
        }
        CountNamedZero(st'.pipelines, t);
      }
    }
  }

  /** The pipeline request of a flow takes effect. */
  predicate Effective(f: FlowFates) {
    f.table == Delivered && f.pipeline != Dropped
  }

  /** For a topic without a pipeline: a flow adds exactly one if its pipeline request is made and
      takes effect, and reports success if both replies arrive. */
  lemma FlowAddsOne(st: ServerState, topic: string, f: FlowFates, t: string)
    requires !HasName(st.pipelines, topic)
    ensures var (st', ok) := Flow(st, topic, f);
            && (ok <==> f == CLEAN)
            && CountNamed(st'.pipelines, t) == CountNamed(st.pipelines, t) + (if Effective(f) && t == topic then 1 else 0)
            && (Effective(f) ==> KafkaName(topic) in st'.tables)
            && st.tables <= st'.tables
            && (HasName(st'.pipelines, t) <==> HasName(st.pipelines, t) || (Effective(f) && t == topic))
  {
    var (st', ok) := Flow(st, topic, f);
    if st'.pipelines != st.pipelines {
      assert st'.pipelines[..|st.pipelines|] == st.pipelines;
    }
    CountNamedZero(st.pipelines, t);
    CountNamedZero(st'.pipelines, t);
  }

  // ---- in plain terms ----

  /** The managed topics are those of the three families. */
  lemma ManagedExactly(topic: string)
    ensures IsKafkaManagedTopic(topic)
            <==> "temperatures_" <= topic || "humidities_" <= topic || "ph_levels_" <= topic
  {
    assert PREFIXES[0] in PREFIXES && PREFIXES[1] in PREFIXES && PREFIXES[2] in PREFIXES;
    assert forall p :: p in PREFIXES <==> p == "temperatures_" || p == "humidities_" || p == "ph_levels_";
  }

  lemma SinkText(topic: string)
    ensures "temperatures_" <= topic ==> ScyllaName(topic) == "scylla_temperatures"
    ensures "humidities_" <= topic ==> ScyllaName(topic) == "scylla_humidities"
    ensures "ph_levels_" <= topic ==> ScyllaName(topic) == "scylla_ph_levels"
  {
    assert "temperatures_"[0] == 't' && "humidities_"[0] == 'h' && "ph_levels_"[0] == 'p';
  }

  /** What is created for a topic that streams into `sink`. */
  function Streaming(topic: string, sink: string): Definition {
    Definition(topic, "\nINSERT INTO " + sink + "\nSELECT * FROM \"kafka_" + topic + "\";\n", Some(1), 60000000)
  }

  lemma FlowText(topic: string)
    ensures FlowDefinition(topic) == Streaming(topic, ScyllaName(topic))
    ensures KafkaName(topic) == "kafka_" + topic
  {
    var lead := "\nINSERT INTO " + ScyllaName(topic);
    assert "\nSELECT * FROM \"" + "kafka_" == "\nSELECT * FROM \"kafka_";
    assert lead + "\nSELECT * FROM \"" + ("kafka_" + topic) == lead + ("\nSELECT * FROM \"" + "kafka_") + topic;
  }

  /** The sink table of a topic's family. */
  predicate SinkOf(topic: string, sink: string) {
    || ("temperatures_" <= topic && sink == "scylla_temperatures")
    || ("humidities_" <= topic && sink == "scylla_humidities")
    || ("ph_levels_" <= topic && sink == "scylla_ph_levels")
  }

  lemma {:induction false} ScanGrows(known: set<string>, st: ServerState, topics: seq<string>, fates: seq<FlowFates>)
    requires |fates| == |topics|
    ensures var (known', st') := Scan(known, st, topics, fates);
            && known <= known'
            && |st.pipelines| <= |st'.pipelines|
            && (forall j :: 0 <= j < |st.pipelines| ==> st'.pipelines[j] == st.pipelines[j])
            && (forall j :: |st.pipelines| <= j < |st'.pipelines| ==>
                              st'.pipelines[j].def == FlowDefinition(st'.pipelines[j].def.name))
  {
    if topics != [] {
      var n := |topics| - 1;
      ScanGrows(known, st, topics[..n], fates[..n]);
    }
  }

  /** A managed topic both of whose replies arrive is known after the scan. */
  lemma {:induction false} ScanReaches(known: set<string>, st: ServerState, topics: seq<string>, fates: seq<FlowFates>, i: nat)
    requires |fates| == |topics| && i < |topics| && IsKafkaManagedTopic(topics[i])
    requires fates[i] == FlowFates(Delivered, Delivered)
    ensures topics[i] in Scan(known, st, topics, fates).0
  {
    var n := |topics| - 1;
    if i < n {
      ScanReaches(known, st, topics[..n], fates[..n], i);
    } else {
      ManagedTopicsAreRouted(topics[n], "temperatures_");
    }
  }

  lemma NewIsFlow(st: ServerState, st': ServerState, topic: string)
    requires |st.pipelines| <= |st'.pipelines|
    requires forall j :: 0 <= j < |st.pipelines| ==> st'.pipelines[j] == st.pipelines[j]
    requires forall j :: |st.pipelines| <= j < |st'.pipelines| ==>
                           st'.pipelines[j].def == FlowDefinition(st'.pipelines[j].def.name)
    requires !HasName(st.pipelines, topic)
    ensures forall p :: p in st'.pipelines && p.def.name == topic ==> p.def == FlowDefinition(topic)
  {
    forall p | p in st'.pipelines && p.def.name == topic
      ensures p.def == FlowDefinition(topic)
    {
      assert forall j :: 0 <= j < |st.pipelines| ==> st.pipelines[j] in st.pipelines;
      var j :| 0 <= j < |st'.pipelines| && st'.pipelines[j] == p;
      assert j >= |st.pipelines|;
    }
  }

  /** A scan in plain terms: a topic of one of the three families whose requests both get their replies
      is known afterwards; and if it was not before, in a scan from a tidy start in which no creation
      loses its reply, it has its Kafka table and exactly one pipeline, which streams that table into
      its family's sink. */
  lemma ScanServes(known: set<string>, st: ServerState, topics: seq<string>, fates: seq<FlowFates>, i: nat, sink: string)
    requires |fates| == |topics| && i < |topics| && SinkOf(topics[i], sink)
    requires fates[i] == FlowFates(Delivered, Delivered)
    ensures var (known', st') := Scan(known, st, topics, fates);
            && topics[i] in known'
            && (topics[i] !in known && Tidy(known, st) && (forall f :: f in fates ==> f.pipeline != ReplyLost) ==>
                  && "kafka_" + topics[i] in st'.tables
                  && CountNamed(st'.pipelines, topics[i]) == 1
                  && (forall p :: p in st'.pipelines && p.def.name == topics[i] ==> p.def == Streaming(topics[i], sink)))
  {
    var t := topics[i];
    ManagedExactly(t);
    SinkText(t);
    FlowText(t);
    ScanReaches(known, st, topics, fates, i);
    if t !in known && Tidy(known, st) && (forall f :: f in fates ==> f.pipeline != ReplyLost) {
      ScanCreatesOnce(known, st, topics, fates, t);
      ScanGrows(known, st, topics, fates);
      NewIsFlow(st, Scan(known, st, topics, fates).1, t);
    }
  }

  /** A topic of no family, an internal one included, is never asked anything for. */
  lemma OthersIgnored(known: set<string>, st: ServerState, topic: string, f: FlowFates)
    requires !("temperatures_" <= topic) && !("humidities_" <= topic) && !("ph_levels_" <= topic)
    ensures Scan(known, st, [topic], [f]) == (known, st)
  {
    ManagedExactly(topic);
    assert [topic][..0] == [] && [f][..0] == [];
  }
}
