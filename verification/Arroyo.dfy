/** The Arroyo server as the service sees it through its REST interface, and the
    client's non-atomic pipeline restart. */
module Arroyo {
  import opened Common

  const CHECKPOINT_MICROS := 60000000

  datatype JobState = Running | Stopped | Scheduling | Failed | Other(text: string)

  datatype Definition = Definition(name: string, query: string, parallelism: Option<int>, checkpointMicros: int)

  datatype Pipeline = Pipeline(id: nat, def: Definition, jobs: seq<JobState>)

  /** `rejects` tells whether the server refuses a second pipeline of the same name. */
  datatype ServerState = ServerState(pipelines: seq<Pipeline>, tables: set<string>, nextId: nat, rejects: bool)

  datatype Answer = Accepted | AlreadyExists | Refused

  predicate HasName(ps: seq<Pipeline>, name: string) {
    exists p | p in ps :: p.def.name == name
  }

  /** Position of the pipeline with this id, or |ps|. */
  function IndexOf(ps: seq<Pipeline>, id: nat): (i: nat)
    ensures i <= |ps|
    ensures i < |ps| ==> ps[i].id == id
    ensures forall j :: 0 <= j < i ==> ps[j].id != id
  {
    if ps == [] || ps[0].id == id then 0 else 1 + IndexOf(ps[1..], id)
  }

  /** Ids come from a counter and are never handed out twice; a rejecting server holds each name once. */
  ghost predicate Valid(st: ServerState) {
    && (forall i, j :: 0 <= i < j < |st.pipelines| ==> st.pipelines[i].id != st.pipelines[j].id)
    && (forall i :: 0 <= i < |st.pipelines| ==> st.pipelines[i].id < st.nextId)
    && (st.rejects ==> forall i, j :: 0 <= i < j < |st.pipelines| ==>
                                        st.pipelines[i].def.name != st.pipelines[j].def.name)
  }

  lemma IndexOfUnique(st: ServerState, i: nat)
    requires Valid(st) && i < |st.pipelines|
    ensures IndexOf(st.pipelines, st.pipelines[i].id) == i
  {
    var j := IndexOf(st.pipelines, st.pipelines[i].id);
    assert j <= i;
    if j < i {
      assert false;
    }
  }

  /** Removing a pipeline keeps the server valid and, on a rejecting server, frees its name. */
  lemma DeleteFrees(st: ServerState, i: nat)
    requires Valid(st) && i < |st.pipelines|
    ensures Valid(st.(pipelines := Without(st.pipelines, i)))
    ensures st.rejects ==> !HasName(Without(st.pipelines, i), st.pipelines[i].def.name)
  {
    var rest := Without(st.pipelines, i);
    assert forall k :: 0 <= k < |rest| ==> rest[k] == st.pipelines[if k < i then k else k + 1];
  }

  // ---- the effect and the reply of each request ----

  function Told(a: Answer, fate: Fate): Answer {
    if fate.Delivered? then a else Refused
  }

  function CreateTable(st: ServerState, name: string, fate: Fate): (ServerState, Answer) {
    if fate.Dropped? then (st, Refused)
    else if st.rejects && name in st.tables then (st, Told(AlreadyExists, fate))
    else (st.(tables := st.tables + {name}), Told(Accepted, fate))
  }

  function Create(st: ServerState, def: Definition, fate: Fate): (ServerState, Answer) {
    if fate.Dropped? then (st, Refused)
    else if st.rejects && HasName(st.pipelines, def.name) then (st, Told(AlreadyExists, fate))
    else (st.(pipelines := st.pipelines + [Pipeline(st.nextId, def, [])], nextId := st.nextId + 1),
          Told(Accepted, fate))
  }

  lemma CreateValid(st: ServerState, def: Definition, fate: Fate)
    requires Valid(st)
    ensures Valid(Create(st, def, fate).0)
  {
    var st' := Create(st, def, fate).0;
    if st' != st && st.rejects {
      assert forall p :: p in st.pipelines ==> p.def.name != def.name;
    }
  }

  function Fetch(st: ServerState, id: nat, fate: Fate): Option<Definition> {
    var i := IndexOf(st.pipelines, id);
    if fate.Delivered? && i < |st.pipelines| then Some(st.pipelines[i].def) else None
  }

  function Delete(st: ServerState, id: nat, fate: Fate): (ServerState, bool) {
    var i := IndexOf(st.pipelines, id);
    if fate.Dropped? || i == |st.pipelines| then (st, false)
    else (st.(pipelines := Without(st.pipelines, i)), fate.Delivered?)
  }

  /** The server object the clients share. */
  class Server {
    var pipelines: seq<Pipeline>
    var tables: set<string>
    var nextId: nat
    const rejects: bool

    constructor (rejects: bool)
      ensures State() == ServerState([], {}, 0, rejects)
    {
      this.rejects := rejects;
      pipelines, tables, nextId := [], {}, 0;
    }

    function State(): ServerState
      reads this
    {
      ServerState(pipelines, tables, nextId, rejects)
    }

    method PostTable(name: string, fate: Fate) returns (a: Answer)
      modifies this
      ensures (State(), a) == CreateTable(old(State()), name, fate)
    {
      a := Refused;
      if fate != Dropped {
        var duplicate := rejects && name in tables;
        tables := tables + {name};
        if fate == Delivered {
          a := if duplicate then AlreadyExists else Accepted;
        }
        assert duplicate ==> tables == old(tables);
      }
    }

    method PostPipeline(def: Definition, fate: Fate) returns (a: Answer)
      modifies this
      ensures (State(), a) == Create(old(State()), def, fate)
    {
      a := Refused;
      if fate != Dropped {
        if rejects && HasName(pipelines, def.name) {
          a := AlreadyExists;
        } else {
          pipelines, nextId := pipelines + [Pipeline(nextId, def, [])], nextId + 1;
          a := Accepted;
        }
        if fate == ReplyLost {
          a := Refused;
        }
      }
    }

    method DeletePipeline(id: nat, fate: Fate) returns (ok: bool)
      modifies this
      ensures (State(), ok) == Delete(old(State()), id, fate)
    {
      var i := IndexOf(pipelines, id);
      ok := false;
      if fate != Dropped && i < |pipelines| {
        pipelines := pipelines[..i] + pipelines[i + 1..];
        ok := fate == Delivered;
      }
    }
  }

  // ---- restarting one pipeline ----

  datatype RestartFates = RestartFates(fetch: Fate, delete: Fate, create: Fate)

  datatype RestartExit = Restarted | FetchFailed | DeleteFailed | RecreateFailed

  /** The payload a restart posts: same name and query, parallelism defaulted, checkpointing fixed. */
  function Normal(def: Definition): Definition {
    Definition(def.name, def.query,
               Some(if def.parallelism.Some? then def.parallelism.value else 1),
               CHECKPOINT_MICROS)
  }

  function Restart(st: ServerState, id: nat, f: RestartFates): (ServerState, RestartExit) {
    var fetched := Fetch(st, id, f.fetch);
    if fetched.None? then (st, FetchFailed)
    else
      var (deleted, ok) := Delete(st, id, f.delete);
      if !ok then (deleted, DeleteFailed)
      else
        var (recreated, a) := Create(deleted, Normal(fetched.value), f.create);
        (recreated, if a == Accepted then Restarted else RecreateFailed)
  }

  class ArroyoClient {
    const server: Server

    constructor (server: Server)
      ensures this.server == server
    {
      this.server := server;
    }

    method RestartPipeline(id: nat, f: RestartFates) returns (exit: RestartExit)
      modifies server
      ensures (server.State(), exit) == Restart(old(server.State()), id, f)
    {
      var existing := Fetch(server.State(), id, f.fetch);
      if existing == None {
        return FetchFailed;
      }
      var deleted := server.DeletePipeline(id, f.delete);
      if !deleted {
        return DeleteFailed;
      }
      var parallelism := 1;
      if existing.value.parallelism.Some? {
        parallelism := existing.value.parallelism.value;
      }
      var payload := Definition(existing.value.name, existing.value.query, Some(parallelism), CHECKPOINT_MICROS);
      var answer := server.PostPipeline(payload, f.create);
      if answer != Accepted {
        return RecreateFailed;
      }
      return Restarted;
    }
  }

  /** What each exit of a restart leaves behind, when nothing else touches the server meanwhile:
      either nothing changed, or exactly the one pipeline went away, or it was replaced by its
      normal form under a fresh id.  In particular its own deletion frees the name, so an
      uninterrupted recreate is never turned down as a duplicate. */
  lemma RestartOutcomes(st: ServerState, i: nat, f: RestartFates)
    requires Valid(st) && i < |st.pipelines|
    ensures var was := st.pipelines[i];
            var (st', exit) := Restart(st, was.id, f);
            && Valid(st')
            && st'.tables == st.tables && st'.rejects == st.rejects
            && (exit == FetchFailed <==> f.fetch != Delivered)
            && (exit == DeleteFailed <==> f.fetch == Delivered && f.delete != Delivered)
            && (exit == RecreateFailed <==> f.fetch == f.delete == Delivered && f.create != Delivered)
            && (exit == Restarted <==> f == RestartFates(Delivered, Delivered, Delivered))
            && (if f.fetch != Delivered || f.delete == Dropped then
                  st' == st
                else if f.delete == ReplyLost || f.create == Dropped then
                  st'.pipelines == Without(st.pipelines, i) && st'.nextId == st.nextId
                else
                  && st'.pipelines == Without(st.pipelines, i) + [Pipeline(st.nextId, Normal(was.def), [])]
                  && st'.nextId == st.nextId + 1)
  {
    IndexOfUnique(st, i);
    if f.fetch == Delivered && f.delete != Dropped {
      DeleteFrees(st, i);
      var rest := st.(pipelines := Without(st.pipelines, i));
      CreateValid(rest, Normal(st.pipelines[i].def), f.create);
    }
  }

  /** A pipeline that is gone cannot be fetched, and nothing more is done. */
  lemma RestartGone(st: ServerState, id: nat, f: RestartFates)
    requires forall i :: 0 <= i < |st.pipelines| ==> st.pipelines[i].id != id
    ensures Restart(st, id, f) == (st, FetchFailed)
  {
  }

  function Renormalised(def: Definition, k: nat): Definition {
    if k == 0 then def else Normal(Renormalised(def, k - 1))
  }

  /** However many restarts succeed, the definition is the one the first produced. */
  lemma {:induction false} RestartIdempotent(def: Definition, k: nat)
    requires k >= 1
    ensures Renormalised(def, k) == Normal(def)
    ensures Renormalised(def, k).name == def.name && Renormalised(def, k).query == def.query
    ensures Renormalised(def, k).parallelism ==
            if def.parallelism == None then Some(1) else def.parallelism
    ensures Renormalised(def, k).checkpointMicros == 60000000
  {
    if k == 1 {
      assert Renormalised(def, 0) == def;
    } else {
      RestartIdempotent(def, k - 1);
    }
  }

  const ALL_DELIVERED := RestartFates(Delivered, Delivered, Delivered)

  /** Restart a pipeline, then its replacement, and so on, k times: the server, and whether every
      restart reported success. */
  function RestartTimes(st: ServerState, id: nat, k: nat): (ServerState, bool)
    decreases k
  {
    if k == 0 then (st, true)
    else
      var (once, exit) := Restart(st, id, ALL_DELIVERED);
      var (later, ok) := RestartTimes(once, st.nextId, k - 1);
      (later, exit == Restarted && ok)
  }

  /** However often a pipeline is restarted, the server ends with what the first restart made of it,
      under the last of k fresh ids, and everything else as it was. */
  lemma {:induction false} RestartTimesIsOnce(st: ServerState, i: nat, k: nat)
    requires Valid(st) && i < |st.pipelines| && k >= 1
    ensures var p := st.pipelines[i];
            var (later, ok) := RestartTimes(st, p.id, k);
            && ok
            && later == st.(pipelines := Without(st.pipelines, i) + [Pipeline(st.nextId + k - 1, Normal(p.def), [])],
                            nextId := st.nextId + k)
    decreases k
  {
    var p, rest := st.pipelines[i], Without(st.pipelines, i);
    RestartOutcomes(st, i, ALL_DELIVERED);
    var once := Restart(st, p.id, ALL_DELIVERED).0;
    assert once.pipelines == rest + [Pipeline(st.nextId, Normal(p.def), [])];
    if k > 1 {
      RestartTimesIsOnce(once, |rest|, k - 1);
      assert once.pipelines[|rest|] == Pipeline(st.nextId, Normal(p.def), []);
      assert Without(once.pipelines, |rest|) == rest;
    } else {
      assert RestartTimes(once, st.nextId, 0) == (once, true);
    }
  }
}
