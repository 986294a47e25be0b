/** One monitoring pass: find the pipelines with a stopped or failed job and restart each. */
module Supervisor {
  import opened Common
  import opened Arroyo

  predicate HasFailed(jobs: seq<JobState>) {
    exists j | j in jobs :: j == Stopped || j == Failed
  }

  /** A stopped job counts as well as a failed one, and no other state does. */
  lemma FailedExactly(jobs: seq<JobState>)
    ensures HasFailed(jobs) <==> Stopped in jobs || Failed in jobs
  {
  }

  /** How the requests concerning one pipeline of the snapshot turn out. */
  datatype Turn = Turn(jobs: Fate, restart: RestartFates)

  function Ids(ps: seq<Pipeline>): (ids: seq<nat>)
    ensures |ids| == |ps|
    ensures forall i :: 0 <= i < |ps| ==> ids[i] == ps[i].id
  {
    seq(|ps|, i requires 0 <= i < |ps| => ps[i].id)
  }

  /** Reading the jobs of a pipeline: none when it is gone. */
  function JobsOf(st: ServerState, id: nat): seq<JobState> {
    var i := IndexOf(st.pipelines, id);
    if i < |st.pipelines| then st.pipelines[i].jobs else []
  }

  predicate Selected(st: ServerState, id: nat, turn: Turn) {
    turn.jobs == Delivered && HasFailed(JobsOf(st, id))
  }

  /** A pass over a snapshot of ids: the final server and the ids a restart was attempted on. */
  function Pass(st: ServerState, ids: seq<nat>, turns: seq<Turn>): (ServerState, seq<nat>)
    requires |ids| == |turns|
  {
    if ids == [] then (st, [])
    else
      var n := |ids| - 1;
      var (st', tried) := Pass(st, ids[..n], turns[..n]);
      if Selected(st', ids[n], turns[n]) then
        (Restart(st', ids[n], turns[n].restart).0, tried + [ids[n]])
      else (st', tried)
  }

  class Supervisor {
    const ac: ArroyoClient

    constructor (ac: ArroyoClient)
      ensures this.ac == ac
    {
      this.ac := ac;
    }

    /** The failed-job scan over one pipeline, leaving at the first hit. */
    method DetectFailed(jobs: seq<JobState>) returns (hasFailed: bool)
      ensures hasFailed <==> Stopped in jobs || Failed in jobs
      ensures hasFailed <==> HasFailed(jobs)
    {
      FailedExactly(jobs);
      hasFailed := false;
      for i := 0 to |jobs|
        invariant !hasFailed && !HasFailed(jobs[..i])
      {
        if jobs[i] == Stopped || jobs[i] == Failed {
          assert jobs[i] in jobs;
          return true;
        }
        assert jobs[..i + 1] == jobs[..i] + [jobs[i]];
      }
      assert jobs[..|jobs|] == jobs;
    }

    method CheckAndRestartPipelines(list: Fate, turns: seq<Turn>) returns (ok: bool, ghost tried: seq<nat>)
      requires |turns| == |ac.server.pipelines|
      modifies ac.server
      ensures ok <==> list == Delivered
      ensures !ok ==> ac.server.State() == old(ac.server.State()) && tried == []
      ensures ok ==> (ac.server.State(), tried)
                     == Pass(old(ac.server.State()), Ids(old(ac.server.pipelines)), turns)
    {
      tried := [];
      if list != Delivered {
        return false, [];
      }
      var data := Ids(ac.server.pipelines);
      for i := 0 to |data|
        invariant (ac.server.State(), tried) == Pass(old(ac.server.State()), data[..i], turns[..i])
      {
        assert data[..i + 1][..i] == data[..i] && turns[..i + 1][..i] == turns[..i];
        if turns[i].jobs != Delivered {
          continue;
        }
        var hasFailed := DetectFailed(JobsOf(ac.server.State(), data[i]));
        if hasFailed {
          var _ := ac.RestartPipeline(data[i], turns[i].restart);
          tried := tried + [data[i]];
        }
      }
      assert data[..|data|] == data && turns[..|data|] == turns;
      ok := true;
    }
  }

  // ---- what a pass does, in closed form ----

  predicate Tried(p: Pipeline, turn: Turn) {
    turn.jobs == Delivered && HasFailed(p.jobs)
  }

  predicate Removed(p: Pipeline, turn: Turn) {
    Tried(p, turn) && turn.restart.fetch == Delivered && turn.restart.delete != Dropped
  }

  predicate Replaced(p: Pipeline, turn: Turn) {
    Removed(p, turn) && turn.restart.delete == Delivered && turn.restart.create != Dropped
  }

  /** The pipelines no delete took effect on, in snapshot order. */
  function Kept(ps: seq<Pipeline>, turns: seq<Turn>): seq<Pipeline>
    requires |ps| == |turns|
  {
    if ps == [] then []
    else
      var n := |ps| - 1;
      Kept(ps[..n], turns[..n]) + if Removed(ps[n], turns[n]) then [] else [ps[n]]
  }

  /** The replacements, in snapshot order, under consecutive fresh ids. */
  function Fresh(ps: seq<Pipeline>, turns: seq<Turn>, nextId: nat): seq<Pipeline>
    requires |ps| == |turns|
  {
    if ps == [] then []
    else
      var n := |ps| - 1;
      var before := Fresh(ps[..n], turns[..n], nextId);
      before + if Replaced(ps[n], turns[n]) then [Pipeline(nextId + |before|, Normal(ps[n].def), [])] else []
  }

  function TriedIds(ps: seq<Pipeline>, turns: seq<Turn>): seq<nat>
    requires |ps| == |turns|
  {
    if ps == [] then []
    else
      var n := |ps| - 1;
      TriedIds(ps[..n], turns[..n]) + if Tried(ps[n], turns[n]) then [ps[n].id] else []
  }

  lemma {:induction false} KeptIsOld(ps: seq<Pipeline>, turns: seq<Turn>, q: Pipeline)
    requires |ps| == |turns|
    ensures q in Kept(ps, turns) ==> q in ps
  {
    if ps != [] {
      KeptIsOld(ps[..|ps| - 1], turns[..|ps| - 1], q);
    }
  }

  lemma {:induction false} FreshIsNew(ps: seq<Pipeline>, turns: seq<Turn>, nextId: nat)
    requires |ps| == |turns|
    ensures forall k :: 0 <= k < |Fresh(ps, turns, nextId)| ==> Fresh(ps, turns, nextId)[k].id == nextId + k
  {
    if ps != [] {
      FreshIsNew(ps[..|ps| - 1], turns[..|ps| - 1], nextId);
    }
  }

  /** The server in the middle of a pass that has dealt with the first `i` pipelines. */
  ghost function Midway(st: ServerState, turns: seq<Turn>, i: nat): ServerState
    requires |turns| == |st.pipelines| && i <= |turns|
  {
    var ps := st.pipelines;
    var added := Fresh(ps[..i], turns[..i], st.nextId);
    st.(pipelines := Kept(ps[..i], turns[..i]) + ps[i..] + added, nextId := st.nextId + |added|)
  }

  /** The next pipeline of the snapshot is found where it was listed, its jobs unchanged. */
  lemma MidwayFinds(st: ServerState, turns: seq<Turn>, i: nat)
    requires Valid(st) && |turns| == |st.pipelines| && i < |turns|
    ensures var m := Midway(st, turns, i).pipelines;
            var k := |Kept(st.pipelines[..i], turns[..i])|;
            IndexOf(m, st.pipelines[i].id) == k && m[k] == st.pipelines[i]
  {
    var ps := st.pipelines;
    var kept := Kept(ps[..i], turns[..i]);
    var m := Midway(st, turns, i).pipelines;
    assert m[|kept|] == ps[i];
    forall j | 0 <= j < |kept|
      ensures m[j].id != ps[i].id
    {
      assert m[j] == kept[j];
      KeptIsOld(ps[..i], turns[..i], kept[j]);
    }
  }

  lemma OneMore(st: ServerState, turns: seq<Turn>, n: nat)
    requires |turns| == |st.pipelines| && n < |turns|
    ensures var ps, p := st.pipelines, st.pipelines[n];
            var added := Fresh(ps[..n], turns[..n], st.nextId);
            && Kept(ps[..n + 1], turns[..n + 1]) == Kept(ps[..n], turns[..n]) + (if Removed(p, turns[n]) then [] else [p])
            && Fresh(ps[..n + 1], turns[..n + 1], st.nextId)
               == added + (if Replaced(p, turns[n]) then [Pipeline(st.nextId + |added|, Normal(p.def), [])] else [])
  {
    var ps := st.pipelines;
    assert ps[..n + 1][..n] == ps[..n] && turns[..n + 1][..n] == turns[..n];
    assert ps[..n + 1][n] == ps[n] && turns[..n + 1][n] == turns[n];
  }

  function Replacement(st: ServerState, turns: seq<Turn>, n: nat): seq<Pipeline>
    requires |turns| == |st.pipelines| && n < |turns|
  {
    if Replaced(st.pipelines[n], turns[n]) then
      [Pipeline(st.nextId + |Fresh(st.pipelines[..n], turns[..n], st.nextId)|, Normal(st.pipelines[n].def), [])]
    else []
  }

  lemma MidwayNow(st: ServerState, turns: seq<Turn>, n: nat)
    requires |turns| == |st.pipelines| && n < |turns|
    ensures var ps, m := st.pipelines, Midway(st, turns, n);
            var added := Fresh(ps[..n], turns[..n], st.nextId);
            && m.pipelines == Kept(ps[..n], turns[..n]) + ([ps[n]] + ps[n + 1..]) + added
            && m == st.(pipelines := m.pipelines, nextId := st.nextId + |added|)
  {
    assert st.pipelines[n..] == [st.pipelines[n]] + st.pipelines[n + 1..];
  }

  lemma MidwayNext(st: ServerState, turns: seq<Turn>, n: nat)
    requires |turns| == |st.pipelines| && n < |turns|
    ensures var ps, m' := st.pipelines, Midway(st, turns, n + 1);
            var added := Fresh(ps[..n], turns[..n], st.nextId);
            && m'.pipelines == (Kept(ps[..n], turns[..n]) + (if Removed(ps[n], turns[n]) then [] else [ps[n]]))
                               + ps[n + 1..] + (added + Replacement(st, turns, n))
            && m' == st.(pipelines := m'.pipelines, nextId := st.nextId + |added| + |Replacement(st, turns, n)|)
  {
    OneMore(st, turns, n);
  }

  /** How the middle of the pass changes with one more turn, apart from any restart. */
  lemma MidwayShape(st: ServerState, turns: seq<Turn>, n: nat)
    requires |turns| == |st.pipelines| && n < |turns|
    ensures var m, m', p := Midway(st, turns, n), Midway(st, turns, n + 1), st.pipelines[n];
            var k := |Kept(st.pipelines[..n], turns[..n])|;
            && k < |m.pipelines| && m.pipelines[k] == p
            && m'.pipelines == (if Removed(p, turns[n]) then Without(m.pipelines, k) else m.pipelines)
                               + (if Replaced(p, turns[n]) then [Pipeline(m.nextId, Normal(p.def), [])] else [])
            && m' == m.(pipelines := m'.pipelines, nextId := m.nextId + if Replaced(p, turns[n]) then 1 else 0)
  {
    var ps := st.pipelines;
    MidwayNow(st, turns, n);
    MidwayNext(st, turns, n);
    MovePast(Kept(ps[..n], turns[..n]), ps[n], ps[n + 1..], Fresh(ps[..n], turns[..n], st.nextId),
             Removed(ps[n], turns[n]), Replacement(st, turns, n));
  }

  lemma MovePast<T>(a: seq<T>, x: T, b: seq<T>, c: seq<T>, drop: bool, y: seq<T>)
    ensures (a + ([x] + b) + c)[|a|] == x
    ensures (a + (if drop then [] else [x])) + b + (c + y)
         == (if drop then Without(a + ([x] + b) + c, |a|) else a + ([x] + b) + c) + y
  {
    var s := a + ([x] + b) + c;
    if drop {
      assert Without(s, |a|) == a + b + c;
    }
  }

  /** A restart, as the removal and the replacement it amounts to. */
  lemma RestartShape(m: ServerState, k: nat, turn: Turn)
    requires Valid(m) && k < |m.pipelines| && Tried(m.pipelines[k], turn)
    ensures var p := m.pipelines[k];
            var m' := Restart(m, p.id, turn.restart).0;
            && Valid(m')
            && m'.pipelines == (if Removed(p, turn) then Without(m.pipelines, k) else m.pipelines)
                               + (if Replaced(p, turn) then [Pipeline(m.nextId, Normal(p.def), [])] else [])
            && m' == m.(pipelines := m'.pipelines, nextId := m.nextId + if Replaced(p, turn) then 1 else 0)
  {
    RestartOutcomes(m, k, turn.restart);
    assert m.pipelines + [] == m.pipelines;
    assert Without(m.pipelines, k) + [] == Without(m.pipelines, k);
  }

  /** One more turn takes the middle of the pass one pipeline further. */
  lemma MidwayStep(st: ServerState, turns: seq<Turn>, n: nat)
    requires Valid(st) && |turns| == |st.pipelines| && n < |turns|
    requires Valid(Midway(st, turns, n))
    ensures var m, p := Midway(st, turns, n), st.pipelines[n];
            && Valid(Midway(st, turns, n + 1))
            && (Selected(m, p.id, turns[n]) <==> Tried(p, turns[n]))
            && Midway(st, turns, n + 1)
               == if Tried(p, turns[n]) then Restart(m, p.id, turns[n].restart).0 else m
  {
    MidwayFinds(st, turns, n);
    MidwayShape(st, turns, n);
    var m, k := Midway(st, turns, n), |Kept(st.pipelines[..n], turns[..n])|;
    if Tried(st.pipelines[n], turns[n]) {
      RestartShape(m, k, turns[n]);
    } else {
      assert m.pipelines + [] == m.pipelines;
    }
  }

  lemma Unfold(st: ServerState, turns: seq<Turn>, n: nat)
    requires |turns| == |st.pipelines| && n < |turns|
    ensures var ps, ids := st.pipelines, Ids(st.pipelines);
            var (st', tried) := Pass(st, ids[..n], turns[..n]);
            && Pass(st, ids[..n + 1], turns[..n + 1])
               == (if Selected(st', ps[n].id, turns[n])
                   then (Restart(st', ps[n].id, turns[n].restart).0, tried + [ps[n].id])
                   else (st', tried))
            && TriedIds(ps[..n + 1], turns[..n + 1])
               == TriedIds(ps[..n], turns[..n]) + (if Tried(ps[n], turns[n]) then [ps[n].id] else [])
  {
    var ps, ids := st.pipelines, Ids(st.pipelines);
    assert ids[..n + 1][..n] == ids[..n] && turns[..n + 1][..n] == turns[..n] && ps[..n + 1][..n] == ps[..n];
  }

  /** The pass is where the closed form says after `i` turns. */
  ghost predicate Closed(st: ServerState, turns: seq<Turn>, i: nat)
    requires |turns| == |st.pipelines| && i <= |turns|
  {
    && Valid(Midway(st, turns, i))
    && Pass(st, Ids(st.pipelines)[..i], turns[..i]) == (Midway(st, turns, i), TriedIds(st.pipelines[..i], turns[..i]))
  }

  lemma ClosedStep(st: ServerState, turns: seq<Turn>, n: nat)
    requires Valid(st) && |turns| == |st.pipelines| && n < |turns| && Closed(st, turns, n)
    ensures Closed(st, turns, n + 1)
  {
    MidwayStep(st, turns, n);
    Unfold(st, turns, n);
    var tried := TriedIds(st.pipelines[..n], turns[..n]);
    assert tried + [] == tried;
  }

  lemma ClosedStart(st: ServerState, turns: seq<Turn>)
    requires Valid(st) && |turns| == |st.pipelines|
    ensures Closed(st, turns, 0)
  {
    assert [] + st.pipelines[0..] + [] == st.pipelines;
  }

  /** The pass, after `i` turns. */
  lemma {:induction false} PassClosedForm(st: ServerState, turns: seq<Turn>, i: nat)
    requires Valid(st) && |turns| == |st.pipelines| && i <= |turns|
    ensures Closed(st, turns, i)
    decreases i
  {
    if i == 0 {
      ClosedStart(st, turns);
    } else {
      PassClosedForm(st, turns, i - 1);
      ClosedStep(st, turns, i - 1);
    }
  }

  lemma TriedExactly(ps: seq<Pipeline>, turns: seq<Turn>, nextId: nat)
    requires |ps| == |turns|
    requires forall j, k :: 0 <= j < k < |ps| ==> ps[j].id != ps[k].id
    requires forall i :: 0 <= i < |ps| ==> ps[i].id < nextId
    ensures forall i :: 0 <= i < |ps| ==> (ps[i].id in TriedIds(ps, turns) <==> Tried(ps[i], turns[i]))
    ensures Distinct(TriedIds(ps, turns))
    ensures forall id :: id in TriedIds(ps, turns) ==> id < nextId
  {
    forall i | 0 <= i < |ps|
      ensures ps[i].id in TriedIds(ps, turns) <==> Tried(ps[i], turns[i])
    {
      TriedAt(ps, turns, i);
    }
    TriedOnce(ps, turns);
    forall k | 0 <= k < |TriedIds(ps, turns)|
      ensures TriedIds(ps, turns)[k] < nextId
    {
      var _ := TriedFrom(ps, turns, k);
    }
  }

  /** Exactly the snapshot pipelines whose jobs were read and include a stopped or failed one are
      tried, each once; those whose delete took effect are gone, those also recreated are
      appended in normal form under fresh ids; every other pipeline stays as and where it was. */
  lemma WholePass(st: ServerState, turns: seq<Turn>)
    requires Valid(st) && |turns| == |st.pipelines|
    ensures var (st', tried) := Pass(st, Ids(st.pipelines), turns);
            && Valid(st')
            && st'.pipelines == Kept(st.pipelines, turns) + Fresh(st.pipelines, turns, st.nextId)
            && st'.tables == st.tables
            && (forall i :: 0 <= i < |turns| ==>
                  (st.pipelines[i].id in tried <==> Tried(st.pipelines[i], turns[i])))
            && Distinct(tried)
            && (forall id :: id in tried ==> id < st.nextId)
  {
    var ps, n := st.pipelines, |turns|;
    PassClosedForm(st, turns, n);
    assert ps[..n] == ps && turns[..n] == turns && Ids(ps)[..n] == Ids(ps);
    assert ps[n..] == [] && Kept(ps, turns) + [] == Kept(ps, turns);
    TriedExactly(ps, turns, st.nextId);
  }

  lemma {:induction false} TriedFrom(ps: seq<Pipeline>, turns: seq<Turn>, k: nat) returns (i: nat)
    requires |ps| == |turns| && k < |TriedIds(ps, turns)|
    ensures i < |ps| && ps[i].id == TriedIds(ps, turns)[k] && Tried(ps[i], turns[i])
  {
    var n := |ps| - 1;
    if k < |TriedIds(ps[..n], turns[..n])| {
      i := TriedFrom(ps[..n], turns[..n], k);
    } else {
      i := n;
    }
  }

  lemma {:induction false} TriedAt(ps: seq<Pipeline>, turns: seq<Turn>, i: nat)
    requires |ps| == |turns| && i < |ps|
    requires forall j, k :: 0 <= j < k < |ps| ==> ps[j].id != ps[k].id
    ensures ps[i].id in TriedIds(ps, turns) <==> Tried(ps[i], turns[i])
  {
    var n := |ps| - 1;
    if i < n {
      TriedAt(ps[..n], turns[..n], i);
    } else if ps[n].id in TriedIds(ps[..n], turns[..n]) {
      var k :| 0 <= k < |TriedIds(ps[..n], turns[..n])| && TriedIds(ps[..n], turns[..n])[k] == ps[n].id;
      var j := TriedFrom(ps[..n], turns[..n], k);
      assert false;
    }
  }

  ghost predicate Distinct<T>(s: seq<T>) {
    forall j, k :: 0 <= j < k < |s| ==> s[j] != s[k]
  }

  lemma {:induction false} TriedOnce(ps: seq<Pipeline>, turns: seq<Turn>)
    requires |ps| == |turns|
    requires forall j, k :: 0 <= j < k < |ps| ==> ps[j].id != ps[k].id
    ensures Distinct(TriedIds(ps, turns))
  {
    if ps != [] {
      var n := |ps| - 1;
      TriedOnce(ps[..n], turns[..n]);
      forall k | 0 <= k < |TriedIds(ps[..n], turns[..n])|
        ensures TriedIds(ps[..n], turns[..n])[k] != ps[n].id
      {
        var i := TriedFrom(ps[..n], turns[..n], k);
        assert ps[i].id != ps[n].id;
      }
      assert TriedIds(ps[..n], turns[..n]) + [] == TriedIds(ps[..n], turns[..n]);
    }
  }

  /** A pass in plain terms: a restart is attempted on a pipeline of the snapshot if and only if its jobs
      could be read and one of them is Stopped or Failed. */
  lemma AttemptedExactly(st: ServerState, turns: seq<Turn>, i: nat)
    requires Valid(st) && |turns| == |st.pipelines| && i < |turns|
    ensures st.pipelines[i].id in Pass(st, Ids(st.pipelines), turns).1
            <==> && turns[i].jobs == Delivered
                 && (Stopped in st.pipelines[i].jobs || Failed in st.pipelines[i].jobs)
  {
    WholePass(st, turns);
    FailedExactly(st.pipelines[i].jobs);
  }
}
