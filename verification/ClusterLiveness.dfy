/** What can still happen: the environment is free to act, and client loops can finish. */
module ClusterLiveness {
  import opened Collections
  import opened FairLock
  import L = FairLockRuns
  import LT = FairLockTheorems
  import Overlay
  import opened Records
  import opened ScatterGather
  import opened Paging
  import opened LeaderNode
  import opened Cluster
  import opened ClusterSafety
  import opened ClusterTheorems
  import opened ClusterProgress

  // ------------------------------------------------------ runs put together

  lemma OneEvent(c: System, e: Event)
    requires Enabled(c, e)
    ensures Exec(c, [e], Do(c, e))
  {
    assert Exec(Do(c, e), [], Do(c, e));
  }

  lemma {:induction false} ExecConcat(c: System, es: seq<Event>, d: System, fs: seq<Event>, c': System)
    requires Exec(c, es, d) && Exec(d, fs, c')
    ensures Exec(c, es + fs, c')
    decreases es
  {
    if es == [] {
      assert es + fs == fs;
    } else {
      assert (es + fs)[1..] == es[1..] + fs;
      ExecConcat(Do(c, es[0]), es[1..], d, fs, c');
    }
  }

  // A run of loops that start at zero or later, over nodes that keep their shards.
  predicate Steady(es: seq<Event>, shards: Net) {
    Proper(es) && FixedShards(es, shards)
  }

  lemma SteadyConcat(es: seq<Event>, fs: seq<Event>, shards: Net)
    requires Steady(es, shards) && Steady(fs, shards)
    ensures Steady(es + fs, shards)
  {}

  // ------------------------------------------------- the environment is free

  /** Anybody may start a session under a request id that is not in use, at any offset. */
  lemma AnybodyJoins(c: System, s: Sid, cli: Client, req: ReqId, requested: int, start: int)
    requires s !in c.sessions && forall u :: u in c.sessions ==> c.sessions[u].req != req
    ensures Exec(c, [Join(s, cli, req, requested, start)],
                 c.(sessions := c.sessions[s := NewSession(cli, req, requested, start)]))
  {
    OneEvent(c, Join(s, cli, req, requested, start));
  }

  /** A loop that has no call under way may call at any time, and any client may die. */
  lemma ClientsActFreely(c: System, s: Sid)
    requires s in c.sessions && c.sessions[s].progress.Ongoing?
    ensures s !in c.q.threads ==> Exec(c, [Send(s)], c.(q := L.Do(c.q, L.Arrive(s, c.sessions[s].cli))))
    ensures Exec(c, [Die(s)], c.(sessions := c.sessions[s := c.sessions[s].(progress := Dead)]))
  {
    OneEvent(c, Die(s));
    if s !in c.q.threads { OneEvent(c, Send(s)); }
  }

  /** A reply that is an error ends the loop with what it has. */
  lemma ErrorEndsLoop(c: System, s: Sid)
    requires s in c.sessions && c.sessions[s].progress.Ongoing? && c.q.Notifies(s)
    requires c.sessions[s].work.Leaving? && !c.sessions[s].work.status.Answer?
    ensures Exec(c, [Return(s)], Do(c, Return(s)))
    ensures s !in Do(c, Return(s)).q.threads
    ensures Do(c, Return(s)).sessions == c.sessions[s := c.sessions[s].(progress := Aborted, work := Fresh)]
  {
    OneEvent(c, Return(s));
  }

  /** Any node may go down, or come back with any data, at any time. */
  lemma NodesActFreely(c: System, v: Overlay.Id, shard: bytes)
    ensures v in c.net ==> Exec(c, [Crash(v)], c.(net := c.net - {v}))
    ensures v !in c.net ==> Exec(c, [Recover(v, shard)], c.(net := c.net[v := shard]))
  {
    if v in c.net { OneEvent(c, Crash(v)); } else { OneEvent(c, Recover(v, shard)); }
  }

  /** Any time may pass, the reaper may read its clock, and a sleeping waiter may wake for no reason. */
  lemma TimeAndReaperActFreely(c: System, ns: nat, s: Sid)
    ensures Exec(c, [Tick(ns)], c.(clock := c.clock + ns))
    ensures c.sweep.None? ==> Exec(c, [ReadClock], c.(sweep := Some(c.clock)))
    ensures s in c.sessions && s in c.q.threads && c.q.threads[s].Asleep? ==>
              Exec(c, [Wake(s)], c.(q := c.q.(threads := c.q.threads[s := L.Woken(c.q.threads[s])])))
  {
    OneEvent(c, Tick(ns));
    if c.sweep.None? { OneEvent(c, ReadClock); }
    if s in c.sessions && s in c.q.threads && c.q.threads[s].Asleep? { OneEvent(c, Wake(s)); }
  }

  // ----------------------------------------------------- sweeps over runs

  predicate NoSweep(es: seq<Event>) {
    forall i :: 0 <= i < |es| ==> es[i] != Sweep
  }

  lemma {:induction false} ReadingKept(c: System, es: seq<Event>, c': System)
    requires Exec(c, es, c') && c.sweep.Some? && NoSweep(es)
    ensures c'.sweep == c.sweep && c.clock <= c'.clock
    decreases es
  {
    if es == [] {
    } else {
      assert es[0] != Sweep && NoSweep(es[1..]);
      ReadingKept(Do(c, es[0]), es[1..], c');
    }
  }

  /** However much happens between reading the clock and sweeping: the sweep is possible, it removes
      exactly the entries that were idle for 31 seconds at the reading, and the others stay as they are. */
  lemma SweepOverRuns(c0: System, es: seq<Event>, c: System, r: ReqId)
    requires c0.sweep.None? && Exec(c0.(sweep := Some(c0.clock)), es, c) && NoSweep(es) && r in c.cache
    ensures Enabled(c, Sweep)
    ensures r in Do(c, Sweep).cache <==> c0.clock - c.cache[r].touched < 31_000_000_000
    ensures r in Do(c, Sweep).cache ==> Do(c, Sweep).cache[r] == c.cache[r]
  {
    ReadingKept(c0.(sweep := Some(c0.clock)), es, c);
    SweepIsSafe(c.cache, c0.clock, c.clock, r);
  }

  // ------------------------------------------------ calls that are lost already

  ghost predicate FoundDown(kids: seq<Tree>, asked: map<Overlay.Id, Option<bytes>>) {
    exists t :: t in PreorderAll(kids) && t.id in asked && asked[t.id].None?
  }

  /** The call under way will be answered with an error. */
  ghost predicate Lost(c: System, s: Sid)
    requires s in c.sessions
  {
    match c.sessions[s].work
    case Asking(asked) => FoundDown(c.kids, asked)
    case Leaving(status) => !status.Answer?
    case _ => false
  }

  // The loop is over, or its call is lost.
  ghost predicate CannotFinish(c: System, s: Sid) {
    s in c.sessions &&
    (c.sessions[s].progress.Aborted? || c.sessions[s].progress.Dead? || (c.sessions[s].progress.Ongoing? && Lost(c, s)))
  }

  lemma FoundDownFails(kids: seq<Tree>, asked: map<Overlay.Id, Option<bytes>>)
    requires AllAsked(kids, asked)
    ensures Gather(Answers(asked), kids).Payload? <==> !FoundDown(kids, asked)
  {
    var nodes := PreorderAll(kids);
    GatherAllOrNothing(Answers(asked), kids);
    forall i | 0 <= i < |nodes| ensures nodes[i] in nodes && nodes[i].id in asked {}
    if AllUp(Answers(asked), nodes) {
      forall t | t in nodes ensures asked[t.id].Some? {
        var i :| 0 <= i < |nodes| && nodes[i] == t;
        assert nodes[i].id in Answers(asked);
      }
    } else {
      var i :| 0 <= i < |nodes| && nodes[i].id !in Answers(asked);
      assert nodes[i] in nodes && asked[nodes[i].id].None?;
    }
  }

  lemma StillFoundDown(kids: seq<Tree>, asked: map<Overlay.Id, Option<bytes>>, v: Overlay.Id, answer: Option<bytes>)
    requires FoundDown(kids, asked) && v !in asked
    ensures FoundDown(kids, asked[v := answer])
  {
    var t :| t in PreorderAll(kids) && t.id in asked && asked[t.id].None?;
    assert t.id in asked[v := answer] && asked[v := answer][t.id].None?;
  }

  lemma LostActs(c: System, s: Sid, a: Action)
    requires CannotFinish(c, s) && Enabled(c, Step(s, a))
    ensures CannotFinish(Do(c, Step(s, a)), s)
  {
    var next, entry := StepResult(c, s, a);
    if c.sessions[s].progress.Ongoing? && c.sessions[s].work.Asking? {
      if a.Ask? {
        StillFoundDown(c.kids, c.sessions[s].work.asked, a.id, if a.id in c.net then Some(c.net[a.id]) else None);
      } else {
        FoundDownFails(c.kids, c.sessions[s].work.asked);
      }
    }
  }

  lemma LostStays(c: System, e: Event, s: Sid)
    requires OwnRequests(c) && CannotFinish(c, s) && Enabled(c, e)
    ensures CannotFinish(Do(c, e), s)
  {
    if e.Sweep? {
      SweepView(c, s);
    } else if Actor(e) != Some(s) {
      OthersUntouched(c, e, s);
    } else if e.Step? {
      LostActs(c, s, e.a);
    } else if !e.Throw? {
      ActorView(c, e);
    }
  }

  lemma {:induction false} LostForever(c: System, es: seq<Event>, c': System, s: Sid)
    requires OwnRequests(c) && CannotFinish(c, s) && Exec(c, es, c')
    ensures CannotFinish(c', s)
    decreases es
  {
    if es == [] {
    } else {
      LostStays(c, es[0], s);
      RequestsStayOwn(c, es[0]);
      LostForever(Do(c, es[0]), es[1..], c', s);
    }
  }

  // ---------------------------------------------------- nodes can come back

  function Missing(kids: seq<Tree>, net: Net): set<Overlay.Id> {
    NodeIds(kids) - net.Keys
  }

  // Every node of the tree has a shard to come back with.
  ghost predicate ShardsFor(kids: seq<Tree>, shards: Net) {
    NodeIds(kids) <= shards.Keys
  }

  lemma NoneMissing(kids: seq<Tree>, net: Net)
    requires Missing(kids, net) == {}
    ensures AllUp(net, PreorderAll(kids))
  {
    var nodes := PreorderAll(kids);
    forall i | 0 <= i < |nodes| ensures nodes[i].id in net {
      assert Ids(nodes)[i] == nodes[i].id;
      assert nodes[i].id in NodeIds(kids) && nodes[i].id !in Missing(kids, net);
    }
  }

  lemma {:induction false} NodesComeBack(c: System, shards: Net) returns (es: seq<Event>, c': System)
    requires ShardsFor(c.kids, shards)
    ensures Exec(c, es, c') && Steady(es, shards) && AllUp(c'.net, PreorderAll(c'.kids))
    ensures c' == c.(net := c'.net)
    decreases Missing(c.kids, c.net)
  {
    es, c' := [], c;
    if v :| v in Missing(c.kids, c.net) {
      var e := Recover(v, shards[v]);
      var rest;
      rest, c' := NodesComeBack(Do(c, e), shards);
      es := [e] + rest;
      assert es[1..] == rest;
    } else {
      NoneMissing(c.kids, c.net);
    }
  }

  // ----------------------------------------------------- calls that succeed

  /** The loop is finished, or goes on with a call that will be answered, all nodes being up. */
  ghost predicate Alright(c: System, s: Sid) {
    && s in c.sessions && AllUp(c.net, PreorderAll(c.kids))
    && (c.sessions[s].progress.Finished? || (c.sessions[s].progress.Ongoing? && !Lost(c, s)))
  }

  lemma NothingFoundDown(kids: seq<Tree>, asked: map<Overlay.Id, Option<bytes>>, v: Overlay.Id, answer: Option<bytes>)
    requires !FoundDown(kids, asked) && answer.Some?
    ensures !FoundDown(kids, asked[v := answer])
  {
    forall t | t in PreorderAll(kids) && t.id in asked[v := answer] ensures asked[v := answer][t.id].Some? {
      assert t.id != v ==> t.id in asked;
    }
  }

  lemma AskedIsUp(c: System, v: Overlay.Id)
    requires AllUp(c.net, PreorderAll(c.kids)) && v in Ids(PreorderAll(c.kids))
    ensures v in c.net
  {
    var i :| 0 <= i < |Ids(PreorderAll(c.kids))| && Ids(PreorderAll(c.kids))[i] == v;
    assert PreorderAll(c.kids)[i].id == v;
  }

  lemma HandlerAlright(c: System, s: Sid, a: Action)
    requires Safe(c) && Alright(c, s) && Enabled(c, Step(s, a))
    ensures Alright(Do(c, Step(s, a)), s) && Do(c, Step(s, a)).sessions[s].calls == c.sessions[s].calls
  {
    TurnPhase(c, s);
    var next, entry := StepResult(c, s, a);
    if a.Ask? {
      AskedIsUp(c, a.id);
      NothingFoundDown(c.kids, c.sessions[s].work.asked, a.id, Some(c.net[a.id]));
    } else if a.EndGather? {
      FoundDownFails(c.kids, c.sessions[s].work.asked);
    }
  }

  lemma ReturnAlright(c: System, s: Sid)
    requires Safe(c) && Alright(c, s) && Enabled(c, Return(s))
    ensures Alright(Do(c, Return(s)), s) && Do(c, Return(s)).sessions[s].calls == c.sessions[s].calls + 1
  {
    NotifyPhase(c, s);
    ActorView(c, Return(s));
  }

  /** Work keeps the loop alright, and a return is an answered call. */
  lemma WorkAlright(c: System, e: Event, s: Sid)
    requires Safe(c) && Alright(c, s) && Works(c, e)
    ensures Alright(Do(c, e), s)
    ensures Do(c, e).sessions[s].calls == c.sessions[s].calls + if e == Return(s) then 1 else 0
  {
    if Actor(e) != Some(s) {
      OthersUntouched(c, e, s);
    } else if e.Step? {
      HandlerAlright(c, s, e.a);
    } else if e.Return? {
      ReturnAlright(c, s);
    } else {
      ActorView(c, e);
    }
  }

  lemma LeavesByReturn(c: System, e: Event, s: Sid)
    requires Works(c, e) && s in c.q.threads && s !in Do(c, e).q.threads
    ensures e == Return(s)
  {}

  lemma {:induction false} WorkServes(c: System, es: seq<Event>, c': System, s: Sid)
    requires Safe(c) && AllProper(c) && Alright(c, s) && WorkRun(c, es, c')
    ensures Alright(c', s) && c.sessions[s].calls <= c'.sessions[s].calls
    ensures s in c.q.threads && s !in c'.q.threads ==> c.sessions[s].calls < c'.sessions[s].calls
    decreases es
  {
    if es == [] {
    } else {
      var c1 := Do(c, es[0]);
      WorkAlright(c, es[0], s);
      StepSafe(c, es[0]);
      ProperStep(c, es[0]);
      WorkServes(c1, es[1..], c', s);
      if s in c.q.threads && s !in c1.q.threads { LeavesByReturn(c, es[0], s); }
    }
  }

  lemma {:induction false} WorkIsSteady(c: System, es: seq<Event>, c': System, shards: Net)
    requires WorkRun(c, es, c')
    ensures Exec(c, es, c') && Steady(es, shards)
    decreases es
  {
    if es == [] {
    } else {
      WorkIsSteady(Do(c, es[0]), es[1..], c', shards);
      assert es == [es[0]] + es[1..];
      SteadyConcat([es[0]], es[1..], shards);
    }
  }
}
