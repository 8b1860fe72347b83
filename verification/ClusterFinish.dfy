/** Client loops can finish, unless the call they have under way is lost. */
module ClusterFinish {
  import opened Collections
  import opened FairLock
  import LT = FairLockTheorems
  import opened Records
  import opened ScatterGather
  import opened Paging
  import opened LeaderNode
  import opened Cluster
  import opened ClusterSafety
  import opened ClusterTheorems
  import opened ClusterProgress
  import opened ClusterLiveness

  // A state of a steady run of the system over these shards.
  ghost predicate SteadyState(kids: seq<Tree>, net: Net, shards: Net, es: seq<Event>, c: System) {
    && Exec(Boot(kids, net), es, c) && FromShards(net, shards) && Steady(es, shards)
    && (forall v :: v in shards ==> |shards[v]| % RecordSize == 0)
    && ShardsFor(kids, shards)
  }

  lemma SteadyFacts(kids: seq<Tree>, net: Net, shards: Net, es: seq<Event>, c: System)
    requires SteadyState(kids, net, shards, es, c)
    ensures Safe(c) && AllProper(c) && Delivers(c, Shards(shards, PreorderAll(kids))) && c.kids == kids
  {
    LT.StartInv();
    NoCallThrows(kids, net, es, c);
    ProperRunIsCalm(Boot(kids, net), es, c);
    ReachedIsSafe(kids, net, es, c);
    EndToEnd(kids, net, shards, es, c);
    KidsStay(Boot(kids, net), es, c);
  }

  lemma {:induction false} KidsStay(c: System, es: seq<Event>, c': System)
    requires Exec(c, es, c')
    ensures c'.kids == c.kids
    decreases es
  {
    if es == [] {
    } else {
      KidsStay(Do(c, es[0]), es[1..], c');
    }
  }

  lemma SteadyOn(kids: seq<Tree>, net: Net, shards: Net, es: seq<Event>, c: System, fs: seq<Event>, d: System)
    requires SteadyState(kids, net, shards, es, c) && Exec(c, fs, d) && Steady(fs, shards)
    ensures SteadyState(kids, net, shards, es + fs, d)
  {
    ExecConcat(Boot(kids, net), es, c, fs, d);
    SteadyConcat(es, fs, shards);
  }

  // Events that lead on from a steady state to another.
  ghost predicate Onward(kids: seq<Tree>, net: Net, shards: Net, es: seq<Event>, c: System, fs: seq<Event>, d: System) {
    Exec(c, fs, d) && Steady(fs, shards) && SteadyState(kids, net, shards, es + fs, d)
  }

  lemma OnwardTwice(kids: seq<Tree>, net: Net, shards: Net, es: seq<Event>, c: System, fs: seq<Event>, m: System,
                    gs: seq<Event>, d: System)
    requires Onward(kids, net, shards, es, c, fs, m) && Onward(kids, net, shards, es + fs, m, gs, d)
    ensures Onward(kids, net, shards, es, c, fs + gs, d)
  {
    ExecConcat(c, fs, m, gs, d);
    SteadyConcat(fs, gs, shards);
    assert es + (fs + gs) == (es + fs) + gs;
  }

  // All calls under way are completed, and the loop is none the worse for it.
  lemma Drain(kids: seq<Tree>, net: Net, shards: Net, es: seq<Event>, c: System, s: Sid)
    returns (fs: seq<Event>, d: System)
    requires SteadyState(kids, net, shards, es, c) && Alright(c, s)
    ensures Onward(kids, net, shards, es, c, fs, d)
    ensures Alright(d, s) && d.q.threads == map[] && c.sessions[s].calls <= d.sessions[s].calls
    ensures s in c.q.threads ==> c.sessions[s].calls < d.sessions[s].calls
  {
    SteadyFacts(kids, net, shards, es, c);
    fs, d := WorkFinishes(c);
    WorkServes(c, fs, d, s);
    WorkIsSteady(c, fs, d, shards);
    SteadyOn(kids, net, shards, es, c, fs, d);
  }

  lemma SendAlright(c: System, s: Sid)
    requires Safe(c) && Alright(c, s) && c.sessions[s].progress.Ongoing? && s !in c.q.threads
    ensures Enabled(c, Send(s)) && Alright(Do(c, Send(s)), s) && s in Do(c, Send(s)).q.threads
    ensures Do(c, Send(s)).sessions[s].calls == c.sessions[s].calls
  {
    ActorView(c, Send(s));
  }

  lemma CallsLeft(kids: seq<Tree>, net: Net, shards: Net, es: seq<Event>, c: System, s: Sid)
    requires SteadyState(kids, net, shards, es, c) && s in c.sessions && c.sessions[s].start == 0
    requires c.sessions[s].progress.Ongoing?
    ensures c.sessions[s].calls < PageCount(|Shards(shards, PreorderAll(kids))|, c.sessions[s].requested)
  {
    var full := Shards(shards, PreorderAll(kids));
    SteadyFacts(kids, net, shards, es, c);
    PageCountPositive(|full| - c.sessions[s].offset, c.sessions[s].requested);
  }

  // One more page: the loop calls, and the call and all others are completed.
  lemma OneMorePage(kids: seq<Tree>, net: Net, shards: Net, es: seq<Event>, c: System, s: Sid)
    returns (fs: seq<Event>, d: System)
    requires SteadyState(kids, net, shards, es, c) && Alright(c, s) && c.q.threads == map[]
    requires c.sessions[s].progress.Ongoing?
    ensures Onward(kids, net, shards, es, c, fs, d)
    ensures Alright(d, s) && d.q.threads == map[] && c.sessions[s].calls < d.sessions[s].calls
  {
    SteadyFacts(kids, net, shards, es, c);
    SendAlright(c, s);
    OneEvent(c, Send(s));
    SteadyOn(kids, net, shards, es, c, [Send(s)], Do(c, Send(s)));
    var gs;
    gs, d := Drain(kids, net, shards, es + [Send(s)], Do(c, Send(s)), s);
    fs := [Send(s)] + gs;
    OnwardTwice(kids, net, shards, es, c, [Send(s)], Do(c, Send(s)), gs, d);
  }

  lemma {:induction false} SessionKept(c: System, es: seq<Event>, c': System, s: Sid)
    requires Exec(c, es, c') && s in c.sessions
    ensures s in c'.sessions && c'.sessions[s].start == c.sessions[s].start
    ensures c'.sessions[s].requested == c.sessions[s].requested
    decreases es
  {
    if es == [] {
    } else {
      SessionKeptStep(c, es[0], s);
      SessionKept(Do(c, es[0]), es[1..], c', s);
    }
  }

  lemma SessionKeptStep(c: System, e: Event, s: Sid)
    requires Enabled(c, e) && s in c.sessions
    ensures s in Do(c, e).sessions && Do(c, e).sessions[s].start == c.sessions[s].start
    ensures Do(c, e).sessions[s].requested == c.sessions[s].requested
  {
    if e.Step? { var next, entry := StepResult(c, e.s, e.a); }
  }

  lemma {:induction false} PagesToTheEnd(kids: seq<Tree>, net: Net, shards: Net, es: seq<Event>, c: System, s: Sid)
    returns (fs: seq<Event>, d: System)
    requires SteadyState(kids, net, shards, es, c) && Alright(c, s) && c.q.threads == map[] && c.sessions[s].start == 0
    ensures Onward(kids, net, shards, es, c, fs, d)
    ensures s in d.sessions && d.sessions[s].progress.Finished?
    decreases PageCount(|Shards(shards, PreorderAll(kids))|, c.sessions[s].requested) - c.sessions[s].calls
  {
    if c.sessions[s].progress.Finished? {
      fs, d := [], c;
      assert es + fs == es;
    } else {
      CallsLeft(kids, net, shards, es, c, s);
      var gs, m := OneMorePage(kids, net, shards, es, c, s);
      SessionKept(c, gs, m, s);
      var hs;
      hs, d := PagesToTheEnd(kids, net, shards, es + gs, m, s);
      fs := gs + hs;
      OnwardTwice(kids, net, shards, es, c, gs, m, hs, d);
    }
  }

  /** The loop goes on to the end and has everything, in the exact number of calls. */
  ghost predicate Finishes(c: System, fs: seq<Event>, d: System, s: Sid, full: bytes, shards: Net) {
    && Exec(c, fs, d) && Steady(fs, shards)
    && s in d.sessions && d.sessions[s].progress.Finished?
    && d.sessions[s].got == full && d.sessions[s].calls == PageCount(|full|, d.sessions[s].requested)
  }

  ghost predicate CanFinish(c: System, s: Sid, full: bytes, shards: Net) {
    exists fs, d :: Finishes(c, fs, d, s, full, shards)
  }

  lemma FinishedHasAll(
    kids: seq<Tree>, net: Net, shards: Net, es: seq<Event>, c: System, fs: seq<Event>, d: System, s: Sid)
    requires Onward(kids, net, shards, es, c, fs, d)
    requires s in d.sessions && d.sessions[s].start == 0 && d.sessions[s].progress.Finished?
    ensures Finishes(c, fs, d, s, Shards(shards, PreorderAll(kids)), shards)
  {
    SteadyFacts(kids, net, shards, es + fs, d);
  }

  lemma LoopCanFinish(kids: seq<Tree>, net: Net, shards: Net, es: seq<Event>, c: System, s: Sid)
    returns (fs: seq<Event>, d: System)
    requires SteadyState(kids, net, shards, es, c) && s in c.sessions && c.sessions[s].start == 0
    requires c.sessions[s].progress.Ongoing? && !Lost(c, s)
    ensures Finishes(c, fs, d, s, Shards(shards, PreorderAll(kids)), shards)
  {
    SteadyFacts(kids, net, shards, es, c);
    var f1, c1 := NodesComeBack(c, shards);
    SteadyOn(kids, net, shards, es, c, f1, c1);
    var f2, c2 := Drain(kids, net, shards, es + f1, c1, s);
    SessionKept(c1, f2, c2, s);
    var f3;
    f3, d := PagesToTheEnd(kids, net, shards, es + f1 + f2, c2, s);
    SessionKept(c2, f3, d, s);
    OnwardTwice(kids, net, shards, es + f1, c1, f2, c2, f3, d);
    OnwardTwice(kids, net, shards, es, c, f1, c1, f2 + f3, d);
    fs := f1 + (f2 + f3);
    FinishedHasAll(kids, net, shards, es, c, fs, d, s);
  }

  lemma LostNeverFinishes(c: System, s: Sid, fs: seq<Event>, d: System, full: bytes, shards: Net)
    requires OwnRequests(c) && s in c.sessions && c.sessions[s].progress.Ongoing? && Lost(c, s)
    ensures !Finishes(c, fs, d, s, full, shards)
  {
    if Exec(c, fs, d) { LostForever(c, fs, d, s); }
  }

  /** Over every steady run: an unfinished client loop can go on to the end, nodes coming back if need be,
      if and only if the call it has under way is not lost. */
  lemma LoopFinishesIff(kids: seq<Tree>, net: Net, shards: Net, es: seq<Event>, c: System, s: Sid)
    requires SteadyState(kids, net, shards, es, c) && s in c.sessions && c.sessions[s].start == 0
    requires c.sessions[s].progress.Ongoing?
    ensures CanFinish(c, s, Shards(shards, PreorderAll(kids)), shards) <==> !Lost(c, s)
  {
    var full := Shards(shards, PreorderAll(kids));
    if Lost(c, s) {
      SteadyFacts(kids, net, shards, es, c);
      forall fs, d ensures !Finishes(c, fs, d, s, full, shards) { LostNeverFinishes(c, s, fs, d, full, shards); }
    } else {
      var fs, d := LoopCanFinish(kids, net, shards, es, c, s);
      assert Finishes(c, fs, d, s, full, shards);
    }
  }

  /** At any time a new client loop can start and go on to the end. */
  lemma NewLoopFinishes(kids: seq<Tree>, net: Net, shards: Net, es: seq<Event>, c: System,
                        s: Sid, cli: Client, req: ReqId, requested: int)
    returns (fs: seq<Event>, d: System)
    requires SteadyState(kids, net, shards, es, c)
    requires s !in c.sessions && forall u :: u in c.sessions ==> c.sessions[u].req != req
    ensures Finishes(c, fs, d, s, Shards(shards, PreorderAll(kids)), shards)
    ensures d.sessions[s].requested == requested
  {
    var e := Join(s, cli, req, requested, 0);
    SteadyFacts(kids, net, shards, es, c);
    OneEvent(c, e);
    SteadyOn(kids, net, shards, es, c, [e], Do(c, e));
    JoinView(c, e);
    var gs;
    gs, d := LoopCanFinish(kids, net, shards, es + [e], Do(c, e), s);
    SessionKept(Do(c, e), gs, d, s);
    fs := [e] + gs;
    ExecConcat(c, [e], Do(c, e), gs, d);
    SteadyConcat([e], gs, shards);
  }
}
