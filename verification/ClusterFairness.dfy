/** What the fair lock gives to sessions that take turns on their client ids. */
module ClusterFairness {
  import opened Collections
  import opened FairLock
  import L = FairLockRuns
  import LT = FairLockTheorems
  import opened ScatterGather
  import opened Cluster
  import opened ClusterSafety
  import opened ClusterTheorems

  // The session may still call, or has a call waiting or served.
  predicate Busy(c: System, s: Sid)
    requires s in c.sessions
  {
    c.sessions[s].progress.Ongoing? || PhaseOf(c.q, s).Waiting? || PhaseOf(c.q, s).Turn?
  }

  predicate SameClient(c: System, s: Sid, u: Sid) {
    s in c.sessions && u in c.sessions && c.sessions[s].cli == c.sessions[u].cli
  }

  /** A client id has at most one busy session. */
  ghost predicate OneBusy(c: System) {
    forall s, u :: SameClient(c, s, u) && Busy(c, s) && Busy(c, u) ==> s == u
  }

  /** A client id comes back for a new session only when its earlier sessions are over. */
  ghost predicate InTurn(c: System, e: Event) {
    e.Join? ==> forall u :: u in c.sessions && c.sessions[u].cli == e.cli ==> !Busy(c, u)
  }

  ghost predicate AllInTurn(c: System, es: seq<Event>)
    decreases es
  {
    es != [] && Enabled(c, es[0]) ==> InTurn(c, es[0]) && AllInTurn(Do(c, es[0]), es[1..])
  }

  lemma ActorBusyBefore(c: System, e: Event, u: Sid)
    requires Safe(c) && Enabled(c, e) && !e.Throw? && !e.Join? && Actor(e) == Some(u)
    requires u in Do(c, e).sessions && Busy(Do(c, e), u)
    ensures u in c.sessions && Busy(c, u)
  {
    ActorPhase(c, e);
    if e.Step? {
      var next, entry := StepResult(c, u, e.a);
    } else {
      ActorView(c, e);
    }
  }

  lemma BusyBefore(c: System, e: Event, u: Sid)
    requires Safe(c) && Enabled(c, e) && !e.Throw? && u in Do(c, e).sessions && Busy(Do(c, e), u)
    requires !(e.Join? && u == e.s)
    ensures u in c.sessions && Busy(c, u) && Do(c, e).sessions[u].cli == c.sessions[u].cli
  {
    SessionsStay(c, e);
    if e.Sweep? {
      SweepView(c, u);
    } else if Actor(e) == Some(u) {
      ActorBusyBefore(c, e, u);
    } else {
      OthersUntouched(c, e, u);
    }
  }

  lemma NewcomerIsAlone(c: System, e: Event, u: Sid)
    requires Safe(c) && Enabled(c, e) && e.Join? && InTurn(c, e) && u != e.s
    ensures !(SameClient(Do(c, e), e.s, u) && Busy(Do(c, e), u))
  {
    JoinView(c, e);
    if u in Do(c, e).sessions && Busy(Do(c, e), u) { BusyBefore(c, e, u); }
  }

  lemma PairBefore(c: System, e: Event, s: Sid, u: Sid)
    requires Safe(c) && Enabled(c, e) && !e.Throw? && !(e.Join? && (s == e.s || u == e.s))
    requires SameClient(Do(c, e), s, u) && Busy(Do(c, e), s) && Busy(Do(c, e), u)
    ensures SameClient(c, s, u) && Busy(c, s) && Busy(c, u)
  {
    BusyBefore(c, e, s);
    BusyBefore(c, e, u);
  }

  lemma OneBusyStep(c: System, e: Event)
    requires Safe(c) && Enabled(c, e) && !e.Throw? && OneBusy(c) && InTurn(c, e)
    ensures OneBusy(Do(c, e))
  {
    var c' := Do(c, e);
    forall s, u | SameClient(c', s, u) && Busy(c', s) && Busy(c', u) ensures s == u {
      if e.Join? && (s == e.s || u == e.s) {
        if s != e.s { NewcomerIsAlone(c, e, s); }
        if u != e.s { NewcomerIsAlone(c, e, u); }
      } else {
        PairBefore(c, e, s, u);
      }
    }
  }

  lemma {:induction false} SessionsPersist(c: System, es: seq<Event>, c': System)
    requires Calm(c, es, c')
    ensures forall u :: u in c.sessions ==> u in c'.sessions && c'.sessions[u].cli == c.sessions[u].cli
    decreases es
  {
    if es != [] {
      SessionsStay(c, es[0]);
      SessionsPersist(Do(c, es[0]), es[1..], c');
    }
  }

  ghost function Clients(c: System): set<Client> {
    set s | s in c.sessions :: c.sessions[s].cli
  }

  lemma SoloFirst(q: L.State, ev: L.Event, rest: seq<L.Event>, q': L.State, all: set<Client>)
    requires L.Enabled(q, ev) && LT.SoloStep(q, ev) && LT.SoloRun(L.Do(q, ev), rest, q')
    requires LT.ArrivalsIn(rest, all) && (ev.Arrive? ==> ev.cli in all)
    ensures LT.SoloRun(q, [ev] + rest, q') && LT.ArrivalsIn([ev] + rest, all)
  {
    assert ([ev] + rest)[1..] == rest;
  }

  // A session calls only when it has no call under way, and no other session of its client is busy.
  lemma SendIsSolo(c: System, e: Event)
    requires Safe(c) && Enabled(c, e) && LockEvent(c, e).Some? && OneBusy(c)
    ensures LT.SoloStep(c.q, LockEvent(c, e).value)
  {
    if e.Send? {
      forall t | t in c.q.threads && LT.Inside(c.q, t) ensures c.q.threads[t].cli != c.sessions[e.s].cli {
        assert Busy(c, t) && Busy(c, e.s);
      }
    }
  }

  /** Sessions that take turns on their client ids never have two acquires of one client outstanding. */
  lemma {:induction false} SessionsAreSolo(c: System, es: seq<Event>, c': System)
    requires Safe(c) && Calm(c, es, c') && OneBusy(c) && AllInTurn(c, es)
    ensures LT.SoloRun(c.q, LockTrace(c, es), c'.q)
    ensures LT.ArrivalsIn(LockTrace(c, es), Clients(c')) && OneBusy(c')
    decreases es
  {
    if es == [] {
    } else {
      var e, c1 := es[0], Do(c, es[0]);
      StepSafe(c, e);
      OneBusyStep(c, e);
      SessionsAreSolo(c1, es[1..], c');
      SessionsPersist(c, es, c');
      TraceStep(c, es);
      if LockEvent(c, e).Some? {
        SendIsSolo(c, e);
        assert e.Send? ==> c'.sessions[e.s].cli == c.sessions[e.s].cli;
        SoloFirst(c.q, LockEvent(c, e).value, LockTrace(c1, es[1..]), c'.q, Clients(c'));
      }
    }
  }

  lemma ClientsInside(c: System, c': System)
    requires Safe(c) && forall u :: u in c.sessions ==> u in c'.sessions && c'.sessions[u].cli == c.sessions[u].cli
    ensures LT.Population(c.q, Clients(c'))
  {
    forall t | t in c.q.threads ensures c.q.threads[t].cli in Clients(c') {
      assert c'.sessions[t].cli == c.q.threads[t].cli;
    }
  }

  /** While session `m` waits for its turn, the others together are served no more often than their
      debts fall short of its ticket, plus once for each already ahead of it. */
  lemma SessionOvertaking(kids: seq<Tree>, net: Net, pre: seq<Event>, c: System, es: seq<Event>, c': System, m: Sid)
    requires Reaches(kids, net, pre, c) && AllInTurn(Boot(kids, net), pre)
    requires Calm(c, es, c') && AllInTurn(c, es)
    requires LT.WaitsThroughout(c.q, LockTrace(c, es), m)
    ensures c.q.Waits(m)
    ensures L.GrantCount(c.q, LockTrace(c, es)) <=
            Sum(Clients(c') - {c.q.threads[m].cli}, LT.OvertakeBound(c.q.lock, c.q.threads[m].ticket))
  {
    var boot := Boot(kids, net);
    LT.StartInv();
    ReachedIsSafe(kids, net, pre, c);
    SessionsPersist(c, es, c');
    SessionsAreSolo(boot, pre, c);
    SessionsAreSolo(c, es, c');
    ClientsInside(c, c');
    LT.BoundedOvertaking(LockTrace(boot, pre), c.q, LockTrace(c, es), c'.q, m, Clients(c'));
  }

  /** Two clients that start level and each have a call waiting whenever the other is served stay within
      one turn of each other, over any number of sessions of theirs and of others. */
  lemma SessionFairness(
    kids: seq<Tree>, net: Net, pre: seq<Event>, c: System, es: seq<Event>, c': System, a: Client, b: Client)
    requires Reaches(kids, net, pre, c) && AllInTurn(Boot(kids, net), pre)
    requires Calm(c, es, c') && AllInTurn(c, es)
    requires a != b && c.q.lock.DebtOf(a) == c.q.lock.DebtOf(b) && LT.Backlogged(c.q, LockTrace(c, es), a, b)
    ensures -1 <= c'.q.lock.DebtOf(a) - c'.q.lock.DebtOf(b) <= 1
  {
    var boot := Boot(kids, net);
    LT.StartInv();
    ReachedIsSafe(kids, net, pre, c);
    SessionsAreSolo(boot, pre, c);
    SessionsAreSolo(c, es, c');
    LT.BackloggedFairness(LockTrace(boot, pre), c.q, LockTrace(c, es), c'.q, a, b);
  }
}
