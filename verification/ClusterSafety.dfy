/** Invariants of every run of the system. */
module ClusterSafety {
  import opened Collections
  import L = FairLockRuns
  import opened LeaderNode
  import opened Cluster

  // ------------------------------------------------ the lock inside the system

  /** The lock events of a run. */
  ghost function LockTrace(c: System, es: seq<Event>): seq<L.Event>
    decreases es
  {
    if es == [] || !Enabled(c, es[0]) then []
    else (if LockEvent(c, es[0]).Some? then [LockEvent(c, es[0]).value] else []) + LockTrace(Do(c, es[0]), es[1..])
  }

  lemma TraceStep(c: System, es: seq<Event>)
    requires es != [] && Enabled(c, es[0]) && !es[0].Throw?
    ensures var ev, rest, q' := LockEvent(c, es[0]), LockTrace(Do(c, es[0]), es[1..]), Do(c, es[0]).q;
            if ev.Some? then
              && LockTrace(c, es) == [ev.value] + rest
              && LockTrace(c, es)[0] == ev.value && LockTrace(c, es)[1..] == rest
              && L.Enabled(c.q, ev.value) && q' == L.Do(c.q, ev.value)
            else LockTrace(c, es) == rest && q' == c.q
  {
    var rest := LockTrace(Do(c, es[0]), es[1..]);
    if LockEvent(c, es[0]).Some? {
      LockEventEnabled(c, es[0]);
      assert ([LockEvent(c, es[0]).value] + rest)[1..] == rest;
    } else {
      assert [] + rest == rest;
    }
  }

  /** Every run of the system drives the lock through one of its own runs. */
  lemma {:induction false} LockRefines(c: System, es: seq<Event>, c': System)
    requires Calm(c, es, c')
    ensures L.Run(c.q, LockTrace(c, es), c'.q)
    decreases es
  {
    if es != [] {
      LockRefines(Do(c, es[0]), es[1..], c');
      TraceStep(c, es);
    }
  }

  // ---------------------------------------------------------- the invariant

  ghost predicate OwnRequests(c: System) {
    && (forall s, u :: s in c.sessions && u in c.sessions && c.sessions[s].req == c.sessions[u].req ==> s == u)
    && (forall r :: r in c.cache ==> exists s :: s in c.sessions && c.sessions[s].req == r)
  }

  ghost predicate OwnThreads(c: System) {
    forall t :: t in c.q.threads ==> t in c.sessions && c.sessions[t].cli == c.q.threads[t].cli
  }

  predicate OrderlySession(c: System, s: Sid)
    requires s in c.sessions
  {
    Orderly(c.sessions[s], PhaseOf(c.q, s), EntryOf(c.cache, c.sessions[s].req), c.clock)
  }

  ghost predicate Safe(c: System) {
    && L.Inv(c.q) && OwnRequests(c) && OwnThreads(c)
    && (c.sweep.Some? ==> c.sweep.value <= c.clock)
    && (forall s :: s in c.sessions ==> OrderlySession(c, s))
  }

  // The session an event moves.
  function Actor(e: Event): Option<Sid> {
    match e
    case Join(s, _, _, _, _) => Some(s)
    case Send(s) => Some(s)
    case Wake(s) => Some(s)
    case Retest(s) => Some(s)
    case Step(s, _) => Some(s)
    case Throw(s) => Some(s)
    case Release(s) => Some(s)
    case Return(s) => Some(s)
    case Die(s) => Some(s)
    case _ => None
  }

  /** An event leaves every other session alone: its record, its phase and its cache entry. */
  lemma OthersUntouched(c: System, e: Event, u: Sid)
    requires OwnRequests(c) && Enabled(c, e) && u in c.sessions && Actor(e) != Some(u) && !e.Sweep?
    ensures var c' := Do(c, e);
            && u in c'.sessions && c'.sessions[u] == c.sessions[u]
            && PhaseOf(c'.q, u) == PhaseOf(c.q, u)
            && EntryOf(c'.cache, c.sessions[u].req) == EntryOf(c.cache, c.sessions[u].req)
  {
    OtherPhase(c, e, u);
  }

  lemma OtherPhase(c: System, e: Event, u: Sid)
    requires Enabled(c, e) && Actor(e) != Some(u)
    ensures PhaseOf(LockAfter(c, e), u) == PhaseOf(c.q, u)
  {}

  /** The phases an actor goes through. */
  lemma ActorPhase(c: System, e: Event)
    requires Enabled(c, e) && Actor(e).Some? && OwnThreads(c)
    ensures var s := Actor(e).value;
            var ph, ph' := PhaseOf(c.q, s), PhaseOf(LockAfter(c, e), s);
            match e
            case Send(_) => ph.Outside? && (ph'.Waiting? || ph'.Turn?)
            case Wake(_) => ph.Waiting? && ph'.Waiting?
            case Retest(_) => ph.Waiting? && (ph'.Waiting? || ph'.Turn?)
            case Step(_, _) => ph.Turn? && ph'.Turn?
            case Release(_) => ph.Turn? && ph'.Notifying?
            case Return(_) => ph.Notifying? && ph'.Outside?
            case Throw(_) => ph.Turn? && ph'.Outside?
            case Join(_, _, _, _, _) => ph.Outside? && ph'.Outside?
            case _ => ph' == ph
  {}

  lemma ActOrderly(s: Session, entry: Option<Entry>, a: Action, c: System)
    requires Orderly(s, Turn, entry, c.clock) && CanAct(s, a, c.kids)
    ensures var (s', entry') := Act(s, entry, a, c.net, c.clock, c.kids);
            Orderly(s', Turn, entry', c.clock) && s'.cli == s.cli && s'.req == s.req
  {}

  lemma DeliverOrderly(s: Session, entry: Option<Entry>, clock: int)
    requires Orderly(s, Notifying, entry, clock)
    ensures Orderly(Deliver(s), Outside, entry, clock)
  {}

  // Phase changes that leave the session's own record alone.
  lemma MoveOrderly(s: Session, ph: Phase, ph': Phase, entry: Option<Entry>, clock: int)
    requires Orderly(s, ph, entry, clock)
    requires (ph.Outside? && s.progress.Ongoing? && (ph'.Waiting? || ph'.Turn?))
             || (ph.Waiting? && (ph'.Waiting? || ph'.Turn?))
             || (ph.Turn? && ph'.Notifying? && s.work.Leaving?)
    ensures Orderly(s, ph', entry, clock)
  {}

  lemma DieOrderly(s: Session, ph: Phase, entry: Option<Entry>, clock: int)
    requires Orderly(s, ph, entry, clock) && s.progress.Ongoing?
    ensures Orderly(s.(progress := Dead), ph, entry, clock)
  {}

  /** Events on a session that only move its thread through the lock. */
  predicate MovesOnly(e: Event) {
    e.Send? || e.Wake? || e.Retest? || e.Release?
  }

  lemma StepResult(c: System, s: Sid, a: Action) returns (next: Session, entry: Option<Entry>)
    requires Enabled(c, Step(s, a))
    ensures (next, entry) == Act(c.sessions[s], EntryOf(c.cache, c.sessions[s].req), a, c.net, c.clock, c.kids)
    ensures s in Do(c, Step(s, a)).sessions && Do(c, Step(s, a)).sessions[s] == next
    ensures next.req == c.sessions[s].req && next.cli == c.sessions[s].cli && next.progress == c.sessions[s].progress
    ensures EntryOf(Do(c, Step(s, a)).cache, next.req) == entry
  {
    var r := Act(c.sessions[s], EntryOf(c.cache, c.sessions[s].req), a, c.net, c.clock, c.kids);
    next, entry := r.0, r.1;
  }

  /** The actor's record and cache entry after an event other than a handler step or a new session. */
  lemma ActorView(c: System, e: Event)
    requires Enabled(c, e) && Actor(e).Some? && !e.Join? && !e.Step? && !e.Throw?
    ensures var s, c' := Actor(e).value, Do(c, e);
            && s in c.sessions && s in c'.sessions && c'.cache == c.cache
            && c'.sessions[s] == if e.Return? then Deliver(c.sessions[s])
                                 else if e.Die? then c.sessions[s].(progress := Dead)
                                 else c.sessions[s]
  {}

  /** A sweep leaves a session alone, or takes its entry and counts one eviction. */
  lemma SweepView(c: System, s: Sid)
    requires Enabled(c, Sweep) && s in c.sessions
    ensures var me, c' := c.sessions[s], Do(c, Sweep);
            && s in c'.sessions
            && ((c'.sessions[s] == me && EntryOf(c'.cache, me.req) == EntryOf(c.cache, me.req)) ||
                (c'.sessions[s] == me.(evictions := me.evictions + 1) && EntryOf(c'.cache, me.req).None?))
  {}

  lemma ActorOrderly(c: System, e: Event)
    requires Safe(c) && Enabled(c, e) && Actor(e).Some? && !e.Throw?
    ensures Actor(e).value in Do(c, e).sessions && OrderlySession(Do(c, e), Actor(e).value)
  {
    var s, c' := Actor(e).value, Do(c, e);
    ActorPhase(c, e);
    if e.Join? {
      NewRequestNotCached(c, e);
    } else {
      assert OrderlySession(c, s);
      var me, entry := c.sessions[s], EntryOf(c.cache, c.sessions[s].req);
      if MovesOnly(e) {
        MoveOrderly(me, PhaseOf(c.q, s), PhaseOf(c'.q, s), entry, c.clock);
      } else if e.Step? {
        ActOrderly(me, entry, e.a, c);
        var next, after := StepResult(c, s, e.a);
      } else if e.Return? {
        DeliverOrderly(me, entry, c.clock);
      } else {
        DieOrderly(me, PhaseOf(c.q, s), entry, c.clock);
      }
    }
  }

  lemma NewRequestNotCached(c: System, e: Event)
    requires OwnRequests(c) && Enabled(c, e) && e.Join?
    ensures e.req !in c.cache
  {
    forall r | r in c.cache ensures r != e.req {
      var s :| s in c.sessions && c.sessions[s].req == r;
    }
  }

  lemma JoinView(c: System, e: Event)
    requires OwnRequests(c) && Enabled(c, e) && e.Join?
    ensures e.s in Do(c, e).sessions && Do(c, e).sessions[e.s] == NewSession(e.cli, e.req, e.requested, e.start)
    ensures EntryOf(Do(c, e).cache, e.req).None?
  {
    NewRequestNotCached(c, e);
  }

  lemma EvictOrderly(s: Session, ph: Phase, e: Entry, clock: int)
    requires Orderly(s, ph, Some(e), clock) && clock - e.touched >= Ttl
    ensures Orderly(s.(evictions := s.evictions + 1), ph, None, clock)
  {}

  lemma SweepOrderly(c: System, s: Sid)
    requires Safe(c) && Enabled(c, Sweep) && s in c.sessions
    ensures s in Do(c, Sweep).sessions && OrderlySession(Do(c, Sweep), s)
  {
    assert OrderlySession(c, s);
    var r := c.sessions[s].req;
    SweptSession(c, s);
    if r in c.cache {
      SweepIsSafe(c.cache, c.sweep.value, c.clock, r);
      if r !in Swept(c.cache, c.sweep.value) {
        EvictOrderly(c.sessions[s], PhaseOf(c.q, s), c.cache[r], c.clock);
      }
    }
  }

  lemma SweptSession(c: System, s: Sid)
    requires Enabled(c, Sweep) && s in c.sessions
    ensures var me, c', left := c.sessions[s], Do(c, Sweep), Swept(c.cache, c.sweep.value);
            && s in c'.sessions && c'.q == c.q && c'.clock == c.clock && c'.cache == left
            && c'.sessions[s] == Reaped(me, c.cache, left)
            && (me.req in left ==> me.req in c.cache && left[me.req] == c.cache[me.req])
  {}

  lemma SessionStays(c: System, e: Event, u: Sid)
    requires Enabled(c, e) && u in c.sessions
    ensures u in Do(c, e).sessions && Do(c, e).sessions[u].req == c.sessions[u].req &&
            Do(c, e).sessions[u].cli == c.sessions[u].cli
  {
    if e.Step? { var next, entry := StepResult(c, e.s, e.a); }
  }

  lemma SessionsStay(c: System, e: Event)
    requires Enabled(c, e)
    ensures forall u :: u in c.sessions ==>
              u in Do(c, e).sessions && Do(c, e).sessions[u].req == c.sessions[u].req &&
              Do(c, e).sessions[u].cli == c.sessions[u].cli
    ensures forall u :: u in Do(c, e).sessions && u !in c.sessions ==>
            e.Join? && u == e.s && Do(c, e).sessions[u].req == e.req
    ensures forall r :: r in Do(c, e).cache && r !in c.cache ==> e.Step? && r == c.sessions[e.s].req
  {
    forall u | u in c.sessions
      ensures u in Do(c, e).sessions && Do(c, e).sessions[u].req == c.sessions[u].req &&
              Do(c, e).sessions[u].cli == c.sessions[u].cli
    {
      SessionStays(c, e, u);
    }
  }

  lemma RequestsStayOwn(c: System, e: Event)
    requires OwnRequests(c) && Enabled(c, e)
    ensures OwnRequests(Do(c, e))
  {
    var c' := Do(c, e);
    SessionsStay(c, e);
    forall r | r in c'.cache ensures exists s :: s in c'.sessions && c'.sessions[s].req == r {
      if r in c.cache {
        var s :| s in c.sessions && c.sessions[s].req == r;
        assert c'.sessions[s].req == r;
      } else {
        assert c'.sessions[e.s].req == r;
      }
    }
  }

  lemma ThreadsStayOwn(c: System, e: Event)
    requires OwnThreads(c) && Enabled(c, e)
    ensures OwnThreads(Do(c, e))
  {
    SessionsStay(c, e);
    var q' := LockAfter(c, e);
    forall t | t in q'.threads ensures t in c.sessions && c.sessions[t].cli == q'.threads[t].cli {
      if t !in c.q.threads { assert e.Send? && t == e.s; }
    }
  }

  lemma StepSafe(c: System, e: Event)
    requires Safe(c) && Enabled(c, e) && !e.Throw?
    ensures Safe(Do(c, e))
  {
    var c' := Do(c, e);
    if LockEvent(c, e).Some? {
      LockEventEnabled(c, e);
      L.StepKeepsInv(c.q, LockEvent(c, e).value);
    }
    RequestsStayOwn(c, e);
    ThreadsStayOwn(c, e);
    forall u | u in c'.sessions ensures OrderlySession(c', u) {
      if e.Sweep? {
        SweepOrderly(c, u);
      } else if Actor(e) == Some(u) {
        ActorOrderly(c, e);
      } else {
        OthersUntouched(c, e, u);
        assert OrderlySession(c, u);
      }
    }
  }

  lemma {:induction false} RunSafe(c: System, es: seq<Event>, c': System)
    requires Safe(c) && Calm(c, es, c')
    ensures Safe(c')
    decreases es
  {
    if es != [] {
      StepSafe(c, es[0]);
      RunSafe(Do(c, es[0]), es[1..], c');
    }
  }
}
