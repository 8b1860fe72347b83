/** Callers that send a negative offset: exactly when the others can still be served. */
module ClusterFaults {
  import opened Collections
  import CL = ClusterLiveness
  import F = FairLockFaults
  import L = FairLockRuns
  import LT = FairLockTheorems
  import Overlay
  import opened ScatterGather
  import opened LeaderNode
  import opened Cluster
  import opened ClusterSafety
  import opened ClusterTheorems
  import opened ClusterProgress

  // ------------------------------------------------- the lock after an exception

  // What the event does to the lock, exceptions included.
  function FaultEvent(c: System, e: Event): Option<F.Event> {
    if e.Throw? then Some(F.Throw(e.s))
    else if LockEvent(c, e).Some? then Some(F.Regular(LockEvent(c, e).value))
    else None
  }

  lemma FaultStep(c: System, e: Event)
    requires Enabled(c, e)
    ensures match FaultEvent(c, e)
            case None => Do(c, e).q == c.q
            case Some(x) => F.Enabled(c.q, x) && Do(c, e).q == F.Do(c.q, x)
  {
    if LockEvent(c, e).Some? { LockEventEnabled(c, e); }
  }

  predicate Threw(es: seq<Event>) {
    exists i :: 0 <= i < |es| && es[i].Throw?
  }

  lemma ThrewLater(es: seq<Event>)
    requires es != []
    ensures Threw(es) <==> es[0].Throw? || Threw(es[1..])
  {
    if i :| 0 <= i < |es| && es[i].Throw? { assert i > 0 ==> es[1..][i - 1] == es[i]; }
  }

  lemma {:induction false} WedgedStays(c: System, es: seq<Event>, c': System)
    requires F.Wedged(c.q) && Exec(c, es, c')
    ensures F.Wedged(c'.q)
    decreases es
  {
    if es == [] {
    } else {
      FaultStep(c, es[0]);
      if FaultEvent(c, es[0]).Some? { F.WedgedStep(c.q, FaultEvent(c, es[0]).value); }
      WedgedStays(Do(c, es[0]), es[1..], c');
    }
  }

  /** The invariant of the system holds until the first exception, and from then on nobody has the turn
      and nobody gets it. */
  lemma {:induction false} SoundUntilThrow(c: System, es: seq<Event>, c': System)
    requires Safe(c) && Exec(c, es, c')
    ensures if Threw(es) then F.Wedged(c'.q) else Safe(c') && Calm(c, es, c')
    decreases es
  {
    if es == [] {
    } else {
      var e := es[0];
      ThrewLater(es);
      if e.Throw? {
        FaultStep(c, e);
        F.ThrowWedges(c.q, e.s);
        WedgedStays(Do(c, e), es[1..], c');
      } else {
        StepSafe(c, e);
        SoundUntilThrow(Do(c, e), es[1..], c');
      }
    }
  }

  // ------------------------------------------------- a holder that can only throw

  /** The turn is with a call at a negative offset whose payload is there, or has been gathered. */
  ghost predicate Doomed(c: System, h: Sid) {
    && h in c.sessions && c.q.Holds(h) && c.sessions[h].offset < 0
    && var work := c.sessions[h].work;
       work.Loaded? || (work.Asking? && AllAsked(c.kids, work.asked) && Gather(Answers(work.asked), c.kids).Payload?)
  }

  ghost predicate SomeoneDoomed(c: System) {
    exists h :: Doomed(c, h)
  }

  lemma NobodyLeftToAsk(kids: seq<Tree>, asked: map<Overlay.Id, Option<bytes>>)
    requires AllAsked(kids, asked)
    ensures forall v :: v in Ids(PreorderAll(kids)) ==> v in asked
  {
    var nodes := PreorderAll(kids);
    forall v | v in Ids(nodes) ensures v in asked {
      var i :| 0 <= i < |Ids(nodes)| && Ids(nodes)[i] == v;
      assert nodes[i] in nodes;
    }
  }

  lemma DoomedActs(c: System, e: Event, h: Sid)
    requires Safe(c) && Doomed(c, h) && Enabled(c, e) && Actor(e) == Some(h) && !e.Throw?
    ensures Doomed(Do(c, e), h)
  {
    ActorPhase(c, e);
    if e.Step? {
      if c.sessions[h].work.Asking? { NobodyLeftToAsk(c.kids, c.sessions[h].work.asked); }
      var next, entry := StepResult(c, h, e.a);
    } else {
      ActorView(c, e);
    }
  }

  lemma DoomedStays(c: System, e: Event, h: Sid)
    requires Safe(c) && Doomed(c, h) && Enabled(c, e) && !e.Throw?
    ensures Doomed(Do(c, e), h)
  {
    if Actor(e) == Some(h) {
      DoomedActs(c, e, h);
    } else if e.Sweep? {
      SweepView(c, h);
    } else {
      OthersUntouched(c, e, h);
    }
  }

  lemma {:induction false} DoomedServesNobody(c: System, h: Sid, es: seq<Event>, c': System, w: Sid)
    requires Safe(c) && Doomed(c, h) && w != h && Exec(c, es, c')
    ensures !c'.q.Holds(w)
    decreases es
  {
    if es == [] {
      assert c.q.Holds(h);
    } else {
      var e := es[0];
      if e.Throw? {
        FaultStep(c, e);
        F.ThrowWedges(c.q, e.s);
        WedgedStays(Do(c, e), es[1..], c');
      } else {
        DoomedStays(c, e, h);
        StepSafe(c, e);
        DoomedServesNobody(Do(c, e), h, es[1..], c', w);
      }
    }
  }

  // --------------------------------------------------------------- the way out

  lemma PreludeKeepsQueue(c: System, p: Event)
    requires Enabled(c, p) && (p.Die? || p.Crash?)
    ensures Do(c, p).q == c.q && Do(c, p).sessions.Keys == c.sessions.Keys && Do(c, p).kids == c.kids
  {}

  lemma PreludeKeepsCall(c: System, p: Event, u: Sid)
    requires Enabled(c, p) && (p.Die? || p.Crash?) && u in c.sessions
    ensures CallLeftIn(Do(c, p))(u) == CallLeftIn(c)(u)
  {}

  lemma PreludeKeepsLeft(c: System, p: Event)
    requires Enabled(c, p) && (p.Die? || p.Crash?)
    ensures StepsLeft(Do(c, p)) == StepsLeft(c)
  {
    PreludeKeepsQueue(c, p);
    var f, g := CallLeftIn(c), CallLeftIn(Do(c, p));
    forall u | u in c.sessions.Keys ensures f(u) == g(u) { PreludeKeepsCall(c, p, u); }
    SumSame(c.sessions.Keys, f, g);
  }

  // A client dies or a node goes down: nothing moves in the queue.
  lemma PreludeKeeps(c: System, p: Event)
    requires Safe(c) && Enabled(c, p) && (p.Die? || p.Crash?)
    ensures Safe(Do(c, p)) && Do(c, p).q == c.q && StepsLeft(Do(c, p)) == StepsLeft(c)
  {
    StepSafe(c, p);
    PreludeKeepsQueue(c, p);
    PreludeKeepsLeft(c, p);
  }

  // A move that leaves the holder with a way out, possibly after a death or a crash.
  ghost predicate WayOut(c: System, p: Option<Event>, e: Event) {
    && (p.Some? ==> Enabled(c, p.value) && (p.value.Die? || p.value.Crash?))
    && var c0 := if p.Some? then Do(c, p.value) else c;
       MovesOn(c0, e) && !SomeoneDoomed(Do(c0, e))
  }

  lemma OneHolder(c: System, h: Sid)
    requires L.Inv(c.q) && h in c.sessions && c.q.Holds(h) && !Doomed(c, h)
    ensures !SomeoneDoomed(c)
  {
    forall u ensures !Doomed(c, u) { assert c.q.Holds(u) ==> u == h; }
  }

  lemma StepFree(c: System, h: Sid, a: Action)
    requires Safe(c) && Enabled(c, Step(h, a))
    requires var s' := Act(c.sessions[h], EntryOf(c.cache, c.sessions[h].req), a, c.net, c.clock, c.kids).0;
             s'.offset >= 0 || !(s'.work.Loaded? ||
               (s'.work.Asking? && AllAsked(c.kids, s'.work.asked) && Gather(Answers(s'.work.asked), c.kids).Payload?))
    ensures MovesOn(c, Step(h, a)) && !SomeoneDoomed(Do(c, Step(h, a)))
  {
    var c' := Do(c, Step(h, a));
    var next, entry := StepResult(c, h, a);
    StepSafe(c, Step(h, a));
    assert c'.q == c.q;
    OneHolder(c', h);
  }

  lemma FreshWayOut(c: System, h: Sid) returns (p: Option<Event>, e: Event)
    requires Safe(c) && h in c.sessions && c.q.Holds(h) && c.sessions[h].work.Fresh?
    ensures WayOut(c, p, e)
  {
    TurnPhase(c, h);
    p, e := None, Step(h, Abandon);
    if c.sessions[h].progress.Ongoing? {
      p := Some(Die(h));
      PreludeKeeps(c, p.value);
      StepFree(Do(c, p.value), h, Abandon);
    } else {
      StepFree(c, h, Abandon);
    }
  }

  lemma MissingNodeFails(asked: map<Overlay.Id, Option<bytes>>, kids: seq<Tree>, i: nat)
    requires i < |PreorderAll(kids)| && PreorderAll(kids)[i].id in asked && asked[PreorderAll(kids)[i].id].None?
    ensures !Gather(Answers(asked), kids).Payload?
  {
    GatherAllOrNothing(Answers(asked), kids);
    assert PreorderAll(kids)[i].id !in Answers(asked);
  }

  lemma AskDown(c: System, h: Sid, i: nat)
    requires Safe(c) && h in c.sessions && c.q.Holds(h) && c.sessions[h].work.Asking? && i < |PreorderAll(c.kids)|
    requires var v := PreorderAll(c.kids)[i].id; v !in c.sessions[h].work.asked && v !in c.net
    ensures var a := Step(h, Ask(PreorderAll(c.kids)[i].id)); MovesOn(c, a) && !SomeoneDoomed(Do(c, a))
  {
    var v := PreorderAll(c.kids)[i].id;
    assert Ids(PreorderAll(c.kids))[i] == v;
    MissingNodeFails(c.sessions[h].work.asked[v := None], c.kids, i);
    StepFree(c, h, Ask(v));
  }

  lemma AskingWayOut(c: System, h: Sid) returns (p: Option<Event>, e: Event)
    requires Safe(c) && h in c.sessions && c.q.Holds(h) && c.sessions[h].work.Asking? && !Doomed(c, h)
    ensures WayOut(c, p, e)
  {
    var nodes, asked := PreorderAll(c.kids), c.sessions[h].work.asked;
    p, e := None, Step(h, EndGather);
    if t :| t in nodes && t.id !in asked {
      var i :| 0 <= i < |nodes| && nodes[i] == t;
      e := Step(h, Ask(t.id));
      if t.id in c.net {
        p := Some(Crash(t.id));
        PreludeKeeps(c, p.value);
        AskDown(Do(c, p.value), h, i);
      } else {
        AskDown(c, h, i);
      }
    } else {
      assert AllAsked(c.kids, asked);
      StepFree(c, h, EndGather);
    }
  }

  lemma HolderWayOut(c: System, h: Sid) returns (p: Option<Event>, e: Event)
    requires Safe(c) && h in c.sessions && c.q.Holds(h) && !Doomed(c, h)
    ensures WayOut(c, p, e)
  {
    TurnPhase(c, h);
    match c.sessions[h].work {
      case Fresh => p, e := FreshWayOut(c, h);
      case Asking(_) => p, e := AskingWayOut(c, h);
      case Loaded(_) =>
        p, e := None, Step(h, Slice);
        StepFree(c, h, Slice);
      case Answering(_) =>
        p, e := None, Step(h, Evict);
        StepFree(c, h, Evict);
      case Leaving(_) =>
        p, e := None, Release(h);
        NobodyHolds(c, e);
    }
  }

  lemma UnheldIsFree(c: System)
    requires L.Inv(c.q) && !c.q.lock.active
    ensures !SomeoneDoomed(c)
  {
    forall u ensures !Doomed(c, u) { assert c.q.Holds(u) ==> c.q.lock.active; }
  }

  lemma FreshIsFree(c: System, t: Sid)
    requires L.Inv(c.q) && t in c.sessions && PhaseOf(c.q, t).Turn? && c.sessions[t].work.Fresh?
    ensures !SomeoneDoomed(c)
  {
    OneHolder(c, t);
  }

  lemma StepKeepsLock(c: System, e: Event)
    requires Safe(c) && Enabled(c, e) && !e.Throw?
    ensures L.Inv(Do(c, e).q)
  {
    StepSafe(c, e);
  }

  lemma LockFreed(c: System, e: Event)
    requires Enabled(c, e) && (e.Release? || (e.Return? && !c.q.lock.active))
    ensures !Do(c, e).q.lock.active
  {}

  // Without a holder nobody is doomed.
  lemma NobodyHolds(c: System, e: Event)
    requires Safe(c) && Enabled(c, e) && (e.Release? || (e.Return? && !c.q.lock.active))
    ensures !SomeoneDoomed(Do(c, e))
  {
    StepKeepsLock(c, e);
    LockFreed(c, e);
    UnheldIsFree(Do(c, e));
  }

  lemma GrantedIsFree(c: System, t: Sid)
    requires Safe(c) && MovesOn(c, Retest(t))
    ensures !SomeoneDoomed(Do(c, Retest(t)))
  {
    GrantPhase(c, t);
    StepKeepsLock(c, Retest(t));
    ActorView(c, Retest(t));
    FreshIsFree(Do(c, Retest(t)), t);
  }

  lemma SomeWayOut(c: System) returns (p: Option<Event>, e: Event)
    requires Safe(c) && c.q.threads != map[] && !SomeoneDoomed(c)
    ensures WayOut(c, p, e)
  {
    var le := LT.SomeoneProgresses(c.q);
    if le.Release? {
      p, e := HolderWayOut(c, le.t);
    } else if le.Retest? {
      p, e := None, Retest(le.t);
      GrantedIsFree(c, le.t);
    } else {
      p, e := None, Return(le.t);
      NotifyPhase(c, le.t);
      if c.q.lock.active {
        var h :| c.q.Holds(h);
        p, e := HolderWayOut(c, h);
      } else {
        NobodyHolds(c, e);
      }
    }
  }

  lemma StillThere(c: System, e: Event, w: Sid)
    requires MovesOn(c, e) && c.q.Waits(w)
    ensures Do(c, e).q.Waits(w) || Do(c, e).q.Holds(w)
  {}

  lemma {:induction false} CanBeServed(c: System, w: Sid) returns (es: seq<Event>, c': System)
    requires Safe(c) && c.q.Waits(w) && !SomeoneDoomed(c)
    ensures Exec(c, es, c') && c'.q.Holds(w)
    decreases StepsLeft(c)
  {
    var fs, c1 := Advance(c, w);
    es, c' := fs, c1;
    if !c1.q.Holds(w) {
      var rest;
      rest, c' := CanBeServed(c1, w);
      es := fs + rest;
      CL.ExecConcat(c, fs, c1, rest, c');
    }
  }

  lemma Advance(c: System, w: Sid) returns (es: seq<Event>, c1: System)
    requires Safe(c) && c.q.Waits(w) && !SomeoneDoomed(c)
    ensures Exec(c, es, c1) && Safe(c1) && !SomeoneDoomed(c1) && (c1.q.Waits(w) || c1.q.Holds(w))
    ensures 0 <= StepsLeft(c1) < StepsLeft(c)
  {
    var p, e := SomeWayOut(c);
    var c0 := if p.Some? then Do(c, p.value) else c;
    if p.Some? { PreludeKeeps(c, p.value); }
    c1 := Do(c0, e);
    MoveLowers(c0, e);
    StepSafe(c0, e);
    StillThere(c0, e, w);
    CL.OneEvent(c0, e);
    es := [e];
    if p.Some? { es := Prefixed(c, p.value, es, c1); }
  }

  lemma Prefixed(c: System, e: Event, es: seq<Event>, c': System) returns (fs: seq<Event>)
    requires Enabled(c, e) && Exec(Do(c, e), es, c')
    ensures Exec(c, fs, c')
  {
    fs := [e] + es;
    assert fs[1..] == es;
  }

  // ------------------------------------------------------------- the condition

  // After `fs` it is the turn of `w`.
  ghost predicate Serves(c: System, fs: seq<Event>, d: System, w: Sid) {
    Exec(c, fs, d) && d.q.Holds(w)
  }

  /** Over every run of sessions that send any offsets: a waiting call can still be served if and only if
      no call has thrown and the turn is not with one that can only throw. When nobody has sent a
      negative offset, both are so. */
  lemma ServedIffNoneDoomed(kids: seq<Tree>, net: Net, es: seq<Event>, c: System, w: Sid)
    requires Exec(Boot(kids, net), es, c) && c.q.Waits(w)
    ensures (exists fs, d :: Serves(c, fs, d, w)) <==> !Threw(es) && !SomeoneDoomed(c)
    ensures Proper(es) ==> !Threw(es) && !SomeoneDoomed(c)
  {
    LT.StartInv();
    SoundUntilThrow(Boot(kids, net), es, c);
    if Threw(es) {
      forall fs, d ensures !Serves(c, fs, d, w) { if Exec(c, fs, d) { WedgedStays(c, fs, d); } }
    } else if h :| Doomed(c, h) {
      assert c.q.Holds(h);
      forall fs, d ensures !Serves(c, fs, d, w) { if Exec(c, fs, d) { DoomedServesNobody(c, h, fs, d, w); } }
    } else {
      var fs, d := CanBeServed(c, w);
      assert Serves(c, fs, d, w);
    }
    if Proper(es) { ProperIsNotDoomed(kids, net, es, c); }
  }

  lemma ProperIsNotDoomed(kids: seq<Tree>, net: Net, es: seq<Event>, c: System)
    requires Exec(Boot(kids, net), es, c) && Proper(es)
    ensures !Threw(es) && !SomeoneDoomed(c)
  {
    LT.StartInv();
    NoCallThrows(kids, net, es, c);
    CalmNeverThrew(Boot(kids, net), es, c);
    ReachedIsSafe(kids, net, es, c);
    forall h ensures !Doomed(c, h) {
      if h in c.sessions && c.q.Holds(h) { TurnPhase(c, h); }
    }
  }

  lemma {:induction false} CalmNeverThrew(c: System, es: seq<Event>, c': System)
    requires Calm(c, es, c')
    ensures !Threw(es)
    decreases es
  {
    if es == [] {
    } else {
      ThrewLater(es);
      CalmNeverThrew(Do(c, es[0]), es[1..], c');
    }
  }
}
