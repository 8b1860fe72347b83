/** What clients, the cache and the queue are guaranteed in every run of the system. */
module ClusterTheorems {
  import opened Collections
  import L = FairLockRuns
  import LT = FairLockTheorems
  import Overlay
  import opened Records
  import opened ScatterGather
  import opened Paging
  import opened LeaderNode
  import opened Cluster
  import opened ClusterSafety

  /** A state the system can reach from an empty cache and no sessions, as long as no call has thrown;
      with client loops no call ever does. */
  ghost predicate Reaches(kids: seq<Tree>, net: Net, es: seq<Event>, c: System) {
    Calm(Boot(kids, net), es, c)
  }

  lemma ReachedIsSafe(kids: seq<Tree>, net: Net, es: seq<Event>, c: System)
    requires Reaches(kids, net, es, c)
    ensures Safe(c)
  {
    LT.StartInv();
    RunSafe(Boot(kids, net), es, c);
  }

  // ------------------------------------------------------------ turns and cache

  /** At most one handler is between grant and release, so at most one gather is in flight. */
  lemma OneHandlerAtATime(kids: seq<Tree>, net: Net, es: seq<Event>, c: System, s: Sid, u: Sid)
    requires Reaches(kids, net, es, c) && s in c.sessions && u in c.sessions
    ensures PhaseOf(c.q, s).Turn? && PhaseOf(c.q, u).Turn? ==> s == u
    ensures c.sessions[s].work.Asking? && c.sessions[u].work.Asking? ==> s == u
  {
    ReachedIsSafe(kids, net, es, c);
    assert OrderlySession(c, s) && OrderlySession(c, u);
    if PhaseOf(c.q, s).Turn? && PhaseOf(c.q, u).Turn? { assert c.q.Holds(s) && c.q.Holds(u); }
  }

  /** Every turn is given back once: over any run the debts add up to the releases, and with the turn
      in progress to the grants. */
  lemma TurnsBalance(kids: seq<Tree>, net: Net, es: seq<Event>, c: System)
    requires Reaches(kids, net, es, c)
    ensures var trace := LockTrace(Boot(kids, net), es);
            && c.q.lock.TotalDebt() == L.ReleaseCount(trace)
            && c.q.lock.TotalDebt() + LT.Busy(c.q) == L.GrantCount(L.Start, trace)
  {
    LockRefines(Boot(kids, net), es, c);
    LT.MutualExclusion(LockTrace(Boot(kids, net), es), c.q);
  }

  /** A request is gathered at most once more often than the reaper has evicted it; only once if the
      session never leaves its entry untouched for 31 seconds before looking again; and at least once
      before anything is served. */
  lemma OneGatherPerSession(kids: seq<Tree>, net: Net, es: seq<Event>, c: System, s: Sid)
    requires Reaches(kids, net, es, c) && s in c.sessions
    ensures c.sessions[s].gathers <= 1 + c.sessions[s].evictions
    ensures c.sessions[s].gap < Ttl ==> c.sessions[s].gathers <= 1
    ensures c.sessions[s].calls > 0 ==> c.sessions[s].gathers >= 1
  {
    ReachedIsSafe(kids, net, es, c);
    assert OrderlySession(c, s);
  }

  /** With the lock free, every cache key belongs to a request not yet answered with its last page. */
  lemma CacheHoldsOpenRequests(kids: seq<Tree>, net: Net, es: seq<Event>, c: System, r: ReqId) returns (s: Sid)
    requires Reaches(kids, net, es, c) && !c.q.lock.active && r in c.cache
    ensures s in c.sessions && c.sessions[s].req == r && !c.sessions[s].closed
  {
    ReachedIsSafe(kids, net, es, c);
    s :| s in c.sessions && c.sessions[s].req == r;
    assert OrderlySession(c, s);
    assert PhaseOf(c.q, s).Turn? ==> c.q.Holds(s);
  }

  // -------------------------------------------------------------- no deadlock

  // A handler or the lock moves on; no new call, crash or clock is needed.
  ghost predicate MovesOn(c: System, e: Event) {
    Enabled(c, e) && (e.Step? || e.Release? || e.Return? || (e.Retest? && L.Grants(c.q, L.Retest(e.s))))
  }

  // A gather asks a node not yet asked, or ends.
  lemma GatherMovesOn(c: System, s: Sid) returns (a: Action)
    requires s in c.sessions && c.sessions[s].work.Asking?
    ensures CanAct(c.sessions[s], a, c.kids)
  {
    var nodes, asked := PreorderAll(c.kids), c.sessions[s].work.asked;
    a := EndGather;
    if t :| t in nodes && t.id !in asked {
      var i :| 0 <= i < |nodes| && nodes[i] == t;
      assert Ids(nodes)[i] == t.id;
      a := Ask(t.id);
    }
  }

  // The turn is with a call that has its payload and was sent with a negative offset.
  predicate AboutToThrow(c: System) {
    exists s :: s in c.sessions && Enabled(c, Throw(s))
  }

  lemma HolderMovesOn(c: System, s: Sid) returns (e: Event)
    requires Safe(c) && s in c.sessions && c.q.Holds(s) && !Enabled(c, Throw(s))
    ensures MovesOn(c, e)
  {
    TurnPhase(c, s);
    e := HandlerMovesOn(c, s);
  }

  lemma HandlerMovesOn(c: System, s: Sid) returns (e: Event)
    requires s in c.sessions && c.q.Holds(s) && !Enabled(c, Throw(s))
    requires c.sessions[s].work.Answering? ==> c.sessions[s].work.page.Page?
    ensures MovesOn(c, e)
  {
    match c.sessions[s].work {
      case Fresh => e := Step(s, LookUp);
      case Asking(_) =>
        var a := GatherMovesOn(c, s);
        e := Step(s, a);
      case Loaded(_) => e := Step(s, Slice);
      case Answering(_) => e := Step(s, Evict);
      case Leaving(_) => e := Release(s);
    }
  }

  lemma LockProgressLifts(c: System, le: L.Event) returns (e: Event)
    requires Safe(c) && LT.Progresses(c.q, le) && !AboutToThrow(c)
    ensures MovesOn(c, e)
  {
    assert le.t in c.sessions;
    if le.Release? {
      e := HolderMovesOn(c, le.t);
    } else if le.Notify? {
      e := ReturnMovesOn(c, le.t);
    } else {
      e := Retest(le.t);
    }
  }

  lemma ReturnMovesOn(c: System, s: Sid) returns (e: Event)
    requires Safe(c) && s in c.sessions && c.q.Notifies(s)
    ensures MovesOn(c, e)
  {
    e := Return(s);
    NotifyPhase(c, s);
  }

  lemma SomeoneMovesOn(c: System) returns (e: Event)
    requires Safe(c) && c.q.threads != map[] && !AboutToThrow(c)
    ensures MovesOn(c, e)
  {
    var le := LT.SomeoneProgresses(c.q);
    e := LockProgressLifts(c, le);
  }

  lemma OnlyReturnsMoveOn(c: System, s: Sid, e: Event)
    requires L.Inv(c.q) && s in c.sessions && Enabled(c, Throw(s)) && MovesOn(c, e)
    ensures e.Return?
  {
    assert c.q.Holds(s);
    assert c.q.lock.active;
    assert c.q.Holds(e.s) ==> e.s == s;
  }

  /** While any call is under way, in whatever state nodes, reaper and clients are, some handler can
      go on or the queue can grant a turn; unless the turn is with a call that is about to throw, and
      then nothing but returns of earlier calls can go on. */
  lemma NeverStuck(kids: seq<Tree>, net: Net, es: seq<Event>, c: System) returns (e: Event)
    requires Reaches(kids, net, es, c) && c.q.threads != map[]
    ensures !AboutToThrow(c) ==> MovesOn(c, e)
    ensures AboutToThrow(c) ==> forall f :: MovesOn(c, f) ==> f.Return?
  {
    ReachedIsSafe(kids, net, es, c);
    e := ReadClock;
    if AboutToThrow(c) {
      var s :| s in c.sessions && Enabled(c, Throw(s));
      forall f | MovesOn(c, f) ensures f.Return? { OnlyReturnsMoveOn(c, s, f); }
    } else {
      e := SomeoneMovesOn(c);
    }
  }

  // ------------------------------------------------------- client loops never throw

  /** No session starts at a negative offset; client loops start at zero. */
  predicate Proper(es: seq<Event>) {
    forall i :: 0 <= i < |es| && es[i].Join? ==> es[i].start >= 0
  }

  predicate AllProper(c: System) {
    forall s :: s in c.sessions ==> c.sessions[s].start >= 0
  }

  lemma ProperNeverThrows(c: System, s: Sid)
    requires Safe(c) && s in c.sessions && c.sessions[s].start >= 0
    ensures !Enabled(c, Throw(s))
  {
    assert OrderlySession(c, s);
  }

  lemma StartsStay(c: System, e: Event, u: Sid)
    requires Enabled(c, e) && u in c.sessions && !(e.Join? && e.s == u)
    ensures u in Do(c, e).sessions && Do(c, e).sessions[u].start == c.sessions[u].start
  {
    if e.Step? { var next, entry := StepResult(c, e.s, e.a); }
  }

  lemma ProperStep(c: System, e: Event)
    requires Enabled(c, e) && AllProper(c) && (e.Join? ==> e.start >= 0)
    ensures AllProper(Do(c, e))
  {
    SessionsStay(c, e);
    forall u | u in Do(c, e).sessions ensures Do(c, e).sessions[u].start >= 0 {
      if u in c.sessions { StartsStay(c, e, u); }
    }
  }

  lemma {:induction false} ProperRunIsCalm(c: System, es: seq<Event>, c': System)
    requires Safe(c) && AllProper(c) && Proper(es) && Exec(c, es, c')
    ensures Calm(c, es, c') && AllProper(c')
    decreases es
  {
    if es == [] {
    } else {
      if es[0].Throw? { ProperNeverThrows(c, es[0].s); }
      StepSafe(c, es[0]);
      ProperStep(c, es[0]);
      assert Proper(es[1..]);
      ProperRunIsCalm(Do(c, es[0]), es[1..], c');
    }
  }

  /** As long as nobody sends a negative offset, no run has a call that throws: every state that can be
      reached at all is reached without one. */
  lemma NoCallThrows(kids: seq<Tree>, net: Net, es: seq<Event>, c: System)
    requires Exec(Boot(kids, net), es, c) && Proper(es)
    ensures Reaches(kids, net, es, c) && !AboutToThrow(c)
    ensures forall s :: s in c.sessions && !c.sessions[s].progress.Finished? ==> c.sessions[s].offset >= 0
  {
    LT.StartInv();
    ProperRunIsCalm(Boot(kids, net), es, c);
    ReachedIsSafe(kids, net, es, c);
    forall s | s in c.sessions
      ensures !Enabled(c, Throw(s)) && (!c.sessions[s].progress.Finished? ==> c.sessions[s].offset >= 0)
    {
      ProperNeverThrows(c, s);
      assert OrderlySession(c, s);
    }
  }

  // ------------------------------------------------- prefixes of one payload

  predicate Prefix(s: Session, full: bytes) {
    s.start == 0 ==>
      if s.progress.Finished? then s.got == full else 0 <= s.offset <= |full| && s.got == full[..s.offset]
  }

  predicate SlicedFrom(s: Session, full: bytes) {
    && (s.work.Loaded? ==> s.work.full == full)
    && (s.work.Answering? ==> s.work.page == PageAt(full, s.requested, s.offset))
    && (s.work.Leaving? && s.work.status.Answer? ==> s.work.status.page == PageAt(full, s.requested, s.offset))
  }

  lemma PageExtends(full: bytes, requested: int, offset: nat)
    requires offset <= |full|
    ensures var p := PageAt(full, requested, offset);
            var end := if p.hasMore then p.nextOffset else |full|;
            p.Page? && 0 <= end <= |full| && full[..offset] + Joined(p.segments) == full[..end]
  {
    var p := PageAt(full, requested, offset);
    JoinedPage(p);
    var end := if p.hasMore then p.nextOffset else |full|;
    assert full[..offset] + full[offset..end] == full[..end];
    assert full[offset..|full|] == full[offset..];
  }

  lemma DeliverExtends(s: Session, full: bytes)
    requires s.work.Leaving? && Sound(s.work.status) && SlicedFrom(s, full)
    requires Prefix(s, full) && (s.progress.Ongoing? || s.progress.Dead?)
    ensures Prefix(Deliver(s), full)
  {
    if s.start == 0 && s.progress.Ongoing? && s.work.status.Answer? {
      PageExtends(full, s.requested, s.offset);
      assert full[..|full|] == full;
    }
  }

  // ------------------------------------------------------ snapshot consistency

  /** A session whose entry the reaper has not evicted sees one payload only. */
  predicate Pinned(s: Session, entry: Option<Entry>) {
    s.evictions == 0 ==>
      match s.snapshot
      case None =>
        s.got == [] && s.offset == s.start && s.calls == 0 && !s.progress.Finished? && entry.None?
        && !s.work.Loaded? && !s.work.Answering? && !(s.work.Leaving? && s.work.status.Answer?)
      case Some(full) =>
        Prefix(s, full) && SlicedFrom(s, full) && !s.work.Asking? && s.gathers >= 1
        && (entry.Some? ==> entry.value.payload == full)
  }

  predicate PinnedSession(c: System, s: Sid)
    requires s in c.sessions
  {
    Pinned(c.sessions[s], EntryOf(c.cache, c.sessions[s].req))
  }

  lemma ActPinned(s: Session, entry: Option<Entry>, a: Action, c: System)
    requires Orderly(s, Turn, entry, c.clock) && CanAct(s, a, c.kids) && Pinned(s, entry)
    ensures var (s', entry') := Act(s, entry, a, c.net, c.clock, c.kids); Pinned(s', entry')
  {}

  lemma DeliverPinned(s: Session, entry: Option<Entry>, clock: int)
    requires Orderly(s, Notifying, entry, clock) && Pinned(s, entry)
    ensures Pinned(Deliver(s), entry)
  {
    if s.evictions == 0 && s.snapshot.Some? { DeliverExtends(s, s.snapshot.value); }
  }

  lemma TurnPhase(c: System, s: Sid)
    requires Safe(c) && s in c.sessions && c.q.Holds(s)
    ensures Orderly(c.sessions[s], Turn, EntryOf(c.cache, c.sessions[s].req), c.clock)
  {
    assert OrderlySession(c, s);
  }

  lemma NotifyPhase(c: System, s: Sid)
    requires Safe(c) && s in c.sessions && c.q.Notifies(s)
    ensures Orderly(c.sessions[s], Notifying, EntryOf(c.cache, c.sessions[s].req), c.clock)
  {
    assert OrderlySession(c, s);
  }

  lemma HandlerPinned(c: System, u: Sid, a: Action)
    requires Safe(c) && Enabled(c, Step(u, a)) && PinnedSession(c, u)
    ensures u in Do(c, Step(u, a)).sessions && PinnedSession(Do(c, Step(u, a)), u)
  {
    TurnPhase(c, u);
    ActPinned(c.sessions[u], EntryOf(c.cache, c.sessions[u].req), a, c);
    var next, entry := StepResult(c, u, a);
  }

  lemma ReturnPinned(c: System, u: Sid)
    requires Safe(c) && Enabled(c, Return(u)) && PinnedSession(c, u)
    ensures u in Do(c, Return(u)).sessions && PinnedSession(Do(c, Return(u)), u)
  {
    NotifyPhase(c, u);
    DeliverPinned(c.sessions[u], EntryOf(c.cache, c.sessions[u].req), c.clock);
    ActorView(c, Return(u));
  }

  lemma ActorPinned(c: System, e: Event, u: Sid)
    requires Safe(c) && Enabled(c, e) && Actor(e) == Some(u) && !e.Join? && !e.Throw?
    requires u in c.sessions && PinnedSession(c, u)
    ensures u in Do(c, e).sessions && PinnedSession(Do(c, e), u)
  {
    if e.Step? {
      HandlerPinned(c, u, e.a);
    } else if e.Return? {
      ReturnPinned(c, u);
    } else {
      ActorView(c, e);
    }
  }

  lemma StepPinned(c: System, e: Event, u: Sid)
    requires Safe(c) && Enabled(c, e) && !e.Throw? && u in Do(c, e).sessions
    requires u in c.sessions ==> PinnedSession(c, u)
    ensures PinnedSession(Do(c, e), u)
  {
    SessionsStay(c, e);
    if e.Sweep? {
      SweepView(c, u);
    } else if e.Join? && u == e.s {
      JoinView(c, e);
    } else if Actor(e) == Some(u) {
      ActorPinned(c, e, u);
    } else {
      OthersUntouched(c, e, u);
    }
  }

  lemma {:induction false} RunPinned(c: System, es: seq<Event>, c': System)
    requires Safe(c) && Calm(c, es, c')
    requires forall u :: u in c.sessions ==> PinnedSession(c, u)
    ensures forall u :: u in c'.sessions ==> PinnedSession(c', u)
    decreases es
  {
    if es != [] {
      StepSafe(c, es[0]);
      forall u | u in Do(c, es[0]).sessions ensures PinnedSession(Do(c, es[0]), u) {
        StepPinned(c, es[0], u);
      }
      RunPinned(Do(c, es[0]), es[1..], c');
    }
  }

  /** Whatever nodes die, return or change their data meanwhile: while the reaper has not evicted the
      request, all a session has been given is a prefix of the one payload gathered for its first
      page, and all of it once the session is finished. */
  lemma SnapshotConsistency(kids: seq<Tree>, net: Net, es: seq<Event>, c: System, s: Sid)
    requires Reaches(kids, net, es, c) && s in c.sessions && c.sessions[s].evictions == 0
    ensures c.sessions[s].calls > 0 || c.sessions[s].progress.Finished? ==> c.sessions[s].snapshot.Some?
    ensures c.sessions[s].snapshot.Some? ==>
              Prefix(c.sessions[s], c.sessions[s].snapshot.value) &&
              SlicedFrom(c.sessions[s], c.sessions[s].snapshot.value)
    ensures c.sessions[s].snapshot.None? ==> c.sessions[s].got == []
  {
    LT.StartInv();
    RunPinned(Boot(kids, net), es, c);
    assert PinnedSession(c, s);
  }

  // --------------------------------------------------------------- end to end

  // Nodes come back with the shard they always had.
  predicate FixedShards(es: seq<Event>, shards: Net) {
    forall i :: 0 <= i < |es| && es[i].Recover? ==> es[i].id in shards && es[i].shard == shards[es[i].id]
  }

  ghost predicate Counted(s: Session, total: nat) {
    s.start == 0 ==>
      if s.progress.Finished? then s.calls == PageCount(total, s.requested)
      else
        && 0 <= s.offset <= total && s.offset % RecordSize == 0 && (s.offset == 0 || s.offset < total)
        && s.calls + PageCount(total - s.offset, s.requested) == PageCount(total, s.requested)
  }

  /** Everything a session holds, or is about to be given, is cut from the full data. */
  ghost predicate Faithful(s: Session, entry: Option<Entry>, full: bytes, shards: Net) {
    && Prefix(s, full) && Counted(s, |full|) && SlicedFrom(s, full)
    && (s.work.Asking? ==> FromShards(Answers(s.work.asked), shards))
    && (entry.Some? ==> entry.value.payload == full)
  }

  ghost predicate FaithfulSession(c: System, s: Sid, full: bytes, shards: Net)
    requires s in c.sessions
  {
    Faithful(c.sessions[s], EntryOf(c.cache, c.sessions[s].req), full, shards)
  }

  lemma AskedFromShards(asked: map<Overlay.Id, Option<bytes>>, v: Overlay.Id, net: Net, shards: Net)
    requires FromShards(Answers(asked), shards) && FromShards(net, shards)
    ensures FromShards(Answers(asked[v := if v in net then Some(net[v]) else None]), shards)
  {}

  lemma ActFaithful(s: Session, entry: Option<Entry>, a: Action, c: System, full: bytes, shards: Net)
    requires Orderly(s, Turn, entry, c.clock) && CanAct(s, a, c.kids) && FromShards(c.net, shards)
    requires full == Shards(shards, PreorderAll(c.kids)) && Faithful(s, entry, full, shards)
    ensures var (s', entry') := Act(s, entry, a, c.net, c.clock, c.kids); Faithful(s', entry', full, shards)
  {
    if a.EndGather? {
      GatherIsFull(Answers(s.work.asked), shards, c.kids);
    } else if a.Ask? {
      AskedFromShards(s.work.asked, a.id, c.net, shards);
    }
  }

  lemma DeliverFaithful(s: Session, entry: Option<Entry>, clock: int, full: bytes, shards: Net)
    requires Orderly(s, Notifying, entry, clock) && |full| % RecordSize == 0 && Faithful(s, entry, full, shards)
    ensures Faithful(Deliver(s), entry, full, shards)
  {
    DeliverExtends(s, full);
    if s.start == 0 && s.progress.Ongoing? && s.work.status.Answer? {
      AlignedPage(full, s.requested, s.offset);
      PageCountStep(|full| - s.offset, s.requested);
    }
  }

  lemma HandlerFaithful(c: System, u: Sid, a: Action, full: bytes, shards: Net)
    requires Safe(c) && Enabled(c, Step(u, a)) && FromShards(c.net, shards)
    requires full == Shards(shards, PreorderAll(c.kids)) && FaithfulSession(c, u, full, shards)
    ensures u in Do(c, Step(u, a)).sessions && FaithfulSession(Do(c, Step(u, a)), u, full, shards)
  {
    TurnPhase(c, u);
    ActFaithful(c.sessions[u], EntryOf(c.cache, c.sessions[u].req), a, c, full, shards);
    var next, entry := StepResult(c, u, a);
  }

  lemma ReturnFaithful(c: System, u: Sid, full: bytes, shards: Net)
    requires Safe(c) && Enabled(c, Return(u)) && |full| % RecordSize == 0 && FaithfulSession(c, u, full, shards)
    ensures u in Do(c, Return(u)).sessions && FaithfulSession(Do(c, Return(u)), u, full, shards)
  {
    NotifyPhase(c, u);
    DeliverFaithful(c.sessions[u], EntryOf(c.cache, c.sessions[u].req), c.clock, full, shards);
    ActorView(c, Return(u));
  }

  lemma MoverFaithful(c: System, e: Event, u: Sid, full: bytes, shards: Net)
    requires Enabled(c, e) && Actor(e) == Some(u) && !e.Join? && !e.Step? && !e.Return? && !e.Throw?
    requires u in c.sessions && FaithfulSession(c, u, full, shards)
    ensures u in Do(c, e).sessions && FaithfulSession(Do(c, e), u, full, shards)
  {
    ActorView(c, e);
  }

  lemma ActorFaithful(c: System, e: Event, u: Sid, full: bytes, shards: Net)
    requires Safe(c) && Enabled(c, e) && Actor(e) == Some(u) && !e.Join? && !e.Throw? && |full| % RecordSize == 0
    requires full == Shards(shards, PreorderAll(c.kids)) && FromShards(c.net, shards)
    requires u in c.sessions && FaithfulSession(c, u, full, shards)
    ensures u in Do(c, e).sessions && FaithfulSession(Do(c, e), u, full, shards)
  {
    if e.Step? {
      HandlerFaithful(c, u, e.a, full, shards);
    } else if e.Return? {
      ReturnFaithful(c, u, full, shards);
    } else {
      MoverFaithful(c, e, u, full, shards);
    }
  }

  lemma JoinFaithful(c: System, e: Event, full: bytes, shards: Net)
    requires OwnRequests(c) && Enabled(c, e) && e.Join?
    ensures e.s in Do(c, e).sessions && FaithfulSession(Do(c, e), e.s, full, shards)
  {
    JoinView(c, e);
  }

  lemma SweepFaithful(c: System, u: Sid, full: bytes, shards: Net)
    requires Enabled(c, Sweep) && u in c.sessions && FaithfulSession(c, u, full, shards)
    ensures u in Do(c, Sweep).sessions && FaithfulSession(Do(c, Sweep), u, full, shards)
  {
    SweepView(c, u);
  }

  lemma OtherFaithful(c: System, e: Event, u: Sid, full: bytes, shards: Net)
    requires OwnRequests(c) && Enabled(c, e) && u in c.sessions && Actor(e) != Some(u) && !e.Sweep?
    requires FaithfulSession(c, u, full, shards)
    ensures u in Do(c, e).sessions && FaithfulSession(Do(c, e), u, full, shards)
  {
    OthersUntouched(c, e, u);
  }

  lemma StepFaithful(c: System, e: Event, full: bytes, shards: Net)
    requires Safe(c) && Enabled(c, e) && !e.Throw? && |full| % RecordSize == 0
    requires full == Shards(shards, PreorderAll(c.kids)) && FromShards(c.net, shards)
    requires forall u :: u in c.sessions ==> FaithfulSession(c, u, full, shards)
    ensures forall u :: u in Do(c, e).sessions ==> FaithfulSession(Do(c, e), u, full, shards)
  {
    SessionsStay(c, e);
    forall u | u in Do(c, e).sessions ensures FaithfulSession(Do(c, e), u, full, shards) {
      if e.Sweep? {
        SweepFaithful(c, u, full, shards);
      } else if e.Join? && u == e.s {
        JoinFaithful(c, e, full, shards);
      } else if Actor(e) == Some(u) {
        ActorFaithful(c, e, u, full, shards);
      } else {
        OtherFaithful(c, e, u, full, shards);
      }
    }
  }

  lemma NetStays(c: System, e: Event, shards: Net)
    requires Enabled(c, e) && FromShards(c.net, shards)
    requires e.Recover? ==> e.id in shards && e.shard == shards[e.id]
    ensures FromShards(Do(c, e).net, shards) && Do(c, e).kids == c.kids
  {}

  lemma {:induction false} RunFaithful(c: System, es: seq<Event>, c': System, full: bytes, shards: Net)
    requires Safe(c) && Calm(c, es, c') && |full| % RecordSize == 0
    requires full == Shards(shards, PreorderAll(c.kids)) && FixedShards(es, shards) && FromShards(c.net, shards)
    requires forall u :: u in c.sessions ==> FaithfulSession(c, u, full, shards)
    ensures forall u :: u in c'.sessions ==> FaithfulSession(c', u, full, shards)
    decreases es
  {
    if es != [] {
      var c1 := Do(c, es[0]);
      assert FixedShards(es[1..], shards);
      NetStays(c, es[0], shards);
      StepSafe(c, es[0]);
      StepFaithful(c, es[0], full, shards);
      RunFaithful(c1, es[1..], c', full, shards);
    }
  }

  /** Every cache entry is the full data, every page in the making is cut from it; a session that started
      at zero, as client loops do, has exactly its first `offset` bytes while it is unfinished, and all
      of it in the exact page count when it is finished. */
  ghost predicate Delivers(c: System, full: bytes) {
    && (forall r :: r in c.cache ==> c.cache[r].payload == full)
    && forall s :: s in c.sessions ==>
         Prefix(c.sessions[s], full) && SlicedFrom(c.sessions[s], full) && Counted(c.sessions[s], |full|)
  }

  /** Over every interleaving of sessions, sweeps, crashes and recoveries: the cache and every page
      handed out hold the preorder concatenation of all shards below the leader; an unfinished session
      has exactly its first `offset` bytes; a finished one has all of it, in the exact page count. */
  lemma EndToEnd(kids: seq<Tree>, net: Net, shards: Net, es: seq<Event>, c: System)
    requires Reaches(kids, net, es, c) && FromShards(net, shards) && FixedShards(es, shards)
    requires forall v :: v in shards ==> |shards[v]| % RecordSize == 0
    ensures Delivers(c, Shards(shards, PreorderAll(kids)))
  {
    var full := Shards(shards, PreorderAll(kids));
    ShardsAligned(shards, PreorderAll(kids));
    LT.StartInv();
    RunFaithful(Boot(kids, net), es, c, full, shards);
    ReachedIsSafe(kids, net, es, c);
    forall r | r in c.cache ensures c.cache[r].payload == full {
      var s :| s in c.sessions && c.sessions[s].req == r;
      assert FaithfulSession(c, s, full, shards);
    }
    forall s | s in c.sessions
      ensures Prefix(c.sessions[s], full) && SlicedFrom(c.sessions[s], full) && Counted(c.sessions[s], |full|)
    {
      assert FaithfulSession(c, s, full, shards);
    }
  }

  /** In every reachable state the slice that a client loop's handler is about to make has 32-bit values
      throughout, given room for the data and one chunk. */
  lemma SlicesFit(kids: seq<Tree>, net: Net, shards: Net, es: seq<Event>, c: System, s: Sid)
    requires Reaches(kids, net, es, c) && FromShards(net, shards) && FixedShards(es, shards)
    requires forall v :: v in shards ==> |shards[v]| % RecordSize == 0
    requires s in c.sessions && c.sessions[s].start == 0 && c.sessions[s].work.Loaded?
    requires Roomy(|Shards(shards, PreorderAll(kids))|, c.sessions[s].requested)
    ensures c.q.Holds(s) ==> FitsInt32(|c.sessions[s].work.full|, c.sessions[s].requested, c.sessions[s].offset)
  {
    var full := Shards(shards, PreorderAll(kids));
    EndToEnd(kids, net, shards, es, c);
    ReachedIsSafe(kids, net, es, c);
    assert OrderlySession(c, s);
    if c.q.Holds(s) { RoomyFits(|full|, c.sessions[s].requested, c.sessions[s].offset); }
  }
}
