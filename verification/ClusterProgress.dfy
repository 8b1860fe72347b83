/** Calls under way come to an end by themselves, in a bounded number of steps. */
module ClusterProgress {
  import opened Collections
  import L = FairLockRuns
  import LT = FairLockTheorems
  import Overlay
  import P = FairLockProgress
  import opened ScatterGather
  import opened LeaderNode
  import opened Cluster
  import opened ClusterSafety
  import opened ClusterTheorems

  // ------------------------------------------------------------ the measure

  function NodeIds(kids: seq<Tree>): set<Overlay.Id> {
    set v | v in Ids(PreorderAll(kids))
  }

  // Steps a handler still has to make before it releases: each node is asked once.
  function HandlerLeft(work: Work, ids: set<Overlay.Id>): nat {
    match work
    case Fresh => |ids| + 6
    case Asking(asked) => |ids - asked.Keys| + 5
    case Loaded(_) => 4
    case Answering(_) => 3
    case Leaving(_) => 2
  }

  function CallLeft(s: Session, ph: Phase, ids: set<Overlay.Id>): nat {
    match ph
    case Outside => 0
    case Waiting => |ids| + 7
    case Turn => HandlerLeft(s.work, ids)
    case Notifying => 1
  }

  function CallLeftIn(c: System): Sid -> int {
    s => if s in c.sessions then CallLeft(c.sessions[s], PhaseOf(c.q, s), NodeIds(c.kids)) else 0
  }

  ghost function StepsLeft(c: System): int {
    Sum(c.sessions.Keys, CallLeftIn(c))
  }

  lemma {:induction false} StepsLeftNotNegative(xs: set<Sid>, c: System)
    ensures Sum(xs, CallLeftIn(c)) >= 0
    decreases xs
  {
    if xs != {} {
      var x :| x in xs;
      SumPick(xs, CallLeftIn(c), x);
      StepsLeftNotNegative(xs - {x}, c);
    }
  }

  // ------------------------------------------------------- every step counts

  lemma AskedOneMore(ids: set<Overlay.Id>, asked: map<Overlay.Id, Option<bytes>>, v: Overlay.Id, answer: Option<bytes>)
    requires v in ids && v !in asked
    ensures |ids - asked[v := answer].Keys| < |ids - asked.Keys|
  {
    assert ids - asked[v := answer].Keys == (ids - asked.Keys) - {v};
  }

  lemma NothingAsked(ids: set<Overlay.Id>)
    ensures HandlerLeft(Asking(map[]), ids) == |ids| + 5
  {
    var none: map<Overlay.Id, Option<bytes>> := map[];
    assert ids - none.Keys == ids;
  }

  lemma HandlerLowers(s: Session, entry: Option<Entry>, a: Action, c: System)
    requires CanAct(s, a, c.kids)
    ensures var s', ids := Act(s, entry, a, c.net, c.clock, c.kids).0, NodeIds(c.kids);
            HandlerLeft(s'.work, ids) < HandlerLeft(s.work, ids)
  {
    var ids := NodeIds(c.kids);
    if a.Ask? {
      AskedOneMore(ids, s.work.asked, a.id, if a.id in c.net then Some(c.net[a.id]) else None);
    } else if a.LookUp? {
      NothingAsked(ids);
    }
  }

  lemma GrantPhase(c: System, s: Sid)
    requires Safe(c) && MovesOn(c, Retest(s))
    ensures PhaseOf(c.q, s).Waiting? && PhaseOf(Do(c, Retest(s)).q, s).Turn? && c.sessions[s].work.Fresh?
  {
    assert OrderlySession(c, s);
  }

  lemma ActorLowers(c: System, e: Event, s: Sid)
    requires Safe(c) && MovesOn(c, e) && Actor(e) == Some(s)
    ensures s in c.sessions && CallLeftIn(Do(c, e))(s) < CallLeftIn(c)(s)
  {
    ActorPhase(c, e);
    if e.Step? {
      HandlerLowers(c.sessions[s], EntryOf(c.cache, c.sessions[s].req), e.a, c);
      var next, entry := StepResult(c, s, e.a);
    } else if e.Retest? {
      GrantPhase(c, s);
      ActorView(c, e);
    } else {
      ActorView(c, e);
    }
  }

  lemma OthersKeep(c: System, e: Event, s: Sid)
    requires OwnRequests(c) && MovesOn(c, e) && Actor(e) != Some(s) && s in c.sessions
    ensures CallLeftIn(Do(c, e))(s) == CallLeftIn(c)(s)
  {
    OthersUntouched(c, e, s);
  }

  lemma SameSessions(c: System, e: Event)
    requires MovesOn(c, e)
    ensures Do(c, e).sessions.Keys == c.sessions.Keys && Do(c, e).kids == c.kids
  {}

  /** Every move lowers the number of steps left. */
  lemma MoveLowers(c: System, e: Event)
    requires Safe(c) && MovesOn(c, e)
    ensures 0 <= StepsLeft(Do(c, e)) < StepsLeft(c)
  {
    var f, g, s := CallLeftIn(c), CallLeftIn(Do(c, e)), Actor(e).value;
    SameSessions(c, e);
    ActorLowers(c, e, s);
    forall u | u in c.sessions.Keys && u != s ensures f(u) == g(u) { OthersKeep(c, e, u); }
    SumChange(c.sessions.Keys, f, g, s);
    StepsLeftNotNegative(c.sessions.Keys, Do(c, e));
  }

  // ------------------------------------------------------- tests that fail

  /** Handlers and the lock work: a step, a release, a return or a test of the predicate, passed or not. */
  predicate Works(c: System, e: Event) {
    Enabled(c, e) && (e.Step? || e.Release? || e.Return? || e.Retest?)
  }

  ghost function Patience(c: System): int {
    P.Weigh(|c.q.threads|, StepsLeft(c), |P.AwakeSet(c.q)|)
  }

  lemma PatienceNotNegative(c: System)
    ensures 0 <= StepsLeft(c) && 0 <= Patience(c)
  {
    StepsLeftNotNegative(c.sessions.Keys, c);
    P.TimesAtMost(0, |c.q.threads| + 1, StepsLeft(c));
  }

  lemma MoveKeepsThreads(c: System, e: Event)
    requires MovesOn(c, e)
    ensures |Do(c, e).q.threads| <= |c.q.threads|
  {
    var q' := Do(c, e).q;
    assert q'.threads.Keys <= c.q.threads.Keys;
    P.Subset(q'.threads.Keys, c.q.threads.Keys);
    assert |q'.threads| == |q'.threads.Keys| && |c.q.threads| == |c.q.threads.Keys|;
  }

  lemma FailedTestKeeps(c: System, s: Sid, u: Sid)
    requires Works(c, Retest(s)) && !MovesOn(c, Retest(s)) && u in c.sessions
    ensures CallLeftIn(Do(c, Retest(s)))(u) == CallLeftIn(c)(u)
  {
    assert PhaseOf(Do(c, Retest(s)).q, u) == PhaseOf(c.q, u);
  }

  lemma FailedTestWaits(c: System, s: Sid)
    requires Works(c, Retest(s)) && !MovesOn(c, Retest(s))
    ensures StepsLeft(Do(c, Retest(s))) == StepsLeft(c) && |Do(c, Retest(s)).q.threads| == |c.q.threads|
    ensures |P.AwakeSet(Do(c, Retest(s)).q)| == |P.AwakeSet(c.q)| - 1
  {
    var c' := Do(c, Retest(s));
    P.FailedTestSleeps(c.q, L.Retest(s));
    forall u | u in c.sessions ensures CallLeftIn(c')(u) == CallLeftIn(c)(u) { FailedTestKeeps(c, s, u); }
    SumSame(c.sessions.Keys, CallLeftIn(c), CallLeftIn(c'));
  }

  /** Every piece of work leaves less to do, a failed test included. */
  lemma WorkLowers(c: System, e: Event)
    requires Safe(c) && Works(c, e)
    ensures 0 <= Patience(Do(c, e)) < Patience(c)
  {
    var c' := Do(c, e);
    PatienceNotNegative(c');
    if MovesOn(c, e) {
      MoveLowers(c, e);
      MoveKeepsThreads(c, e);
      P.FewAwake(c'.q);
      P.WeighLowers(|c.q.threads|, StepsLeft(c), |P.AwakeSet(c.q)|, |c'.q.threads|, StepsLeft(c'), |P.AwakeSet(c'.q)|);
    } else {
      FailedTestWaits(c, e.s);
    }
  }

  // --------------------------------------------------------- runs of work

  ghost predicate WorkRun(c: System, es: seq<Event>, c': System)
    decreases es
  {
    if es == [] then c' == c else Works(c, es[0]) && WorkRun(Do(c, es[0]), es[1..], c')
  }

  lemma {:induction false} WorkIsBounded(c: System, es: seq<Event>, c': System)
    requires Safe(c) && AllProper(c) && WorkRun(c, es, c')
    ensures Safe(c') && AllProper(c') && |es| + Patience(c') <= Patience(c)
    decreases es
  {
    if es == [] {
    } else {
      WorkLowers(c, es[0]);
      StepSafe(c, es[0]);
      ProperStep(c, es[0]);
      WorkIsBounded(Do(c, es[0]), es[1..], c');
    }
  }

  lemma IdleIsDone(c: System)
    requires Safe(c) && AllProper(c)
    ensures (forall e :: !Works(c, e)) ==> c.q.threads == map[]
  {
    if c.q.threads != map[] {
      forall s | s in c.sessions ensures !Enabled(c, Throw(s)) { ProperNeverThrows(c, s); }
      var e := SomeoneMovesOn(c);
      assert Works(c, e);
    }
  }

  lemma {:induction false} WorkFinishes(c: System) returns (es: seq<Event>, c': System)
    requires Safe(c) && AllProper(c)
    ensures WorkRun(c, es, c') && c'.q.threads == map[]
    decreases Patience(c)
  {
    es, c' := [], c;
    if e :| Works(c, e) {
      WorkLowers(c, e);
      StepSafe(c, e);
      ProperStep(c, e);
      var rest, last := WorkFinishes(Do(c, e));
      es, c' := [e] + rest, last;
      assert es[1..] == rest;
    } else {
      IdleIsDone(c);
    }
  }

  /** From any state that can be reached without negative offsets: work on the calls under way has bounded
      length, however many tests fail and in whatever order; work that cannot go on has completed them
      all; and there is such work. */
  lemma CallsComplete(kids: seq<Tree>, net: Net, es: seq<Event>, c: System) returns (ms: seq<Event>, c': System)
    requires Exec(Boot(kids, net), es, c) && Proper(es)
    ensures WorkRun(c, ms, c') && c'.q.threads == map[]
    ensures forall fs, d :: WorkRun(c, fs, d) ==>
              |fs| <= Patience(c) && (d.q.threads != map[] ==> exists e :: Works(d, e))
  {
    NoCallThrows(kids, net, es, c);
    ReachedIsSafe(kids, net, es, c);
    LT.StartInv();
    ProperRunIsCalm(Boot(kids, net), es, c);
    ms, c' := WorkFinishes(c);
    forall fs, d | WorkRun(c, fs, d)
      ensures |fs| <= Patience(c) && (d.q.threads != map[] ==> exists e :: Works(d, e))
    {
      WorkIsBounded(c, fs, d);
      PatienceNotNegative(d);
      IdleIsDone(d);
    }
  }
}
