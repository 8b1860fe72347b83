/** What every run of the fair lock guarantees. */
module FairLockTheorems {
  import opened Collections
  import opened FairLock
  import opened FairLockRuns

  // ------------------------------------------ mutual exclusion, accounting

  lemma StartInv()
    ensures Inv(Start)
  {}

  lemma TotalAfterLeave(l: Lock, c: Client)
    ensures l.Leave(c).TotalDebt() == l.TotalDebt() + 1
  {
    var l' := l.Leave(c);
    var f, g := ValueIn(l.debt), ValueIn(l'.debt);
    if c in l.debt {
      assert l'.debt.Keys == l.debt.Keys;
      SumChange(l.debt.Keys, f, g, c);
    } else {
      assert l'.debt.Keys - {c} == l.debt.Keys;
      SumPick(l'.debt.Keys, g, c);
      SumSame(l.debt.Keys, f, g);
    }
  }

  function Busy(s: State): nat {
    if s.lock.active then 1 else 0
  }

  lemma {:induction false} Accounting(s: State, es: seq<Event>, s': State)
    requires Inv(s) && Run(s, es, s')
    ensures s'.lock.TotalDebt() == s.lock.TotalDebt() + ReleaseCount(es)
    ensures s'.lock.TotalDebt() + Busy(s') == s.lock.TotalDebt() + Busy(s) + GrantCount(s, es)
    decreases es
  {
    if es != [] {
      var e, s1 := es[0], Do(s, es[0]);
      StepKeepsInv(s, e);
      if e.Release? {
        TotalAfterLeave(s.lock, s.threads[e.t].cli);
        assert s.Holds(e.t);
      }
      Accounting(s1, es[1..], s');
    }
  }

  /** One turn at a time; debts count completed turns; grants exceed them by the turn in progress. */
  lemma MutualExclusion(es: seq<Event>, s: State)
    requires Run(Start, es, s)
    ensures forall t, u :: s.Holds(t) && s.Holds(u) ==> t == u
    ensures s.lock.active <==> exists t :: s.Holds(t)
    ensures s.lock.TotalDebt() == ReleaseCount(es)
    ensures s.lock.TotalDebt() + Busy(s) == GrantCount(Start, es)
  {
    StartInv();
    RunKeepsInv(Start, es, s);
    Accounting(Start, es, s);
  }

  /** Turns of client `c` that were given back. */
  ghost function TurnsOf(s: State, es: seq<Event>, c: Client): nat
    decreases es
  {
    if es == [] || !Enabled(s, es[0]) then 0
    else (if es[0].Release? && s.threads[es[0].t].cli == c then 1 else 0) + TurnsOf(Do(s, es[0]), es[1..], c)
  }

  lemma {:induction false} TurnsAreCharged(s: State, es: seq<Event>, s': State, c: Client)
    requires Run(s, es, s')
    ensures s'.lock.DebtOf(c) == s.lock.DebtOf(c) + TurnsOf(s, es, c)
    decreases es
  {
    if es != [] { TurnsAreCharged(Do(s, es[0]), es[1..], s', c); }
  }

  /** What a client is told it owes is the number of turns it has completed, whoever else was served. */
  lemma DebtCountsTurns(es: seq<Event>, s: State, c: Client)
    requires Run(Start, es, s)
    ensures s.lock.DebtOf(c) == TurnsOf(Start, es, c)
  {
    TurnsAreCharged(Start, es, s, c);
  }

  // ------------------------------------------------------ deadlock freedom

  lemma {:induction false} LeastAmong(s: State, ts: set<Tid>) returns (m: Tid)
    requires Safe(s) && ts != {} && forall t :: t in ts ==> s.Waits(t)
    ensures m in ts && forall u :: u in ts && u != m ==> Before(s.threads[m].ticket, s.threads[u].ticket)
    decreases ts
  {
    m :| m in ts;
    if ts != {m} {
      var n := LeastAmong(s, ts - {m});
      if Before(s.threads[n].ticket, s.threads[m].ticket) { m := n; }
    }
  }

  lemma LeastIsReady(s: State) returns (m: Tid)
    requires Inv(s) && exists t :: s.Waits(t)
    ensures IsLeast(s, m)
    ensures !s.lock.active && !s.NotifyPending() ==> Enabled(s, Retest(m)) && Grants(s, Retest(m))
  {
    var ts := set t | t in s.threads && s.threads[t].Waits();
    var t :| s.Waits(t);
    assert t in ts;
    m := LeastAmong(s, ts);
    LeastSeesNoSmaller(s, m);
  }

  /** Whenever the lock is free and no notify is pending, the least waiter is awake and its
      next test takes the turn. Holds for overlapping calls with one client id. */
  lemma NoLostWakeup(es: seq<Event>, s: State) returns (m: Tid)
    requires Run(Start, es, s)
    requires exists t :: s.Waits(t)
    ensures EntriesOwned(s)
    ensures IsLeast(s, m)
    ensures !s.lock.active && !s.NotifyPending() ==> Enabled(s, Retest(m)) && Grants(s, Retest(m))
  {
    StartInv();
    RunKeepsInv(Start, es, s);
    m := LeastIsReady(s);
  }

  // Progress of the lock itself: not a new call, and not a spurious wake-up.
  ghost predicate Progresses(s: State, e: Event) {
    Enabled(s, e) && (e.Release? || e.Notify? || (e.Retest? && Grants(s, e)))
  }

  lemma SomeoneProgresses(s: State) returns (e: Event)
    requires Inv(s) && s.threads != map[]
    ensures Progresses(s, e)
  {
    var t :| t in s.threads;
    if s.lock.active {
      var h :| s.Holds(h);
      e := Release(h);
    } else if s.NotifyPending() {
      var n :| n in s.threads && s.threads[n].Notifying?;
      e := Notify(n);
    } else {
      assert !s.Holds(t) && s.Waits(t);
      var m := LeastIsReady(s);
      e := Retest(m);
    }
  }

  /** No reachable state with a thread inside the lock is stuck. */
  lemma DeadlockFree(es: seq<Event>, s: State) returns (e: Event)
    requires Run(Start, es, s) && s.threads != map[]
    ensures Progresses(s, e)
  {
    StartInv();
    RunKeepsInv(Start, es, s);
    e := SomeoneProgresses(s);
  }

  // ----------------------------------- one outstanding acquire per client

  /** A client arrives only when it is neither waiting nor holding. */
  predicate SoloStep(s: State, e: Event) {
    e.Arrive? ==> forall t :: t in s.threads && s.threads[t].cli == e.cli ==> s.threads[t].Notifying?
  }

  ghost predicate SoloRun(s: State, es: seq<Event>, s': State)
    decreases es
  {
    if es == [] then s == s'
    else Enabled(s, es[0]) && SoloStep(s, es[0]) && SoloRun(Do(s, es[0]), es[1..], s')
  }

  predicate Inside(s: State, t: Tid) {
    t in s.threads && !s.threads[t].Notifying?
  }

  /** The ticket on record is the waiter's own, issued at its client's present debt. */
  predicate Recorded(l: Lock, th: Thread)
    requires th.Waits()
  {
    th.cli in l.waiting && l.waiting[th.cli] == th.ticket && th.ticket.debt == l.DebtOf(th.cli)
  }

  ghost predicate SoloInv(s: State) {
    Inv(s) && OneInside(s) && AllRecorded(s)
  }

  ghost predicate OneInside(s: State) {
    forall t, u :: Inside(s, t) && Inside(s, u) && s.threads[t].cli == s.threads[u].cli ==> t == u
  }

  ghost predicate AllRecorded(s: State) {
    forall t :: s.Waits(t) ==> Recorded(s.lock, s.threads[t])
  }

  // Who is inside after an event, and as whom.
  lemma InsideAfter(s: State, e: Event, t: Tid)
    requires Enabled(s, e) && Inside(Do(s, e), t)
    ensures if e.Arrive? && t == e.t then Do(s, e).threads[t].cli == e.cli
            else Inside(s, t) && Do(s, e).threads[t].cli == s.threads[t].cli
  {}

  lemma OneInsideStep(s: State, e: Event)
    requires OneInside(s) && Enabled(s, e) && SoloStep(s, e)
    ensures OneInside(Do(s, e))
  {
    var s' := Do(s, e);
    forall t, u | Inside(s', t) && Inside(s', u) && s'.threads[t].cli == s'.threads[u].cli ensures t == u {
      InsideAfter(s, e, t);
      InsideAfter(s, e, u);
    }
  }

  lemma RecordedStep(s: State, e: Event, t: Tid)
    requires SoloInv(s) && Enabled(s, e) && SoloStep(s, e) && Do(s, e).Waits(t)
    ensures Recorded(Do(s, e).lock, Do(s, e).threads[t])
  {
    if !(e.Arrive? && t == e.t) {
      assert s.Waits(t) && Inside(s, t) && Recorded(s.lock, s.threads[t]);
      InsideAfter(s, e, t);
      var j := s.threads[t].cli;
      if ClientOf(s, e) == j && Inside(s, e.t) { assert e.t == t; }
      DebtsAndEntries(s, e, j);
    }
  }

  lemma SoloStepKeepsInv(s: State, e: Event)
    requires SoloInv(s) && Enabled(s, e) && SoloStep(s, e)
    ensures SoloInv(Do(s, e))
  {
    StepKeepsInv(s, e);
    OneInsideStep(s, e);
    forall t | Do(s, e).Waits(t) ensures Recorded(Do(s, e).lock, Do(s, e).threads[t]) {
      RecordedStep(s, e, t);
    }
  }

  lemma {:induction false} SoloRunKeepsInv(s: State, es: seq<Event>, s': State)
    requires SoloInv(s) && SoloRun(s, es, s')
    ensures SoloInv(s')
    decreases es
  {
    if es != [] {
      SoloStepKeepsInv(s, es[0]);
      SoloRunKeepsInv(Do(s, es[0]), es[1..], s');
    }
  }

  // --------------------------------------------------- bounded overtaking

  function Positive(x: int): nat {
    if x > 0 then x else 0
  }

  predicate Ahead(l: Lock, me: Ticket, j: Client) {
    j in l.waiting && l.waiting[j].debt == me.debt && l.waiting[j].no < me.no
  }

  // Turns taken or in progress.
  function Charged(s: State, j: Client): nat {
    s.lock.DebtOf(j) + if s.HeldBy(j) then 1 else 0
  }

  /** Turns client `j` may still take before a waiter with ticket `me`. */
  function MayOvertake(s: State, me: Ticket): Client -> int {
    j => Positive(me.debt - Charged(s, j)) + if Ahead(s.lock, me, j) then 1 else 0
  }

  ghost function Quota(s: State, m: Tid, all: set<Client>): int
    requires s.Waits(m)
  {
    Sum(all - {s.threads[m].cli}, MayOvertake(s, s.threads[m].ticket))
  }

  /** The bound read off the debts alone. */
  function OvertakeBound(l: Lock, me: Ticket): Client -> int {
    j => Positive(me.debt - l.DebtOf(j)) + if Ahead(l, me, j) then 1 else 0
  }

  predicate Population(s: State, all: set<Client>) {
    forall t :: t in s.threads ==> s.threads[t].cli in all
  }

  function ClientOf(s: State, e: Event): Client
    requires Enabled(s, e)
  {
    if e.Arrive? then e.cli else s.threads[e.t].cli
  }

  lemma Holders(s: State, e: Event)
    requires Inv(s) && Enabled(s, e)
    ensures Grants(s, e) ==> forall j :: !s.HeldBy(j) && (Do(s, e).HeldBy(j) <==> j == ClientOf(s, e))
    ensures e.Release? ==> forall j :: !Do(s, e).HeldBy(j) && (s.HeldBy(j) <==> j == ClientOf(s, e))
    ensures !Grants(s, e) && !e.Release? ==> forall j :: Do(s, e).HeldBy(j) <==> s.HeldBy(j)
  {
    var s', c := Do(s, e), ClientOf(s, e);
    StepKeepsInv(s, e);
    forall j ensures s.HeldBy(j) <==> exists t :: s.Holds(t) && s.threads[t].cli == j {
      HeldByHolder(s, j);
    }
    forall j ensures s'.HeldBy(j) <==> exists t :: s'.Holds(t) && s'.threads[t].cli == j {
      HeldByHolder(s', j);
    }
    if Grants(s, e) {
      assert s'.Holds(e.t) && s'.threads[e.t].cli == c;
    } else if e.Release? {
      assert s.Holds(e.t) && !s'.lock.active;
    } else {
      assert forall t :: s'.Holds(t) <==> s.Holds(t);
      assert forall t :: s.Holds(t) ==> s'.threads[t].cli == s.threads[t].cli;
    }
  }

  lemma HeldByHolder(s: State, j: Client)
    ensures s.HeldBy(j) <==> exists t :: s.Holds(t) && s.threads[t].cli == j
  {
    if s.HeldBy(j) { var t :| t in s.threads && s.threads[t] == Holding(j); assert s.Holds(t); }
    if t :| s.Holds(t) && s.threads[t].cli == j { assert s.threads[t] == Holding(j); }
  }

  lemma DebtsAndEntries(s: State, e: Event, j: Client)
    requires Enabled(s, e)
    ensures Do(s, e).lock.DebtOf(j) == s.lock.DebtOf(j) + if e.Release? && j == ClientOf(s, e) then 1 else 0
    ensures j != ClientOf(s, e) || (!Grants(s, e) && !e.Arrive?) ==>
              (j in Do(s, e).lock.waiting <==> j in s.lock.waiting) &&
              (j in s.lock.waiting ==> Do(s, e).lock.waiting[j] == s.lock.waiting[j])
    ensures Grants(s, e) ==> ClientOf(s, e) !in Do(s, e).lock.waiting
    ensures e.Arrive? && !Grants(s, e) ==>
              e.cli in Do(s, e).lock.waiting && Do(s, e).lock.waiting[e.cli].no == s.lock.lastNo + 1
  {}

  lemma ChargeStep(s: State, e: Event, j: Client)
    requires Inv(s) && Enabled(s, e)
    ensures Charged(Do(s, e), j) == Charged(s, j) + if Grants(s, e) && j == ClientOf(s, e) then 1 else 0
  {
    Holders(s, e);
    DebtsAndEntries(s, e, j);
  }

  lemma NewcomerNotRecorded(s: State, e: Event)
    requires Inv(s) && SoloStep(s, e) && e.Arrive?
    ensures e.cli !in s.lock.waiting
  {
    assert e.cli in s.lock.waiting ==> OwnedEntry(s, e.cli);
  }

  lemma QuotaUnlessGranted(s: State, e: Event, m: Tid, j: Client)
    requires Inv(s) && Enabled(s, e) && SoloStep(s, e) && s.Waits(m)
    requires !(Grants(s, e) && j == ClientOf(s, e))
    ensures MayOvertake(Do(s, e), s.threads[m].ticket)(j) == MayOvertake(s, s.threads[m].ticket)(j)
  {
    ChargeStep(s, e, j);
    AheadUnlessGranted(s, e, m, j);
  }

  lemma AheadUnlessGranted(s: State, e: Event, m: Tid, j: Client)
    requires Inv(s) && Enabled(s, e) && SoloStep(s, e) && s.Waits(m)
    requires !(Grants(s, e) && j == ClientOf(s, e))
    ensures Ahead(Do(s, e).lock, s.threads[m].ticket, j) == Ahead(s.lock, s.threads[m].ticket, j)
  {
    DebtsAndEntries(s, e, j);
    if e.Arrive? && j == e.cli { NewcomerNotRecorded(s, e); }
  }

  /** Whoever is served while `w` waits holds a smaller ticket, issued at its present debt. */
  lemma GrantTicket(s: State, e: Event, w: Tid) returns (me: Ticket)
    requires SoloInv(s) && Enabled(s, e) && SoloStep(s, e) && Grants(s, e)
    requires s.Waits(w) && (e.Retest? ==> e.t != w)
    ensures ClientOf(s, e) != s.threads[w].cli
    ensures me.debt == s.lock.DebtOf(ClientOf(s, e)) && Before(me, s.threads[w].ticket)
    ensures if e.Arrive? then me.no == s.lock.lastNo + 1 && ClientOf(s, e) !in s.lock.waiting
            else ClientOf(s, e) in s.lock.waiting && s.lock.waiting[ClientOf(s, e)] == me
  {
    var c, d := ClientOf(s, e), s.threads[w].cli;
    assert Inside(s, w) && Recorded(s.lock, s.threads[w]);
    if e.Arrive? {
      me := s.lock.NewTicket(c);
      assert d in s.lock.Enter(c).waiting;
      NewcomerNotRecorded(s, e);
    } else {
      me := s.threads[e.t].ticket;
      assert Inside(s, e.t) && s.Waits(e.t) && Recorded(s.lock, s.threads[e.t]);
      assert me.no != s.threads[w].ticket.no;
    }
  }

  lemma OneLess(s: State, s': State, me: Ticket, c: Client, its: Ticket)
    requires Before(its, me) && Charged(s, c) == its.debt && Charged(s', c) == its.debt + 1
    requires Ahead(s.lock, me, c) <==> its.debt == me.debt
    requires c !in s'.lock.waiting
    ensures MayOvertake(s', me)(c) == MayOvertake(s, me)(c) - 1
  {}

  lemma GrantSpendsOne(s: State, e: Event, m: Tid)
    requires SoloInv(s) && Enabled(s, e) && SoloStep(s, e) && Grants(s, e) && s.Waits(m)
    requires e.Retest? ==> e.t != m
    ensures ClientOf(s, e) != s.threads[m].cli
    ensures var c, me := ClientOf(s, e), s.threads[m].ticket;
            MayOvertake(Do(s, e), me)(c) == MayOvertake(s, me)(c) - 1
  {
    var c, me := ClientOf(s, e), s.threads[m].ticket;
    var its := GrantTicket(s, e, m);
    ChargeStep(s, e, c);
    DebtsAndEntries(s, e, c);
    Holders(s, e);
    OneLess(s, Do(s, e), me, c, its);
  }

  /** The quota never rises and each turn handed to another client costs exactly one. */
  lemma QuotaStep(s: State, e: Event, m: Tid, all: set<Client>)
    requires SoloInv(s) && Enabled(s, e) && SoloStep(s, e) && s.Waits(m) && Do(s, e).Waits(m)
    requires ClientOf(s, e) in all
    ensures Quota(s, m, all) == Quota(Do(s, e), m, all) + if Grants(s, e) then 1 else 0
  {
    var s' := Do(s, e);
    var me := s.threads[m].ticket;
    assert s'.threads[m].ticket == me && s'.threads[m].cli == s.threads[m].cli;
    var xs := all - {s.threads[m].cli};
    var f, g := MayOvertake(s, me), MayOvertake(s', me);
    forall j | j in xs && !(Grants(s, e) && j == ClientOf(s, e)) ensures f(j) == g(j) {
      QuotaUnlessGranted(s, e, m, j);
    }
    if Grants(s, e) {
      GrantSpendsOne(s, e, m);
      SumChange(xs, f, g, ClientOf(s, e));
    } else {
      SumSame(xs, f, g);
    }
  }

  ghost predicate WaitsThroughout(s: State, es: seq<Event>, m: Tid)
    decreases es
  {
    s.Waits(m) && (es != [] && Enabled(s, es[0]) ==> WaitsThroughout(Do(s, es[0]), es[1..], m))
  }

  predicate ArrivalsIn(es: seq<Event>, all: set<Client>) {
    forall i :: 0 <= i < |es| && es[i].Arrive? ==> es[i].cli in all
  }

  lemma LaterArrivals(es: seq<Event>, all: set<Client>)
    requires es != [] && ArrivalsIn(es, all)
    ensures es[0].Arrive? ==> es[0].cli in all
    ensures ArrivalsIn(es[1..], all)
  {
    forall i | 0 <= i < |es[1..]| && es[1..][i].Arrive? ensures es[1..][i].cli in all {
      assert es[1..][i] == es[i + 1];
    }
  }

  lemma PopulationStep(s: State, e: Event, all: set<Client>)
    requires Enabled(s, e) && Population(s, all) && (e.Arrive? ==> e.cli in all)
    ensures ClientOf(s, e) in all && Population(Do(s, e), all)
  {}

  lemma {:induction false} QuotaRun(s: State, es: seq<Event>, s': State, m: Tid, all: set<Client>)
    requires SoloInv(s) && SoloRun(s, es, s') && WaitsThroughout(s, es, m)
    requires Population(s, all) && ArrivalsIn(es, all)
    ensures s'.Waits(m) && Quota(s, m, all) == Quota(s', m, all) + GrantCount(s, es)
    decreases es
  {
    if es != [] {
      SoloStepKeepsInv(s, es[0]);
      LaterArrivals(es, all);
      PopulationStep(s, es[0], all);
      QuotaStep(s, es[0], m, all);
      QuotaRun(Do(s, es[0]), es[1..], s', m, all);
    }
  }

  /** While `m` waits, the turns handed to others are paid one for one out of its quota, which
      starts at or below the sum over the other clients of max(0, d - debt) plus one for each
      already waiting with equal debt and a smaller number. */
  lemma BoundedOvertaking(pre: seq<Event>, s: State, es: seq<Event>, s': State, m: Tid, all: set<Client>)
    requires SoloRun(Start, pre, s) && SoloRun(s, es, s') && WaitsThroughout(s, es, m)
    requires Population(s, all) && ArrivalsIn(es, all)
    ensures s'.Waits(m)
    ensures Quota(s, m, all) == Quota(s', m, all) + GrantCount(s, es)
    ensures 0 <= Quota(s', m, all)
    ensures GrantCount(s, es) <= Sum(all - {s.threads[m].cli}, OvertakeBound(s.lock, s.threads[m].ticket))
  {
    SoloRunKeepsInv(Start, pre, s);
    QuotaRun(s, es, s', m, all);
    QuotaWithinBound(s, m, all);
    QuotaNotNegative(s', m, all);
  }

  lemma QuotaWithinBound(s: State, m: Tid, all: set<Client>)
    requires s.Waits(m)
    ensures Quota(s, m, all) <= Sum(all - {s.threads[m].cli}, OvertakeBound(s.lock, s.threads[m].ticket))
  {
    var me := s.threads[m].ticket;
    SumAtMost(all - {s.threads[m].cli}, MayOvertake(s, me), OvertakeBound(s.lock, me));
  }

  lemma QuotaNotNegative(s: State, m: Tid, all: set<Client>)
    requires s.Waits(m)
    ensures 0 <= Quota(s, m, all)
  {
    var xs := all - {s.threads[m].cli};
    if xs != {} {
      var x :| x in xs;
      SumCovers(xs, MayOvertake(s, s.threads[m].ticket), x);
    }
  }

  /** A waiter whose quota is spent is next. */
  lemma SpentQuotaIsNext(pre: seq<Event>, s: State, m: Tid, all: set<Client>)
    requires SoloRun(Start, pre, s) && Population(s, all) && s.Waits(m)
    requires Quota(s, m, all) == 0
    ensures IsLeast(s, m)
    ensures !s.lock.active ==> s.lock.MayPass(s.threads[m].cli, s.threads[m].ticket)
  {
    SoloRunKeepsInv(Start, pre, s);
    forall u | s.Waits(u) && u != m ensures Before(s.threads[m].ticket, s.threads[u].ticket) {
      SpentQuota(s, m, u, all);
    }
    LeastSeesNoSmaller(s, m);
  }

  lemma WaiterHoldsNothing(s: State, u: Tid)
    requires SoloInv(s) && s.Waits(u)
    ensures !s.HeldBy(s.threads[u].cli)
  {
    HeldByHolder(s, s.threads[u].cli);
    forall h | s.Holds(h) ensures s.threads[h].cli != s.threads[u].cli {
      assert Inside(s, h) && Inside(s, u);
    }
  }

  lemma SpentQuota(s: State, m: Tid, u: Tid, all: set<Client>)
    requires SoloInv(s) && Population(s, all) && s.Waits(m) && s.Waits(u) && u != m
    requires Quota(s, m, all) == 0
    ensures Before(s.threads[m].ticket, s.threads[u].ticket)
  {
    var me, j := s.threads[m].ticket, s.threads[u].cli;
    assert Inside(s, u) && Inside(s, m);
    SumCovers(all - {s.threads[m].cli}, MayOvertake(s, me), j);
    assert Recorded(s.lock, s.threads[u]);
    WaiterHoldsNothing(s, u);
  }

  // --------------------------------------------------- backlogged fairness

  ghost predicate Backlogged(s: State, es: seq<Event>, a: Client, b: Client)
    decreases es
  {
    es != [] && Enabled(s, es[0]) ==>
      (Grants(s, es[0]) && ClientOf(s, es[0]) == a ==> exists t :: s.Waits(t) && s.threads[t].cli == b) &&
      (Grants(s, es[0]) && ClientOf(s, es[0]) == b ==> exists t :: s.Waits(t) && s.threads[t].cli == a) &&
      Backlogged(Do(s, es[0]), es[1..], a, b)
  }

  predicate Close(s: State, a: Client, b: Client) {
    && -1 <= s.lock.DebtOf(a) - s.lock.DebtOf(b) <= 1
    && (s.HeldBy(a) ==> s.lock.DebtOf(a) <= s.lock.DebtOf(b))
    && (s.HeldBy(b) ==> s.lock.DebtOf(b) <= s.lock.DebtOf(a))
  }

  lemma CloseStep(s: State, e: Event, a: Client, b: Client)
    requires SoloInv(s) && Enabled(s, e) && SoloStep(s, e) && a != b && Close(s, a, b)
    requires Grants(s, e) && ClientOf(s, e) == a ==> exists t :: s.Waits(t) && s.threads[t].cli == b
    requires Grants(s, e) && ClientOf(s, e) == b ==> exists t :: s.Waits(t) && s.threads[t].cli == a
    ensures Close(Do(s, e), a, b)
  {
    Holders(s, e);
    var s' := Do(s, e);
    if Grants(s, e) && ClientOf(s, e) in {a, b} {
      var t :| s.Waits(t) && s.threads[t].cli in {a, b} && s.threads[t].cli != ClientOf(s, e);
      var me := GrantTicket(s, e, t);
      assert Recorded(s.lock, s.threads[t]);
    }
  }

  lemma {:induction false} CloseRun(s: State, es: seq<Event>, s': State, a: Client, b: Client)
    requires SoloInv(s) && SoloRun(s, es, s') && a != b && Close(s, a, b) && Backlogged(s, es, a, b)
    ensures Close(s', a, b)
    decreases es
  {
    if es != [] {
      SoloStepKeepsInv(s, es[0]);
      CloseStep(s, es[0], a, b);
      CloseRun(Do(s, es[0]), es[1..], s', a, b);
    }
  }

  /** Two clients that start level and are each waiting whenever the other is served stay within one turn. */
  lemma BackloggedFairness(pre: seq<Event>, s: State, es: seq<Event>, s': State, a: Client, b: Client)
    requires SoloRun(Start, pre, s) && SoloRun(s, es, s') && a != b
    requires s.lock.DebtOf(a) == s.lock.DebtOf(b) && Backlogged(s, es, a, b)
    ensures -1 <= s'.lock.DebtOf(a) - s'.lock.DebtOf(b) <= 1
  {
    SoloRunKeepsInv(Start, pre, s);
    CloseRun(s, es, s', a, b);
  }
}
