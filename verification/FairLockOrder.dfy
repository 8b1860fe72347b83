/** When the fair lock serves in ticket order: exactly when the least waiter's entry is on record. */
module FairLockOrder {
  import opened FairLock
  import opened FairLockRuns
  import LT = FairLockTheorems

  // ------------------------------------ why one acquire per client matters

  /** Three overlapping calls of X: serving the second erases the entry of the third, which still
      waits with the ticket (0, 3) when Y arrives and is served at once with (0, 4). */
  const Overlapping: seq<Event> :=
    [Arrive(0, "X"), Arrive(1, "X"), Arrive(2, "X"), Release(0), Spurious(1), Retest(1), Release(1)]

  const Erased :=
    State(Lock(false, 3, map[], map["X" := 2]),
          map[0 := Notifying("X"), 1 := Notifying("X"), 2 := Asleep("X", Ticket(0, 3))])

  lemma {:induction false} RunConcat(s: State, es: seq<Event>, m: State, fs: seq<Event>, s': State)
    requires Run(s, es, m) && Run(m, fs, s')
    ensures Run(s, es + fs, s')
    decreases es
  {
    if es == [] {
      assert es + fs == fs;
    } else {
      assert (es + fs)[1..] == es[1..] + fs;
      RunConcat(Do(s, es[0]), es[1..], m, fs, s');
    }
  }

  lemma OneStep(s: State, e: Event)
    requires Enabled(s, e)
    ensures Run(s, [e], Do(s, e))
  {
    assert Run(Do(s, e), [], Do(s, e));
  }

  lemma ThenStep(s: State, es: seq<Event>, m: State, e: Event)
    requires Run(s, es, m) && Enabled(m, e)
    ensures Run(s, es + [e], Do(m, e))
  {
    OneStep(m, e);
    RunConcat(s, es, m, [e], Do(m, e));
  }

  const ThreeCalls :=
    State(Lock(true, 3, map["X" := Ticket(0, 3)], map[]),
          map[0 := Holding("X"), 1 := Asleep("X", Ticket(0, 2)), 2 := Asleep("X", Ticket(0, 3))])

  lemma ThreeCallsOverlap()
    ensures Run(Start, Overlapping[..3], ThreeCalls)
  {
    var s1 := Do(Start, Arrive(0, "X"));
    assert s1 == State(Lock(true, 1, map[], map[]), map[0 := Holding("X")]);
    var s2 := Do(s1, Arrive(1, "X"));
    assert s2 == State(Lock(true, 2, map["X" := Ticket(0, 2)], map[]),
                       map[0 := Holding("X"), 1 := Asleep("X", Ticket(0, 2))]);
    assert Do(s2, Arrive(2, "X")) == ThreeCalls;
    OneStep(Start, Arrive(0, "X"));
    ThenStep(Start, [Arrive(0, "X")], s1, Arrive(1, "X"));
    ThenStep(Start, [Arrive(0, "X")] + [Arrive(1, "X")], s2, Arrive(2, "X"));
    assert Overlapping[..3] == [Arrive(0, "X")] + [Arrive(1, "X")] + [Arrive(2, "X")];
  }

  lemma SecondCallServed()
    ensures Run(ThreeCalls, Overlapping[3..], Erased)
  {
    var s4 := Do(ThreeCalls, Release(0));
    assert s4 == State(Lock(false, 3, map["X" := Ticket(0, 3)], map["X" := 1]),
                       map[0 := Notifying("X"), 1 := Asleep("X", Ticket(0, 2)), 2 := Asleep("X", Ticket(0, 3))]);
    var s5 := Do(s4, Spurious(1));
    var s6 := Do(s5, Retest(1));
    assert s6 == State(Lock(true, 3, map[], map["X" := 1]),
                       map[0 := Notifying("X"), 1 := Holding("X"), 2 := Asleep("X", Ticket(0, 3))]);
    assert Do(s6, Release(1)) == Erased;
    OneStep(ThreeCalls, Release(0));
    ThenStep(ThreeCalls, [Release(0)], s4, Spurious(1));
    ThenStep(ThreeCalls, [Release(0)] + [Spurious(1)], s5, Retest(1));
    ThenStep(ThreeCalls, [Release(0)] + [Spurious(1)] + [Retest(1)], s6, Release(1));
    assert Overlapping[3..] == [Release(0)] + [Spurious(1)] + [Retest(1)] + [Release(1)];
  }

  lemma NewcomerServed()
    ensures Erased.Waits(2) && Before(Erased.threads[2].ticket, Erased.lock.NewTicket("Y"))
    ensures Enabled(Erased, Arrive(3, "Y")) && Grants(Erased, Arrive(3, "Y"))
  {
    assert Erased.lock.Enter("Y").waiting == map["Y" := Ticket(0, 4)];
  }

  lemma OverlappingRun()
    ensures Run(Start, Overlapping, Erased)
  {
    ThreeCallsOverlap();
    SecondCallServed();
    assert Overlapping == Overlapping[..3] + Overlapping[3..];
    RunConcat(Start, Overlapping[..3], ThreeCalls, Overlapping[3..], Erased);
  }

  /** So the order of service follows the tickets only when calls of one client do not overlap. */
  lemma OverlapBreaksOrder()
    ensures Run(Start, Overlapping, Erased)
    ensures Erased.Waits(2) && Before(Erased.threads[2].ticket, Erased.lock.NewTicket("Y"))
    ensures Enabled(Erased, Arrive(3, "Y")) && Grants(Erased, Arrive(3, "Y"))
  {
    OverlappingRun();
    NewcomerServed();
  }

  // ------------------------------------------------ which tickets are on record

  predicate OnRecord(s: State, u: Tid) {
    s.Waits(u) && s.threads[u].cli in s.lock.waiting && s.lock.waiting[s.threads[u].cli] == s.threads[u].ticket
  }

  // The ticket is no newer than its client's debt and entry.
  predicate Dated(l: Lock, c: Client, me: Ticket) {
    me.debt <= l.DebtOf(c) && (c in l.waiting ==> me.debt <= l.waiting[c].debt && me.no <= l.waiting[c].no)
  }

  /** An entry is the newest ticket of its client, however calls overlap. */
  ghost predicate EntriesNewest(s: State) {
    forall t :: s.Waits(t) ==> Dated(s.lock, s.threads[t].cli, s.threads[t].ticket)
  }

  lemma StepKeepsNewest(s: State, e: Event)
    requires Inv(s) && EntriesNewest(s) && Enabled(s, e)
    ensures EntriesNewest(Do(s, e))
  {
    var s' := Do(s, e);
    forall t | s'.Waits(t) ensures Dated(s'.lock, s'.threads[t].cli, s'.threads[t].ticket) {
      if !(e.Arrive? && t == e.t) { assert s.Waits(t); }
    }
  }

  lemma {:induction false} RunKeepsNewest(s: State, es: seq<Event>, s': State)
    requires Inv(s) && EntriesNewest(s) && Run(s, es, s')
    ensures Inv(s') && EntriesNewest(s')
    decreases es
  {
    if es != [] {
      StepKeepsInv(s, es[0]);
      StepKeepsNewest(s, es[0]);
      RunKeepsNewest(Do(s, es[0]), es[1..], s');
    }
  }

  // A smaller ticket than `me` that is on record.
  ghost predicate SmallerOnRecord(s: State, me: Ticket, u: Tid) {
    OnRecord(s, u) && Before(s.threads[u].ticket, me)
  }

  lemma PassesUnlessSmaller(s: State, m: Tid)
    requires Inv(s) && EntriesNewest(s) && s.Waits(m) && !s.lock.active
    ensures s.lock.MayPass(s.threads[m].cli, s.threads[m].ticket) <==>
            !exists u :: SmallerOnRecord(s, s.threads[m].ticket, u)
  {
    var c, me := s.threads[m].cli, s.threads[m].ticket;
    assert Dated(s.lock, c, me);
    if w :| w in s.lock.waiting && w != c && Before(s.lock.waiting[w], me) {
      assert OwnedEntry(s, w);
      var u :| s.Waits(u) && s.threads[u].cli == w && s.threads[u].ticket == s.lock.waiting[w];
      assert SmallerOnRecord(s, me, u);
    }
  }

  /** With overlap allowed: a free lock holds a waiter back exactly for the smaller tickets on record,
      its own client's included, and passes over exactly those whose entry is lost. */
  lemma PassesOnlyLostEntries(es: seq<Event>, s: State, m: Tid)
    requires Run(Start, es, s) && s.Waits(m) && !s.lock.active
    ensures s.lock.MayPass(s.threads[m].cli, s.threads[m].ticket) <==>
            !exists u :: SmallerOnRecord(s, s.threads[m].ticket, u)
  {
    LT.StartInv();
    RunKeepsNewest(Start, es, s);
    PassesUnlessSmaller(s, m);
  }

  /** A newcomer replaces its client's entry, so it is held back exactly by the smaller tickets that
      other clients have on record. */
  lemma NewcomerPasses(es: seq<Event>, s: State, t: Tid, c: Client)
    requires Run(Start, es, s) && Enabled(s, Arrive(t, c)) && !s.lock.active
    ensures Grants(s, Arrive(t, c)) <==>
            !exists u :: SmallerOnRecord(s, s.lock.NewTicket(c), u) && s.threads[u].cli != c
  {
    LT.StartInv();
    RunKeepsInv(Start, es, s);
    var me := s.lock.NewTicket(c);
    if w :| w in s.lock.waiting && w != c && Before(s.lock.waiting[w], me) {
      assert OwnedEntry(s, w);
      var u :| s.Waits(u) && s.threads[u].cli == w && s.threads[u].ticket == s.lock.waiting[w];
      assert SmallerOnRecord(s, me, u);
    }
    forall u | SmallerOnRecord(s, me, u) && s.threads[u].cli != c
      ensures s.threads[u].cli in s.lock.Enter(c).waiting &&
              s.lock.Enter(c).waiting[s.threads[u].cli] == s.threads[u].ticket
    {}
  }

  // -------------------------------------------------- when the order is kept

  ghost predicate OnlyPasser(s: State, l: Tid) {
    forall m :: s.Waits(m) && s.lock.MayPass(s.threads[m].cli, s.threads[m].ticket) ==> m == l
  }

  ghost predicate WaitsAlone(s: State, l: Tid) {
    forall m :: s.Waits(m) ==> m == l
  }

  lemma RecordedLeastIsOnly(s: State, l: Tid)
    requires Inv(s) && EntriesNewest(s) && !s.lock.active && IsLeast(s, l) && OnRecord(s, l)
    ensures OnlyPasser(s, l)
  {
    forall m | s.Waits(m) && m != l ensures !s.lock.MayPass(s.threads[m].cli, s.threads[m].ticket) {
      assert SmallerOnRecord(s, s.threads[m].ticket, l);
      PassesUnlessSmaller(s, m);
    }
  }

  lemma SomebodyElsePasses(s: State, l: Tid, other: Tid) returns (m: Tid)
    requires Inv(s) && EntriesNewest(s) && !s.lock.active && !OnRecord(s, l) && s.Waits(other) && other != l
    ensures m != l && s.Waits(m) && s.lock.MayPass(s.threads[m].cli, s.threads[m].ticket)
  {
    var recorded := set t | t in s.threads && OnRecord(s, t);
    if recorded == {} {
      m := other;
      forall u ensures !SmallerOnRecord(s, s.threads[m].ticket, u) { assert OnRecord(s, u) ==> u in recorded; }
    } else {
      m := LT.LeastAmong(s, recorded);
      forall u ensures !SmallerOnRecord(s, s.threads[m].ticket, u) { assert OnRecord(s, u) ==> u in recorded; }
    }
    PassesUnlessSmaller(s, m);
  }

  /** Service follows the tickets exactly as long as the least waiter is on record, or waits alone:
      then, and only then, it is the only one that a free lock lets pass. */
  lemma OrderKeptIff(es: seq<Event>, s: State, l: Tid)
    requires Run(Start, es, s) && !s.lock.active && IsLeast(s, l)
    ensures OnlyPasser(s, l) <==> OnRecord(s, l) || WaitsAlone(s, l)
    ensures s.lock.MayPass(s.threads[l].cli, s.threads[l].ticket)
  {
    LT.StartInv();
    RunKeepsNewest(Start, es, s);
    LeastSeesNoSmaller(s, l);
    if OnRecord(s, l) {
      RecordedLeastIsOnly(s, l);
    } else if other :| s.Waits(other) && other != l {
      var m := SomebodyElsePasses(s, l, other);
    }
  }

  /** With one acquire per client outstanding the order is always kept. */
  lemma SoloKeepsOrder(es: seq<Event>, s: State, l: Tid)
    requires LT.SoloRun(Start, es, s) && !s.lock.active && IsLeast(s, l)
    ensures OnRecord(s, l) && OnlyPasser(s, l)
  {
    LT.StartInv();
    LT.SoloRunKeepsInv(Start, es, s);
    assert LT.Recorded(s.lock, s.threads[l]);
    SoloIsRun(Start, es, s);
    OrderKeptIff(es, s, l);
  }

  lemma {:induction false} SoloIsRun(s: State, es: seq<Event>, s': State)
    requires LT.SoloRun(s, es, s')
    ensures Run(s, es, s')
    decreases es
  {
    if es != [] { SoloIsRun(Do(s, es[0]), es[1..], s'); }
  }
}
