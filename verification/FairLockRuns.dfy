/** Every interleaving of threads that use the fair lock. */
module FairLockRuns {
  import opened FairLock

  type Tid = nat

  /** A thread inside `acquire` or `release`; threads outside are absent from the map.
      `Asleep` threads wait on the condition variable, `Awake` ones were woken and will
      evaluate the predicate again, `Notifying` ones have unlocked but not yet notified. */
  datatype Thread =
    | Asleep(cli: Client, ticket: Ticket)
    | Awake(cli: Client, ticket: Ticket)
    | Holding(cli: Client)
    | Notifying(cli: Client)
  {
    predicate Waits() { Asleep? || Awake? }
  }

  datatype State = State(lock: Lock, threads: map<Tid, Thread>) {
    predicate Waits(t: Tid) { t in threads && threads[t].Waits() }
    predicate Holds(t: Tid) { t in threads && threads[t].Holding? }
    predicate Notifies(t: Tid) { t in threads && threads[t].Notifying? }
    predicate HeldBy(c: Client) { exists t :: t in threads && threads[t] == Holding(c) }
    predicate NotifyPending() { exists t :: t in threads && threads[t].Notifying? }
  }

  const Start := State(NewLock, map[])

  /** `Arrive` takes a ticket and evaluates the predicate once under the same lock hold. */
  datatype Event =
    | Arrive(t: Tid, cli: Client)
    | Spurious(t: Tid)
    | Retest(t: Tid)
    | Release(t: Tid)
    | Notify(t: Tid)

  predicate Enabled(s: State, e: Event) {
    match e
    case Arrive(t, _) => t !in s.threads
    case Spurious(t) => t in s.threads && s.threads[t].Asleep?
    case Retest(t) => t in s.threads && s.threads[t].Awake?
    case Release(t) => s.Holds(t)
    case Notify(t) => s.Notifies(t)
  }

  function Try(s: State, t: Tid, c: Client, me: Ticket): State {
    if s.lock.MayPass(c, me)
    then State(s.lock.Pass(c), s.threads[t := Holding(c)])
    else s.(threads := s.threads[t := Asleep(c, me)])
  }

  function Woken(th: Thread): Thread {
    if th.Asleep? then Awake(th.cli, th.ticket) else th
  }

  function Do(s: State, e: Event): State
    requires Enabled(s, e)
  {
    match e
    case Arrive(t, c) => Try(s.(lock := s.lock.Enter(c)), t, c, s.lock.NewTicket(c))
    case Spurious(t) => s.(threads := s.threads[t := Woken(s.threads[t])])
    case Retest(t) => Try(s, t, s.threads[t].cli, s.threads[t].ticket)
    case Release(t) =>
      var c := s.threads[t].cli;
      State(s.lock.Leave(c), s.threads[t := Notifying(c)])
    case Notify(t) =>
      s.(threads := map u | u in s.threads && u != t :: Woken(s.threads[u]))
  }

  /** `es` leads from `s` to `s'`. */
  ghost predicate Run(s: State, es: seq<Event>, s': State)
    decreases es
  {
    if es == [] then s == s'
    else Enabled(s, es[0]) && Run(Do(s, es[0]), es[1..], s')
  }

  // The event hands the turn to its thread.
  predicate Grants(s: State, e: Event) {
    match e
    case Arrive(t, c) => s.lock.Enter(c).MayPass(c, s.lock.NewTicket(c))
    case Retest(t) => s.Waits(t) && s.lock.MayPass(s.threads[t].cli, s.threads[t].ticket)
    case _ => false
  }

  ghost function GrantCount(s: State, es: seq<Event>): nat
    decreases es
  {
    if es == [] || !Enabled(s, es[0]) then 0
    else (if Grants(s, es[0]) then 1 else 0) + GrantCount(Do(s, es[0]), es[1..])
  }

  ghost function ReleaseCount(es: seq<Event>): nat {
    if es == [] then 0 else (if es[0].Release? then 1 else 0) + ReleaseCount(es[1..])
  }

  // ------------------------------------------------------- safety, all runs

  ghost predicate IsLeast(s: State, m: Tid) {
    s.Waits(m) &&
    forall u :: s.Waits(u) && u != m ==> Before(s.threads[m].ticket, s.threads[u].ticket)
  }

  /** Holds for every run, including runs where calls with the same client id overlap. */
  ghost predicate Inv(s: State) {
    Safe(s) && Alert(s)
  }

  ghost predicate Safe(s: State) {
    && (s.lock.active <==> exists t :: s.Holds(t))
    && (forall t, u :: s.Holds(t) && s.Holds(u) ==> t == u)
    && (forall t :: s.Waits(t) ==> s.threads[t].ticket.no <= s.lock.lastNo)
    && (forall t, u :: s.Waits(t) && s.Waits(u) && t != u ==> s.threads[t].ticket.no != s.threads[u].ticket.no)
    && EntriesOwned(s)
  }

  /** No lost wake-up: with the lock free and no notify pending, the least waiter is awake. */
  ghost predicate Alert(s: State) {
    !s.lock.active && !s.NotifyPending() ==> forall m :: IsLeast(s, m) ==> s.threads[m].Awake?
  }

  /** The `waiting` entry of `c` is the ticket of a thread that still waits. */
  ghost predicate OwnedEntry(s: State, c: Client)
    requires c in s.lock.waiting
  {
    exists t :: s.Waits(t) && s.threads[t].cli == c && s.threads[t].ticket == s.lock.waiting[c]
  }

  ghost predicate EntriesOwned(s: State) {
    forall c :: c in s.lock.waiting ==> OwnedEntry(s, c)
  }

  /** Ownership survives any change that keeps every waiter and removes no ticket. */
  lemma EntriesKept(s: State, s': State)
    requires EntriesOwned(s)
    requires forall c :: c in s'.lock.waiting ==> c in s.lock.waiting && s'.lock.waiting[c] == s.lock.waiting[c]
    requires forall c, t :: c in s'.lock.waiting && s.Waits(t) && s.threads[t].cli == c ==>
                              s'.Waits(t) && s'.threads[t].cli == c && s'.threads[t].ticket == s.threads[t].ticket
    ensures EntriesOwned(s')
  {
    forall c | c in s'.lock.waiting ensures OwnedEntry(s', c) {
      assert OwnedEntry(s, c);
      var t :| s.Waits(t) && s.threads[t].cli == c && s.threads[t].ticket == s.lock.waiting[c];
      assert s'.Waits(t);
    }
  }

  /** The least waiter finds no smaller entry, however client ids overlap. */
  lemma LeastSeesNoSmaller(s: State, m: Tid)
    requires EntriesOwned(s) && IsLeast(s, m)
    ensures s.lock.active || s.lock.MayPass(s.threads[m].cli, s.threads[m].ticket)
  {
    forall w | w in s.lock.waiting && w != s.threads[m].cli
      ensures !Before(s.lock.waiting[w], s.threads[m].ticket)
    {
      assert OwnedEntry(s, w);
      var t :| s.Waits(t) && s.threads[t].cli == w && s.threads[t].ticket == s.lock.waiting[w];
    }
  }

  /** `s` with thread `t` about to evaluate its predicate. */
  function Poised(s: State, t: Tid, c: Client, me: Ticket): State {
    s.(threads := s.threads[t := Awake(c, me)])
  }

  lemma PassKeepsInv(s: State, t: Tid, c: Client, me: Ticket)
    requires Inv(Poised(s, t, c, me)) && !s.lock.active
    ensures Inv(State(s.lock.Pass(c), s.threads[t := Holding(c)]))
  {
    var s0 := Poised(s, t, c, me);
    var s' := State(s.lock.Pass(c), s.threads[t := Holding(c)]);
    assert s0.Waits(t) && s'.Holds(t);
    forall u | s'.Holds(u) ensures u == t {
      if u != t { assert s0.Holds(u); }
    }
    EntriesKept(s0, s');
    assert forall u :: s'.Waits(u) ==> s0.Waits(u) && s'.threads[u] == s0.threads[u];
  }

  predicate SameButAwake(a: Thread, b: Thread) {
    a == b || (a.Waits() && b.Waits() && a.cli == b.cli && a.ticket == b.ticket)
  }

  /** `s'` differs from `s` only in which waiters are asleep. */
  predicate SameButSleep(s: State, s': State) {
    && s'.lock == s.lock
    && s'.threads.Keys == s.threads.Keys
    && forall u :: u in s.threads ==> SameButAwake(s.threads[u], s'.threads[u])
  }

  lemma SameButSleepKeepsSafe(s: State, s': State)
    requires Safe(s) && SameButSleep(s, s')
    ensures Safe(s')
    ensures s.NotifyPending() <==> s'.NotifyPending()
    ensures forall m :: IsLeast(s', m) ==> IsLeast(s, m)
  {
    assert forall u :: u in s.threads ==> SameButAwake(s.threads[u], s'.threads[u]);
    forall u ensures s'.Holds(u) <==> s.Holds(u) {}
    forall u ensures s'.Notifies(u) <==> s.Notifies(u) {}
    forall u ensures s'.Waits(u) <==> s.Waits(u) {}
    forall u | s.Waits(u)
      ensures s'.threads[u].ticket == s.threads[u].ticket && s'.threads[u].cli == s.threads[u].cli
    {}
    EntriesKept(s, s');
    SameNotify(s, s');
    forall m | IsLeast(s', m) ensures IsLeast(s, m) {
      assert s.Waits(m);
    }
  }

  lemma SameNotify(s: State, s': State)
    requires forall u :: s'.Notifies(u) <==> s.Notifies(u)
    ensures s.NotifyPending() <==> s'.NotifyPending()
  {
    if s.NotifyPending() { var t :| t in s.threads && s.threads[t].Notifying?; assert s'.Notifies(t); }
    if s'.NotifyPending() { var t :| t in s'.threads && s'.threads[t].Notifying?; assert s.Notifies(t); }
  }

  lemma SleepKeepsInv(s: State, t: Tid, c: Client, me: Ticket)
    requires Inv(Poised(s, t, c, me)) && !s.lock.MayPass(c, me)
    ensures Inv(s.(threads := s.threads[t := Asleep(c, me)]))
  {
    var s0 := Poised(s, t, c, me);
    var s' := s.(threads := s.threads[t := Asleep(c, me)]);
    SameButSleepKeepsSafe(s0, s');
    if !s'.lock.active && !s'.NotifyPending() {
      forall m | IsLeast(s', m) ensures s'.threads[m].Awake? {
        LeastSeesNoSmaller(s0, m);
      }
    }
  }

  lemma PoisedKeepsSafe(s: State, t: Tid, c: Client)
    requires Safe(s) && t !in s.threads
    ensures Safe(Poised(s.(lock := s.lock.Enter(c)), t, c, s.lock.NewTicket(c)))
  {
    var s' := Poised(s.(lock := s.lock.Enter(c)), t, c, s.lock.NewTicket(c));
    assert s'.Waits(t);
    assert forall u :: u != t ==> (s.Waits(u) <==> s'.Waits(u)) && (s.Holds(u) <==> s'.Holds(u));
    forall d | d in s'.lock.waiting ensures OwnedEntry(s', d) {
      if d != c {
        assert OwnedEntry(s, d);
        var u :| s.Waits(u) && s.threads[u].cli == d && s.threads[u].ticket == s.lock.waiting[d];
        assert s'.Waits(u);
      }
    }
  }

  lemma ArriveKeepsInv(s: State, t: Tid, c: Client)
    requires Inv(s) && t !in s.threads
    ensures Inv(Do(s, Arrive(t, c)))
  {
    var me := s.lock.NewTicket(c);
    var s1 := s.(lock := s.lock.Enter(c));
    var s0 := Poised(s1, t, c, me);
    PoisedKeepsSafe(s, t, c);
    if !s0.lock.active && !s0.NotifyPending() {
      assert forall u :: u in s.threads ==> u in s0.threads && s0.threads[u] == s.threads[u];
      assert !s.NotifyPending();
      forall m | IsLeast(s0, m) ensures s0.threads[m].Awake? {
        if m != t { StillLeast(s, s0, m); }
      }
    }
    if s1.lock.MayPass(c, me) { PassKeepsInv(s1, t, c, me); } else { SleepKeepsInv(s1, t, c, me); }
  }

  lemma StillLeast(s: State, s': State, m: Tid)
    requires IsLeast(s', m) && m in s.threads
    requires forall u :: u in s.threads ==> u in s'.threads && s'.threads[u] == s.threads[u]
    ensures IsLeast(s, m)
  {
    assert forall u :: s.Waits(u) ==> s'.Waits(u);
  }

  lemma DropNotifierKeepsSafe(s: State, t: Tid)
    requires Safe(s) && s.Notifies(t)
    ensures Safe(s.(threads := map u | u in s.threads && u != t :: s.threads[u]))
  {
    var s' := s.(threads := map u | u in s.threads && u != t :: s.threads[u]);
    assert forall u :: (s'.Waits(u) <==> s.Waits(u)) && (s'.Holds(u) <==> s.Holds(u));
    EntriesKept(s, s');
  }

  lemma NotifyKeepsInv(s: State, t: Tid)
    requires Inv(s) && s.Notifies(t)
    ensures Inv(Do(s, Notify(t)))
  {
    var s1 := s.(threads := map u | u in s.threads :: Woken(s.threads[u]));
    SameButSleepKeepsSafe(s, s1);
    DropNotifierKeepsSafe(s1, t);
    NotifyWakesAll(s, s1, t);
  }

  lemma NotifyWakesAll(s: State, s1: State, t: Tid)
    requires s.Notifies(t) && s1 == s.(threads := map u | u in s.threads :: Woken(s.threads[u]))
    ensures Do(s, Notify(t)) == s1.(threads := map u | u in s1.threads && u != t :: s1.threads[u])
    ensures Alert(Do(s, Notify(t)))
  {}

  lemma ReleaseKeepsInv(s: State, t: Tid)
    requires Inv(s) && s.Holds(t)
    ensures Inv(Do(s, Release(t)))
  {
    var s' := Do(s, Release(t));
    assert s'.threads[t].Notifying?;
    assert forall u :: s.Waits(u) <==> s'.Waits(u);
    assert forall u :: s'.Holds(u) ==> s.Holds(u) && u != t;
    EntriesKept(s, s');
  }

  lemma StepKeepsInv(s: State, e: Event)
    requires Inv(s) && Enabled(s, e)
    ensures Inv(Do(s, e))
  {
    match e
    case Arrive(t, c) => ArriveKeepsInv(s, t, c);
    case Spurious(t) =>
      var s' := Do(s, e);
      SameButSleepKeepsSafe(s, s');
    case Retest(t) =>
      var c, me := s.threads[t].cli, s.threads[t].ticket;
      assert s.threads[t := Awake(c, me)] == s.threads;
      if s.lock.MayPass(c, me) { PassKeepsInv(s, t, c, me); } else { SleepKeepsInv(s, t, c, me); }
    case Release(t) => ReleaseKeepsInv(s, t);
    case Notify(t) => NotifyKeepsInv(s, t);
  }

  lemma {:induction false} RunKeepsInv(s: State, es: seq<Event>, s': State)
    requires Inv(s) && Run(s, es, s')
    ensures Inv(s')
    decreases es
  {
    if es != [] {
      StepKeepsInv(s, es[0]);
      RunKeepsInv(Do(s, es[0]), es[1..], s');
    }
  }
}
