/** How long the fair lock can go on by itself. */
module FairLockProgress {
  import opened Collections
  import L = FairLockRuns
  import LT = FairLockTheorems

  // ----------------------------------------------------- progress comes to an end

  // Moves a thread still has to make to leave: pass, release, notify.
  function MovesLeft(s: L.State): L.Tid -> int {
    (t: L.Tid) => if s.Waits(t) then 3 else if s.Holds(t) then 2 else if s.Notifies(t) then 1 else 0
  }

  ghost function Left(s: L.State): int {
    Sum(s.threads.Keys, MovesLeft(s))
  }

  lemma {:induction false} SumOfAbsent(xs: set<L.Tid>, ys: set<L.Tid>, f: L.Tid -> int)
    requires ys <= xs && forall x :: x in xs && x !in ys ==> f(x) == 0
    ensures Sum(xs, f) == Sum(ys, f)
    decreases |xs|
  {
    if x :| x in xs && x !in ys {
      SumPick(xs, f, x);
      SumOfAbsent(xs - {x}, ys, f);
    } else {
      assert xs == ys;
    }
  }

  lemma OthersStand(s: L.State, e: L.Event, t: L.Tid)
    requires LT.Progresses(s, e)
    ensures MovesLeft(L.Do(s, e))(t) == MovesLeft(s)(t) - if t == e.t then 1 else 0
  {}

  /** Each move of the lock itself takes it one closer to being empty. */
  lemma ProgressCounts(s: L.State, e: L.Event)
    requires LT.Progresses(s, e)
    ensures Left(L.Do(s, e)) == Left(s) - 1
  {
    var s' := L.Do(s, e);
    var f, g := MovesLeft(s), MovesLeft(s');
    forall t ensures g(t) == f(t) - if t == e.t then 1 else 0 { OthersStand(s, e, t); }
    SumChange(s.threads.Keys, f, g, e.t);
    SumOfAbsent(s.threads.Keys, s'.threads.Keys, g);
  }

  lemma {:induction false} LeftNotNegative(xs: set<L.Tid>, s: L.State)
    ensures Sum(xs, MovesLeft(s)) >= 0
    decreases xs
  {
    if xs != {} {
      var x :| x in xs;
      SumPick(xs, MovesLeft(s), x);
      LeftNotNegative(xs - {x}, s);
    }
  }

  // ------------------------------------------------- tests that fail come to an end

  /** The lock works: a release, a notify or a test of the predicate, passed or not. */
  predicate Works(s: L.State, e: L.Event) {
    L.Enabled(s, e) && (e.Release? || e.Notify? || e.Retest?)
  }

  function AwakeSet(s: L.State): set<L.Tid> {
    set t | t in s.threads && s.threads[t].Awake?
  }

  /** Each notify may wake everybody again, so it weighs more than all tests it can cause. */
  function Weigh(threads: nat, left: int, awake: nat): int {
    (threads + 1) * left + awake
  }

  ghost function Patience(s: L.State): int {
    Weigh(|s.threads|, Left(s), |AwakeSet(s)|)
  }

  lemma WeighLowers(threads: nat, left: int, awake: nat, threads': nat, left': int, awake': nat)
    requires 0 <= left' < left && threads' <= threads && awake' <= threads'
    ensures 0 <= Weigh(threads', left', awake') < Weigh(threads, left, awake)
  {
    TimesAtMost(threads' + 1, threads + 1, left');
    TimesAtMost(left', left - 1, threads + 1);
    assert (threads + 1) * left == (threads + 1) * (left - 1) + threads + 1;
    TimesAtMost(0, threads' + 1, left');
  }

  lemma TimesAtMost(a: nat, b: nat, c: nat)
    requires a <= b
    ensures a * c <= b * c
  {}

  lemma PatienceNotNegative(s: L.State)
    ensures 0 <= Left(s) && 0 <= Patience(s)
  {
    LeftNotNegative(s.threads.Keys, s);
    TimesAtMost(0, |s.threads| + 1, Left(s));
  }

  lemma FewAwake(s: L.State)
    ensures |AwakeSet(s)| <= |s.threads.Keys| == |s.threads|
  {
    Subset(AwakeSet(s), s.threads.Keys);
  }

  lemma {:induction false} Subset<T>(xs: set<T>, ys: set<T>)
    requires xs <= ys
    ensures |xs| <= |ys|
  {
    assert ys == xs + (ys - xs);
  }

  lemma FailedTestSleeps(s: L.State, e: L.Event)
    requires Works(s, e) && e.Retest? && !L.Grants(s, e)
    ensures Left(L.Do(s, e)) == Left(s) && |L.Do(s, e).threads| == |s.threads|
    ensures |AwakeSet(L.Do(s, e))| == |AwakeSet(s)| - 1
  {
    var s' := L.Do(s, e);
    assert s'.threads.Keys == s.threads.Keys;
    SumSame(s.threads.Keys, MovesLeft(s), MovesLeft(s'));
    assert AwakeSet(s') == AwakeSet(s) - {e.t};
    assert |s'.threads| == |s'.threads.Keys| && |s.threads| == |s.threads.Keys|;
  }

  /** Every piece of work leaves less to do, a failed test included. */
  lemma WorkLowers(s: L.State, e: L.Event)
    requires Works(s, e)
    ensures 0 <= Patience(L.Do(s, e)) < Patience(s)
  {
    var s' := L.Do(s, e);
    PatienceNotNegative(s');
    if e.Retest? && !L.Grants(s, e) {
      FailedTestSleeps(s, e);
    } else {
      ProgressCounts(s, e);
      FewAwake(s');
      Subset(s'.threads.Keys, s.threads.Keys);
      assert |s'.threads| == |s'.threads.Keys| && |s.threads| == |s.threads.Keys|;
      WeighLowers(|s.threads|, Left(s), |AwakeSet(s)|, |s'.threads|, Left(s'), |AwakeSet(s')|);
    }
  }

  ghost predicate WorkRun(s: L.State, es: seq<L.Event>, s': L.State)
    decreases es
  {
    if es == [] then s' == s else Works(s, es[0]) && WorkRun(L.Do(s, es[0]), es[1..], s')
  }

  // The work of a run other than failed tests.
  ghost function Moves(s: L.State, es: seq<L.Event>): nat
    decreases es
  {
    if es == [] || !L.Enabled(s, es[0]) then 0
    else (if es[0].Retest? && !L.Grants(s, es[0]) then 0 else 1) + Moves(L.Do(s, es[0]), es[1..])
  }

  lemma {:induction false} WorkIsBounded(s: L.State, es: seq<L.Event>, s': L.State)
    requires L.Inv(s) && WorkRun(s, es, s')
    ensures L.Inv(s') && |es| + Patience(s') <= Patience(s) && Moves(s, es) + Left(s') == Left(s)
    decreases es
  {
    if es == [] {
    } else {
      L.StepKeepsInv(s, es[0]);
      WorkLowers(s, es[0]);
      if es[0].Retest? && !L.Grants(s, es[0]) {
        FailedTestSleeps(s, es[0]);
      } else {
        ProgressCounts(s, es[0]);
      }
      WorkIsBounded(L.Do(s, es[0]), es[1..], s');
    }
  }

  lemma IdleIsEmpty(s: L.State)
    requires L.Inv(s)
    ensures (forall e :: !Works(s, e)) ==> s.threads == map[] && Left(s) == 0
  {
    if s.threads != map[] {
      var e := LT.SomeoneProgresses(s);
      assert Works(s, e);
    } else {
      assert s.threads.Keys == {};
    }
  }

  /** Without new calls and spurious wake-ups: the work of the lock has bounded length however many tests
      fail, and work that cannot go on has emptied the lock, after three moves for each waiter, two for
      the holder and one for each pending notify. */
  lemma LockDrains(s: L.State, es: seq<L.Event>, s': L.State)
    requires L.Inv(s) && WorkRun(s, es, s')
    ensures |es| <= Patience(s) && Moves(s, es) <= Left(s)
    ensures (forall e :: !Works(s', e)) ==> s'.threads == map[] && Moves(s, es) == Left(s)
  {
    WorkIsBounded(s, es, s');
    PatienceNotNegative(s');
    IdleIsEmpty(s');
  }

  // --------------------------------------------------- every waiter can be served

  /** From any state of a run without exceptions, any waiter can still be served. */
  lemma {:induction false} CanBeServed(s: L.State, w: L.Tid) returns (es: seq<L.Event>, s': L.State)
    requires L.Inv(s) && s.Waits(w)
    ensures L.Run(s, es, s') && s'.Holds(w)
    decreases Left(s)
  {
    var e := LT.SomeoneProgresses(s);
    L.StepKeepsInv(s, e);
    ProgressCounts(s, e);
    LeftNotNegative(L.Do(s, e).threads.Keys, L.Do(s, e));
    var s1 := L.Do(s, e);
    if s1.Holds(w) {
      es, s' := [e], s1;
      assert L.Run(s1, [], s1);
    } else {
      var rest, s2 := CanBeServed(s1, w);
      es, s' := [e] + rest, s2;
      assert ([e] + rest)[1..] == rest;
    }
  }
}
