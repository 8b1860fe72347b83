/** What a call that ends without releasing does to the fair lock. */
module FairLockFaults {
  import L = FairLockRuns
  import LT = FairLockTheorems
  import P = FairLockProgress

  // ------------------------------------------------------ calls that throw

  /** A holder may also leave by an exception, without releasing. */
  datatype Event = Regular(e: L.Event) | Throw(t: L.Tid)

  predicate Enabled(s: L.State, x: Event) {
    match x
    case Regular(e) => L.Enabled(s, e)
    case Throw(t) => s.Holds(t)
  }

  function Do(s: L.State, x: Event): L.State
    requires Enabled(s, x)
  {
    match x
    case Regular(e) => L.Do(s, e)
    case Throw(t) => s.(threads := s.threads - {t})
  }

  ghost predicate Run(s: L.State, xs: seq<Event>, s': L.State)
    decreases xs
  {
    if xs == [] then s' == s else Enabled(s, xs[0]) && Run(Do(s, xs[0]), xs[1..], s')
  }

  predicate Grants(s: L.State, x: Event) {
    x.Regular? && L.Grants(s, x.e)
  }

  ghost function GrantCount(s: L.State, xs: seq<Event>): nat
    decreases xs
  {
    if xs == [] || !Enabled(s, xs[0]) then 0
    else (if Grants(s, xs[0]) then 1 else 0) + GrantCount(Do(s, xs[0]), xs[1..])
  }

  predicate Throws(xs: seq<Event>) {
    exists i :: 0 <= i < |xs| && xs[i].Throw?
  }

  // Taken by nobody.
  ghost predicate Wedged(s: L.State) {
    s.lock.active && forall t :: !s.Holds(t)
  }

  lemma WedgedStep(s: L.State, x: Event)
    requires Wedged(s) && Enabled(s, x)
    ensures Wedged(Do(s, x)) && !Grants(s, x)
  {
    forall t ensures !Do(s, x).Holds(t) { assert !s.Holds(t); }
  }

  /** Once it is taken by nobody the lock grants no turn ever again. */
  lemma {:induction false} WedgedForever(s: L.State, xs: seq<Event>, s': L.State)
    requires Wedged(s) && Run(s, xs, s')
    ensures Wedged(s') && GrantCount(s, xs) == 0
    decreases xs
  {
    if xs != [] {
      WedgedStep(s, xs[0]);
      WedgedForever(Do(s, xs[0]), xs[1..], s');
    }
  }

  lemma ThrowWedges(s: L.State, t: L.Tid)
    requires L.Inv(s) && s.Holds(t)
    ensures Wedged(Do(s, Throw(t)))
  {
    forall u ensures !Do(s, Throw(t)).Holds(u) { assert s.Holds(u) ==> u == t; }
  }

  lemma ThrowsLater(xs: seq<Event>)
    requires xs != []
    ensures Throws(xs) <==> xs[0].Throw? || Throws(xs[1..])
  {
    if i :| 0 <= i < |xs| && xs[i].Throw? { assert i > 0 ==> xs[1..][i - 1] == xs[i]; }
  }

  /** A run keeps the invariant of the lock as long as no call throws; from the first exception on the
      lock is wedged. */
  lemma {:induction false} SoundUntilThrow(s: L.State, xs: seq<Event>, s': L.State)
    requires L.Inv(s) && Run(s, xs, s')
    ensures if Throws(xs) then Wedged(s') else L.Inv(s')
    decreases xs
  {
    if xs != [] {
      ThrowsLater(xs);
      if xs[0].Throw? {
        ThrowWedges(s, xs[0].t);
        WedgedForever(Do(s, xs[0]), xs[1..], s');
      } else {
        L.StepKeepsInv(s, xs[0].e);
        SoundUntilThrow(Do(s, xs[0]), xs[1..], s');
      }
    }
  }

  lemma {:induction false} RegularRun(s: L.State, es: seq<L.Event>, s': L.State) returns (xs: seq<Event>)
    requires L.Run(s, es, s')
    ensures Run(s, xs, s')
    decreases es
  {
    xs := [];
    if es != [] {
      var rest := RegularRun(L.Do(s, es[0]), es[1..], s');
      xs := [Regular(es[0])] + rest;
      assert xs[1..] == rest;
    }
  }

  // After `ys` it is the turn of `w`.
  ghost predicate Serves(s: L.State, ys: seq<Event>, s': L.State, w: L.Tid) {
    Run(s, ys, s') && s'.Holds(w)
  }

  lemma WedgedServesNobody(s: L.State, ys: seq<Event>, s': L.State, w: L.Tid)
    requires Wedged(s)
    ensures !Serves(s, ys, s', w)
  {
    if Run(s, ys, s') { WedgedForever(s, ys, s'); }
  }

  /** In every run with exceptions: a waiting call can still be served if and only if no call has
      thrown so far. */
  lemma ServedIffNoThrow(xs: seq<Event>, s: L.State, w: L.Tid)
    requires Run(L.Start, xs, s) && s.Waits(w)
    ensures (exists ys, s' :: Serves(s, ys, s', w)) <==> !Throws(xs)
  {
    LT.StartInv();
    SoundUntilThrow(L.Start, xs, s);
    if Throws(xs) {
      forall ys, s' ensures !Serves(s, ys, s', w) { WedgedServesNobody(s, ys, s', w); }
    } else {
      var es, s' := P.CanBeServed(s, w);
      var ys := RegularRun(s, es, s');
      assert Serves(s, ys, s', w);
    }
  }
}
