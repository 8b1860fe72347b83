/** The history that sessions keep, read off the run itself. */
module ClusterHistory {
  import opened Collections
  import LT = FairLockTheorems
  import opened ScatterGather
  import opened LeaderNode
  import opened Cluster
  import opened ClusterSafety
  import opened ClusterTheorems

  // ------------------------------------------------------- what a run contains

  // The handler of `s` looks in the cache and finds nothing, so a gather starts.
  predicate StartsGather(c: System, e: Event, s: Sid) {
    e == Step(s, LookUp) && s in c.sessions && c.sessions[s].req !in c.cache
  }

  // The reaper removes the entry of `s`.
  predicate Evicts(c: System, e: Event, s: Sid)
    requires Enabled(c, e)
  {
    e == Sweep && s in c.sessions && c.sessions[s].req in c.cache && c.sessions[s].req !in Do(c, e).cache
  }

  // The payload that a gather of `s` ends with.
  function Gathered(c: System, e: Event, s: Sid): Option<bytes> {
    if e == Step(s, EndGather) && s in c.sessions && c.sessions[s].work.Asking? then
      match Gather(Answers(c.sessions[s].work.asked), c.kids)
      case Payload(data) => Some(data)
      case Error(_) => None
    else None
  }

  // The handler of `s` finds its entry, or stores a new one.
  predicate Touches(c: System, e: Event, s: Sid) {
    (e == Step(s, LookUp) && s in c.sessions && c.sessions[s].req in c.cache) || Gathered(c, e, s).Some?
  }

  ghost function GatherStarts(c: System, es: seq<Event>, s: Sid): nat
    decreases es
  {
    if es == [] || !Enabled(c, es[0]) then 0
    else (if StartsGather(c, es[0], s) then 1 else 0) + GatherStarts(Do(c, es[0]), es[1..], s)
  }

  ghost function Evictions(c: System, es: seq<Event>, s: Sid): nat
    decreases es
  {
    if es == [] || !Enabled(c, es[0]) then 0
    else (if Evicts(c, es[0], s) then 1 else 0) + Evictions(Do(c, es[0]), es[1..], s)
  }

  // The first payload gathered for `s`.
  ghost function FirstPayload(c: System, es: seq<Event>, s: Sid): Option<bytes>
    decreases es
  {
    if es == [] || !Enabled(c, es[0]) then None
    else if Gathered(c, es[0], s).Some? then Gathered(c, es[0], s)
    else FirstPayload(Do(c, es[0]), es[1..], s)
  }

  /** The handler of `s` never looks in the cache 31 seconds or more after its entry was last touched. */
  ghost predicate QuickLooks(c: System, es: seq<Event>, s: Sid, last: Option<int>)
    decreases es
  {
    es != [] && Enabled(c, es[0]) ==>
      && (es[0] == Step(s, LookUp) && last.Some? ==> c.clock - last.value < 31_000_000_000)
      && QuickLooks(Do(c, es[0]), es[1..], s, if Touches(c, es[0], s) then Some(c.clock) else last)
  }

  // ------------------------------------------- what the session records of it

  // The records of a session, blank before it starts.
  function Records(c: System, s: Sid): Session {
    if s in c.sessions then c.sessions[s] else NewSession("", "", 0, 0)
  }

  lemma StepRecords(c: System, s: Sid, a: Action)
    requires Enabled(c, Step(s, a))
    ensures var e, me, me' := Step(s, a), Records(c, s), Records(Do(c, Step(s, a)), s);
            && me'.gathers == me.gathers + (if StartsGather(c, e, s) then 1 else 0)
            && me'.evictions == me.evictions
            && me'.snapshot == (if me.snapshot.Some? then me.snapshot else Gathered(c, e, s))
            && me'.touched == (if Touches(c, e, s) then Some(c.clock) else me.touched)
            && me'.gap == (if a.LookUp? then Waited(me, c.clock) else me.gap)
  {
    var next, entry := StepResult(c, s, a);
  }

  lemma OtherRecords(c: System, e: Event, s: Sid)
    requires OwnRequests(c) && Enabled(c, e) && !e.Throw? && (e.Step? ==> e.s != s)
    ensures var me, me' := Records(c, s), Records(Do(c, e), s);
            && me'.gathers == me.gathers
            && me'.evictions == me.evictions + (if Evicts(c, e, s) then 1 else 0)
            && me'.snapshot == me.snapshot && me'.touched == me.touched && me'.gap == me.gap
  {
    if s in c.sessions {
      if e.Sweep? {
        SweptRecords(c, s);
      } else if Actor(e) == Some(s) {
        ActorView(c, e);
      } else {
        OthersUntouched(c, e, s);
      }
    } else if e.Join? && e.s == s {
      JoinView(c, e);
    } else {
      SessionsStay(c, e);
    }
  }

  lemma SweptRecords(c: System, s: Sid)
    requires Enabled(c, Sweep) && s in c.sessions
    ensures s in Do(c, Sweep).sessions
    ensures Do(c, Sweep).sessions[s] ==
            c.sessions[s].(evictions := c.sessions[s].evictions + if Evicts(c, Sweep, s) then 1 else 0)
  {}

  lemma EventRecords(c: System, e: Event, s: Sid)
    requires OwnRequests(c) && Enabled(c, e) && !e.Throw?
    ensures var me, me' := Records(c, s), Records(Do(c, e), s);
            && me'.gathers == me.gathers + (if StartsGather(c, e, s) then 1 else 0)
            && me'.evictions == me.evictions + (if Evicts(c, e, s) then 1 else 0)
            && me'.snapshot == (if me.snapshot.Some? then me.snapshot else Gathered(c, e, s))
            && me'.touched == (if Touches(c, e, s) then Some(c.clock) else me.touched)
            && me'.gap == (if e == Step(s, LookUp) then Waited(me, c.clock) else me.gap)
  {
    if e.Step? && e.s == s { StepRecords(c, s, e.a); } else { OtherRecords(c, e, s); }
  }

  lemma {:induction false} RecordsTellTheRun(c: System, es: seq<Event>, c': System, s: Sid)
    requires Safe(c) && Calm(c, es, c')
    ensures var me, me' := Records(c, s), Records(c', s);
            && me'.gathers == me.gathers + GatherStarts(c, es, s)
            && me'.evictions == me.evictions + Evictions(c, es, s)
            && me'.snapshot == (if me.snapshot.Some? then me.snapshot else FirstPayload(c, es, s))
            && (QuickLooks(c, es, s, me.touched) && me.gap < Ttl ==> me'.gap < Ttl)
    decreases es
  {
    if es == [] {
    } else {
      var e := es[0];
      EventRecords(c, e, s);
      StepSafe(c, e);
      RecordsTellTheRun(Do(c, e), es[1..], c', s);
    }
  }

  /** In terms of the run alone: gathers for a session start at most once more often than the reaper has
      removed its entry, only once if the session never looks 31 seconds or more after the last touch, and
      at least once before it is answered. */
  lemma GathersInRun(kids: seq<Tree>, net: Net, es: seq<Event>, c: System, s: Sid)
    requires Reaches(kids, net, es, c) && s in c.sessions
    ensures GatherStarts(Boot(kids, net), es, s) <= 1 + Evictions(Boot(kids, net), es, s)
    ensures QuickLooks(Boot(kids, net), es, s, None) ==> GatherStarts(Boot(kids, net), es, s) <= 1
    ensures c.sessions[s].calls > 0 ==> GatherStarts(Boot(kids, net), es, s) >= 1
  {
    LT.StartInv();
    RecordsTellTheRun(Boot(kids, net), es, c, s);
    OneGatherPerSession(kids, net, es, c, s);
  }

  /** In terms of the run alone: while the reaper has not removed its entry, all that a client loop has been
      given is cut from the first payload that was gathered for it. */
  lemma FirstPayloadServed(kids: seq<Tree>, net: Net, es: seq<Event>, c: System, s: Sid)
    requires Reaches(kids, net, es, c) && s in c.sessions && c.sessions[s].start == 0
    requires Evictions(Boot(kids, net), es, s) == 0
    ensures c.sessions[s].calls > 0 || c.sessions[s].progress.Finished? ==> FirstPayload(Boot(kids, net), es, s).Some?
    ensures FirstPayload(Boot(kids, net), es, s).Some? ==>
              var full := FirstPayload(Boot(kids, net), es, s).value;
              if c.sessions[s].progress.Finished? then c.sessions[s].got == full
              else 0 <= c.sessions[s].offset <= |full| && c.sessions[s].got == full[..c.sessions[s].offset]
  {
    LT.StartInv();
    RecordsTellTheRun(Boot(kids, net), es, c, s);
    SnapshotConsistency(kids, net, es, c, s);
  }
}
