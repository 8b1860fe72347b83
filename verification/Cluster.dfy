/** The whole system as one transition system: client sessions, their handlers behind the turn lock,
    the cache and its reaper, and nodes that go down and come back. */
module Cluster {
  import opened Collections
  import opened Overlay
  import opened FairLock
  import L = FairLockRuns
  import opened ScatterGather
  import opened Paging
  import opened LeaderNode

  type Sid = nat

  /** How far the handler of a session's current call has got. */
  datatype Work =
    | Fresh                                  // no call, or a call that has not looked in the cache
    | Asking(asked: map<Id, Option<bytes>>)  // a gather in flight; `None` for a node found down
    | Loaded(full: bytes)
    | Answering(page: Page)                  // page sliced, eviction still to come
    | Leaving(status: Status)

  datatype Progress = Ongoing | Finished | Aborted | Dead

  /** A caller that pages from the offset `start` on, and the handler serving it; the client loop starts
      at zero. The second line is what the program keeps for the session; the third is history that no
      step depends on. */
  datatype Session = Session(
    cli: Client, req: ReqId, requested: int, start: int,
    offset: int, got: bytes, calls: nat, progress: Progress, work: Work,
    gathers: nat, evictions: nat, snapshot: Option<bytes>, touched: Option<int>, gap: int, closed: bool)

  function NewSession(cli: Client, req: ReqId, requested: int, start: int): Session {
    Session(cli, req, requested, start, start, [], 0, Ongoing, Fresh, 0, 0, None, None, 0, false)
  }

  // ------------------------------------------------- one handler, step by step

  datatype Action = LookUp | Abandon | Ask(id: Id) | EndGather | Slice | Evict

  predicate AllAsked(kids: seq<Tree>, asked: map<Id, Option<bytes>>) {
    forall t :: t in PreorderAll(kids) ==> t.id in asked
  }

  predicate CanAct(s: Session, a: Action, kids: seq<Tree>) {
    match a
    case LookUp => s.work.Fresh?
    case Abandon => s.work.Fresh? && s.progress.Dead?
    case Ask(id) => s.work.Asking? && id in Ids(PreorderAll(kids)) && id !in s.work.asked
    case EndGather => s.work.Asking? && AllAsked(kids, s.work.asked)
    case Slice => s.work.Loaded? && s.offset >= 0
    case Evict => s.work.Answering? && s.work.page.Page?
  }

  // The nodes that answered.
  function Answers(asked: map<Id, Option<bytes>>): Net {
    map id | id in asked && asked[id].Some? :: asked[id].value
  }

  // The longest time from a touch to the next look into the cache.
  function Waited(s: Session, clock: int): int {
    if s.touched.Some? && clock - s.touched.value > s.gap then clock - s.touched.value else s.gap
  }

  /** The session and its cache entry after one action of its handler. */
  function Act(s: Session, entry: Option<Entry>, a: Action, net: Net, clock: int, kids: seq<Tree>)
    : (Session, Option<Entry>)
    requires CanAct(s, a, kids)
  {
    match a
    case LookUp =>
      if entry.Some? then
        (s.(work := Loaded(entry.value.payload), touched := Some(clock), gap := Waited(s, clock)),
         Some(entry.value.(touched := clock)))
      else (s.(work := Asking(map[]), gathers := s.gathers + 1, gap := Waited(s, clock)), entry)
    case Abandon => (s.(work := Leaving(Cancelled)), entry)
    case Ask(id) =>
      (s.(work := Asking(s.work.asked[id := if id in net then Some(net[id]) else None])), entry)
    case EndGather =>
      match Gather(Answers(s.work.asked), kids) {
        case Payload(data) =>
          (s.(work := Loaded(data), touched := Some(clock),
              snapshot := if s.snapshot.Some? then s.snapshot else Some(data)),
           Some(Entry(data, clock)))
        case Error(m) => (s.(work := Leaving(Internal(m))), entry)
      }
    case Slice =>
      var page := PageAt(s.work.full, s.requested, s.offset);
      (s.(work := Answering(page), closed := !page.hasMore), entry)
    case Evict =>
      (s.(work := Leaving(Answer(s.work.page))), if s.work.page.hasMore then entry else None)
  }

  /** The client takes the reply, unless it has died meanwhile. */
  function Deliver(s: Session): Session
    requires s.work.Leaving? && (s.work.status.Answer? ==> s.work.status.page.Page?)
  {
    var idle := s.(work := Fresh);
    if s.progress != Ongoing then idle
    else if !s.work.status.Answer? then idle.(progress := Aborted)
    else
      var p := s.work.status.page;
      idle.(got := s.got + Joined(p.segments), calls := s.calls + 1, offset := p.nextOffset,
            progress := if p.hasMore then Ongoing else Finished)
  }

  /** The call has ended in an exception: its client gets an error. */
  function Errored(s: Session): Session {
    s.(work := Fresh, progress := if s.progress.Ongoing? then Aborted else s.progress)
  }

  // ---------------------------------------------------------------- the system

  datatype System = System(
    q: L.State, sessions: map<Sid, Session>, cache: Cache, net: Net, clock: int, sweep: Option<int>, kids: seq<Tree>)

  function Boot(kids: seq<Tree>, net: Net): System {
    System(L.Start, map[], map[], net, 0, None, kids)
  }

  /** Threads of the lock are session numbers: a session has at most one call under way. */
  datatype Event =
    | Join(s: Sid, cli: Client, req: ReqId, requested: int, start: int)
    | Send(s: Sid)
    | Wake(s: Sid)       // spurious wake-up
    | Retest(s: Sid)
    | Step(s: Sid, a: Action)
    | Throw(s: Sid)      // slicing at a negative offset: the turn is not given back
    | Release(s: Sid)
    | Return(s: Sid)     // notify, and hand the reply to the client
    | Die(s: Sid)
    | Crash(id: Id)
    | Recover(id: Id, shard: bytes)
    | Tick(ns: nat)
    | ReadClock          // the reaper reads its clock ...
    | Sweep              // ... and later takes the cache lock and erases

  predicate Enabled(c: System, e: Event) {
    match e
    case Join(s, _, req, _, _) => s !in c.sessions && forall u :: u in c.sessions ==> c.sessions[u].req != req
    case Send(s) => s in c.sessions && c.sessions[s].progress.Ongoing? && s !in c.q.threads
    case Wake(s) => s in c.sessions && L.Enabled(c.q, L.Spurious(s))
    case Retest(s) => s in c.sessions && L.Enabled(c.q, L.Retest(s))
    case Step(s, a) => s in c.sessions && c.q.Holds(s) && CanAct(c.sessions[s], a, c.kids)
    case Throw(s) => s in c.sessions && c.q.Holds(s) && c.sessions[s].work.Loaded? && c.sessions[s].offset < 0
    case Release(s) => s in c.sessions && c.q.Holds(s) && c.sessions[s].work.Leaving?
    case Return(s) =>
      s in c.sessions && c.q.Notifies(s) && c.sessions[s].work.Leaving? &&
      (c.sessions[s].work.status.Answer? ==> c.sessions[s].work.status.page.Page?)
    case Die(s) => s in c.sessions && c.sessions[s].progress.Ongoing?
    case Crash(id) => id in c.net
    case Recover(id, _) => id !in c.net
    case Tick(_) => true
    case ReadClock => c.sweep.None?
    case Sweep => c.sweep.Some?
  }

  function SetEntry(cache: Cache, r: ReqId, e: Option<Entry>): Cache {
    if e.Some? then cache[r := e.value] else cache - {r}
  }

  function Reaped(s: Session, before: Cache, after: Cache): Session {
    if s.req in before && s.req !in after then s.(evictions := s.evictions + 1) else s
  }

  // What the event does to the lock, if anything.
  function LockEvent(c: System, e: Event): Option<L.Event> {
    match e
    case Send(s) => if s in c.sessions then Some(L.Arrive(s, c.sessions[s].cli)) else None
    case Wake(s) => Some(L.Spurious(s))
    case Retest(s) => Some(L.Retest(s))
    case Release(s) => Some(L.Release(s))
    case Return(s) => Some(L.Notify(s))
    case _ => None
  }

  lemma LockEventEnabled(c: System, e: Event)
    requires Enabled(c, e) && LockEvent(c, e).Some?
    ensures L.Enabled(c.q, LockEvent(c, e).value)
  {}

  // The thread is gone; the lock stays taken.
  function Vanish(q: L.State, s: Sid): L.State {
    q.(threads := q.threads - {s})
  }

  function LockAfter(c: System, e: Event): L.State
    requires Enabled(c, e)
  {
    if LockEvent(c, e).Some? then
      LockEventEnabled(c, e);
      L.Do(c.q, LockEvent(c, e).value)
    else if e.Throw? then Vanish(c.q, e.s)
    else c.q
  }

  function Do(c: System, e: Event): System
    requires Enabled(c, e)
  {
    var c1 := c.(q := LockAfter(c, e));
    match e
    case Join(s, cli, req, requested, start) =>
      c1.(sessions := c.sessions[s := NewSession(cli, req, requested, start)])
    case Step(s, a) =>
      var me := c.sessions[s];
      var (next, entry) := Act(me, EntryOf(c.cache, me.req), a, c.net, c.clock, c.kids);
      c1.(sessions := c.sessions[s := next], cache := SetEntry(c.cache, me.req, entry))
    case Return(s) => c1.(sessions := c.sessions[s := Deliver(c.sessions[s])])
    case Throw(s) => c1.(sessions := c.sessions[s := Errored(c.sessions[s])])
    case Die(s) => c1.(sessions := c.sessions[s := c.sessions[s].(progress := Dead)])
    case Crash(id) => c1.(net := c.net - {id})
    case Recover(id, shard) => c1.(net := c.net[id := shard])
    case Tick(ns) => c1.(clock := c.clock + ns)
    case ReadClock => c1.(sweep := Some(c.clock))
    case Sweep =>
      var left := Swept(c.cache, c.sweep.value);
      c1.(cache := left, sweep := None, sessions := map s | s in c.sessions :: Reaped(c.sessions[s], c.cache, left))
    case _ => c1
  }

  ghost predicate Exec(c: System, es: seq<Event>, c': System)
    decreases es
  {
    if es == [] then c == c'
    else Enabled(c, es[0]) && Exec(Do(c, es[0]), es[1..], c')
  }

  /** A run in which no call throws. */
  ghost predicate Calm(c: System, es: seq<Event>, c': System)
    decreases es
  {
    if es == [] then c == c'
    else Enabled(c, es[0]) && !es[0].Throw? && Calm(Do(c, es[0]), es[1..], c')
  }

  // -------------------------------------------------- what a session may expect

  datatype Phase = Outside | Waiting | Turn | Notifying

  function PhaseOf(q: L.State, s: Sid): Phase {
    if s !in q.threads then Outside
    else if q.threads[s].Waits() then Waiting
    else if q.threads[s].Holding? then Turn
    else Notifying
  }

  predicate More(st: Status) { st.Answer? && st.page.Page? && st.page.hasMore }
  predicate Last(st: Status) { st.Answer? && st.page.Page? && !st.page.hasMore }

  // Not an exception, and the offset handed to the client is usable.
  predicate Sound(st: Status) {
    st != Thrown && (st.Answer? ==> st.page.Page? && (st.page.hasMore ==> st.page.nextOffset >= 0))
  }

  // The session will look in the cache again, as far as its handler can tell.
  predicate Live(s: Session, ph: Phase) {
    (s.progress.Ongoing? || ph != Outside) &&
    (s.work.Fresh? || s.work.Loaded? || (s.work.Answering? && More(Answer(s.work.page)))
     || (s.work.Leaving? && More(s.work.status)))
  }

  // The final page has been sliced.
  predicate Final(s: Session) {
    (s.work.Answering? && Last(Answer(s.work.page))) || (s.work.Leaving? && Last(s.work.status))
  }

  predicate Served(s: Session) {
    s.work.Asking? || s.work.Loaded? || s.work.Answering? || (s.work.Leaving? && s.work.status.Answer?)
    || s.calls > 0 || s.progress.Finished?
  }

  const Ttl := (TtlSeconds + 1) * Second

  /** Handler stages match the lock, and gathers are paid for by reaper evictions. */
  predicate Orderly(s: Session, ph: Phase, entry: Option<Entry>, clock: int) {
    && (ph.Outside? || ph.Waiting? ==> s.work.Fresh?)
    && (ph.Notifying? ==> s.work.Leaving?)
    && (ph != Outside ==> s.progress.Ongoing? || s.progress.Dead?)
    && (s.start >= 0 && s.progress != Finished ==> s.offset >= 0)
    && (s.work.Answering? ==> Sound(Answer(s.work.page)))
    && (s.work.Leaving? ==> Sound(s.work.status))
    && (s.closed ==> Final(s) || (ph.Outside? && (s.progress.Finished? || s.progress.Dead?)))
    && (Final(s) || s.progress.Finished? ==> s.closed)
    && (s.closed && !s.work.Answering? ==> entry.None?)
    && (entry.Some? ==> s.touched == Some(entry.value.touched) && s.gathers >= 1)
    && (s.touched.Some? ==> s.touched.value <= clock)
    && (Served(s) ==> s.gathers >= 1)
    && s.gathers <= 1 + s.evictions
    && (Live(s, ph) && entry.None? ==>
          s.gathers <= s.evictions && (s.gathers >= 1 ==> s.touched.Some? && clock - s.touched.value >= Ttl))
    && (s.gathers > 1 ==> s.gap >= Ttl)
  }
}
