/** The leader service: one cached payload a request, served in pages under the turn lock. */
module LeaderNode {
  import opened Collections
  import opened Overlay
  import opened FairLock
  import opened ScatterGather
  import TeamNode
  import opened Paging

  type ReqId = string

  /** Times are clock readings in nanoseconds. */
  datatype Entry = Entry(payload: bytes, touched: int)

  type Cache = map<ReqId, Entry>

  const Second := 1_000_000_000
  const TtlSeconds := 30

  // Whole seconds, truncated toward zero as `duration_cast` does.
  function AgeSeconds(now: int, touched: int): int {
    if now >= touched then (now - touched) / Second else -((touched - now) / Second)
  }

  predicate Abandoned(e: Entry, now: int) {
    AgeSeconds(now, e.touched) > TtlSeconds
  }

  function Swept(cache: Cache, now: int): Cache {
    map r | r in cache && !Abandoned(cache[r], now) :: cache[r]
  }

  /** A sweep that read its clock at `now` and runs at `later` removes exactly the entries idle for
      31 seconds at `now`; so nothing touched within 31 seconds of its removal is lost, however
      stale `now` is, and every survivor is untouched. */
  lemma SweepIsSafe(cache: Cache, now: int, later: int, r: ReqId)
    requires r in cache && now <= later
    ensures r in Swept(cache, now) <==> now - cache[r].touched < 31_000_000_000
    ensures r !in Swept(cache, now) ==> later - cache[r].touched >= 31_000_000_000
    ensures r in Swept(cache, now) ==> Swept(cache, now)[r] == cache[r]
  {}

  datatype Status =
    | Answer(page: Page)
    | Cancelled
    | Internal(message: string)
    | Thrown  // an exception outside the handler's try block

  function EntryOf(cache: Cache, r: ReqId): Option<Entry> {
    if r in cache then Some(cache[r]) else None
  }

  /** What a request is answered, and what becomes of its entry, once its payload is available or not. */
  predicate Responds(available: Outcome, entry: Option<Entry>, requested: int, offset: int, now: int,
                     status: Status, entry': Option<Entry>)
  {
    match available
    case Error(m) => status == Internal(m) && entry' == entry
    case Payload(full) =>
      var page := PageAt(full, requested, offset);
      page.Page? && status == Answer(page) && entry' == if page.hasMore then Some(Entry(full, now)) else None
  }

  /** The state that all threads share, as a thread finds it when it runs again. */
  datatype World = World(lock: Lock, cache: Cache, net: Net)

  function Arrived(w: World, cli: Client): World {
    w.(lock := w.lock.Enter(cli))
  }

  function Granted(w: World, cli: Client): World {
    w.(lock := w.lock.Pass(cli))
  }

  // The payload a request would be given in this state.
  function Obtainable(w: World, kids: seq<Tree>, req: ReqId): Outcome {
    if req in w.cache then Payload(w.cache[req].payload) else Gather(w.net, kids)
  }

  predicate CanSlice(w: World, kids: seq<Tree>, req: ReqId, requested: int, offset: int) {
    var available := Obtainable(w, kids, req);
    available.Payload? ==> FitsInt32(|available.data|, requested, offset)
  }

  /** From the grant to the return: status, lock, the request's own entry, and nothing else. */
  predicate Serves(w: World, after: World, kids: seq<Tree>, cli: Client, req: ReqId, requested: int, offset: int,
                   cancelled: bool, now: int, s: Status)
  {
    var available := Obtainable(w, kids, req);
    && (s.Thrown? <==> !cancelled && available.Payload? && offset < 0)
    && after.lock == (if s.Thrown? then w.lock else w.lock.Leave(cli))
    && (cancelled ==> s == Cancelled && after.cache == w.cache)
    && (!cancelled && !s.Thrown? ==>
          Responds(available, EntryOf(w.cache, req), requested, offset, now, s, EntryOf(after.cache, req)))
    && after.cache - {req} == w.cache - {req}
    && after.net == w.net
  }

  /** A queued call tests its predicate on arrival and then at each wake-up. */
  function TestedIn(arrival: World, wakes: seq<World>, k: nat): World
    requires k <= |wakes|
  {
    if k == 0 then arrival else wakes[k - 1]
  }

  ghost predicate PassesAt(arrival: World, wakes: seq<World>, cli: Client, me: Ticket, k: nat) {
    k <= |wakes| && TestedIn(arrival, wakes, k).lock.MayPass(cli, me)
  }

  ghost predicate FirstPass(arrival: World, wakes: seq<World>, cli: Client, me: Ticket, k: nat) {
    PassesAt(arrival, wakes, cli, me, k) && forall j: nat :: j < k ==> !PassesAt(arrival, wakes, cli, me, j)
  }

  /** A call that finds nobody queued and no turn in progress passes on arrival. */
  lemma IdlePasses(l: Lock, cli: Client)
    requires !l.active && l.waiting == map[]
    ensures l.Enter(cli).MayPass(cli, l.NewTicket(cli))
    ensures var after := l.Enter(cli).Pass(cli).Leave(cli);
            !after.active && after.waiting == map[] && after.debt == l.debt[cli := l.DebtOf(cli) + 1]
  {}

  class Leader {
    const tree: Tree
    const python: set<Id>
    const queue: FairQueue
    var cache: Cache
    var net: Net  // which nodes answer, set by the environment

    constructor (tree: Tree, python: set<Id>, net: Net)
      ensures this.tree == tree && this.python == python && this.net == net && cache == map[]
      ensures fresh(queue) && queue.Value() == NewLock
    {
      this.tree, this.python, this.net, cache := tree, python, net, map[];
      queue := new FairQueue();
    }

    function Seen(): World
      reads this, queue
    {
      World(queue.Value(), cache, net)
    }

    /** Other threads have run. */
    method Resume(w: World)
      modifies this`cache, this`net, queue
      ensures Seen() == w
    {
      cache, net := w.cache, w.net;
      queue.active, queue.lastNo, queue.waiting, queue.debt :=
        w.lock.active, w.lock.lastNo, w.lock.waiting, w.lock.debt;
    }

    /** A hit is touched; a miss gathers and is stored only if every child answered. */
    method FetchOrCache(req: ReqId, now: int) returns (r: Outcome)
      modifies this`cache
      ensures r == old(Obtainable(Seen(), tree.kids, req))
      ensures cache == if r.Payload? then old(cache)[req := Entry(r.data, now)] else old(cache)
    {
      if req in cache {
        cache := cache[req := cache[req].(touched := now)];
        return Payload(cache[req].payload);
      }
      r := TeamNode.LeaderGather(net, tree, python);
      if r.Payload? { cache := cache[req := Entry(r.data, now)]; }
    }

    method Evict(req: ReqId)
      modifies this`cache
      ensures cache == old(cache) - {req}
    {
      cache := cache - {req};
    }

    /** The reaper's erase loop, visiting the entries in any order. */
    method Sweep(now: int)
      modifies this`cache
      ensures cache == Swept(old(cache), now)
    {
      ghost var was := cache;
      var todo := cache.Keys;
      while todo != {}
        invariant todo <= was.Keys
        invariant forall r :: r in cache <==> r in was && (r in todo || !Abandoned(was[r], now))
        invariant forall r :: r in cache ==> cache[r] == was[r]
        decreases todo
      {
        var r :| r in todo;
        if Abandoned(cache[r], now) { cache := cache - {r}; }
        todo := todo - {r};
      }
    }

    /** `QueryOnce` from the moment the turn is granted. Every return path releases once; the only
        path that does not is the exception raised for a negative offset. With a page goes the debt
        that the log line shows: the turns completed before this one. */
    method Serve(cli: Client, req: ReqId, requested: int32, offset: int32, cancelled: bool, now: int)
      returns (s: Status, shown: Option<nat>)
      requires queue.active
      requires !cancelled ==> CanSlice(Seen(), tree.kids, req, requested as int, offset as int)
      modifies this`cache, queue
      ensures Serves(old(Seen()), Seen(), tree.kids, cli, req, requested as int, offset as int, cancelled, now, s)
      ensures s.Thrown? <==> !cancelled && old(Obtainable(Seen(), tree.kids, req)).Payload? && offset < 0
      ensures !s.Thrown? ==> !queue.active && queue.debt == old(queue.debt)[cli := old(queue.Value().DebtOf(cli)) + 1]
      ensures cancelled ==> s == Cancelled && cache == old(cache)
      ensures shown == if s.Answer? then Some(old(queue.Value()).DebtOf(cli)) else None
    {
      if cancelled {
        queue.Release(cli);
        return Cancelled, None;
      }
      var got := FetchOrCache(req, now);
      if got.Error? {
        queue.Release(cli);
        return Internal(got.message), None;
      }
      var page := SlicePage(got.data, requested, offset);
      if page.OutOfRange? { return Thrown, None; }
      var debt := queue.Debt(cli);
      if !page.hasMore { Evict(req); }
      queue.Release(cli);
      s, shown := Answer(page), Some(debt);
    }

    /** The whole call. It waits through the given wake-ups, before each of which other threads may have
        done anything to the shared state; with no turn by then it is still waiting. */
    method QueryOnce(cli: Client, req: ReqId, requested: int32, offset: int32, cancelled: bool, now: int,
        wakes: seq<World>)
      returns (s: Option<Status>, k: nat)
      requires forall j: nat :: j <= |wakes| && !cancelled ==>
                 CanSlice(TestedIn(Seen(), wakes, j), tree.kids, req, requested as int, offset as int)
      modifies this`cache, this`net, queue
      ensures var arrival, me := old(Arrived(Seen(), cli)), old(queue.Value().NewTicket(cli));
              if s.None? then
                (forall j: nat :: !PassesAt(arrival, wakes, cli, me, j)) &&
                Seen() == TestedIn(arrival, wakes, |wakes|)
              else
                && FirstPass(arrival, wakes, cli, me, k)
                && Serves(Granted(TestedIn(arrival, wakes, k), cli), Seen(), tree.kids, cli, req,
                          requested as int, offset as int, cancelled, now, s.value)
    {
      ghost var before, arrival := Seen(), Arrived(Seen(), cli);
      var me := queue.TakeTicket(cli);
      k := 0;
      var passed := queue.TryPass(cli, me);
      while !passed && k < |wakes|
        invariant k <= |wakes|
        invariant forall j: nat :: j < k ==> !PassesAt(arrival, wakes, cli, me, j)
        invariant passed <==> PassesAt(arrival, wakes, cli, me, k)
        invariant Seen() == if passed then Granted(TestedIn(arrival, wakes, k), cli) else TestedIn(arrival, wakes, k)
        decreases |wakes| - k, !passed
      {
        Resume(wakes[k]);
        k := k + 1;
        passed := queue.TryPass(cli, me);
      }
      if !passed { return None, k; }
      assert !cancelled ==> CanSlice(TestedIn(before, wakes, k), tree.kids, req, requested as int, offset as int);
      var status, shown := Serve(cli, req, requested, offset, cancelled, now);
      s := Some(status);
    }
  }

  /** A fresh leader asked at a negative offset: the call throws and the turn is never given back. */
  method NegativeOffsetWedges(cli: Client, req: ReqId) returns (leader: Leader, s: Option<Status>)
    ensures s == Some(Thrown) && leader.queue.active && leader.queue.waiting == map[]
  {
    leader := new Leader(Tree("A", []), {}, map[]);
    IdlePasses(NewLock, cli);
    ghost var arrival := Arrived(leader.Seen(), cli);
    assert PassesAt(arrival, [], cli, NewLock.NewTicket(cli), 0);
    var k;
    s, k := leader.QueryOnce(cli, req, 128, -1, false, 0, []);
  }
}
