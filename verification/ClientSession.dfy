/** The client's paging loop against a leader that others use at the same time. */
module ClientSession {
  import opened Collections
  import opened FairLock
  import opened Records
  import opened ScatterGather
  import opened Paging
  import opened LeaderNode

  // ------------------------------------------------------------- decoding

  /** The whole records of each segment in turn. */
  function DecodeEach(segs: seq<Segment>): seq<Record> {
    if segs == [] then [] else DecodeAll(segs[0].payload) + DecodeEach(segs[1..])
  }

  lemma {:induction false} DecodeEachAppend(a: seq<Segment>, b: seq<Segment>)
    ensures DecodeEach(a + b) == DecodeEach(a) + DecodeEach(b)
  {
    if a == [] {
      assert a + b == b;
    } else {
      assert (a + b)[1..] == a[1..] + b;
      DecodeEachAppend(a[1..], b);
    }
  }

  ghost predicate AllWhole(segs: seq<Segment>) {
    forall i :: 0 <= i < |segs| ==> |segs[i].payload| % RecordSize == 0
  }

  /** Segment boundaries do not matter as long as they fall between records. */
  lemma {:induction false} DecodeEachWhole(segs: seq<Segment>)
    requires AllWhole(segs)
    ensures DecodeEach(segs) == DecodeAll(Joined(segs))
  {
    if segs != [] {
      DecodeEachWhole(segs[1..]);
      DecodeAppend(segs[0].payload, Joined(segs[1..]));
    } else {
      assert DecodeAll([]) == [];
    }
  }

  lemma TakeSegment(segs: seq<Segment>, k: nat)
    requires k < |segs|
    ensures DecodeEach(segs[..k + 1]) == DecodeEach(segs[..k]) + DecodeAll(segs[k].payload)
  {
    assert segs[..k + 1] == segs[..k] + [segs[k]];
    DecodeEachAppend(segs[..k], [segs[k]]);
    assert DecodeEach([segs[k]]) == DecodeAll(segs[k].payload) + [];
  }

  /** Splits each segment of a reply into its whole records. */
  method DecodeSegments(segs: seq<Segment>, records0: seq<Record>) returns (records: seq<Record>)
    ensures records == records0 + DecodeEach(segs)
    ensures AllWhole(segs) ==> records == records0 + DecodeAll(Joined(segs))
  {
    records := records0;
    for k := 0 to |segs|
      invariant records == records0 + DecodeEach(segs[..k])
    {
      TakeSegment(segs, k);
      records := DecodeSegment(segs[k].payload, records);
    }
    assert segs[..|segs|] == segs;
    WholeSegments(segs);
  }

  lemma WholeSegments(segs: seq<Segment>)
    ensures AllWhole(segs) ==> DecodeEach(segs) == DecodeAll(Joined(segs))
  {
    if AllWhole(segs) { DecodeEachWhole(segs); }
  }

  /** The inner loop. */
  method DecodeSegment(data: bytes, records0: seq<Record>) returns (records: seq<Record>)
    ensures records == records0 + DecodeAll(data)
  {
    records := records0;
    var count := |data| / RecordSize;
    for i := 0 to count
      invariant records == records0 + DecodeAll(data)[..i]
    {
      records := records + [Decode(data[i * RecordSize..(i + 1) * RecordSize])];
    }
    assert DecodeAll(data)[..count] == DecodeAll(data);
  }

  // -------------------------------------------- what others do in the meantime

  /** One call of the client: the state it finds, the states it wakes up to while it waits, and the
      leader's clock when it is served. */
  datatype Meanwhile = Meanwhile(found: World, wakes: seq<World>, now: int)

  /** What the loop relies on: nodes answer with their own shards, the request's entry holds the full
      data if there is one, and nobody else uses the client's id. */
  predicate Trusted(w: World, cli: Client, req: ReqId, debt: nat, full: bytes, shards: Net) {
    && w.lock.DebtOf(cli) == debt
    && FromShards(w.net, shards)
    && (req in w.cache ==> w.cache[req].payload == full)
  }

  ghost predicate TrustedCall(m: Meanwhile, cli: Client, req: ReqId, debt: nat, full: bytes, shards: Net) {
    && Trusted(m.found, cli, req, debt, full, shards)
    && forall w :: w in m.wakes ==> Trusted(w, cli, req, debt, full, shards)
  }

  // The state in which the call found out whether the data can be had.
  function FoundIn(m: Meanwhile, cli: Client, k: nat): World
    requires k <= |m.wakes|
  {
    TestedIn(Arrived(m.found, cli), m.wakes, k)
  }

  ghost predicate Supplied(w: World, kids: seq<Tree>, req: ReqId) {
    req in w.cache || AllUp(w.net, PreorderAll(kids))
  }

  // Nobody lets the call pass in this time.
  ghost predicate StillQueued(m: Meanwhile, cli: Client) {
    forall k: nat :: !PassesAt(Arrived(m.found, cli), m.wakes, cli, m.found.lock.NewTicket(cli), k)
  }

  /** The call is served at its k-th wake-up. */
  ghost predicate ServedAt(m: Meanwhile, cli: Client, k: nat) {
    FirstPass(Arrived(m.found, cli), m.wakes, cli, m.found.lock.NewTicket(cli), k)
  }

  lemma TrustedThroughout(m: Meanwhile, cli: Client, req: ReqId, debt: nat, full: bytes, shards: Net, k: nat)
    requires TrustedCall(m, cli, req, debt, full, shards) && k <= |m.wakes|
    ensures Trusted(FoundIn(m, cli, k), cli, req, debt, full, shards)
  {}

  lemma TrustedSupply(w: World, kids: seq<Tree>, cli: Client, req: ReqId, debt: nat, full: bytes, shards: Net)
    requires Trusted(w, cli, req, debt, full, shards) && full == Shards(shards, PreorderAll(kids))
    ensures Obtainable(w, kids, req).Payload? <==> Supplied(w, kids, req)
    ensures Obtainable(w, kids, req).Payload? ==> Obtainable(w, kids, req).data == full
  {
    GatherIsFull(w.net, shards, kids);
    GatherAllOrNothing(w.net, kids);
  }

  /** What the client learns from one call, and what it leaves behind. */
  ghost predicate Answered(w: World, after: World, kids: seq<Tree>, cli: Client, req: ReqId, requested: int, at: int,
                           full: bytes, s: Status)
  {
    && (s.Answer? || s.Internal?)
    && (s.Answer? <==> Supplied(w, kids, req))
    && (s.Answer? ==> s.page == PageAt(full, requested, at) && s.page.Page?)
    && after.lock.DebtOf(cli) == w.lock.DebtOf(cli) + 1
    && (req in after.cache <==> s.Answer? && s.page.hasMore)
    && (req in after.cache ==> after.cache[req].payload == full)
    && after.cache - {req} == w.cache - {req}
  }

  lemma ServesAnswers(w: World, after: World, kids: seq<Tree>, cli: Client, req: ReqId, requested: int, at: nat,
                      now: int, debt: nat, full: bytes, shards: Net, s: Status)
    requires Trusted(w, cli, req, debt, full, shards) && full == Shards(shards, PreorderAll(kids))
    requires Serves(Granted(w, cli), after, kids, cli, req, requested, at, false, now, s)
    ensures Answered(w, after, kids, cli, req, requested, at, full, s)
  {
    TrustedSupply(w, kids, cli, req, debt, full, shards);
    assert Obtainable(Granted(w, cli), kids, req) == Obtainable(w, kids, req);
  }

  /** The call itself. */
  method Ask(leader: Leader, cli: Client, req: ReqId, requested: int32, at: int32, m: Meanwhile,
             ghost debt: nat, ghost full: bytes, ghost shards: Net)
    returns (status: Option<Status>, k: nat)
    requires full == Shards(shards, PreorderAll(leader.tree.kids)) && TrustedCall(m, cli, req, debt, full, shards)
    requires FitsInt32(|full|, requested as int, at as int) && at >= 0
    modifies leader`cache, leader`net, leader.queue
    ensures if status.None? then StillQueued(m, cli)
            else ServedAt(m, cli, k) &&
                 Answered(FoundIn(m, cli, k), leader.Seen(), leader.tree.kids, cli, req,
                          requested as int, at as int, full, status.value)
  {
    leader.Resume(m.found);
    ghost var kids := leader.tree.kids;
    forall j: nat | j <= |m.wakes|
      ensures CanSlice(TestedIn(m.found, m.wakes, j), kids, req, requested as int, at as int)
    {
      TrustedThroughout(m, cli, req, debt, full, shards, j);
      TrustedSupply(TestedIn(m.found, m.wakes, j), kids, cli, req, debt, full, shards);
    }
    status, k := leader.QueryOnce(cli, req, requested, at, false, m.now, m.wakes);
    if status.Some? {
      TrustedThroughout(m, cli, req, debt, full, shards, k);
      ServesAnswers(FoundIn(m, cli, k), leader.Seen(), kids, cli, req,
                    requested as int, at as int, m.now, debt, full, shards, status.value);
    }
  }

  // -------------------------------------------------------------- the loop

  // The records of the first `at` bytes.
  ghost predicate Collected(records: seq<Record>, full: bytes, at: int) {
    0 <= at <= |full| && at % RecordSize == 0 && records == DecodeAll(full[..at])
  }

  lemma CollectPage(records: seq<Record>, full: bytes, requested: int, at: int)
    requires Collected(records, full, at) && |full| % RecordSize == 0
    ensures var page, end := PageAt(full, requested, at), PageEnd(|full|, requested, at);
            && page.Page? && AllWhole(page.segments)
            && Collected(records + DecodeAll(Joined(page.segments)), full, end)
            && (page.hasMore <==> end < |full|) && (page.hasMore ==> page.nextOffset == end)
  {
    var page, end := PageAt(full, requested, at), PageEnd(|full|, requested, at);
    AlignedPage(full, requested, at);
    JoinedPage(page);
    DecodeAppend(full[..at], full[at..end]);
    assert full[..at] + full[at..end] == full[..end];
  }

  datatype Reception = Received | Refused | Queued

  /** One turn of the loop: ask for the page at `at`, decode it, and take the next offset from it. */
  method NextPage(leader: Leader, cli: Client, req: ReqId, requested: int32, at: int32, records0: seq<Record>,
                  m: Meanwhile, ghost debt: nat, ghost full: bytes, ghost shards: Net)
    returns (got: Reception, records: seq<Record>, hasMore: bool, next: int32, k: nat)
    requires full == Shards(shards, PreorderAll(leader.tree.kids)) && TrustedCall(m, cli, req, debt, full, shards)
    requires |full| % RecordSize == 0 && FitsInt32(|full|, requested as int, at as int)
    requires Collected(records0, full, at as int)
    modifies leader`cache, leader`net, leader.queue
    ensures got.Queued? <==> StillQueued(m, cli)
    ensures !got.Queued? ==>
              && ServedAt(m, cli, k)
              && leader.queue.Value().DebtOf(cli) == debt + 1
              && (got.Received? <==> Supplied(FoundIn(m, cli, k), leader.tree.kids, req))
              && (req in leader.cache <==> got.Received? && hasMore)
              && leader.cache - {req} == FoundIn(m, cli, k).cache - {req}
    ensures !got.Received? ==> records == records0
    ensures got.Received? ==>
              var end := PageEnd(|full|, requested as int, at as int);
              Collected(records, full, end) && (hasMore <==> end < |full|) && (hasMore ==> next as int == end)
  {
    records, hasMore, next := records0, false, -1;
    var status;
    status, k := Ask(leader, cli, req, requested, at, m, debt, full, shards);
    if status.None? { return Queued, records, hasMore, next, k; }
    TrustedThroughout(m, cli, req, debt, full, shards, k);
    if !status.value.Answer? { return Refused, records, hasMore, next, k; }
    var page := status.value.page;
    CollectPage(records0, full, requested as int, at as int);
    records := DecodeSegments(page.segments, records0);
    got, hasMore, next := Received, page.hasMore, page.nextOffset as int32;
  }

  // The loop variables after `calls` pages: what has been counted and what is left add up.
  predicate OnCourse(hasMore: bool, offset: int, at: nat, calls: nat, total: nat, requested: int) {
    if hasMore then
      && offset == at && (at < total || at == 0) && at == calls * Stride(requested)
      && calls + PageCount(total - at, requested) == PageCount(total, requested)
    else calls > 0 && at == total && calls == PageCount(total, requested)
  }

  lemma StaysOnCourse(at: nat, calls: nat, total: nat, requested: int)
    requires OnCourse(true, at, at, calls, total, requested)
    ensures var end := PageEnd(total, requested, at); OnCourse(end < total, end, end, calls + 1, total, requested)
  {
    PageCountStep(total - at, requested);
  }

  lemma MoreToCome(at: nat, calls: nat, total: nat, requested: int)
    requires OnCourse(true, at, at, calls, total, requested)
    ensures calls < PageCount(total, requested)
  {
    PageCountStep(total - at, requested);
    PageCountPositive(total - at, requested);
  }

  datatype Ending = Done | Rejected | Unfinished

  ghost predicate TrustedCalls(ms: seq<Meanwhile>, cli: Client, req: ReqId, debt: nat, full: bytes, shards: Net) {
    forall i :: 0 <= i < |ms| ==> TrustedCall(ms[i], cli, req, debt + i, full, shards)
  }

  // Call `i` was served, and found the data or did not.
  ghost predicate CallFound(m: Meanwhile, kids: seq<Tree>, cli: Client, req: ReqId, supplied: bool) {
    exists k: nat :: ServedAt(m, cli, k) && (Supplied(FoundIn(m, cli, k), kids, req) <==> supplied)
  }

  /** The loop, through at most the given calls: it ends at the last page or at the first error. */
  method PageThrough(leader: Leader, cli: Client, req: ReqId, requested: int32, ms: seq<Meanwhile>,
                     ghost debt: nat, ghost full: bytes, ghost shards: Net)
    returns (end: Ending, records: seq<Record>, calls: nat)
    requires full == Shards(shards, PreorderAll(leader.tree.kids)) && TrustedCalls(ms, cli, req, debt, full, shards)
    requires |full| % RecordSize == 0 && Roomy(|full|, requested as int)
    modifies leader`cache, leader`net, leader.queue
    ensures calls <= |ms| && forall i :: 0 <= i < calls ==> CallFound(ms[i], leader.tree.kids, cli, req, true)
    ensures end.Done? ==>
              && Collected(records, full, |full|) && calls == PageCount(|full|, requested as int)
              && leader.queue.Value().DebtOf(cli) == debt + calls && req !in leader.cache
    ensures !end.Done? ==>
              calls < PageCount(|full|, requested as int) && Collected(records, full, calls * Stride(requested as int))
    ensures end.Rejected? ==>
              && calls < |ms| && CallFound(ms[calls], leader.tree.kids, cli, req, false)
              && leader.queue.Value().DebtOf(cli) == debt + calls + 1 && req !in leader.cache
    ensures end.Unfinished? ==> calls == |ms| || StillQueued(ms[calls], cli)
  {
    var offset: int32 := 0;
    var hasMore := true;
    records, calls := [], 0;
    ghost var at: nat := 0;
    ghost var kids := leader.tree.kids;
    assert DecodeAll(full[..0]) == [];
    while hasMore && calls < |ms|
      invariant calls <= |ms| && forall i :: 0 <= i < calls ==> CallFound(ms[i], kids, cli, req, true)
      invariant Collected(records, full, at)
      invariant OnCourse(hasMore, offset as int, at, calls, |full|, requested as int)
      invariant calls > 0 ==> leader.queue.Value().DebtOf(cli) == debt + calls
      invariant !hasMore ==> req !in leader.cache
      decreases |ms| - calls
    {
      ghost var pageEnd := PageEnd(|full|, requested as int, at);
      RoomyFits(|full|, requested as int, at);
      StaysOnCourse(at, calls, |full|, requested as int);
      MoreToCome(at, calls, |full|, requested as int);
      var got, decoded, more, next, k :=
        NextPage(leader, cli, req, requested, offset, records, ms[calls], debt + calls, full, shards);
      if got.Queued? { return Unfinished, records, calls; }
      if got.Refused? { return Rejected, records, calls; }
      records, hasMore, offset := decoded, more, next;
      calls := calls + 1;
      at := pageEnd;
    }
    if hasMore { MoreToCome(at, calls, |full|, requested as int); }
    end := if hasMore then Unfinished else Done;
  }

  /** Whatever others do between and during its calls, a client that comes to the end has every record of
      every node below the leader, in preorder, after exactly the page count of calls, one turn each; and
      it fails only at a call that finds a node down and no cached payload. Until then it has the records
      of the pages received. */
  method RunClient(leader: Leader, cli: Client, req: ReqId, requested: int32, ms: seq<Meanwhile>,
                   ghost debt: nat, ghost shards: Net)
    returns (end: Ending, records: seq<Record>, calls: nat)
    requires forall v :: v in shards ==> |shards[v]| % RecordSize == 0
    requires var full := Shards(shards, PreorderAll(leader.tree.kids));
             Roomy(|full|, requested as int) && TrustedCalls(ms, cli, req, debt, full, shards)
    modifies leader`cache, leader`net, leader.queue
    ensures calls <= |ms| && forall i :: 0 <= i < calls ==> CallFound(ms[i], leader.tree.kids, cli, req, true)
    ensures var full := Shards(shards, PreorderAll(leader.tree.kids));
            && (end.Done? ==>
                  && records == DecodeAll(full) && calls == PageCount(|full|, requested as int)
                  && leader.queue.Value().DebtOf(cli) == debt + calls && req !in leader.cache)
            && (!end.Done? ==>
                  && calls < PageCount(|full|, requested as int)
                  && Collected(records, full, calls * Stride(requested as int)))
    ensures end.Rejected? <==> calls < |ms| && CallFound(ms[calls], leader.tree.kids, cli, req, false) && !end.Done?
    ensures end.Rejected? ==> leader.queue.Value().DebtOf(cli) == debt + calls + 1 && req !in leader.cache
    ensures end.Unfinished? ==> calls == |ms| || StillQueued(ms[calls], cli)
  {
    ghost var full := Shards(shards, PreorderAll(leader.tree.kids));
    ShardsAligned(shards, PreorderAll(leader.tree.kids));
    end, records, calls := PageThrough(leader, cli, req, requested, ms, debt, full, shards);
    assert full[..|full|] == full;
  }
}
