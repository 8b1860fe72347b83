/** The interleaved steps of a handler, run without interference, amount to one atomic call. */
module HandlerSteps {
  import opened Collections
  import opened Overlay
  import opened ScatterGather
  import opened LeaderNode
  import opened Cluster

  /** The actions take the handler from `s` to `s'` while nodes, clock and cache are left alone. */
  ghost predicate Handles(s: Session, entry: Option<Entry>, acts: seq<Action>, net: Net, clock: int, kids: seq<Tree>,
                          s': Session, entry': Option<Entry>)
    decreases acts
  {
    if acts == [] then s' == s && entry' == entry
    else
      CanAct(s, acts[0], kids) &&
      var (s1, entry1) := Act(s, entry, acts[0], net, clock, kids);
      Handles(s1, entry1, acts[1..], net, clock, kids, s', entry')
  }

  // ------------------------------------------------ a gather sees only its tree

  ghost predicate SameOn(net: Net, net': Net, ts: seq<Tree>) {
    forall i :: 0 <= i < |ts| ==>
      (ts[i].id in net <==> ts[i].id in net') && (ts[i].id in net ==> net[ts[i].id] == net'[ts[i].id])
  }

  lemma SameOnParts(net: Net, net': Net, a: seq<Tree>, b: seq<Tree>)
    requires SameOn(net, net', a + b)
    ensures SameOn(net, net', a) && SameOn(net, net', b)
  {
    assert forall i :: 0 <= i < |a| ==> (a + b)[i] == a[i];
    assert forall i :: 0 <= i < |b| ==> (a + b)[|a| + i] == b[i];
  }

  lemma {:induction false} FetchLocal(net: Net, net': Net, t: Tree)
    requires SameOn(net, net', Preorder(t))
    ensures Fetch(net, t) == Fetch(net', t)
    decreases t, 1
  {
    SameOnParts(net, net', [t], PreorderAll(t.kids));
    assert [t][0].id in net <==> t.id in net';
    FetchAllLocal(net, net', t.kids);
  }

  /** Replies and error texts depend only on the nodes of the tree. */
  lemma {:induction false} FetchAllLocal(net: Net, net': Net, ts: seq<Tree>)
    requires SameOn(net, net', PreorderAll(ts))
    ensures FetchAll(net, ts) == FetchAll(net', ts)
    decreases ts, 0
  {
    if ts != [] {
      SameOnParts(net, net', Preorder(ts[0]), PreorderAll(ts[1..]));
      FetchLocal(net, net', ts[0]);
      FetchAllLocal(net, net', ts[1..]);
    }
  }

  // ------------------------------------------------------------- the three stages

  lemma NoMoreSteps(s: Session, entry: Option<Entry>, acts: seq<Action>, net: Net, clock: int, kids: seq<Tree>,
                    s': Session, entry': Option<Entry>)
    requires s.work.Leaving? && Handles(s, entry, acts, net, clock, kids, s', entry')
    ensures s' == s && entry' == entry
  {}

  lemma FromAnswering(s: Session, entry: Option<Entry>, acts: seq<Action>, net: Net, clock: int, kids: seq<Tree>,
                      s': Session, entry': Option<Entry>)
    requires s.work.Answering? && Handles(s, entry, acts, net, clock, kids, s', entry') && s'.work.Leaving?
    ensures s.work.page.Page? && s'.work.status == Answer(s.work.page)
    ensures entry' == if s.work.page.hasMore then entry else None
  {
    var (s1, entry1) := Act(s, entry, acts[0], net, clock, kids);
    NoMoreSteps(s1, entry1, acts[1..], net, clock, kids, s', entry');
  }

  lemma FromLoaded(s: Session, entry: Option<Entry>, acts: seq<Action>, net: Net, clock: int, kids: seq<Tree>,
                   s': Session, entry': Option<Entry>)
    requires s.work.Loaded? && entry == Some(Entry(s.work.full, clock))
    requires Handles(s, entry, acts, net, clock, kids, s', entry') && s'.work.Leaving?
    ensures Responds(Payload(s.work.full), entry, s.requested, s.offset, clock, s'.work.status, entry')
  {
    var (s1, entry1) := Act(s, entry, acts[0], net, clock, kids);
    FromAnswering(s1, entry1, acts[1..], net, clock, kids, s', entry');
  }

  // What has been asked so far is what the nodes answer.
  ghost predicate AsAnswered(asked: map<Id, Option<bytes>>, net: Net) {
    forall v :: v in asked ==> asked[v] == if v in net then Some(net[v]) else None
  }

  lemma GatherAsked(asked: map<Id, Option<bytes>>, net: Net, kids: seq<Tree>)
    requires AsAnswered(asked, net) && AllAsked(kids, asked)
    ensures Gather(Answers(asked), kids) == Gather(net, kids)
  {
    var nodes := PreorderAll(kids);
    forall i | 0 <= i < |nodes|
      ensures (nodes[i].id in Answers(asked) <==> nodes[i].id in net) &&
              (nodes[i].id in net ==> Answers(asked)[nodes[i].id] == net[nodes[i].id])
    {
      assert nodes[i] in nodes;
    }
    FetchAllLocal(Answers(asked), net, kids);
  }

  lemma {:induction false} FromAsking(s: Session, entry: Option<Entry>, acts: seq<Action>, net: Net, clock: int,
                                      kids: seq<Tree>, s': Session, entry': Option<Entry>)
    requires s.work.Asking? && AsAnswered(s.work.asked, net)
    requires Handles(s, entry, acts, net, clock, kids, s', entry') && s'.work.Leaving?
    ensures Responds(Gather(net, kids), entry, s.requested, s.offset, clock, s'.work.status, entry')
    decreases acts
  {
    var (s1, entry1) := Act(s, entry, acts[0], net, clock, kids);
    if acts[0].Ask? {
      FromAsking(s1, entry1, acts[1..], net, clock, kids, s', entry');
    } else {
      GatherAsked(s.work.asked, net, kids);
      if s1.work.Loaded? {
        FromLoaded(s1, entry1, acts[1..], net, clock, kids, s', entry');
      } else {
        NoMoreSteps(s1, entry1, acts[1..], net, clock, kids, s', entry');
      }
    }
  }

  /** In whatever order the nodes are asked, the handler ends with the status and the cache entry that
      the atomic call promises; or as cancelled, with the entry as it was. */
  lemma HandlerIsServe(s: Session, entry: Option<Entry>, acts: seq<Action>, net: Net, clock: int, kids: seq<Tree>,
                       s': Session, entry': Option<Entry>)
    requires s.work.Fresh?
    requires Handles(s, entry, acts, net, clock, kids, s', entry') && s'.work.Leaving?
    ensures if acts[0].Abandon? then s'.work.status == Cancelled && entry' == entry
            else Responds(if entry.Some? then Payload(entry.value.payload) else Gather(net, kids),
                          entry, s.requested, s.offset, clock, s'.work.status, entry')
  {
    var (s1, entry1) := Act(s, entry, acts[0], net, clock, kids);
    if acts[0].Abandon? {
      NoMoreSteps(s1, entry1, acts[1..], net, clock, kids, s', entry');
    } else if entry.Some? {
      FromLoaded(s1, entry1, acts[1..], net, clock, kids, s', entry');
    } else {
      FromAsking(s1, entry1, acts[1..], net, clock, kids, s', entry');
    }
  }
}
