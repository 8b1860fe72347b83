/** What the text of a failed fetch tells. */
module ErrorTexts {
  import opened Overlay
  import opened ScatterGather

  predicate NoColon(s: string) {
    forall i :: 0 <= i < |s| ==> s[i] != ':'
  }

  predicate Plain(p: seq<Id>) {
    forall i :: 0 <= i < |p| ==> NoColon(p[i])
  }

  lemma FirstColon(a: string, x: string)
    requires NoColon(a)
    ensures (a + ":" + x)[|a|] == ':' && forall j :: 0 <= j < |a| ==> (a + ":" + x)[j] != ':'
  {}

  lemma CutAtColon(a: string, x: string, b: string, y: string)
    requires NoColon(a) && NoColon(b) && a + ":" + x == b + ":" + y
    ensures a == b && x == y
  {
    var s, t := a + ":" + x, b + ":" + y;
    FirstColon(a, x);
    FirstColon(b, y);
    assert |a| == |b|;
    assert s[..|a|] == a && t[..|b|] == b;
    assert s[|a| + 1..] == x && t[|b| + 1..] == y;
  }

  lemma Unspell(p: seq<Id>)
    requires p != []
    ensures Spelled(p)[20..] == p[0] + ":" + (" " + Spelled(p[1..])) && Spelled(p)[0] == 'c' && |Spelled(p)| > 20
  {
    var rest := p[0] + ": " + Spelled(p[1..]);
    assert |"child fetch failed: "| == 20;
    assert Spelled(p) == "child fetch failed: " + rest;
    assert rest == p[0] + ":" + (" " + Spelled(p[1..]));
  }

  /** For ids without colons the text determines the path. */
  lemma {:induction false} TextDeterminesPath(p: seq<Id>, q: seq<Id>)
    requires Plain(p) && Plain(q) && Spelled(p) == Spelled(q)
    ensures p == q
    decreases |p|
  {
    assert Spelled([])[0] == 'f';
    if p != [] { Unspell(p); }
    if q != [] { Unspell(q); }
    if p != [] && q != [] {
      var x, y := " " + Spelled(p[1..]), " " + Spelled(q[1..]);
      CutAtColon(p[0], x, q[0], y);
      assert x[1..] == Spelled(p[1..]) && y[1..] == Spelled(q[1..]);
      TextDeterminesPath(p[1..], q[1..]);
      assert p == [p[0]] + p[1..] && q == [q[0]] + q[1..];
    }
  }

  /** A failed gather spells the first broken path below the leader: "child fetch failed: ", then each id
      with a colon and a space, then the connection error. */
  lemma GatherFailure(net: Net, kids: seq<Tree>) returns (i: nat)
    ensures Gather(net, kids).Error? ==>
              FirstBroken(net, PathsAll(kids), i) && Gather(net, kids).message == Spelled(PathsAll(kids)[i])
    ensures Gather(net, kids).Payload? ==> forall j :: 0 <= j < |PathsAll(kids)| ==> !Broken(net, PathsAll(kids)[j])
  {
    i := FirstFailureAmong(net, kids);
    if FetchAll(net, kids).Failed? {
      var p := PathsAll(kids)[i];
      LabelText(p[0], Spelled(p[1..]));
    }
  }
}
