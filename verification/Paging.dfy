/** Slicing a cached payload into record-aligned pages. */
module Paging {
  import opened Collections
  import opened Records
  import opened ScatterGather

  const DefaultChunk := 128
  const MaxChunk := 1048576

  newtype int32 = x: int | -0x8000_0000 <= x < 0x8000_0000

  const Int32Limit := 0x8000_0000

  /** `OutOfRange` stands for the exception that `substr` raises on a negative start. */
  datatype Page = Page(segments: seq<Segment>, hasMore: bool, nextOffset: int, complete: bool) | OutOfRange

  function Chunk(requested: int): int {
    var c := if requested > 0 then requested else DefaultChunk;
    if c > MaxChunk then MaxChunk else if c < RecordSize then RecordSize else c
  }

  /** The slicing stays within 32 bits. The chunk is added to the offset whatever the payload. */
  predicate FitsInt32(total: nat, requested: int, offset: int) {
    total < Int32Limit && offset + Chunk(requested) < Int32Limit
  }

  predicate IsInt32(x: int) {
    -Int32Limit <= x < Int32Limit
  }

  /** The values the slicing computes, in order. The alignment is computed only before the end. */
  function Intermediates(total: nat, requested: int, offset: int): seq<int> {
    var chunk := Chunk(requested);
    var rawEnd := if offset + chunk < total then offset + chunk else total;
    var aligned := offset + (rawEnd - offset) / RecordSize * RecordSize;
    [total, chunk, offset + chunk, rawEnd] + if rawEnd < total then [rawEnd - offset, aligned] else []
  }

  /** These are exactly the calls in which every one of them has a 32-bit value. */
  lemma FitsInt32Exactly(total: nat, requested: int32, offset: int32)
    ensures var xs := Intermediates(total, requested as int, offset as int);
            FitsInt32(total, requested as int, offset as int) <==> forall i :: 0 <= i < |xs| ==> IsInt32(xs[i])
  {
    var xs := Intermediates(total, requested as int, offset as int);
    assert xs[0] == total && xs[2] == offset as int + Chunk(requested as int);
  }

  /** Room for a payload and one chunk. */
  predicate Roomy(total: nat, requested: int) {
    total + Chunk(requested) <= Int32Limit
  }

  /** With that room every offset a client sends fits; payloads of up to 2^31 - 1048576 bytes have it
      whatever chunk is asked for. */
  lemma RoomyFits(total: nat, requested: int, offset: nat)
    requires Roomy(total, requested) && (offset < total || offset == 0)
    ensures FitsInt32(total, requested, offset)
  {}

  lemma SmallIsRoomy(total: nat, requested: int)
    requires total <= Int32Limit - MaxChunk
    ensures Roomy(total, requested)
  {}

  /** The whole records of a chunk, in bytes. */
  function Stride(requested: int): (n: nat)
    ensures n % RecordSize == 0 && RecordSize <= n <= Chunk(requested) < n + RecordSize
  {
    Chunk(requested) / RecordSize * RecordSize
  }

  /** What a page must be: the last page holds the rest; any other holds one stride and says where
      the next begins; past the end there is nothing; before the start there is no page. */
  function PageAt(full: bytes, requested: int, offset: int): Page {
    if offset < 0 then OutOfRange
    else if offset >= |full| then Page([], false, -1, true)
    else if offset + Chunk(requested) < |full| then
      var end := offset + Stride(requested);
      Page([Segment(full[offset..end], false)], true, end, false)
    else Page([Segment(full[offset..], true)], false, -1, true)
  }

  /** How long a page is that is not the last, and when a page is not the last, for each size asked for. */
  lemma PageSizes(full: bytes, requested: int, offset: nat)
    ensures var p := PageAt(full, requested, offset);
            && p.Page?
            && (20 <= requested <= 1048576 ==>
                  && (p.hasMore <==> offset + requested < |full|)
                  && (p.hasMore ==> p.nextOffset - offset <= requested < p.nextOffset - offset + 20))
            && (requested <= 0 ==>
                  (p.hasMore <==> offset + 128 < |full|) && (p.hasMore ==> p.nextOffset == offset + 120))
            && (0 < requested < 20 ==>
                  (p.hasMore <==> offset + 20 < |full|) && (p.hasMore ==> p.nextOffset == offset + 20))
            && (requested > 1048576 ==>
                  (p.hasMore <==> offset + 1048576 < |full|) && (p.hasMore ==> p.nextOffset == offset + 1048560))
            && (p.hasMore ==> (p.nextOffset - offset) % 20 == 0)
  {
    assert Stride(128) == 120 && Stride(1048576) == 1048560 && Stride(20) == 20;
  }

  /** What is in each kind of page. */
  lemma PageFields(full: bytes, requested: int, offset: int)
    ensures var p := PageAt(full, requested, offset);
            && (p.OutOfRange? <==> offset < 0)
            && (offset >= |full| ==> p == Page([], false, -1, true))
            && (p.Page? && p.hasMore ==>
                  offset < p.nextOffset < |full| &&
                  p.segments == [Segment(full[offset..p.nextOffset], false)] && !p.complete)
            && (p.Page? && !p.hasMore && offset < |full| ==>
                  p.segments == [Segment(full[offset..], true)] && p.nextOffset == -1 && p.complete)
  {}

  /** The slicing in 32-bit arithmetic: every intermediate value fits, and the alignment guard
      never fails when it is reached. */
  method SlicePage(full: bytes, requested: int32, offset: int32) returns (p: Page)
    requires FitsInt32(|full|, requested as int, offset as int)
    ensures p == PageAt(full, requested as int, offset as int)
  {
    var chunk: int32 := if requested > 0 then requested else DefaultChunk as int32;
    if chunk > MaxChunk as int32 { chunk := MaxChunk as int32; }
    if chunk < RecordSize as int32 { chunk := RecordSize as int32; }
    assert chunk as int == Chunk(requested as int);

    var total := |full| as int32;
    var start := offset;
    var rawEnd := if start + chunk < total then start + chunk else total;
    var end := rawEnd;
    if end < total {
      var aligned := start + ((end - start) / (RecordSize as int32)) * (RecordSize as int32);
      assert aligned > start;
      if aligned > start { end := aligned; }
      assert end as int == offset as int + Stride(requested as int);
    }

    var segments: seq<Segment> := [];
    if start < total {
      if start < 0 { return OutOfRange; }
      segments := [Segment(full[start as int..end as int], end >= total)];
      assert full[start as int..total as int] == full[start as int..];
    }
    var more := end < total;
    p := Page(segments, more, if more then end as int else -1, !more);
  }

  // ------------------------------------------------------- a whole session

  /** The pages a client is given when it starts at `offset` and follows `nextOffset`. */
  ghost function Pages(full: bytes, requested: int, offset: nat): seq<Page>
    decreases |full| - offset
  {
    var p := PageAt(full, requested, offset);
    [p] + if p.hasMore then Pages(full, requested, p.nextOffset) else []
  }

  ghost function PageBytes(ps: seq<Page>): bytes
    requires forall i :: 0 <= i < |ps| ==> ps[i].Page?
  {
    if ps == [] then [] else Joined(ps[0].segments) + PageBytes(ps[1..])
  }

  /** Calls needed for `total` bytes: one at least, else one for each stride begun. */
  function PageCount(total: nat, requested: int): nat {
    if total == 0 then 1 else (total + Stride(requested) - 1) / Stride(requested)
  }

  // From an aligned offset the last page is reached exactly when at most one stride remains.
  lemma AlignedEnd(total: nat, requested: int, offset: nat)
    requires total % RecordSize == 0 && offset % RecordSize == 0
    ensures offset + Chunk(requested) < total <==> offset + Stride(requested) < total
  {}

  lemma PageCountStep(rest: nat, requested: int)
    ensures rest > Stride(requested) ==>
            PageCount(rest, requested) == 1 + PageCount(rest - Stride(requested), requested)
    ensures rest <= Stride(requested) ==> PageCount(rest, requested) == 1
  {
    var n := Stride(requested);
    if rest > n {
      assert (rest + n - 1) / n == 1 + (rest - 1) / n by { DivStep(rest - 1, n); }
    } else if rest > 0 {
      assert (rest + n - 1) / n == 1 by { DivStep(rest - 1, n); DivSmall(rest - 1, n); }
    }
  }

  lemma PageCountPositive(total: nat, requested: int)
    ensures PageCount(total, requested) >= 1
  {
    PageCountStep(total, requested);
    if total > Stride(requested) { PageCountPositive(total - Stride(requested), requested); }
  }

  lemma AtLeastOnce(k: int, n: nat)
    requires k >= 1
    ensures k * n >= n
  {}

  lemma DivUnique(x: int, n: nat, q: int, r: int)
    requires 0 <= r < n && x == q * n + r
    ensures x / n == q
  {
    var d := x / n;
    var m := x % n;
    assert x == d * n + m;
    assert (d - q) * n == r - m && (q - d) * n == m - r;
    if d > q { AtLeastOnce(d - q, n); }
    if d < q { AtLeastOnce(q - d, n); }
  }

  lemma DivStep(x: nat, n: nat)
    requires n > 0
    ensures (x + n) / n == x / n + 1
  {
    var q, r := x / n, x % n;
    assert x == q * n + r;
    assert (q + 1) * n == q * n + n;
    DivUnique(x + n, n, q + 1, r);
  }

  lemma DivSmall(x: nat, n: nat)
    requires x < n
    ensures x / n == 0
  {
    DivUnique(x, n, 0, x);
  }

  // Every page answers, and only the last says there is no more.
  ghost predicate Chained(ps: seq<Page>) {
    forall i :: 0 <= i < |ps| ==> ps[i].Page? && (ps[i].hasMore <==> i < |ps| - 1)
  }

  ghost predicate WholeRecords(ps: seq<Page>)
    requires Chained(ps)
  {
    forall i :: 0 <= i < |ps| ==> |Joined(ps[i].segments)| % RecordSize == 0
  }

  lemma JoinedPage(p: Page)
    requires p.Page? && |p.segments| <= 1
    ensures Joined(p.segments) == if p.segments == [] then [] else p.segments[0].payload
  {
    if p.segments != [] { assert Joined(p.segments[1..]) == []; }
  }

  // Where the page at an aligned offset ends.
  function PageEnd(total: nat, requested: int, offset: nat): nat {
    if offset + Stride(requested) < total then offset + Stride(requested) else total
  }

  lemma AlignedPage(full: bytes, requested: int, offset: nat)
    requires |full| % RecordSize == 0 && offset % RecordSize == 0 && offset <= |full|
    ensures var p, end := PageAt(full, requested, offset), PageEnd(|full|, requested, offset);
            && p.Page? && offset <= end <= |full| && end % RecordSize == 0
            && (p.hasMore <==> end < |full|) && (p.hasMore ==> p.nextOffset == end)
            && Joined(p.segments) == full[offset..end]
            && (end - offset) % RecordSize == 0
  {
    AlignedEnd(|full|, requested, offset);
    EndsAligned(|full|, requested, offset);
    PageContent(full, requested, offset);
  }

  lemma EndsAligned(total: nat, requested: int, offset: nat)
    requires total % RecordSize == 0 && offset % RecordSize == 0 && offset <= total
    ensures var end := PageEnd(total, requested, offset);
            offset <= end && end % RecordSize == 0 && (end - offset) % RecordSize == 0
  {}

  lemma PageContent(full: bytes, requested: int, offset: nat)
    requires offset <= |full| && (offset + Chunk(requested) < |full| <==> offset + Stride(requested) < |full|)
    ensures PageAt(full, requested, offset).Page?
    ensures Joined(PageAt(full, requested, offset).segments) == full[offset..PageEnd(|full|, requested, offset)]
  {
    JoinedPage(PageAt(full, requested, offset));
    assert full[offset..|full|] == full[offset..];
  }

  lemma PrependPage(p: Page, rest: seq<Page>)
    requires p.Page? && Chained(rest) && (p.hasMore <==> rest != [])
    requires WholeRecords(rest) && |Joined(p.segments)| % RecordSize == 0
    ensures Chained([p] + rest) && WholeRecords([p] + rest)
    ensures PageBytes([p] + rest) == Joined(p.segments) + PageBytes(rest)
  {
    var ps := [p] + rest;
    forall i | 0 <= i < |ps|
      ensures ps[i].Page? && (ps[i].hasMore <==> i < |ps| - 1) && |Joined(ps[i].segments)| % RecordSize == 0
    {
      if i > 0 { assert ps[i] == rest[i - 1]; }
    }
    assert ps[1..] == rest;
  }

  lemma SplitTail(full: bytes, offset: nat, end: nat)
    requires offset <= end <= |full|
    ensures full[offset..] == full[offset..end] + full[end..]
    ensures end == |full| ==> full[offset..] == full[offset..end] + []
  {}

  /** Paging is lossless, aligned and exact: the pages join to the payload from `offset` on, no page
      splits a record, only the last says so, and their number is the page count. */
  lemma {:induction false} PagingExact(full: bytes, requested: int, offset: nat)
    requires |full| % RecordSize == 0 && offset % RecordSize == 0 && offset <= |full|
    ensures var ps := Pages(full, requested, offset);
            && Chained(ps) && WholeRecords(ps)
            && PageBytes(ps) == full[offset..]
            && |ps| == PageCount(|full| - offset, requested)
    decreases |full| - offset
  {
    var p, end := PageAt(full, requested, offset), PageEnd(|full|, requested, offset);
    AlignedPage(full, requested, offset);
    PageCountStep(|full| - offset, requested);
    if p.hasMore {
      PagingExact(full, requested, end);
      PrependPage(p, Pages(full, requested, end));
      SplitTail(full, offset, end);
    } else {
      PrependPage(p, []);
      SplitTail(full, offset, |full|);
    }
  }
}
