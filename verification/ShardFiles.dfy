/** Dealing the rows of the data set round-robin into nine shard files. */
module ShardFiles {
  import opened Collections
  import opened Records

  const NodeCount := 9

  /** The rows whose index is `k` modulo nine, in order. */
  function Deal(rows: seq<Record>, k: nat): seq<Record> {
    if rows == [] then []
    else
      var n := |rows| - 1;
      Deal(rows[..n], k) + if n % NodeCount == k then [rows[n]] else []
  }

  // The rows kept by the `--limit` option: zero means all, anything else stops at that index.
  function Limited(count: nat, limit: int): nat {
    if limit == 0 then count
    else if limit < 0 then 0
    else if limit < count then limit
    else count
  }

  // The files and counts hold exactly the dealt rows.
  ghost predicate Dealt(rows: seq<Record>, files: seq<bytes>, counts: seq<nat>) {
    && |files| == |counts| == NodeCount
    && forall k :: 0 <= k < NodeCount ==>
         AllFit(Deal(rows, k)) && files[k] == EncodeAll(Deal(rows, k)) && counts[k] == |Deal(rows, k)|
  }

  lemma DealtOneMore(rows: seq<Record>, row: Record, files: seq<bytes>, counts: seq<nat>)
    requires Dealt(rows, files, counts) && Fits(row)
    ensures var k := |rows| % NodeCount;
            Dealt(rows + [row], files[k := files[k] + Encode(row)], counts[k := counts[k] + 1])
  {
    var all, node := rows + [row], |rows| % NodeCount;
    var files', counts' := files[node := files[node] + Encode(row)], counts[node := counts[node] + 1];
    assert all[..|all| - 1] == rows;
    EncodeOneMore(Deal(rows, node), row);
    forall k | 0 <= k < NodeCount
      ensures AllFit(Deal(all, k)) && files'[k] == EncodeAll(Deal(all, k)) && counts'[k] == |Deal(all, k)|
    {
      assert Deal(all, k) == if k == node then Deal(rows, k) + [row] else Deal(rows, k);
    }
  }

  lemma EncodeOneMore(rs: seq<Record>, r: Record)
    requires AllFit(rs) && Fits(r)
    ensures AllFit(rs + [r]) && EncodeAll(rs + [r]) == EncodeAll(rs) + Encode(r)
  {
    assert (rs + [r])[..|rs|] == rs;
  }

  lemma DealtNext(rows: seq<Record>, idx: nat, files: seq<bytes>, counts: seq<nat>)
    requires idx < |rows| && Dealt(rows[..idx], files, counts) && Fits(rows[idx])
    ensures var k := idx % NodeCount;
            Dealt(rows[..idx + 1], files[k := files[k] + Encode(rows[idx])], counts[k := counts[k] + 1])
  {
    DealtOneMore(rows[..idx], rows[idx], files, counts);
    assert rows[..idx] + [rows[idx]] == rows[..idx + 1];
  }

  method WriteRow(files: array<bytes>, counts: array<nat>, node: nat, row: Record)
    requires files.Length == counts.Length == NodeCount && node < NodeCount && Fits(row)
    modifies files, counts
    ensures files[..] == old(files[..])[node := old(files[node]) + Encode(row)]
    ensures counts[..] == old(counts[..])[node := old(counts[node]) + 1]
  {
    files[node] := files[node] + Encode(row);
    counts[node] := counts[node] + 1;
  }

  /** Writes each row to its node's file and counts it, up to the limit. */
  method DealRows(rows: seq<Record>, limit: int, files: array<bytes>, counts: array<nat>) returns (idx: nat)
    requires AllFit(rows) && files.Length == counts.Length == NodeCount && Dealt([], files[..], counts[..])
    modifies files, counts
    ensures idx == Limited(|rows|, limit) && Dealt(rows[..idx], files[..], counts[..])
  {
    idx := 0;
    while idx < |rows|
      invariant 0 <= idx <= Limited(|rows|, limit)
      invariant Dealt(rows[..idx], files[..], counts[..])
    {
      if limit != 0 && idx >= limit { break; }
      DealtNext(rows, idx, files[..], counts[..]);
      WriteRow(files, counts, idx % NodeCount, rows[idx]);
      idx := idx + 1;
    }
  }

  /** Nine fresh files, filled by `DealRows`. */
  method MakeShards(rows: seq<Record>, limit: int) returns (files: array<bytes>, counts: array<nat>)
    requires AllFit(rows)
    ensures Dealt(rows[..Limited(|rows|, limit)], files[..], counts[..])
    ensures limit == 0 || limit >= |rows| ==> Dealt(rows, files[..], counts[..])
    ensures 0 < limit < |rows| ==> Dealt(rows[..limit], files[..], counts[..])
    ensures limit < 0 ==> Dealt([], files[..], counts[..])
  {
    files := new bytes[NodeCount](_ => []);
    counts := new nat[NodeCount](_ => 0);
    var dealt := DealRows(rows, limit, files, counts);
    assert rows[..|rows|] == rows && rows[..0] == [];
  }

  // ------------------------------------------------ balance and interleaving

  /** Shard sizes are the row count divided by nine, rounded up for the first shards. */
  lemma {:induction false} DealSize(rows: seq<Record>, k: nat)
    requires k < NodeCount
    ensures |Deal(rows, k)| == (|rows| + NodeCount - 1 - k) / NodeCount
  {
    if rows != [] {
      DealSize(rows[..|rows| - 1], k);
      ShareStep(|rows| - 1, k);
    }
  }

  lemma ShareStep(n: nat, k: nat)
    requires k < NodeCount
    ensures (n + 1 + NodeCount - 1 - k) / NodeCount ==
            (n + NodeCount - 1 - k) / NodeCount + if n % NodeCount == k then 1 else 0
  {}

  lemma Balanced(rows: seq<Record>, j: nat, k: nat)
    requires j <= k < NodeCount
    ensures |Deal(rows, k)| <= |Deal(rows, j)| <= |Deal(rows, k)| + 1
  {
    DealSize(rows, j);
    DealSize(rows, k);
  }

  /** Interleaving the nine shards restores the rows: row `i` is entry i / 9 of shard i mod 9. */
  lemma {:induction false} Interleaved(rows: seq<Record>, i: nat)
    requires i < |rows|
    ensures i / NodeCount < |Deal(rows, i % NodeCount)| && Deal(rows, i % NodeCount)[i / NodeCount] == rows[i]
  {
    var n := |rows| - 1;
    var k := i % NodeCount;
    if i < n {
      Interleaved(rows[..n], i);
    } else {
      DealSize(rows[..n], k);
    }
  }

  // ------------------------------------------------------------ conservation

  /** The shards with the given numbers, one after another. */
  function DealAll(rows: seq<Record>, ks: seq<nat>): seq<Record> {
    if ks == [] then [] else Deal(rows, ks[0]) + DealAll(rows, ks[1..])
  }

  /** The rows that belong to some of the given shards, in row order. */
  function RowsOf(rows: seq<Record>, ks: seq<nat>): seq<Record> {
    if rows == [] then []
    else
      var n := |rows| - 1;
      RowsOf(rows[..n], ks) + if n % NodeCount in ks then [rows[n]] else []
  }

  lemma {:induction false} DealOneMore(rows: seq<Record>, ks: seq<nat>)
    requires NoDup(ks) && rows != []
    ensures var n := |rows| - 1;
            multiset(DealAll(rows, ks)) ==
            multiset(DealAll(rows[..n], ks)) + if n % NodeCount in ks then multiset{rows[n]} else multiset{}
    decreases |ks|
  {
    var n := |rows| - 1;
    if ks != [] {
      assert ks == [ks[0]] + ks[1..];
      assert NoDup(ks[1..]);
      DealOneMore(rows, ks[1..]);
      if ks[0] in ks[1..] {
        var i :| 0 <= i < |ks[1..]| && ks[1..][i] == ks[0];
        assert ks[i + 1] == ks[0];
      }
    }
  }

  /** Distinct shards together hold exactly their rows, each as often as it occurs. */
  lemma {:induction false} NothingLost(rows: seq<Record>, ks: seq<nat>)
    requires NoDup(ks)
    ensures multiset(DealAll(rows, ks)) == multiset(RowsOf(rows, ks))
    decreases |rows|
  {
    if rows == [] {
      DealNothing(ks);
    } else {
      NothingLost(rows[..|rows| - 1], ks);
      DealOneMore(rows, ks);
    }
  }

  lemma {:induction false} DealNothing(ks: seq<nat>)
    ensures DealAll([], ks) == []
    decreases |ks|
  {
    if ks != [] { DealNothing(ks[1..]); }
  }

  lemma {:induction false} RowsOfSize(rows: seq<Record>, ks: seq<nat>)
    requires forall k: nat :: k in ks <==> 0 < k < NodeCount
    ensures |RowsOf(rows, ks)| == |rows| - (|rows| + NodeCount - 1) / NodeCount
    decreases |rows|
  {
    if rows != [] { RowsOfSize(rows[..|rows| - 1], ks); }
  }
}
