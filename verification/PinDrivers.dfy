/**
  The three pin drivers: row-range validation of each decoded chunk, and the result lists the
  sinks fill batch by batch, with compression switched off after its first failure.
 */
module PinDrivers {
  import opened Basics

  datatype RowGroup = RowGroup(start: nat, rows: nat)

  /** Only scans of DuckDB's own format carry row groups to check. */
  datatype Scan = Native(groups: seq<RowGroup>) | Other

  /** How compressing a batch ends; `Failed(true)` when the source table is already gone. */
  datatype Attempt = Declined | Staged | Failed(released: bool)

  /** A decoded batch: an identity for its contents, and what the device answers about it. */
  datatype Table = Table(
    id: nat, rows: nat, scan: Scan, storage: seq<nat>, stats: seq<nat>, attempt: Attempt, converts: bool)

  datatype Chunk = Compressed(id: nat) | Uncompressed(id: nat)

  datatype Pin = Pin(chunks: seq<Chunk>, rowCounts: seq<nat>, storage: seq<seq<nat>>, stats: seq<seq<nat>>)

  // ----------------------------------------------------------------- row ranges

  function Rows(groups: seq<RowGroup>): nat {
    if groups == [] then 0 else Rows(groups[..|groups| - 1]) + groups[|groups| - 1].rows
  }

  predicate StartsInPlace(groups: seq<RowGroup>, from: nat, k: nat)
    requires k < |groups|
  {
    groups[k].start == from + Rows(groups[..k])
  }

  /** Each group starts where the rows before it end. */
  predicate Contiguous(groups: seq<RowGroup>, from: nat) {
    forall k :: 0 <= k < |groups| ==> StartsInPlace(groups, from, k)
  }

  predicate ChunkOk(t: Table, before: nat) {
    t.scan.Native? ==> Contiguous(t.scan.groups, before) && Rows(t.scan.groups) == t.rows
  }

  function Total(ts: seq<Table>): nat {
    if ts == [] then 0 else Total(ts[..|ts| - 1]) + ts[|ts| - 1].rows
  }

  /** Every chunk passes the check at the row where it begins. */
  predicate Accepted(ts: seq<Table>) {
    forall k :: 0 <= k < |ts| ==> ChunkOk(ts[k], Total(ts[..k]))
  }

  method ValidateChunk(t: Table, before: nat) returns (ok: bool)
    ensures ok <==> ChunkOk(t, before)
  {
    if t.scan.Other? { return true; }
    var groups, next, k := t.scan.groups, before, 0;
    while k < |groups|
      invariant k <= |groups| && next == before + Rows(groups[..k])
      invariant forall j :: 0 <= j < k ==> StartsInPlace(groups, before, j)
    {
      if groups[k].start != next {
        assert !StartsInPlace(groups, before, k);
        return false;
      }
      assert StartsInPlace(groups, before, k);
      next := next + groups[k].rows;
      RowsStep(groups, k);
      hide Rows;
      k := k + 1;
    }
    assert groups[..k] == groups;
    return next - before == t.rows;
  }

  lemma RowsStep(groups: seq<RowGroup>, k: nat)
    requires k < |groups|
    ensures Rows(groups[..k + 1]) == Rows(groups[..k]) + groups[k].rows
  {
    assert groups[..k + 1][..k] == groups[..k];
  }

  predicate AllNative(ts: seq<Table>) {
    forall k :: 0 <= k < |ts| ==> ts[k].scan.Native?
  }

  function AllGroups(ts: seq<Table>): seq<RowGroup>
    requires AllNative(ts)
  {
    if ts == [] then [] else AllGroups(ts[..|ts| - 1]) + ts[|ts| - 1].scan.groups
  }

  lemma {:induction false} RowsJoin(a: seq<RowGroup>, b: seq<RowGroup>)
    ensures Rows(a + b) == Rows(a) + Rows(b)
    decreases |b|
  {
    if b == [] {
      assert a + b == a;
    } else {
      var b' := b[..|b| - 1];
      RowsJoin(a, b');
      assert (a + b)[..|a + b| - 1] == a + b';
    }
  }

  lemma ContiguousSnoc(a: seq<RowGroup>, g: RowGroup, from: nat)
    ensures Contiguous(a + [g], from) <==> Contiguous(a, from) && g.start == from + Rows(a)
  {
    hide Rows;
    var ag := a + [g];
    forall k | 0 <= k < |a| ensures StartsInPlace(ag, from, k) <==> StartsInPlace(a, from, k) {
      assert ag[..k] == a[..k];
    }
    assert ag[..|a|] == a;
    assert StartsInPlace(ag, from, |a|) <==> g.start == from + Rows(a);
    if Contiguous(ag, from) {
      forall k | 0 <= k < |a| ensures StartsInPlace(a, from, k) { assert StartsInPlace(ag, from, k); }
    }
  }

  lemma {:induction false} ContiguousJoin(a: seq<RowGroup>, b: seq<RowGroup>, from: nat)
    ensures Contiguous(a + b, from) <==> Contiguous(a, from) && Contiguous(b, from + Rows(a))
    decreases |b|
  {
    if b == [] {
      assert a + b == a;
    } else {
      hide Contiguous, Rows;
      var b', g := b[..|b| - 1], b[|b| - 1];
      assert b == b' + [g] && a + b == (a + b') + [g];
      ContiguousJoin(a, b', from);
      ContiguousSnoc(a + b', g, from);
      ContiguousSnoc(b', g, from + Rows(a));
      RowsJoin(a, b');
    }
  }

  lemma AcceptedStep(ts: seq<Table>)
    requires ts != []
    ensures Accepted(ts) <==> Accepted(ts[..|ts| - 1]) && ChunkOk(ts[|ts| - 1], Total(ts[..|ts| - 1]))
  {
    hide ChunkOk, Total;
    var init := ts[..|ts| - 1];
    forall k | 0 <= k < |init| ensures init[k] == ts[k] && init[..k] == ts[..k] { }
    if Accepted(ts) {
      forall k | 0 <= k < |init| ensures ChunkOk(init[k], Total(init[..k])) { assert ChunkOk(ts[k], Total(ts[..k])); }
      assert ChunkOk(ts[|ts| - 1], Total(ts[..|ts| - 1]));
    }
    if Accepted(init) && ChunkOk(ts[|ts| - 1], Total(init)) {
      forall k | 0 <= k < |ts| ensures ChunkOk(ts[k], Total(ts[..k])) {
        if k < |init| { assert ChunkOk(init[k], Total(init[..k])); }
      }
    }
  }

  lemma AcceptedPrefix(ts: seq<Table>, n: nat)
    requires n <= |ts|
    ensures Accepted(ts) ==> Accepted(ts[..n])
  {
    hide ChunkOk, Total;
    if Accepted(ts) {
      forall k | 0 <= k < n ensures ChunkOk(ts[..n][k], Total(ts[..n][..k])) {
        assert ts[..n][..k] == ts[..k];
        assert ChunkOk(ts[k], Total(ts[..k]));
      }
    }
  }

  predicate CountsMatch(ts: seq<Table>)
    requires AllNative(ts)
  {
    forall k :: 0 <= k < |ts| ==> ts[k].rows == Rows(ts[k].scan.groups)
  }

  /**
    A native pin is accepted exactly when the row groups of all its chunks, in order, tile the rows
    from 0 and each chunk's row count is that of its own groups; they then tile [0, N).
   */
  lemma {:induction false} AcceptedIsPartition(ts: seq<Table>)
    requires AllNative(ts)
    ensures Accepted(ts) <==> Contiguous(AllGroups(ts), 0) && CountsMatch(ts)
    ensures CountsMatch(ts) ==> Rows(AllGroups(ts)) == Total(ts)
    decreases |ts|
  {
    if ts != [] {
      var init, t := ts[..|ts| - 1], ts[|ts| - 1];
      AcceptedIsPartition(init);
      AcceptedStep(ts);
      ContiguousJoin(AllGroups(init), t.scan.groups, 0);
      RowsJoin(AllGroups(init), t.scan.groups);
      CountsStep(ts);
    }
  }

  lemma CountsStep(ts: seq<Table>)
    requires AllNative(ts) && ts != []
    ensures CountsMatch(ts) <==>
      CountsMatch(ts[..|ts| - 1]) && ts[|ts| - 1].rows == Rows(ts[|ts| - 1].scan.groups)
  {
    var init := ts[..|ts| - 1];
    if CountsMatch(init) && ts[|ts| - 1].rows == Rows(ts[|ts| - 1].scan.groups) {
      forall k | 0 <= k < |ts| ensures ts[k].rows == Rows(ts[k].scan.groups) {
        if k < |init| { assert init[k] == ts[k]; }
      }
    }
    if CountsMatch(ts) {
      forall k | 0 <= k < |init| ensures init[k].rows == Rows(init[k].scan.groups) { assert init[k] == ts[k]; }
    }
  }

  predicate InGroup(g: RowGroup, row: nat) {
    g.start <= row < g.start + g.rows
  }

  lemma {:induction false} RowsPrefix(groups: seq<RowGroup>, a: nat, b: nat)
    requires a < b <= |groups|
    ensures Rows(groups[..a]) + groups[a].rows <= Rows(groups[..b])
    decreases b
  {
    var s := groups[..b];
    assert s[..b - 1] == groups[..b - 1];
    if a < b - 1 { RowsPrefix(groups, a, b - 1); }
  }

  /** Every row of a tiling lies in one group and no other. */
  lemma {:induction false} RowInOneGroup(groups: seq<RowGroup>, row: nat)
    requires Contiguous(groups, 0) && row < Rows(groups)
    ensures exists k :: 0 <= k < |groups| && InGroup(groups[k], row)
    ensures forall a, b :: 0 <= a < b < |groups| ==> !(InGroup(groups[a], row) && InGroup(groups[b], row))
    decreases |groups|
  {
    forall a, b | 0 <= a < b < |groups| ensures !(InGroup(groups[a], row) && InGroup(groups[b], row)) {
      assert StartsInPlace(groups, 0, a) && StartsInPlace(groups, 0, b);
      RowsPrefix(groups, a, b);
    }
    var n := |groups| - 1;
    var init := groups[..n];
    if row < Rows(init) {
      assert groups == init + [groups[n]];
      ContiguousSnoc(init, groups[n], 0);
      RowInOneGroup(init, row);
      var k :| 0 <= k < |init| && InGroup(init[k], row);
      assert InGroup(groups[k], row);
    } else {
      assert StartsInPlace(groups, 0, n);
      assert InGroup(groups[n], row);
    }
  }

  // ---------------------------------------------------------------- the result lists

  /** A batch before `k` failed to compress. */
  predicate FailedBefore(ts: seq<Table>, k: nat) {
    exists j :: 0 <= j < k && j < |ts| && ts[j].attempt.Failed?
  }

  predicate IsCompressed(ts: seq<Table>, enabled: bool, k: nat)
    requires k < |ts|
  {
    enabled && ts[k].attempt.Staged? && !FailedBefore(ts, k)
  }

  function Statistics(ts: seq<Table>): seq<seq<nat>> {
    if ts == [] then []
    else Statistics(ts[..|ts| - 1]) + if ts[|ts| - 1].stats == [] then [] else [ts[|ts| - 1].stats]
  }

  /** One chunk, row count and storage record for each batch, in order. */
  predicate Parallel(ts: seq<Table>, enabled: bool, pin: Pin) {
    && |pin.chunks| == |ts| && |pin.rowCounts| == |ts| && |pin.storage| == |ts|
    && forall k :: 0 <= k < |ts| ==>
        && pin.rowCounts[k] == ts[k].rows && pin.storage[k] == ts[k].storage
        && pin.chunks[k] == if IsCompressed(ts, enabled, k) then Compressed(ts[k].id) else Uncompressed(ts[k].id)
  }

  /** Why a host pin fails at batch `k`: the chunk is not contiguous, or its plain copy cannot be made. */
  predicate HostFails(ts: seq<Table>, enabled: bool, k: nat)
    requires k < |ts|
  {
    !ChunkOk(ts[k], Total(ts[..k])) || (!IsCompressed(ts, enabled, k) && !ts[k].converts)
  }

  /** Why a device pin fails at batch `k`: compression failed after it had given up the source. */
  predicate DeviceFails(ts: seq<Table>, enabled: bool, k: nat)
    requires k < |ts|
  {
    !ChunkOk(ts[k], Total(ts[..k])) ||
    (enabled && ts[k].attempt.Failed? && ts[k].attempt.released && !FailedBefore(ts, k))
  }

  lemma ParallelGrows(ts: seq<Table>, n: nat, enabled: bool, pin: Pin, next: Pin)
    requires n < |ts| && Parallel(ts[..n], enabled, pin)
    requires next.rowCounts == pin.rowCounts + [ts[n].rows] && next.storage == pin.storage + [ts[n].storage]
    requires next.chunks == pin.chunks +
      [if IsCompressed(ts, enabled, n) then Compressed(ts[n].id) else Uncompressed(ts[n].id)]
    ensures Parallel(ts[..n + 1], enabled, next)
  {
    var s, t := ts[..n], ts[..n + 1];
    forall k | 0 <= k <= n
      ensures t[k] == ts[k]
      ensures FailedBefore(t, k) <==> FailedBefore(ts, k)
      ensures FailedBefore(s, k) <==> FailedBefore(ts, k)
    {
      assert forall j :: 0 <= j < k ==> s[j] == ts[j] && t[j] == ts[j];
    }
  }

  /** Compressed are exactly the staged batches, up to the first that failed. */
  predicate FailureLatches(ts: seq<Table>, enabled: bool, chunks: seq<Chunk>) {
    |chunks| == |ts| &&
    forall k :: 0 <= k < |ts| ==>
      (chunks[k].Compressed? <==> enabled && ts[k].attempt.Staged? && forall j :: 0 <= j < k ==> !ts[j].attempt.Failed?)
  }

  lemma ParallelLatches(ts: seq<Table>, enabled: bool, pin: Pin)
    requires Parallel(ts, enabled, pin)
    ensures FailureLatches(ts, enabled, pin.chunks)
  {
    assert forall k :: 0 <= k < |ts| ==> (FailedBefore(ts, k) <==> exists j :: 0 <= j < k && ts[j].attempt.Failed?);
  }

  lemma EmptyParallel(ts: seq<Table>, enabled: bool)
    ensures Parallel(ts[..0], enabled, Pin([], [], [], []))
  {
  }

  /** The host driver; `enabled` when compression is on and has a plan. */
  method PinToHost(ts: seq<Table>, enabled: bool) returns (pin: Option<Pin>)
    ensures pin.None? <==> exists k :: 0 <= k < |ts| && HostFails(ts, enabled, k)
    ensures pin.Some? ==> Parallel(ts, enabled, pin.value) && Accepted(ts) && pin.value.stats == Statistics(ts)
    ensures pin.Some? ==> FailureLatches(ts, enabled, pin.value.chunks)
  {
    hide ChunkOk, Accepted, Parallel;
    EmptyParallel(ts, enabled);
    var out, failed, rows, i := Pin([], [], [], []), false, 0, 0;
    while i < |ts|
      invariant i <= |ts| && rows == Total(ts[..i]) && (failed <==> enabled && FailedBefore(ts, i))
      invariant forall k :: 0 <= k < i ==> !HostFails(ts, enabled, k)
      invariant Parallel(ts[..i], enabled, out) && out.stats == Statistics(ts[..i])
    {
      var t := ts[i];
      assert ts[..i + 1][..i] == ts[..i];
      var ok := ValidateChunk(t, rows);
      if !ok { assert HostFails(ts, enabled, i); return None; }
      rows := rows + t.rows;
      ghost var before := out;
      var compressed := false;
      out := out.(rowCounts := out.rowCounts + [t.rows], storage := out.storage + [t.storage]);
      if t.stats != [] { out := out.(stats := out.stats + [t.stats]); }
      if enabled && !failed {
        if t.attempt.Staged? {
          out := out.(chunks := out.chunks + [Compressed(t.id)]);
          compressed := true;
        } else if t.attempt.Failed? {
          failed := true;
        }
      }
      if !compressed {
        if !t.converts { assert HostFails(ts, enabled, i); return None; }
        out := out.(chunks := out.chunks + [Uncompressed(t.id)]);
      }
      ParallelGrows(ts, i, enabled, before, out);
      i := i + 1;
    }
    assert ts[..i] == ts;
    AllAccepted(ts, enabled);
    ParallelLatches(ts, enabled, out);
    return Some(out);
  }

  lemma AllAccepted(ts: seq<Table>, enabled: bool)
    ensures (forall k :: 0 <= k < |ts| ==> !HostFails(ts, enabled, k)) ==> Accepted(ts)
    ensures (forall k :: 0 <= k < |ts| ==> !DeviceFails(ts, enabled, k)) ==> Accepted(ts)
  {
    hide ChunkOk, Total, IsCompressed;
    if forall k :: 0 <= k < |ts| ==> !HostFails(ts, enabled, k) {
      forall k | 0 <= k < |ts| ensures ChunkOk(ts[k], Total(ts[..k])) { assert !HostFails(ts, enabled, k); }
    }
    if forall k :: 0 <= k < |ts| ==> !DeviceFails(ts, enabled, k) {
      forall k | 0 <= k < |ts| ensures ChunkOk(ts[k], Total(ts[..k])) { assert !DeviceFails(ts, enabled, k); }
    }
  }

  /** The device driver, which stores no statistics. */
  method PinToDevice(ts: seq<Table>, enabled: bool) returns (pin: Option<Pin>)
    ensures pin.None? <==> exists k :: 0 <= k < |ts| && DeviceFails(ts, enabled, k)
    ensures pin.Some? ==> Parallel(ts, enabled, pin.value) && Accepted(ts) && pin.value.stats == []
    ensures pin.Some? ==> FailureLatches(ts, enabled, pin.value.chunks)
  {
    hide ChunkOk, Accepted, Parallel;
    EmptyParallel(ts, enabled);
    var out, failed, rows, i := Pin([], [], [], []), false, 0, 0;
    while i < |ts|
      invariant i <= |ts| && rows == Total(ts[..i]) && (failed <==> enabled && FailedBefore(ts, i))
      invariant forall k :: 0 <= k < i ==> !DeviceFails(ts, enabled, k)
      invariant Parallel(ts[..i], enabled, out) && out.stats == []
    {
      var t := ts[i];
      assert ts[..i + 1][..i] == ts[..i];
      var ok := ValidateChunk(t, rows);
      if !ok { assert DeviceFails(ts, enabled, i); return None; }
      rows := rows + t.rows;
      ghost var before := out;
      var compressed := false;
      out := out.(rowCounts := out.rowCounts + [t.rows], storage := out.storage + [t.storage]);
      if enabled && !failed {
        if t.attempt.Staged? {
          compressed := true;
        } else if t.attempt.Failed? {
          if t.attempt.released { assert DeviceFails(ts, enabled, i); return None; }
          failed := true;
        }
      }
      out := out.(chunks := out.chunks + [if compressed then Compressed(t.id) else Uncompressed(t.id)]);
      ParallelGrows(ts, i, enabled, before, out);
      i := i + 1;
    }
    assert ts[..i] == ts;
    AllAccepted(ts, enabled);
    ParallelLatches(ts, enabled, out);
    return Some(out);
  }

  lemma EmptyAccepted(ts: seq<Table>)
    ensures Accepted(ts[..0])
  {
  }

  /** The plain driver: no compression, every table kept as it is. */
  method PinTables(ts: seq<Table>) returns (pin: Option<Pin>)
    ensures pin.Some? <==> Accepted(ts)
    ensures pin.Some? ==> Parallel(ts, false, pin.value) && pin.value.stats == Statistics(ts)
  {
    hide ChunkOk, Accepted;
    var out, rows, i := Pin([], [], [], []), 0, 0;
    assert Accepted(ts[..0]) by { EmptyAccepted(ts); }
    while i < |ts|
      invariant i <= |ts| && rows == Total(ts[..i])
      invariant Accepted(ts[..i])
      invariant Parallel(ts[..i], false, out) && out.stats == Statistics(ts[..i])
    {
      var t := ts[i];
      assert ts[..i + 1][..i] == ts[..i];
      var ok := ValidateChunk(t, rows);
      AcceptedStep(ts[..i + 1]);
      if !ok {
        AcceptedPrefix(ts, i + 1);
        return None;
      }
      rows := rows + t.rows;
      ghost var before := out;
      out := out.(rowCounts := out.rowCounts + [t.rows], chunks := out.chunks + [Uncompressed(t.id)],
                  storage := out.storage + [t.storage]);
      if t.stats != [] { out := out.(stats := out.stats + [t.stats]); }
      ParallelGrows(ts, i, false, before, out);
      i := i + 1;
    }
    assert ts[..i] == ts;
    return Some(out);
  }

  /** Statistics are kept for every chunk or the lists do not line up. */
  lemma {:induction false} StatisticsLineUp(ts: seq<Table>)
    ensures |Statistics(ts)| <= |ts|
    ensures |Statistics(ts)| == |ts| <==> forall k :: 0 <= k < |ts| ==> ts[k].stats != []
    ensures Statistics(ts) == [] <==> forall k :: 0 <= k < |ts| ==> ts[k].stats == []
    decreases |ts|
  {
    if ts != [] {
      var init := ts[..|ts| - 1];
      StatisticsLineUp(init);
      assert forall k :: 0 <= k < |init| ==> init[k] == ts[k];
      assert forall k :: 0 <= k < |ts| ==> ts[k] == if k < |init| then init[k] else ts[|ts| - 1];
    }
  }

  /** What is kept, in the order of the batches: each batch's statistics behind those before it. */
  lemma {:induction false} StatisticsAt(ts: seq<Table>, k: nat)
    requires k < |ts| && ts[k].stats != []
    ensures |Statistics(ts[..k])| < |Statistics(ts)| && Statistics(ts)[|Statistics(ts[..k])|] == ts[k].stats
    decreases |ts|
  {
    var init := ts[..|ts| - 1];
    if k < |init| {
      StatisticsAt(init, k);
      assert init[..k] == ts[..k];
    }
  }
}
