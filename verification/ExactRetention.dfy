/**
  The byte-budgeted retention behind the exact uniqueness check of a pin: copies of the probed
  columns are kept batch by batch, earlier columns first, under one byte cap.

  The functions on `Ledger` are the specification; the class `Retention` of module `PinRetention`
  keeps the same state in fields and runs the loops.
 */
module ExactRetention {
  import opened Basics
  import opened UniqueProbe

  /** Why a column left the exact stage. */
  datatype Why = OverCap | Evicted | NoHeadroom | NoReservation | CopyFailed

  /** What the memory space answers when a copy of one column is attempted. */
  datatype Fate = Fate(available: nat, granted: bool, copied: bool)

  /** How decoding a batch goes: at once, on the second try, or not at all. */
  datatype Decode = AtOnce | OnRetry | Never

  datatype Batch = Batch(
    decode: Decode, device: int, rows: nat, columns: seq<ColumnChunk>, looks: seq<Look>, fates: seq<Fate>)

  /** The oracle part of a batch has an answer for each column, and device sorts sort. */
  predicate ValidBatch(b: Batch) {
    && |b.looks| == |b.columns| && |b.fates| == |b.columns|
    && forall i :: 0 <= i < |b.columns| ==> SortsTo(b.columns[i].values, b.looks[i].sorted)
  }

  const MAX_ROWS: nat := 0x7fff_ffff
  const HEADROOM_BATCHES: nat := 2

  datatype Ledger = Ledger(
    bytes: seq<nat>, total: int, chunks: seq<seq<ColumnChunk>>, reservations: seq<seq<nat>>,
    declined: seq<Option<Why>>, retaining: bool, rows: nat, gpu: Option<int>, probe: seq<ProbeColumn>)

  predicate Shaped(l: Ledger, n: nat) {
    |l.bytes| == n && |l.chunks| == n && |l.reservations| == n && |l.declined| == n && |l.probe| == n
  }

  // --------------------------------------------------------------------- ledger steps

  function Release(l: Ledger, i: nat): Ledger
    requires Shaped(l, |l.bytes|) && i < |l.bytes|
  {
    l.(total := l.total - l.bytes[i], bytes := l.bytes[i := 0],
       chunks := l.chunks[i := []], reservations := l.reservations[i := []])
  }

  function Decline(l: Ledger, i: nat, why: Why): Ledger
    requires Shaped(l, |l.bytes|) && i < |l.bytes|
  {
    Release(l.(declined := l.declined[i := Some(why)], probe := l.probe[i := ExactUnavailable(l.probe[i])]), i)
  }

  /** Give up the highest columns first, but none at or below `i`, until `need` more bytes fit. */
  function MakeRoom(l: Ledger, cap: nat, i: nat, later: nat, need: nat): (r: Ledger)
    requires Shaped(l, |l.bytes|) && i < |l.bytes| && later <= |l.bytes|
    ensures Shaped(r, |l.bytes|)
    decreases later
  {
    if later <= i + 1 || l.total + need <= cap then l
    else if l.bytes[later - 1] > 0 then MakeRoom(Decline(l, later - 1, Evicted), cap, i, later - 1, need)
    else MakeRoom(l, cap, i, later - 1, need)
  }

  function BatchBytes(columns: seq<ColumnChunk>): nat {
    if columns == [] then 0 else BatchBytes(columns[..|columns| - 1]) + columns[|columns| - 1].bytes
  }

  predicate HasHeadroom(available: nat, copy: nat, batch: nat) {
    available >= copy + HEADROOM_BATCHES * batch
  }

  function Keep(l: Ledger, i: nat, chunk: ColumnChunk): Ledger
    requires Shaped(l, |l.bytes|) && i < |l.bytes|
  {
    l.(chunks := l.chunks[i := l.chunks[i] + [chunk]],
       reservations := l.reservations[i := l.reservations[i] + [chunk.bytes]],
       bytes := l.bytes[i := l.bytes[i] + chunk.bytes], total := l.total + chunk.bytes)
  }

  function RetainColumn(l: Ledger, cap: nat, i: nat, b: Batch): (r: Ledger)
    requires Shaped(l, |b.columns|) && i < |b.columns| && |b.fates| == |b.columns|
    ensures Shaped(r, |b.columns|)
  {
    if !l.probe[i].candidate || l.declined[i].Some? then Release(l, i)
    else
      var chunk, fate := b.columns[i], b.fates[i];
      var room := MakeRoom(l, cap, i, |l.bytes|, chunk.bytes);
      if room.total + chunk.bytes > cap then Decline(room, i, OverCap)
      else if !HasHeadroom(fate.available, chunk.bytes, BatchBytes(b.columns)) then Decline(room, i, NoHeadroom)
      else if !fate.granted then Decline(room, i, NoReservation)
      else if !fate.copied then Decline(room, i, CopyFailed)
      else Keep(room, i, chunk)
  }

  function RetainFrom(l: Ledger, cap: nat, i: nat, b: Batch): (r: Ledger)
    requires Shaped(l, |b.columns|) && i <= |b.columns| && |b.fates| == |b.columns|
    ensures Shaped(r, |b.columns|)
    decreases |b.columns| - i
  {
    if i == |b.columns| then l else RetainFrom(RetainColumn(l, cap, i, b), cap, i + 1, b)
  }

  function ClearFrom(l: Ledger, i: nat): (r: Ledger)
    requires Shaped(l, |l.bytes|) && i <= |l.bytes|
    ensures Shaped(r, |l.bytes|)
    decreases |l.bytes| - i
  {
    if i == |l.bytes| then l
    else
      var cleared := Release(l, i);
      ClearFrom(cleared.(probe := cleared.probe[i := ExactUnavailable(cleared.probe[i])]), i + 1)
  }

  function Abandon(l: Ledger): (r: Ledger)
    requires Shaped(l, |l.bytes|)
    ensures Shaped(r, |l.bytes|)
  {
    if l.retaining then ClearFrom(l.(retaining := false), 0) else l
  }

  /** `observe`, when at least one column is still a candidate. */
  function ObserveAll(probe: seq<ProbeColumn>, b: Batch): (r: seq<ProbeColumn>)
    requires |b.looks| == |b.columns|
    ensures |r| == |probe|
  {
    if |b.columns| != |probe| then seq(|probe|, i requires 0 <= i < |probe| => Drop(probe[i]))
    else seq(|probe|, i requires 0 <= i < |probe| => ObserveColumn(probe[i], b.columns[i], b.looks[i]))
  }

  function RetainBatch(l: Ledger, cap: nat, b: Batch): (r: Ledger)
    requires Shaped(l, |l.bytes|) && |b.fates| == |b.columns|
    ensures Shaped(r, |l.bytes|)
  {
    if !l.retaining then l
    else if l.gpu.Some? && l.gpu.value != b.device then Abandon(l)
    else if l.rows + b.rows > MAX_ROWS then Abandon(l)
    else if |b.columns| != |l.bytes| then Abandon(l)
    else RetainFrom(l.(gpu := Some(b.device), rows := l.rows + b.rows), cap, 0, b)
  }

  /** One batch: decode, giving retained copies back once if memory ran out; observe; retain. */
  function HandleBatch(l: Ledger, cap: nat, b: Batch): (r: Option<Ledger>)
    requires Shaped(l, |l.bytes|) && ValidBatch(b)
    ensures r.Some? ==> Shaped(r.value, |l.bytes|)
  {
    if b.decode.Never? || (b.decode.OnRetry? && l.total == 0) then None
    else
      var decoded := if b.decode.OnRetry? then Abandon(l) else l;
      Some(RetainBatch(decoded.(probe := ObserveAll(decoded.probe, b)), cap, b))
  }

  predicate Selects(selected: seq<bool>) {
    exists i :: 0 <= i < |selected| && selected[i]
  }

  function Initial(selected: seq<bool>, automatic: seq<bool>): (l: Ledger)
    ensures Shaped(l, |selected|)
  {
    var n := |selected|;
    Ledger(seq(n, _ => 0), 0, seq(n, _ => []), seq(n, _ => []), seq(n, _ => None),
           Selects(selected), 0, None,
           seq(n, i requires 0 <= i < n =>
             ProbeColumn(selected[i], selected[i], selected[i] && i < |automatic| && automatic[i], false, true, [])))
  }

  /** All batches in order, or nothing when a decode failed for good. */
  function Run(selected: seq<bool>, automatic: seq<bool>, cap: nat, bs: seq<Batch>): (r: Option<Ledger>)
    requires forall k :: 0 <= k < |bs| ==> ValidBatch(bs[k])
    ensures r.Some? ==> Shaped(r.value, |selected|)
    decreases |bs|
  {
    if bs == [] then Some(Initial(selected, automatic))
    else
      var before := Run(selected, automatic, cap, bs[..|bs| - 1]);
      if before.None? then None else HandleBatch(before.value, cap, bs[|bs| - 1])
  }

  // ------------------------------------------------------------------------- sums

  function Sum(s: seq<nat>): nat {
    if s == [] then 0 else Sum(s[..|s| - 1]) + s[|s| - 1]
  }

  lemma {:induction false} SumUpdate(s: seq<nat>, i: nat, v: nat)
    requires i < |s|
    ensures Sum(s[i := v]) == Sum(s) - s[i] + v
    decreases |s|
  {
    var n := |s| - 1;
    if i < n {
      SumUpdate(s[..n], i, v);
      assert s[i := v][..n] == s[..n][i := v];
    } else {
      assert s[i := v][..n] == s[..n];
    }
  }

  lemma {:induction false} SumPrefix(s: seq<nat>, n: nat)
    requires n <= |s|
    ensures Sum(s[..n]) <= Sum(s)
    ensures (forall k :: n <= k < |s| ==> s[k] == 0) ==> Sum(s[..n]) == Sum(s)
    decreases |s|
  {
    if n < |s| {
      var t := s[..|s| - 1];
      SumPrefix(t, n);
      assert t[..n] == s[..n];
    } else {
      assert s[..n] == s;
    }
  }

  function Sizes(chunks: seq<ColumnChunk>): seq<nat> {
    seq(|chunks|, k requires 0 <= k < |chunks| => chunks[k].bytes)
  }

  // -------------------------------------------------------------------- the books

  /** A column's bytes and reservations are those of the chunks it holds. */
  predicate ColumnBooks(l: Ledger, i: nat)
    requires Shaped(l, |l.bytes|) && i < |l.bytes|
  {
    l.reservations[i] == Sizes(l.chunks[i]) && l.bytes[i] == Sum(l.reservations[i])
  }

  predicate Books(l: Ledger, cap: nat) {
    && Shaped(l, |l.bytes|) && l.total == Sum(l.bytes) && l.total <= cap
    && forall i :: 0 <= i < |l.bytes| ==> ColumnBooks(l, i)
  }

  predicate SameColumn(l: Ledger, r: Ledger, k: nat)
    requires Shaped(l, |l.bytes|) && Shaped(r, |l.bytes|) && k < |l.bytes|
  {
    && r.bytes[k] == l.bytes[k] && r.chunks[k] == l.chunks[k] && r.reservations[k] == l.reservations[k]
    && r.declined[k] == l.declined[k] && r.probe[k] == l.probe[k]
  }

  /** Column `k` held bytes in `l` and was given up for an earlier one in `r`. */
  predicate WasEvicted(l: Ledger, r: Ledger, k: nat)
    requires Shaped(l, |l.bytes|) && Shaped(r, |l.bytes|) && k < |l.bytes|
  {
    && l.bytes[k] > 0 && r.bytes[k] == 0 && r.chunks[k] == [] && r.reservations[k] == []
    && r.declined[k] == Some(Evicted) && r.probe[k] == ExactUnavailable(l.probe[k])
  }

  lemma ReleaseBooks(l: Ledger, cap: nat, i: nat)
    requires Books(l, cap) && i < |l.bytes|
    ensures Books(Release(l, i), cap)
  {
    SumUpdate(l.bytes, i, 0);
    var r := Release(l, i);
    forall k | 0 <= k < |l.bytes| ensures ColumnBooks(r, k) { assert ColumnBooks(l, k); }
  }

  lemma KeepBooks(l: Ledger, cap: nat, i: nat, chunk: ColumnChunk)
    requires Books(l, cap) && i < |l.bytes| && l.total + chunk.bytes <= cap
    ensures Books(Keep(l, i, chunk), cap)
  {
    SumUpdate(l.bytes, i, l.bytes[i] + chunk.bytes);
    var r := Keep(l, i, chunk);
    forall k | 0 <= k < |l.bytes| ensures ColumnBooks(r, k) {
      assert ColumnBooks(l, k);
      assert Sizes(l.chunks[i] + [chunk]) == Sizes(l.chunks[i]) + [chunk.bytes];
      var all := l.reservations[i] + [chunk.bytes];
      assert all[..|all| - 1] == l.reservations[i];
    }
  }

  lemma DeclineBooks(l: Ledger, cap: nat, i: nat, why: Why)
    requires Books(l, cap) && i < |l.bytes|
    ensures Books(Decline(l, i, why), cap)
  {
    var m := l.(declined := l.declined[i := Some(why)], probe := l.probe[i := ExactUnavailable(l.probe[i])]);
    forall k | 0 <= k < |l.bytes| ensures ColumnBooks(m, k) { assert ColumnBooks(l, k); }
    ReleaseBooks(m, cap, i);
  }

  /** Every column of `r` is as in `l`, or was evicted from strictly between `i` and `later`. */
  predicate OnlyEvicts(l: Ledger, r: Ledger, i: nat, later: nat)
    requires Shaped(l, |l.bytes|)
  {
    && Shaped(r, |l.bytes|) && r.total <= l.total
    && r.retaining == l.retaining && r.rows == l.rows && r.gpu == l.gpu
    && forall k :: 0 <= k < |l.bytes| ==> SameColumn(l, r, k) || (i < k < later && WasEvicted(l, r, k))
  }

  lemma {:induction false} MakeRoomFrame(l: Ledger, cap: nat, i: nat, later: nat, need: nat)
    requires Books(l, cap) && i < later <= |l.bytes|
    ensures Books(MakeRoom(l, cap, i, later, need), cap)
    ensures OnlyEvicts(l, MakeRoom(l, cap, i, later, need), i, later)
    decreases later
  {
    if later > i + 1 && l.total + need > cap {
      if l.bytes[later - 1] > 0 {
        var m := Decline(l, later - 1, Evicted);
        DeclineBooks(l, cap, later - 1, Evicted);
        MakeRoomFrame(m, cap, i, later - 1, need);
        EvictsOneMore(l, MakeRoom(m, cap, i, later - 1, need), i, later - 1);
      } else {
        MakeRoomFrame(l, cap, i, later - 1, need);
      }
    }
  }

  lemma EvictsOneMore(l: Ledger, r: Ledger, i: nat, top: nat)
    requires Shaped(l, |l.bytes|) && i < top < |l.bytes| && l.bytes[top] > 0
    requires OnlyEvicts(Decline(l, top, Evicted), r, i, top)
    ensures OnlyEvicts(l, r, i, top + 1)
  {
    var m := Decline(l, top, Evicted);
    forall k | 0 <= k < |l.bytes| ensures SameColumn(l, r, k) || (i < k < top + 1 && WasEvicted(l, r, k)) {
      assert SameColumn(m, r, k) || (i < k < top && WasEvicted(m, r, k));
    }
  }

  predicate EmptyFrom(l: Ledger, k: nat) {
    forall h :: k <= h < |l.bytes| ==> l.bytes[h] == 0
  }

  /** An evicted column left nothing above it, and with all below it did not fit beside `need`. */
  predicate HighestFirst(l: Ledger, r: Ledger, cap: nat, i: nat, need: nat)
    requires Shaped(l, |l.bytes|) && Shaped(r, |l.bytes|)
  {
    forall k :: i < k < |l.bytes| && WasEvicted(l, r, k) ==> EmptyFrom(r, k) && Sum(l.bytes[..k + 1]) + need > cap
  }

  /**
    Eviction clears the highest column first, only while the bytes do not fit, and gives up
    only once nothing above `i` is left.
   */
  lemma {:induction false} MakeRoomEvicts(l: Ledger, cap: nat, i: nat, later: nat, need: nat)
    requires Books(l, cap) && i < later <= |l.bytes| && EmptyFrom(l, later)
    ensures var r := MakeRoom(l, cap, i, later, need);
      (r.total + need <= cap || EmptyFrom(r, i + 1)) && HighestFirst(l, r, cap, i, need)
    decreases later
  {
    if later > i + 1 && l.total + need > cap {
      var k := later - 1;
      if l.bytes[k] > 0 {
        hide ColumnBooks, WasEvicted, HighestFirst;
        var m := Decline(l, k, Evicted);
        DeclineBooks(l, cap, k, Evicted);
        MakeRoomEvicts(m, cap, i, k, need);
        MakeRoomFrame(m, cap, i, k, need);
        SumPrefix(l.bytes, k + 1);
        EvictsLower(l, MakeRoom(m, cap, i, k, need), cap, i, k, need);
      } else {
        MakeRoomEvicts(l, cap, i, k, need);
      }
    }
  }

  lemma EvictsLower(l: Ledger, r: Ledger, cap: nat, i: nat, top: nat, need: nat)
    requires Books(l, cap) && i < top < |l.bytes| && EmptyFrom(l, top + 1) && Sum(l.bytes[..top + 1]) + need > cap
    requires OnlyEvicts(Decline(l, top, Evicted), r, i, top)
    requires HighestFirst(Decline(l, top, Evicted), r, cap, i, need)
    ensures HighestFirst(l, r, cap, i, need)
  {
    var m := Decline(l, top, Evicted);
    forall k | i < k < |l.bytes| && WasEvicted(l, r, k)
      ensures EmptyFrom(r, k) && Sum(l.bytes[..k + 1]) + need > cap
    {
      if k < top {
        assert SameColumn(m, r, k) || WasEvicted(m, r, k);
        assert m.bytes[..k + 1] == l.bytes[..k + 1];
      } else {
        assert k == top;
        forall h | k <= h < |l.bytes| ensures r.bytes[h] == 0 { assert SameColumn(m, r, h); }
      }
    }
  }

  // ------------------------------------------------------- columns of the whole table

  function ColumnOf(b: Batch, i: nat): ColumnChunk {
    if i < |b.columns| then b.columns[i] else ColumnChunk([], false, true, 0)
  }

  function Column(bs: seq<Batch>, i: nat): seq<ColumnChunk> {
    seq(|bs|, k requires 0 <= k < |bs| => ColumnOf(bs[k], i))
  }

  function Values(chunks: seq<ColumnChunk>): seq<seq<int>> {
    seq(|chunks|, k requires 0 <= k < |chunks| => chunks[k].values)
  }

  /** The column holds one chunk of every batch, in order, or nothing. */
  predicate Whole(l: Ledger, bs: seq<Batch>, i: nat)
    requires Shaped(l, |l.bytes|) && i < |l.bytes|
  {
    l.chunks[i] == if l.retaining && l.probe[i].candidate && l.declined[i].None? then Column(bs, i) else []
  }

  /** Between observing a batch and retaining it, a column just dropped still holds its chunks. */
  predicate Stale(l: Ledger, bs: seq<Batch>, i: nat)
    requires Shaped(l, |l.bytes|) && i < |l.bytes|
  {
    && (l.declined[i].Some? ==> l.chunks[i] == [])
    && (l.probe[i].candidate && l.declined[i].None? ==> l.chunks[i] == Column(bs, i))
  }

  predicate Settled(l: Ledger, cap: nat, bs: seq<Batch>) {
    Books(l, cap) && forall i :: 0 <= i < |l.bytes| ==> Whole(l, bs, i)
  }

  /** Batch `b` has been retained for the columns below `j`. */
  predicate Partway(l: Ledger, cap: nat, bs: seq<Batch>, b: Batch, j: nat) {
    && Books(l, cap) && l.retaining
    && (forall i :: 0 <= i < j && i < |l.bytes| ==> Whole(l, bs + [b], i))
    && (forall i :: j <= i < |l.bytes| ==> Stale(l, bs, i))
  }

  lemma ColumnGrows(bs: seq<Batch>, b: Batch, i: nat)
    ensures Column(bs + [b], i) == Column(bs, i) + [ColumnOf(b, i)]
  {
  }

  lemma RoomKeepsPartway(l: Ledger, r: Ledger, cap: nat, bs: seq<Batch>, b: Batch, j: nat)
    requires Partway(l, cap, bs, b, j) && j < |l.bytes|
    requires Books(r, cap) && OnlyEvicts(l, r, j, |l.bytes|)
    ensures Partway(r, cap, bs, b, j) && SameColumn(l, r, j)
  {
    hide ColumnBooks;
    forall i | 0 <= i < |l.bytes| ensures if i < j then Whole(r, bs + [b], i) else Stale(r, bs, i) {
      assert SameColumn(l, r, i) || (j < i && WasEvicted(l, r, i));
      if i < j { assert Whole(l, bs + [b], i); } else { assert Stale(l, bs, i); }
    }
    assert SameColumn(l, r, j);
  }

  /** Only column `j` differs, and it is whole with the new batch. */
  lemma FinishColumn(l: Ledger, r: Ledger, cap: nat, bs: seq<Batch>, b: Batch, j: nat)
    requires Partway(l, cap, bs, b, j) && j < |l.bytes|
    requires Books(r, cap) && r.retaining && Shaped(r, |l.bytes|) && Whole(r, bs + [b], j)
    requires forall i :: 0 <= i < |l.bytes| && i != j ==> SameColumn(l, r, i)
    ensures Partway(r, cap, bs, b, j + 1)
  {
    hide ColumnBooks;
    forall i | 0 <= i < |l.bytes| ensures if i < j + 1 then Whole(r, bs + [b], i) else Stale(r, bs, i) {
      if i != j { assert SameColumn(l, r, i); }
      if i < j { assert Whole(l, bs + [b], i); }
      if i > j { assert Stale(l, bs, i); }
    }
  }

  lemma RetainColumnStep(l: Ledger, cap: nat, bs: seq<Batch>, b: Batch, j: nat)
    requires Partway(l, cap, bs, b, j) && Shaped(l, |b.columns|) && j < |b.columns| && |b.fates| == |b.columns|
    ensures Partway(RetainColumn(l, cap, j, b), cap, bs, b, j + 1)
  {
    hide ColumnBooks, Stale, Partway, HasHeadroom, BatchBytes;
    var r := RetainColumn(l, cap, j, b);
    assert Books(l, cap) && l.retaining && Stale(l, bs, j) by { PartwayAt(l, cap, bs, b, j); }
    if !l.probe[j].candidate || l.declined[j].Some? {
      ReleaseBooks(l, cap, j);
      FinishColumn(l, r, cap, bs, b, j);
    } else {
      var chunk := b.columns[j];
      MakeRoomFrame(l, cap, j, |l.bytes|, chunk.bytes);
      var room := MakeRoom(l, cap, j, |l.bytes|, chunk.bytes);
      RoomKeepsPartway(l, room, cap, bs, b, j);
      RetainInRoom(l, room, cap, bs, b, j);
    }
  }

  lemma PartwayAt(l: Ledger, cap: nat, bs: seq<Batch>, b: Batch, j: nat)
    requires Partway(l, cap, bs, b, j) && j < |l.bytes|
    ensures Books(l, cap) && l.retaining && Stale(l, bs, j)
  {
  }

  lemma RetainInRoom(l: Ledger, room: Ledger, cap: nat, bs: seq<Batch>, b: Batch, j: nat)
    requires Shaped(l, |b.columns|) && j < |b.columns| && |b.fates| == |b.columns|
    requires l.probe[j].candidate && l.declined[j].None?
    requires room == MakeRoom(l, cap, j, |l.bytes|, b.columns[j].bytes)
    requires Partway(room, cap, bs, b, j) && SameColumn(l, room, j)
    ensures Partway(RetainColumn(l, cap, j, b), cap, bs, b, j + 1)
  {
    hide ColumnBooks, Partway, MakeRoom, HasHeadroom, BatchBytes;
    PartwayAt(room, cap, bs, b, j);
    var chunk := b.columns[j];
    var r := RetainColumn(l, cap, j, b);
    if r == Keep(room, j, chunk) && room.total + chunk.bytes <= cap {
      KeepBooks(room, cap, j, chunk);
      ColumnGrows(bs, b, j);
    } else {
      var why :| r == Decline(room, j, why);
      DeclineBooks(room, cap, j, why);
    }
    FinishColumn(room, r, cap, bs, b, j);
  }

  lemma {:induction false} RetainFromKeeps(l: Ledger, cap: nat, bs: seq<Batch>, b: Batch, j: nat)
    requires Partway(l, cap, bs, b, j) && Shaped(l, |b.columns|) && j <= |b.columns| && |b.fates| == |b.columns|
    ensures Settled(RetainFrom(l, cap, j, b), cap, bs + [b])
    decreases |b.columns| - j
  {
    if j < |b.columns| {
      hide ColumnBooks, Partway, Whole;
      RetainColumnStep(l, cap, bs, b, j);
      RetainFromKeeps(RetainColumn(l, cap, j, b), cap, bs, b, j + 1);
    }
  }

  // ------------------------------------------------------------------------ abandoning

  /** Nothing is held any more. */
  predicate Cleared(l: Ledger) {
    && Shaped(l, |l.bytes|) && l.total == 0
    && forall k :: 0 <= k < |l.bytes| ==> l.bytes[k] == 0 && l.chunks[k] == [] && l.reservations[k] == []
  }

  lemma {:induction false} ClearFromClears(l: Ledger, cap: nat, i: nat)
    requires Books(l, cap) && i <= |l.bytes|
    ensures var r := ClearFrom(l, i);
      && Books(r, cap) && r.retaining == l.retaining && r.declined == l.declined
      && (forall k :: 0 <= k < |l.bytes| ==> r.probe[k].(exactAvailable := true) == l.probe[k].(exactAvailable := true))
      && (forall k :: 0 <= k < i ==> r.chunks[k] == l.chunks[k])
      && (forall k :: i <= k < |l.bytes| ==> r.chunks[k] == [])
    decreases |l.bytes| - i
  {
    if i < |l.bytes| {
      ReleaseBooks(l, cap, i);
      var c := Release(l, i);
      var m := c.(probe := c.probe[i := ExactUnavailable(c.probe[i])]);
      forall k | 0 <= k < |l.bytes| ensures ColumnBooks(m, k) { assert ColumnBooks(c, k); }
      ClearFromClears(m, cap, i + 1);
    }
  }

  lemma EmptyIsCleared(l: Ledger, cap: nat)
    requires Books(l, cap) && forall k :: 0 <= k < |l.bytes| ==> l.chunks[k] == []
    ensures Cleared(l)
  {
    forall k | 0 <= k < |l.bytes| ensures l.bytes[k] == 0 && l.reservations[k] == [] { assert ColumnBooks(l, k); }
    SumPrefix(l.bytes, 0);
    assert l.bytes[..0] == [];
  }

  /** `Abandon` gives back every byte, and what is abandoned stays so. */
  lemma AbandonClears(l: Ledger, cap: nat)
    requires Books(l, cap) && (!l.retaining ==> forall k :: 0 <= k < |l.bytes| ==> l.chunks[k] == [])
    ensures var r := Abandon(l);
      && Books(r, cap) && Cleared(r) && !r.retaining && r.declined == l.declined
      && (forall k :: 0 <= k < |l.bytes| ==> r.probe[k].(exactAvailable := true) == l.probe[k].(exactAvailable := true))
  {
    if l.retaining {
      var m := l.(retaining := false);
      forall k | 0 <= k < |l.bytes| ensures ColumnBooks(m, k) { assert ColumnBooks(l, k); }
      ClearFromClears(m, cap, 0);
    }
    EmptyIsCleared(Abandon(l), cap);
  }

  // ------------------------------------------------------- the probe beside the ledger

  /** The two differ at most in whether the exact stage is still available. */
  predicate SameProof(p: seq<ProbeColumn>, q: seq<ProbeColumn>) {
    |p| == |q| && forall k :: 0 <= k < |p| ==> p[k].(exactAvailable := true) == q[k].(exactAvailable := true)
  }

  predicate ProbeOk(probe: seq<ProbeColumn>, bs: seq<Batch>) {
    forall i :: 0 <= i < |probe| ==> ColumnOk(probe[i], Values(Column(bs, i)))
  }

  lemma SameProofOk(p: seq<ProbeColumn>, q: seq<ProbeColumn>, bs: seq<Batch>)
    requires SameProof(p, q) && ProbeOk(p, bs)
    ensures ProbeOk(q, bs)
  {
    hide Evidence;
    forall i | 0 <= i < |q| ensures ColumnOk(q[i], Values(Column(bs, i))) {
      assert ColumnOk(p[i], Values(Column(bs, i)));
    }
  }

  lemma ObserveOk(probe: seq<ProbeColumn>, bs: seq<Batch>, b: Batch)
    requires ProbeOk(probe, bs) && ValidBatch(b)
    ensures ProbeOk(ObserveAll(probe, b), bs + [b])
    ensures forall i :: 0 <= i < |probe| ==> (ObserveAll(probe, b)[i].candidate ==> probe[i].candidate)
  {
    hide Evidence, ObserveColumn, SortsTo;
    forall i | 0 <= i < |probe|
      ensures ColumnOk(ObserveAll(probe, b)[i], Values(Column(bs + [b], i)))
      ensures ObserveAll(probe, b)[i].candidate ==> probe[i].candidate
    {
      if |b.columns| == |probe| {
        assert ColumnOk(probe[i], Values(Column(bs, i)));
        ObserveKeepsEvidence(probe[i], Values(Column(bs, i)), b.columns[i], b.looks[i]);
        assert Values(Column(bs + [b], i)) == Values(Column(bs, i)) + [b.columns[i].values];
      }
    }
  }

  lemma EvictionProof(l: Ledger, r: Ledger, i: nat)
    requires Shaped(l, |l.bytes|) && OnlyEvicts(l, r, i, |l.bytes|)
    ensures SameProof(l.probe, r.probe)
  {
    forall k | 0 <= k < |l.bytes|
      ensures l.probe[k].(exactAvailable := true) == r.probe[k].(exactAvailable := true)
    {
      assert SameColumn(l, r, k) || WasEvicted(l, r, k);
    }
  }

  lemma UnavailableProof(p: seq<ProbeColumn>, q: seq<ProbeColumn>, i: nat)
    requires SameProof(p, q) && i < |q|
    ensures SameProof(p, q[i := ExactUnavailable(q[i])])
  {
  }

  lemma RetainColumnProof(l: Ledger, cap: nat, i: nat, b: Batch)
    requires Books(l, cap) && Shaped(l, |b.columns|) && i < |b.columns| && |b.fates| == |b.columns|
    ensures SameProof(l.probe, RetainColumn(l, cap, i, b).probe)
  {
    if !l.probe[i].candidate || l.declined[i].Some? { return; }
    hide Books, OnlyEvicts, MakeRoom, HasHeadroom, BatchBytes, SameProof;
    var need := b.columns[i].bytes;
    MakeRoomFrame(l, cap, i, |l.bytes|, need);
    var room := MakeRoom(l, cap, i, |l.bytes|, need);
    EvictionProof(l, room, i);
    UnavailableProof(l.probe, room.probe, i);
  }

  lemma {:induction false} RetainFromProof(l: Ledger, cap: nat, bs: seq<Batch>, b: Batch, i: nat)
    requires Partway(l, cap, bs, b, i) && Shaped(l, |b.columns|) && i <= |b.columns| && |b.fates| == |b.columns|
    ensures SameProof(l.probe, RetainFrom(l, cap, i, b).probe)
    decreases |b.columns| - i
  {
    if i < |b.columns| {
      hide ColumnBooks, Whole, Stale;
      RetainColumnProof(l, cap, i, b);
      RetainColumnStep(l, cap, bs, b, i);
      RetainFromProof(RetainColumn(l, cap, i, b), cap, bs, b, i + 1);
    }
  }

  // --------------------------------------------------------------------- whole runs

  /** Between batches: the books balance, columns are whole, and the probe's evidence is for every batch. */
  predicate Inv(l: Ledger, cap: nat, bs: seq<Batch>) {
    Settled(l, cap, bs) && ProbeOk(l.probe, bs)
  }

  lemma ClearedIsSettled(l: Ledger, cap: nat, bs: seq<Batch>)
    requires Books(l, cap) && Cleared(l) && !l.retaining
    ensures Settled(l, cap, bs)
  {
  }

  lemma HoldsNothing(l: Ledger, cap: nat, bs: seq<Batch>)
    requires Settled(l, cap, bs) && !l.retaining
    ensures forall k :: 0 <= k < |l.bytes| ==> l.chunks[k] == []
  {
    forall k | 0 <= k < |l.bytes| ensures l.chunks[k] == [] { assert Whole(l, bs, k); }
  }

  lemma ObservedIsPartway(l: Ledger, m: Ledger, cap: nat, bs: seq<Batch>, b: Batch)
    requires Settled(l, cap, bs) && l.retaining && |m.probe| == |l.probe|
    requires m == l.(probe := m.probe, gpu := m.gpu, rows := m.rows)
    requires forall i :: 0 <= i < |l.probe| ==> (m.probe[i].candidate ==> l.probe[i].candidate)
    ensures Partway(m, cap, bs, b, 0)
  {
    forall i | 0 <= i < |l.bytes| ensures ColumnBooks(m, i) && Stale(m, bs, i) {
      assert ColumnBooks(l, i) && Whole(l, bs, i);
    }
  }

  lemma ObservedBooks(l: Ledger, cap: nat, probe: seq<ProbeColumn>)
    requires Books(l, cap) && |probe| == |l.probe|
    ensures Books(l.(probe := probe), cap)
  {
    var m := l.(probe := probe);
    forall i | 0 <= i < |l.bytes| ensures ColumnBooks(m, i) { assert ColumnBooks(l, i); }
  }

  /** The two ways a retaining ledger can take a batch. */
  lemma RetainBatchCases(o: Ledger, cap: nat, b: Batch)
    requires Shaped(o, |o.bytes|) && ValidBatch(b)
    ensures var r := RetainBatch(o, cap, b);
      || r == Abandon(o)
      || (o.retaining && |b.columns| == |o.bytes| &&
          r == RetainFrom(o.(gpu := Some(b.device), rows := o.rows + b.rows), cap, 0, b))
  {
  }

  lemma RetainBatchKeepsInv(l: Ledger, cap: nat, bs: seq<Batch>, b: Batch)
    requires Settled(l, cap, bs) && ProbeOk(l.probe, bs) && ValidBatch(b)
    ensures Inv(RetainBatch(l.(probe := ObserveAll(l.probe, b)), cap, b), cap, bs + [b])
  {
    hide ColumnBooks, ColumnOk, SortsTo, ObserveAll, ProbeOk, RetainBatch, Whole;
    ObserveOk(l.probe, bs, b);
    var o := l.(probe := ObserveAll(l.probe, b));
    var r := RetainBatch(o, cap, b);
    ObservedBooks(l, cap, o.probe);
    RetainBatchCases(o, cap, b);
    if r == Abandon(o) {
      if !l.retaining { HoldsNothing(l, cap, bs); }
      AbandonClears(o, cap);
      ClearedIsSettled(r, cap, bs + [b]);
    } else {
      var m := o.(gpu := Some(b.device), rows := o.rows + b.rows);
      ObservedIsPartway(l, m, cap, bs, b);
      RetainFromKeeps(m, cap, bs, b, 0);
      RetainFromProof(m, cap, bs, b, 0);
    }
    SameProofOk(o.probe, r.probe, bs + [b]);
  }

  lemma HandleBatchKeepsInv(l: Ledger, cap: nat, bs: seq<Batch>, b: Batch)
    requires Inv(l, cap, bs) && ValidBatch(b) && HandleBatch(l, cap, b).Some?
    ensures Inv(HandleBatch(l, cap, b).value, cap, bs + [b])
  {
    hide ColumnBooks, ProbeOk, SortsTo, RetainBatch, ObserveAll;
    if b.decode.OnRetry? {
      if !l.retaining { HoldsNothing(l, cap, bs); }
      AbandonClears(l, cap);
      var a := Abandon(l);
      ClearedIsSettled(a, cap, bs);
      SameProofOk(l.probe, a.probe, bs);
      RetainBatchKeepsInv(a, cap, bs, b);
    } else {
      RetainBatchKeepsInv(l, cap, bs, b);
    }
  }

  /**
    After any run of batches: total bytes are the sum of the columns' and within the cap, each
    column has one reservation per chunk, and a column that holds anything holds one chunk of every batch.
   */
  lemma {:induction false} RunKeepsInv(selected: seq<bool>, automatic: seq<bool>, cap: nat, bs: seq<Batch>)
    requires forall k :: 0 <= k < |bs| ==> ValidBatch(bs[k])
    requires Run(selected, automatic, cap, bs).Some?
    ensures Inv(Run(selected, automatic, cap, bs).value, cap, bs)
    decreases |bs|
  {
    hide ValidBatch;
    if bs == [] {
      InitialInv(selected, automatic, cap);
    } else {
      var before := bs[..|bs| - 1];
      RunKeepsInv(selected, automatic, cap, before);
      HandleBatchKeepsInv(Run(selected, automatic, cap, before).value, cap, before, bs[|bs| - 1]);
      assert before + [bs[|bs| - 1]] == bs;
    }
  }

  lemma InitialInv(selected: seq<bool>, automatic: seq<bool>, cap: nat)
    ensures Inv(Initial(selected, automatic), cap, [])
  {
    var l := Initial(selected, automatic);
    forall i | 0 <= i < |selected| ensures ColumnBooks(l, i) && Whole(l, [], i) {
      assert l.chunks[i] == [] && Sizes(l.chunks[i]) == [];
    }
    SumPrefix(l.bytes, 0);
    assert l.bytes[..0] == [];
  }

  /** Everything the ledger promises after any run of batches, spelled out. */
  lemma RunBalances(selected: seq<bool>, automatic: seq<bool>, cap: nat, bs: seq<Batch>)
    requires forall k :: 0 <= k < |bs| ==> ValidBatch(bs[k])
    requires Run(selected, automatic, cap, bs).Some?
    ensures var l := Run(selected, automatic, cap, bs).value;
      && l.total == Sum(l.bytes) <= cap
      && (forall i :: 0 <= i < |selected| ==>
            && |l.reservations[i]| == |l.chunks[i]| && l.bytes[i] == Sum(Sizes(l.chunks[i]))
            && (l.chunks[i] == [] || l.chunks[i] == Column(bs, i))
            && (l.retaining && l.probe[i].candidate && l.declined[i].None? ==> l.chunks[i] == Column(bs, i)))
  {
    hide ValidBatch, ProbeOk;
    RunKeepsInv(selected, automatic, cap, bs);
    var l := Run(selected, automatic, cap, bs).value;
    hide Run;
    forall i | 0 <= i < |selected|
      ensures |l.reservations[i]| == |l.chunks[i]| && l.bytes[i] == Sum(Sizes(l.chunks[i])) && Whole(l, bs, i)
    {
      assert ColumnBooks(l, i) && Whole(l, bs, i);
    }
  }

  // ------------------------------------------------------ columns that fit stay in

  /** Bytes of the selected ones among the first `m` columns of a batch. */
  function ChosenBytes(selected: seq<bool>, columns: seq<ColumnChunk>, m: nat): nat {
    if m == 0 then 0
    else
      var last := if m <= |selected| && m <= |columns| && selected[m - 1] then columns[m - 1].bytes else 0;
      ChosenBytes(selected, columns, m - 1) + last
  }

  /** Bytes of the selected ones among the first `m` columns over all batches. */
  function Due(selected: seq<bool>, bs: seq<Batch>, m: nat): nat
    decreases |bs|
  {
    if bs == [] then 0
    else Due(selected, bs[..|bs| - 1], m) + ChosenBytes(selected, bs[|bs| - 1].columns, m)
  }

  /** The cap has not cost column `i` its check, and columns up to `i` hold at most `due` bytes. */
  predicate Spared(l: Ledger, i: nat, due: nat)
    requires Shaped(l, |l.bytes|) && i < |l.bytes|
  {
    l.declined[i] != Some(OverCap) && l.declined[i] != Some(Evicted) && Sum(l.bytes[..i + 1]) <= due
  }

  lemma {:induction false} SumMonotone(s: seq<nat>, t: seq<nat>)
    requires |s| == |t| && forall k :: 0 <= k < |s| ==> s[k] <= t[k]
    ensures Sum(s) <= Sum(t)
    decreases |s|
  {
    if s != [] { SumMonotone(s[..|s| - 1], t[..|t| - 1]); }
  }

  lemma {:induction false} ChosenMonotone(selected: seq<bool>, columns: seq<ColumnChunk>, k: nat, m: nat)
    requires k <= m
    ensures ChosenBytes(selected, columns, k) <= ChosenBytes(selected, columns, m)
    decreases m
  {
    if k < m { ChosenMonotone(selected, columns, k, m - 1); }
  }

  /** What is due for the columns up to `i` once the columns below `j` of batch `b` are in. */
  function DueSoFar(selected: seq<bool>, bs: seq<Batch>, b: Batch, i: nat, j: nat): nat {
    Due(selected, bs, i + 1) + ChosenBytes(selected, b.columns, if j <= i then j else i + 1)
  }

  lemma DueGrows(selected: seq<bool>, bs: seq<Batch>, b: Batch, i: nat, j: nat)
    requires j < |b.columns| == |selected|
    ensures DueSoFar(selected, bs, b, i, j + 1) ==
      DueSoFar(selected, bs, b, i, j) + if j <= i && selected[j] then b.columns[j].bytes else 0
    ensures DueSoFar(selected, bs, b, i, j + 1) <= Due(selected, bs + [b], i + 1)
  {
    assert (bs + [b])[..|bs|] == bs;
    ChosenMonotone(selected, b.columns, if j <= i then j + 1 else i + 1, i + 1);
  }

  /** Only selected columns are candidates. */
  predicate Chosen(selected: seq<bool>, probe: seq<ProbeColumn>) {
    |probe| == |selected| && forall k :: 0 <= k < |probe| && probe[k].candidate ==> selected[k]
  }

  lemma SameProofChosen(selected: seq<bool>, p: seq<ProbeColumn>, q: seq<ProbeColumn>)
    requires SameProof(p, q) && Chosen(selected, p)
    ensures Chosen(selected, q)
  {
    forall k | 0 <= k < |q| && q[k].candidate ensures selected[k] {
      assert p[k].(exactAvailable := true) == q[k].(exactAvailable := true);
    }
  }

  /** The room made for column `j <= i` did not cost column `i` anything. */
  lemma RoomSpares(l: Ledger, cap: nat, i: nat, j: nat, need: nat, due: nat)
    requires Books(l, cap) && i < |l.bytes| && j < |l.bytes| && Spared(l, i, due) && (j <= i ==> due + need <= cap)
    ensures var r := MakeRoom(l, cap, j, |l.bytes|, need);
      Spared(r, i, due) && (i == j ==> r.total + need <= cap)
  {
    hide ColumnBooks;
    MakeRoomFrame(l, cap, j, |l.bytes|, need);
    MakeRoomEvicts(l, cap, j, |l.bytes|, need);
    var r := MakeRoom(l, cap, j, |l.bytes|, need);
    hide MakeRoom;
    assert SameColumn(l, r, i);
    forall k | 0 <= k < |l.bytes| ensures r.bytes[k] <= l.bytes[k] {
      assert SameColumn(l, r, k) || WasEvicted(l, r, k);
    }
    SumMonotone(r.bytes[..i + 1], l.bytes[..i + 1]);
    if i == j { SumPrefix(r.bytes, i + 1); }
  }

  lemma DeclineSpares(l: Ledger, i: nat, j: nat, due: nat, why: Why)
    requires Shaped(l, |l.bytes|) && i < |l.bytes| && j < |l.bytes| && Spared(l, i, due)
    requires i == j ==> !why.OverCap? && !why.Evicted?
    ensures Spared(Decline(l, j, why), i, due)
  {
    PrefixUpdate(l.bytes, i, j, 0);
  }

  lemma KeepSpares(l: Ledger, i: nat, j: nat, due: nat, chunk: ColumnChunk)
    requires Shaped(l, |l.bytes|) && i < |l.bytes| && j < |l.bytes| && Spared(l, i, due)
    ensures Spared(Keep(l, j, chunk), i, due + if j <= i then chunk.bytes else 0)
  {
    PrefixUpdate(l.bytes, i, j, l.bytes[j] + chunk.bytes);
  }

  lemma SparedForMore(l: Ledger, i: nat, due: nat, more: nat)
    requires Shaped(l, |l.bytes|) && i < |l.bytes| && Spared(l, i, due) && due <= more
    ensures Spared(l, i, more)
  {
  }

  lemma RetainColumnSpares(
    selected: seq<bool>, l: Ledger, cap: nat, bs: seq<Batch>, b: Batch, i: nat, j: nat)
    requires Books(l, cap) && Shaped(l, |b.columns|) && |b.fates| == |b.columns| && i < |b.columns| && j < |b.columns|
    requires Chosen(selected, l.probe)
    requires Due(selected, bs + [b], i + 1) <= cap && Spared(l, i, DueSoFar(selected, bs, b, i, j))
    ensures Spared(RetainColumn(l, cap, j, b), i, DueSoFar(selected, bs, b, i, j + 1))
  {
    hide Books, Due, HasHeadroom, BatchBytes, DueSoFar, Spared, MakeRoom;
    DueGrows(selected, bs, b, i, j);
    var chunk := b.columns[j];
    var due := DueSoFar(selected, bs, b, i, j);
    var r := RetainColumn(l, cap, j, b);
    if !l.probe[j].candidate || l.declined[j].Some? {
      assert Spared(r, i, due) by { ReleaseSpares(l, i, j, due); }
    } else {
      RoomSpares(l, cap, i, j, chunk.bytes, due);
      var room := MakeRoom(l, cap, j, |l.bytes|, chunk.bytes);
      if r == Keep(room, j, chunk) {
        KeepSpares(room, i, j, due, chunk);
        return;
      }
      var why :| r == Decline(room, j, why) && (i == j ==> !why.OverCap? && !why.Evicted?);
      DeclineSpares(room, i, j, due, why);
    }
    SparedForMore(r, i, due, DueSoFar(selected, bs, b, i, j + 1));
  }

  lemma ReleaseSpares(l: Ledger, i: nat, j: nat, due: nat)
    requires Shaped(l, |l.bytes|) && i < |l.bytes| && j < |l.bytes| && Spared(l, i, due)
    ensures Spared(Release(l, j), i, due)
  {
    PrefixUpdate(l.bytes, i, j, 0);
  }

  lemma PrefixUpdate(s: seq<nat>, i: nat, j: nat, v: nat)
    requires i < |s| && j < |s|
    ensures Sum(s[j := v][..i + 1]) == Sum(s[..i + 1]) + if j <= i then v - s[j] else 0
  {
    if j <= i {
      SumUpdate(s[..i + 1], j, v);
      assert s[j := v][..i + 1] == s[..i + 1][j := v];
    } else {
      assert s[j := v][..i + 1] == s[..i + 1];
    }
  }

  lemma {:induction false} RetainFromSpares(
    selected: seq<bool>, l: Ledger, cap: nat, bs: seq<Batch>, b: Batch, i: nat, j: nat)
    requires Partway(l, cap, bs, b, j) && Shaped(l, |b.columns|) && |b.fates| == |b.columns|
    requires i < |b.columns| && j <= |b.columns| && Chosen(selected, l.probe)
    requires Due(selected, bs + [b], i + 1) <= cap && Spared(l, i, DueSoFar(selected, bs, b, i, j))
    ensures Spared(RetainFrom(l, cap, j, b), i, Due(selected, bs + [b], i + 1))
    decreases |b.columns| - j
  {
    if j < |b.columns| {
      hide ColumnBooks, Whole, Stale, Spared, Due, DueSoFar, Chosen, SameProof, RetainColumn;
      RetainColumnSpares(selected, l, cap, bs, b, i, j);
      RetainColumnStep(l, cap, bs, b, j);
      RetainColumnProof(l, cap, j, b);
      SameProofChosen(selected, l.probe, RetainColumn(l, cap, j, b).probe);
      RetainFromSpares(selected, RetainColumn(l, cap, j, b), cap, bs, b, i, j + 1);
    } else {
      DueGrows(selected, bs, b, i, |b.columns| - 1);
      SparedForMore(l, i, DueSoFar(selected, bs, b, i, j), Due(selected, bs + [b], i + 1));
    }
  }

  lemma ClearedIsSpared(l: Ledger, i: nat, due: nat)
    requires Cleared(l) && i < |l.bytes| && l.declined[i] != Some(OverCap) && l.declined[i] != Some(Evicted)
    ensures Spared(l, i, due)
  {
    SumPrefix(l.bytes[..i + 1], 0);
    assert l.bytes[..i + 1][..0] == [];
  }

  lemma RetainBatchSpares(selected: seq<bool>, l: Ledger, cap: nat, bs: seq<Batch>, b: Batch, i: nat)
    requires Inv(l, cap, bs) && ValidBatch(b) && i < |l.bytes| && Chosen(selected, l.probe)
    requires Due(selected, bs + [b], i + 1) <= cap && Spared(l, i, Due(selected, bs, i + 1))
    ensures Spared(RetainBatch(l.(probe := ObserveAll(l.probe, b)), cap, b), i, Due(selected, bs + [b], i + 1))
    ensures Chosen(selected, RetainBatch(l.(probe := ObserveAll(l.probe, b)), cap, b).probe)
  {
    hide ColumnBooks, SortsTo, Sum, ObserveAll, ProbeOk, RetainBatch, Whole;
    ObserveOk(l.probe, bs, b);
    var o := l.(probe := ObserveAll(l.probe, b));
    var r := RetainBatch(o, cap, b);
    assert Chosen(selected, o.probe);
    ObservedBooks(l, cap, o.probe);
    RetainBatchCases(o, cap, b);
    hide Due, ObserveColumn, Chosen, SameProof;
    if r == Abandon(o) {
      if !l.retaining { HoldsNothing(l, cap, bs); }
      AbandonClears(o, cap);
      ClearedIsSpared(r, i, Due(selected, bs + [b], i + 1));
      AbandonProof(o, cap);
    } else {
      var m := o.(gpu := Some(b.device), rows := o.rows + b.rows);
      ObservedIsPartway(l, m, cap, bs, b);
      assert Spared(m, i, DueSoFar(selected, bs, b, i, 0));
      RetainFromSpares(selected, m, cap, bs, b, i, 0);
      RetainFromProof(m, cap, bs, b, 0);
    }
    SameProofChosen(selected, o.probe, r.probe);
  }

  lemma AbandonProof(l: Ledger, cap: nat)
    requires Books(l, cap) && (!l.retaining ==> forall k :: 0 <= k < |l.bytes| ==> l.chunks[k] == [])
    ensures SameProof(l.probe, Abandon(l).probe)
  {
    AbandonClears(l, cap);
  }

  /**
    A column whose bytes, with those of the selected columns before it and over all batches, fit in the
    cap never loses its check to the cap, whatever the batch order and whatever later columns hold.
   */
  lemma {:induction false} FittingColumnsAreSpared(
    selected: seq<bool>, automatic: seq<bool>, cap: nat, bs: seq<Batch>, i: nat)
    requires forall k :: 0 <= k < |bs| ==> ValidBatch(bs[k])
    requires i < |selected| && Due(selected, bs, i + 1) <= cap && Run(selected, automatic, cap, bs).Some?
    ensures Spared(Run(selected, automatic, cap, bs).value, i, Due(selected, bs, i + 1))
    ensures Chosen(selected, Run(selected, automatic, cap, bs).value.probe)
    decreases |bs|
  {
    hide ValidBatch, Spared, Chosen;
    if bs == [] {
      var l := Initial(selected, automatic);
      assert Cleared(l) by { hide Selects; }
      ClearedIsSpared(l, i, 0);
      InitialChosen(selected, automatic);
    } else {
      var before, b := bs[..|bs| - 1], bs[|bs| - 1];
      assert before + [b] == bs;
      FittingColumnsAreSpared(selected, automatic, cap, before, i);
      RunKeepsInv(selected, automatic, cap, before);
      HandleBatchSpares(selected, Run(selected, automatic, cap, before).value, cap, before, b, i);
    }
  }

  lemma InitialChosen(selected: seq<bool>, automatic: seq<bool>)
    ensures Chosen(selected, Initial(selected, automatic).probe)
  {
  }

  lemma HandleBatchSpares(selected: seq<bool>, l: Ledger, cap: nat, bs: seq<Batch>, b: Batch, i: nat)
    requires Inv(l, cap, bs) && ValidBatch(b) && i < |l.bytes| && HandleBatch(l, cap, b).Some?
    requires Chosen(selected, l.probe)
    requires Due(selected, bs + [b], i + 1) <= cap && Spared(l, i, Due(selected, bs, i + 1))
    ensures Spared(HandleBatch(l, cap, b).value, i, Due(selected, bs + [b], i + 1))
    ensures Chosen(selected, HandleBatch(l, cap, b).value.probe)
  {
    hide ColumnBooks, ProbeOk, SortsTo, RetainBatch, ObserveAll, Due, Sum, Chosen;
    if b.decode.OnRetry? {
      if !l.retaining { HoldsNothing(l, cap, bs); }
      AbandonClears(l, cap);
      var a := Abandon(l);
      ClearedIsSettled(a, cap, bs);
      AbandonProof(l, cap);
      SameProofOk(l.probe, a.probe, bs);
      SameProofChosen(selected, l.probe, a.probe);
      ClearedIsSpared(a, i, Due(selected, bs, i + 1));
      RetainBatchSpares(selected, a, cap, bs, b, i);
    } else {
      RetainBatchSpares(selected, l, cap, bs, b, i);
    }
  }

  // ----------------------------------------------------------------- final verdicts

  /** What the device answers when a column's chunks are checked together. */
  datatype ExactLook = ExactLook(throws: bool, comparable: bool, sorted: seq<int>)

  /** Sort all values and count runs, unless nulls, types or size rule that out. */
  function ExactDistinct(chunks: seq<ColumnChunk>, look: ExactLook): Option<bool> {
    var rows := |Concat(Values(chunks))|;
    if (exists k :: 0 <= k < |chunks| && chunks[k].nulls) || !look.comparable then None
    else if rows == 0 || rows > MAX_ROWS then None
    else Some(Runs(look.sorted) == rows)
  }

  function FinalVerdict(l: Ledger, i: nat, look: ExactLook): Verdict
    requires Shaped(l, |l.bytes|) && i < |l.bytes|
  {
    var cheap := VerdictOf(l.probe[i]);
    if !l.retaining || cheap != Undecided || l.chunks[i] == [] || look.throws then cheap
    else match ExactDistinct(l.chunks[i], look)
      case None => Undecided
      case Some(unique) => if unique then Proven else Refused
  }

  lemma ExactCountDecides(chunks: seq<ColumnChunk>, look: ExactLook)
    requires SortsTo(Concat(Values(chunks)), look.sorted) && ExactDistinct(chunks, look).Some?
    ensures ExactDistinct(chunks, look).value <==> NoDup(Concat(Values(chunks)))
  {
    var all := Concat(Values(chunks));
    RunsOfSorted(look.sorted);
    SortKeepsNoDup(all, look.sorted);
    assert |multiset(look.sorted)| == |multiset(all)|;
  }

  /**
    A final `Proven` is about the whole table: no value repeats over all batches. A column the
    cheap stage left open and the exact stage refused does repeat one, and what the exact stage can
    count it settles either way.
   */
  lemma VerdictsSpeakForTheTable(
    selected: seq<bool>, automatic: seq<bool>, cap: nat, bs: seq<Batch>, i: nat, look: ExactLook)
    requires forall k :: 0 <= k < |bs| ==> ValidBatch(bs[k])
    requires Run(selected, automatic, cap, bs).Some? && i < |selected|
    requires SortsTo(Concat(Values(Run(selected, automatic, cap, bs).value.chunks[i])), look.sorted)
    ensures var l, all := Run(selected, automatic, cap, bs).value, Concat(Values(Column(bs, i)));
      && (FinalVerdict(l, i, look) == Proven ==> NoDup(all))
      && (VerdictOf(l.probe[i]) == Undecided && FinalVerdict(l, i, look) == Refused ==> !NoDup(all))
      && (l.retaining && VerdictOf(l.probe[i]) == Undecided && !look.throws ==>
            ExactDistinct(l.chunks[i], look).Some? ==>
              FinalVerdict(l, i, look) == if NoDup(all) then Proven else Refused)
  {
    hide ValidBatch, NoDup, SortsTo;
    RunKeepsInv(selected, automatic, cap, bs);
    var l := Run(selected, automatic, cap, bs).value;
    hide Run, Books;
    assert Whole(l, bs, i) && ColumnOk(l.probe[i], Values(Column(bs, i)));
    if VerdictOf(l.probe[i]) == Proven {
      ProvenIsDistinct(l.probe[i], Values(Column(bs, i)));
    } else if ExactDistinct(l.chunks[i], look).Some? {
      ExactCountDecides(l.chunks[i], look);
    }
  }
}
