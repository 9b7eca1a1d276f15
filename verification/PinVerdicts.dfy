/**
  The verdicts of a pin from its inputs: the chunks of a column, what the device answers about them,
  and the batches at which the exact check was lost. Nothing here mentions ranges except the proofs.
 */
module PinVerdicts {
  import opened Basics
  import opened UniqueProbe
  import opened ExactRetention
  import opened RetentionOrder

  // --------------------------------------------------------------- what decides a verdict

  predicate Below(a: seq<int>, b: seq<int>) {
    forall i, j :: 0 <= i < |a| && 0 <= j < |b| ==> a[i] < b[j]
  }

  /** All values of one chunk lie below all values of the other. */
  predicate SpansApart(a: ColumnChunk, b: ColumnChunk) {
    Below(a.values, b.values) || Below(b.values, a.values)
  }

  /** A chunk the cheap stage cannot settle: no integers, no extremes, or unsorted and not to be sorted. */
  predicate LeavesOpen(automatic: bool, chunk: ColumnChunk, look: Look) {
    chunk.values != [] && (!chunk.integral || !look.readable || (!automatic && !Ascending(chunk.values)))
  }

  const NO_LOOK := Look(true, true, false, [])

  function LookOf(b: Batch, i: nat): Look {
    if i < |b.looks| then b.looks[i] else NO_LOOK
  }

  function Looks(bs: seq<Batch>, i: nat): seq<Look> {
    seq(|bs|, k requires 0 <= k < |bs| => LookOf(bs[k], i))
  }

  /** Every batch has the selected width, and no chunk by itself gives a reason to drop the column. */
  predicate AllPassWide(n: nat, automatic: bool, bs: seq<Batch>, i: nat) {
    forall k :: 0 <= k < |bs| ==>
      |bs[k].columns| == n && Passes(automatic, ColumnOf(bs[k], i), LookOf(bs[k], i))
  }

  predicate NoneOpen(automatic: bool, bs: seq<Batch>, i: nat) {
    forall k :: 0 <= k < |bs| ==> !LeavesOpen(automatic, ColumnOf(bs[k], i), LookOf(bs[k], i))
  }

  predicate PairwiseApart(bs: seq<Batch>, i: nat) {
    forall j, k :: 0 <= j < k < |bs| ==> SpansApart(ColumnOf(bs[j], i), ColumnOf(bs[k], i))
  }

  /** The cheap stage settles the column: every chunk is distinct in itself and apart from the others. */
  predicate ClearlyDistinct(selected: seq<bool>, automatic: seq<bool>, bs: seq<Batch>, i: nat) {
    var auto := Automatic(selected, automatic, i);
    && i < |selected| && selected[i]
    && AllPassWide(|selected|, auto, bs, i) && NoneOpen(auto, bs, i) && PairwiseApart(bs, i)
  }

  /** The exact check of column `i` was gone when the probe looked at batch `k`. */
  predicate ExactLostAt(selected: seq<bool>, automatic: seq<bool>, cap: nat, bs: seq<Batch>, i: nat, k: nat)
    requires (forall n :: 0 <= n < |bs| ==> ValidBatch(bs[n])) && k < |bs| && i < |selected|
  {
    var before := Run(selected, automatic, cap, bs[..k]);
    before.Some? && (!before.value.retaining || before.value.declined[i].Some? || bs[k].decode.OnRetry?)
  }

  /** The chunk is apart from every chunk of the batches that was not left open. */
  predicate ClearOf(automatic: bool, bs: seq<Batch>, i: nat, chunk: ColumnChunk) {
    forall j :: 0 <= j < |bs| && !LeavesOpen(automatic, ColumnOf(bs[j], i), LookOf(bs[j], i)) ==>
      SpansApart(ColumnOf(bs[j], i), chunk)
  }

  /** A chunk that needs no exact stage: its extremes can be read and meet no earlier span. */
  predicate MeetsNone(automatic: bool, before: seq<Batch>, i: nat, b: Batch) {
    ColumnOf(b, i).values != [] ==> LookOf(b, i).readable && ClearOf(automatic, before, i, ColumnOf(b, i))
  }

  /** The probe never drops the column. */
  predicate NeverDropped(selected: seq<bool>, automatic: seq<bool>, cap: nat, bs: seq<Batch>, i: nat)
    requires (forall n :: 0 <= n < |bs| ==> ValidBatch(bs[n])) && i < |selected|
  {
    var auto := Automatic(selected, automatic, i);
    && AllPassWide(|selected|, auto, bs, i)
    && (auto ==> forall k :: 0 <= k < |bs| && ExactLostAt(selected, automatic, cap, bs, i, k) ==>
          MeetsNone(auto, bs[..k], i, bs[k]))
  }

  // ----------------------------------------------------------------- spans and ranges

  /** The range of each non-empty chunk that is not left open, in order. */
  function Spans(automatic: bool, bs: seq<Batch>, i: nat): seq<Range> {
    if bs == [] then []
    else
      var last := bs[|bs| - 1];
      Spans(automatic, bs[..|bs| - 1], i) + SpanOf(automatic, ColumnOf(last, i), LookOf(last, i))
  }

  function SpanOf(automatic: bool, chunk: ColumnChunk, look: Look): seq<Range> {
    if chunk.values == [] || LeavesOpen(automatic, chunk, look) then []
    else [Range(Min(chunk.values), Max(chunk.values))]
  }

  lemma SpansOverlap(a: ColumnChunk, b: ColumnChunk)
    requires a.values != [] && b.values != []
    ensures SpansApart(a, b) <==>
      !Overlap(Range(Min(a.values), Max(a.values)), Range(Min(b.values), Max(b.values)))
  {
    var la, ha, lb, hb := Min(a.values), Max(a.values), Min(b.values), Max(b.values);
    hide Min, Max;
    assert la in a.values && ha in a.values && lb in b.values && hb in b.values;
  }

  /** `r` is the range of an earlier chunk. */
  lemma {:induction false} SpansHold(automatic: bool, bs: seq<Batch>, i: nat, r: Range)
    ensures r in Spans(automatic, bs, i) <==>
      exists j :: 0 <= j < |bs| && r in SpanOf(automatic, ColumnOf(bs[j], i), LookOf(bs[j], i))
    decreases |bs|
  {
    if bs != [] {
      var before := bs[..|bs| - 1];
      SpansHold(automatic, before, i, r);
      assert forall j :: 0 <= j < |before| ==> before[j] == bs[j];
    }
  }

  lemma SpansAreProper(automatic: bool, bs: seq<Batch>, i: nat)
    ensures forall k :: 0 <= k < |Spans(automatic, bs, i)| ==>
      Spans(automatic, bs, i)[k].lo <= Spans(automatic, bs, i)[k].hi
  {
    var rs := Spans(automatic, bs, i);
    forall k | 0 <= k < |rs| ensures rs[k].lo <= rs[k].hi {
      SpansHold(automatic, bs, i, rs[k]);
    }
  }

  predicate RangeClear(rs: seq<Range>, r: Range) {
    forall x :: x in rs ==> !Overlap(x, r)
  }

  /** The chunk's range meets no earlier one exactly when the chunk is apart from the earlier chunks. */
  lemma RangeClearIff(automatic: bool, bs: seq<Batch>, i: nat, chunk: ColumnChunk)
    requires chunk.values != []
    ensures RangeClear(Spans(automatic, bs, i), Range(Min(chunk.values), Max(chunk.values))) <==>
      ClearOf(automatic, bs, i, chunk)
  {
    var r := Range(Min(chunk.values), Max(chunk.values));
    var rs := Spans(automatic, bs, i);
    hide Min, Max, Spans;
    if RangeClear(rs, r) {
      forall j | 0 <= j < |bs| && !LeavesOpen(automatic, ColumnOf(bs[j], i), LookOf(bs[j], i))
        ensures SpansApart(ColumnOf(bs[j], i), chunk)
      {
        var c := ColumnOf(bs[j], i);
        if c.values != [] {
          SpansOverlap(c, chunk);
          SpansHold(automatic, bs, i, Range(Min(c.values), Max(c.values)));
        }
      }
    }
    if ClearOf(automatic, bs, i, chunk) {
      forall x | x in rs ensures !Overlap(x, r) {
        SpansHold(automatic, bs, i, x);
        var j :| 0 <= j < |bs| && x in SpanOf(automatic, ColumnOf(bs[j], i), LookOf(bs[j], i));
        SpansOverlap(ColumnOf(bs[j], i), chunk);
      }
    }
  }

  /** The chunks not left open are apart, pair by pair. */
  predicate SettledApart(automatic: bool, bs: seq<Batch>, i: nat) {
    forall k :: 0 <= k < |bs| && !LeavesOpen(automatic, ColumnOf(bs[k], i), LookOf(bs[k], i)) ==>
      ClearOf(automatic, bs[..k], i, ColumnOf(bs[k], i))
  }

  lemma SettledApartStep(automatic: bool, before: seq<Batch>, b: Batch, i: nat)
    ensures var chunk, look := ColumnOf(b, i), LookOf(b, i);
      SettledApart(automatic, before + [b], i) <==>
      SettledApart(automatic, before, i) && (LeavesOpen(automatic, chunk, look) || ClearOf(automatic, before, i, chunk))
  {
    hide LeavesOpen, ClearOf;
    var bs := before + [b];
    assert forall k :: 0 <= k < |before| ==> bs[k] == before[k] && bs[..k] == before[..k];
    assert bs[|before|] == b && bs[..|before|] == before;
  }

  lemma PairwiseDisjointStep(rs: seq<Range>, r: Range)
    ensures PairwiseDisjoint(rs + [r]) <==> PairwiseDisjoint(rs) && RangeClear(rs, r)
  {
    var more := rs + [r];
    assert forall k :: 0 <= k < |rs| ==> more[k] == rs[k];
    if PairwiseDisjoint(more) {
      forall x | x in rs ensures !Overlap(x, r) {
        var k :| 0 <= k < |rs| && rs[k] == x;
        assert !Overlap(more[k], more[|rs|]);
      }
    }
  }

  lemma {:induction false} SpansApartIff(automatic: bool, bs: seq<Batch>, i: nat)
    ensures PairwiseDisjoint(Spans(automatic, bs, i)) <==> SettledApart(automatic, bs, i)
    decreases |bs|
  {
    if bs != [] {
      var before, b := bs[..|bs| - 1], bs[|bs| - 1];
      var chunk := ColumnOf(b, i);
      assert bs == before + [b];
      SpansApartIff(automatic, before, i);
      SettledApartStep(automatic, before, b, i);
      hide SettledApart, PairwiseDisjoint, ClearOf, Min, Max;
      if chunk.values == [] {
        EmptyIsClear(automatic, before, i, chunk);
        assert Spans(automatic, bs, i) == Spans(automatic, before, i);
      } else if LeavesOpen(automatic, chunk, LookOf(b, i)) {
        assert Spans(automatic, bs, i) == Spans(automatic, before, i);
      } else {
        RangeClearIff(automatic, before, i, chunk);
        PairwiseDisjointStep(Spans(automatic, before, i), Range(Min(chunk.values), Max(chunk.values)));
      }
    }
  }

  lemma EmptyIsClear(automatic: bool, bs: seq<Batch>, i: nat, chunk: ColumnChunk)
    requires chunk.values == []
    ensures ClearOf(automatic, bs, i, chunk)
  {
  }

  /** Where nothing is left open, all chunks are apart. */
  lemma AllSettledApart(automatic: bool, bs: seq<Batch>, i: nat)
    requires NoneOpen(automatic, bs, i)
    ensures SettledApart(automatic, bs, i) <==> PairwiseApart(bs, i)
  {
    hide LeavesOpen, SpansApart;
    if PairwiseApart(bs, i) {
      forall k | 0 <= k < |bs| ensures ClearOf(automatic, bs[..k], i, ColumnOf(bs[k], i)) {}
    }
    if SettledApart(automatic, bs, i) {
      forall j, k | 0 <= j < k < |bs| ensures SpansApart(ColumnOf(bs[j], i), ColumnOf(bs[k], i)) {
        assert ClearOf(automatic, bs[..k], i, ColumnOf(bs[k], i));
        assert bs[..k][j] == bs[j];
      }
    }
  }

  // ------------------------------------------------------------- one chunk and the probe

  /** When the chunk, seen by a probe without its exact stage, has to be given up. */
  predicate CannotWait(c: ProbeColumn, chunk: ColumnChunk, look: Look) {
    && c.automatic && !c.exactAvailable && chunk.values != []
    && (!look.readable || !RangeClear(c.ranges, Range(Min(chunk.values), Max(chunk.values))))
  }

  lemma OverlapsIsUnclear(c: ProbeColumn, r: Range)
    ensures OverlapsEarlier(c, r) <==> !RangeClear(c.ranges, r)
  {
    if !RangeClear(c.ranges, r) {
      var x :| x in c.ranges && Overlap(x, r);
      var k :| 0 <= k < |c.ranges| && c.ranges[k] == x;
    }
  }

  /** One look at a chunk: who stays a candidate, what is left open, and which range is noted. */
  lemma ObserveFully(c: ProbeColumn, chunk: ColumnChunk, look: Look)
    requires SortsTo(chunk.values, look.sorted)
    ensures var r := ObserveColumn(c, chunk, look);
      && (r.candidate <==> c.candidate && Passes(c.automatic, chunk, look) && !CannotWait(c, chunk, look))
      && r.observed == c.observed && r.automatic == c.automatic && r.exactAvailable == c.exactAvailable
      && (r.candidate ==>
            && (r.undecidable <==> c.undecidable || LeavesOpen(c.automatic, chunk, look))
            && r.ranges == c.ranges + SpanOf(c.automatic, chunk, look))
  {
    var sorted := if Ascending(chunk.values) then chunk.values else look.sorted;
    assert |multiset(look.sorted)| == |multiset(chunk.values)|;
    RunsOfSorted(sorted);
    SortKeepsNoDup(chunk.values, look.sorted);
    hide Runs, NoDup, Ascending, Min, Max, SortsTo;
    if chunk.values != [] { OverlapsIsUnclear(c, Range(Min(chunk.values), Max(chunk.values))); }
    hide OverlapsEarlier, RangeClear;
    assert c.ranges + [] == c.ranges;
  }

  // ------------------------------------------------- when the exact stage is available

  /** The probe knows a column's exact stage to be there exactly while the ledger keeps it. */
  predicate Marked(l: Ledger) {
    Shaped(l, |l.bytes|) &&
    forall k :: 0 <= k < |l.bytes| ==> (l.probe[k].exactAvailable <==> l.retaining && l.declined[k].None?)
  }

  /** From `l` to `r` only the availability of exact stages changed, in step with the ledger. */
  predicate InStep(l: Ledger, r: Ledger) {
    Marked(r) && SameProof(l.probe, r.probe)
  }

  lemma InStepTwice(l: Ledger, m: Ledger, r: Ledger)
    requires InStep(l, m) && InStep(m, r)
    ensures InStep(l, r)
  {
    forall k | 0 <= k < |l.probe|
      ensures l.probe[k].(exactAvailable := true) == r.probe[k].(exactAvailable := true)
    {
      assert l.probe[k].(exactAvailable := true) == m.probe[k].(exactAvailable := true);
    }
  }

  lemma DeclineInStep(l: Ledger, i: nat, why: Why)
    requires Marked(l) && i < |l.bytes|
    ensures InStep(l, Decline(l, i, why))
  {
  }

  lemma {:induction false} MakeRoomInStep(l: Ledger, cap: nat, i: nat, later: nat, need: nat)
    requires Marked(l) && i < |l.bytes| && later <= |l.bytes|
    ensures InStep(l, MakeRoom(l, cap, i, later, need))
    decreases later
  {
    if later > i + 1 && l.total + need > cap {
      if l.bytes[later - 1] > 0 {
        var m := Decline(l, later - 1, Evicted);
        DeclineInStep(l, later - 1, Evicted);
        MakeRoomInStep(m, cap, i, later - 1, need);
        InStepTwice(l, m, MakeRoom(m, cap, i, later - 1, need));
      } else {
        MakeRoomInStep(l, cap, i, later - 1, need);
      }
    }
  }

  lemma RetainColumnInStep(l: Ledger, cap: nat, i: nat, b: Batch)
    requires Marked(l) && Shaped(l, |b.columns|) && i < |b.columns| && |b.fates| == |b.columns|
    ensures InStep(l, RetainColumn(l, cap, i, b))
  {
    if l.probe[i].candidate && l.declined[i].None? {
      var room := MakeRoom(l, cap, i, |l.bytes|, b.columns[i].bytes);
      MakeRoomInStep(l, cap, i, |l.bytes|, b.columns[i].bytes);
      forall why: Why ensures InStep(l, Decline(room, i, why)) {
        DeclineInStep(room, i, why);
        InStepTwice(l, room, Decline(room, i, why));
      }
      hide HasHeadroom, BatchBytes, MakeRoom, Decline;
    }
  }

  lemma {:induction false} RetainFromInStep(l: Ledger, cap: nat, i: nat, b: Batch)
    requires Marked(l) && Shaped(l, |b.columns|) && i <= |b.columns| && |b.fates| == |b.columns|
    ensures InStep(l, RetainFrom(l, cap, i, b))
    decreases |b.columns| - i
  {
    if i < |b.columns| {
      RetainColumnInStep(l, cap, i, b);
      var m := RetainColumn(l, cap, i, b);
      hide RetainColumn;
      RetainFromInStep(m, cap, i + 1, b);
      InStepTwice(l, m, RetainFrom(m, cap, i + 1, b));
    }
  }

  lemma {:induction false} ClearFromUnmarks(l: Ledger, i: nat)
    requires Shaped(l, |l.bytes|) && i <= |l.bytes| && !l.retaining
    requires forall k :: 0 <= k < i ==> !l.probe[k].exactAvailable
    ensures InStep(l, ClearFrom(l, i)) && !ClearFrom(l, i).retaining
    decreases |l.bytes| - i
  {
    if i < |l.bytes| {
      var c := Release(l, i);
      var m := c.(probe := c.probe[i := ExactUnavailable(c.probe[i])]);
      ClearFromUnmarks(m, i + 1);
      var r := ClearFrom(m, i + 1);
      forall k | 0 <= k < |l.probe|
        ensures l.probe[k].(exactAvailable := true) == r.probe[k].(exactAvailable := true)
      {
        assert m.probe[k].(exactAvailable := true) == r.probe[k].(exactAvailable := true);
      }
    }
  }

  lemma AbandonInStep(l: Ledger)
    requires Marked(l)
    ensures InStep(l, Abandon(l)) && !Abandon(l).retaining
  {
    if l.retaining { ClearFromUnmarks(l.(retaining := false), 0); }
  }

  lemma ObserveAllAt(l: Ledger, b: Batch, k: nat)
    requires Shaped(l, |l.bytes|) && ValidBatch(b) && k < |l.bytes|
    ensures ObserveAll(l.probe, b)[k] ==
      if |b.columns| == |l.bytes| then ObserveColumn(l.probe[k], ColumnOf(b, k), LookOf(b, k)) else Drop(l.probe[k])
  {
    hide ObserveColumn, SortsTo;
  }

  lemma ObservedIsMarked(l: Ledger, b: Batch)
    requires Marked(l) && ValidBatch(b)
    ensures Marked(l.(probe := ObserveAll(l.probe, b)))
  {
    var m := l.(probe := ObserveAll(l.probe, b));
    forall k | 0 <= k < |l.bytes| ensures m.probe[k].exactAvailable == l.probe[k].exactAvailable {
      ObserveAllAt(l, b, k);
      ObserveKeepsMark(l.probe[k], ColumnOf(b, k), LookOf(b, k));
    }
    hide ObserveAll;
  }

  lemma ObserveKeepsMark(c: ProbeColumn, chunk: ColumnChunk, look: Look)
    ensures ObserveColumn(c, chunk, look).exactAvailable == c.exactAvailable == Drop(c).exactAvailable
  {
    hide Runs, Min, Max, Ascending;
  }

  lemma RetainBatchInStep(o: Ledger, cap: nat, b: Batch)
    requires Marked(o) && ValidBatch(b)
    ensures InStep(o, RetainBatch(o, cap, b))
  {
    RetainBatchCases(o, cap, b);
    AbandonInStep(o);
    var m := o.(gpu := Some(b.device), rows := o.rows + b.rows);
    hide RetainBatch, SortsTo;
    if RetainBatch(o, cap, b) != Abandon(o) { RetainFromInStep(m, cap, 0, b); }
  }

  /** The ledger a batch finds when the probe looks at it. */
  function Decoded(l: Ledger, b: Batch): (m: Ledger)
    requires Shaped(l, |l.bytes|)
    ensures Shaped(m, |l.bytes|)
  {
    if b.decode.OnRetry? then Abandon(l) else l
  }

  /** One batch: up to the availability of exact stages, the probe is as looking at the batch leaves it. */
  lemma HandleBatchInStep(l: Ledger, cap: nat, b: Batch)
    requires Marked(l) && ValidBatch(b) && HandleBatch(l, cap, b).Some?
    ensures var d := Decoded(l, b);
      && InStep(l, d) && (d.retaining <==> l.retaining && !b.decode.OnRetry?)
      && InStep(d.(probe := ObserveAll(d.probe, b)), HandleBatch(l, cap, b).value)
  {
    AbandonInStep(l);
    var d := Decoded(l, b);
    ObservedIsMarked(d, b);
    RetainBatchInStep(d.(probe := ObserveAll(d.probe, b)), cap, b);
  }

  lemma InitialIsMarked(selected: seq<bool>, automatic: seq<bool>)
    requires Selects(selected)
    ensures Marked(Initial(selected, automatic))
  {
  }

  /** Over every run the probe and the ledger agree on which exact stages are left. */
  lemma {:induction false} RunIsMarked(selected: seq<bool>, automatic: seq<bool>, cap: nat, bs: seq<Batch>)
    requires forall k :: 0 <= k < |bs| ==> ValidBatch(bs[k])
    requires Selects(selected) && Run(selected, automatic, cap, bs).Some?
    ensures Marked(Run(selected, automatic, cap, bs).value)
    decreases |bs|
  {
    hide ValidBatch, HandleBatch, Selects, Marked;
    if bs == [] {
      InitialIsMarked(selected, automatic);
    } else {
      var before, b := bs[..|bs| - 1], bs[|bs| - 1];
      RunIsMarked(selected, automatic, cap, before);
      HandleBatchInStep(Run(selected, automatic, cap, before).value, cap, b);
    }
  }

  // ---------------------------------------------------------- what the probe has found

  /** The probe's column, from the inputs. */
  predicate Found(
    c: ProbeColumn, selected: seq<bool>, automatic: seq<bool>, cap: nat, bs: seq<Batch>, i: nat)
    requires (forall n :: 0 <= n < |bs| ==> ValidBatch(bs[n])) && i < |selected|
  {
    var auto := Automatic(selected, automatic, i);
    && c.observed == selected[i] && c.automatic == auto
    && (c.candidate <==> selected[i] && NeverDropped(selected, automatic, cap, bs, i))
    && (c.candidate ==> (c.undecidable <==> !NoneOpen(auto, bs, i)) && c.ranges == Spans(auto, bs, i))
  }

  lemma NeverDroppedStep(
    selected: seq<bool>, automatic: seq<bool>, cap: nat, before: seq<Batch>, b: Batch, i: nat)
    requires (forall n :: 0 <= n < |before| ==> ValidBatch(before[n])) && ValidBatch(b) && i < |selected|
    requires Run(selected, automatic, cap, before).Some?
    ensures forall n :: 0 <= n < |before + [b]| ==> ValidBatch((before + [b])[n])
    ensures var auto, l := Automatic(selected, automatic, i), Run(selected, automatic, cap, before).value;
      NeverDropped(selected, automatic, cap, before + [b], i) <==>
        && NeverDropped(selected, automatic, cap, before, i)
        && |b.columns| == |selected| && Passes(auto, ColumnOf(b, i), LookOf(b, i))
        && (auto && (!l.retaining || l.declined[i].Some? || b.decode.OnRetry?) ==> MeetsNone(auto, before, i, b))
  {
    hide ValidBatch, Run, Passes, MeetsNone;
    var bs := before + [b];
    assert bs[|before|] == b && bs[..|before|] == before;
    forall k | 0 <= k < |before|
      ensures bs[k] == before[k] && bs[..k] == before[..k]
      ensures ExactLostAt(selected, automatic, cap, bs, i, k) == ExactLostAt(selected, automatic, cap, before, i, k)
    {
    }
    assert ExactLostAt(selected, automatic, cap, bs, i, |before|) <==>
      (var l := Run(selected, automatic, cap, before).value;
       !l.retaining || l.declined[i].Some? || b.decode.OnRetry?);
    hide ExactLostAt;
  }

  lemma NoneOpenStep(automatic: bool, before: seq<Batch>, b: Batch, i: nat)
    ensures NoneOpen(automatic, before + [b], i) <==>
      NoneOpen(automatic, before, i) && !LeavesOpen(automatic, ColumnOf(b, i), LookOf(b, i))
    ensures Spans(automatic, before + [b], i) ==
      Spans(automatic, before, i) + SpanOf(automatic, ColumnOf(b, i), LookOf(b, i))
  {
    hide LeavesOpen;
    var bs := before + [b];
    assert bs[..|bs| - 1] == before && bs[|bs| - 1] == b;
  }

  lemma CannotWaitIff(c: ProbeColumn, before: seq<Batch>, b: Batch, i: nat)
    requires c.ranges == Spans(c.automatic, before, i)
    ensures CannotWait(c, ColumnOf(b, i), LookOf(b, i)) <==>
      c.automatic && !c.exactAvailable && !MeetsNone(c.automatic, before, i, b)
  {
    hide Min, Max, Spans;
    if ColumnOf(b, i).values != [] { RangeClearIff(c.automatic, before, i, ColumnOf(b, i)); }
  }

  /** The probe's column after one more batch of the right width. */
  lemma FoundNext(
    c: ProbeColumn, selected: seq<bool>, automatic: seq<bool>, cap: nat, before: seq<Batch>, b: Batch, i: nat)
    requires (forall n :: 0 <= n < |before| ==> ValidBatch(before[n])) && ValidBatch(b) && i < |selected|
    requires Run(selected, automatic, cap, before).Some? && |b.columns| == |selected|
    requires Found(c, selected, automatic, cap, before, i)
    requires var l := Run(selected, automatic, cap, before).value;
      c.exactAvailable <==> l.retaining && l.declined[i].None? && !b.decode.OnRetry?
    ensures forall n :: 0 <= n < |before + [b]| ==> ValidBatch((before + [b])[n])
    ensures Found(ObserveColumn(c, ColumnOf(b, i), LookOf(b, i)), selected, automatic, cap, before + [b], i)
  {
    var chunk, look := ColumnOf(b, i), LookOf(b, i);
    assert SortsTo(chunk.values, look.sorted);
    ObserveFully(c, chunk, look);
    NeverDroppedStep(selected, automatic, cap, before, b, i);
    NoneOpenStep(c.automatic, before, b, i);
    hide NeverDropped, NoneOpen, LeavesOpen, Passes, Run, ValidBatch, ObserveColumn, CannotWait, MeetsNone, Spans;
    if c.candidate { CannotWaitIff(c, before, b, i); }
  }

  /** A batch of another width drops every column. */
  lemma FoundDropped(
    c: ProbeColumn, selected: seq<bool>, automatic: seq<bool>, cap: nat, before: seq<Batch>, b: Batch, i: nat)
    requires (forall n :: 0 <= n < |before| ==> ValidBatch(before[n])) && ValidBatch(b) && i < |selected|
    requires Run(selected, automatic, cap, before).Some? && |b.columns| != |selected|
    requires Found(c, selected, automatic, cap, before, i)
    ensures forall n :: 0 <= n < |before + [b]| ==> ValidBatch((before + [b])[n])
    ensures Found(Drop(c), selected, automatic, cap, before + [b], i)
  {
    NeverDroppedStep(selected, automatic, cap, before, b, i);
    hide NeverDropped, NoneOpen, LeavesOpen, Passes, Run, ValidBatch, MeetsNone, Spans;
  }

  lemma FoundIgnoresMark(
    c: ProbeColumn, d: ProbeColumn, selected: seq<bool>, automatic: seq<bool>, cap: nat, bs: seq<Batch>, i: nat)
    requires (forall n :: 0 <= n < |bs| ==> ValidBatch(bs[n])) && i < |selected|
    requires Found(c, selected, automatic, cap, bs, i) && c.(exactAvailable := true) == d.(exactAvailable := true)
    ensures Found(d, selected, automatic, cap, bs, i)
  {
    hide NeverDropped, NoneOpen, ValidBatch, Spans;
  }

  lemma FoundAtFirst(selected: seq<bool>, automatic: seq<bool>, cap: nat, i: nat)
    requires i < |selected|
    ensures Found(Initial(selected, automatic).probe[i], selected, automatic, cap, [], i)
  {
  }

  lemma FoundStep(selected: seq<bool>, automatic: seq<bool>, cap: nat, before: seq<Batch>, b: Batch, i: nat)
    requires (forall n :: 0 <= n < |before| ==> ValidBatch(before[n])) && ValidBatch(b) && i < |selected|
    requires Run(selected, automatic, cap, before).Some? && Marked(Run(selected, automatic, cap, before).value)
    requires Found(Run(selected, automatic, cap, before).value.probe[i], selected, automatic, cap, before, i)
    requires HandleBatch(Run(selected, automatic, cap, before).value, cap, b).Some?
    ensures forall n :: 0 <= n < |before + [b]| ==> ValidBatch((before + [b])[n])
    ensures Found(HandleBatch(Run(selected, automatic, cap, before).value, cap, b).value.probe[i],
                  selected, automatic, cap, before + [b], i)
  {
    var l := Run(selected, automatic, cap, before).value;
    var d := Decoded(l, b);
    HandleBatchInStep(l, cap, b);
    AbandonKeepsDeclined(l);
    ObserveAllAt(d, b, i);
    var r := HandleBatch(l, cap, b).value;
    hide Found, ValidBatch, Run, HandleBatch, ObserveAll, ObserveColumn;
    FoundIgnoresMark(l.probe[i], d.probe[i], selected, automatic, cap, before, i);
    if |b.columns| == |selected| {
      FoundNext(d.probe[i], selected, automatic, cap, before, b, i);
    } else {
      FoundDropped(d.probe[i], selected, automatic, cap, before, b, i);
    }
    FoundIgnoresMark(ObserveAll(d.probe, b)[i], r.probe[i], selected, automatic, cap, before + [b], i);
  }

  lemma AbandonKeepsDeclined(l: Ledger)
    requires Shaped(l, |l.bytes|)
    ensures Abandon(l).declined == l.declined
  {
    if l.retaining { ClearKeepsDeclined(l.(retaining := false), 0); }
  }

  lemma {:induction false} ClearKeepsDeclined(l: Ledger, i: nat)
    requires Shaped(l, |l.bytes|) && i <= |l.bytes|
    ensures ClearFrom(l, i).declined == l.declined
    decreases |l.bytes| - i
  {
    if i < |l.bytes| {
      var c := Release(l, i);
      ClearKeepsDeclined(c.(probe := c.probe[i := ExactUnavailable(c.probe[i])]), i + 1);
    }
  }

  /** Over every run the probe's state of a selected column is the one its inputs call for. */
  lemma {:induction false} RunFinds(selected: seq<bool>, automatic: seq<bool>, cap: nat, bs: seq<Batch>, i: nat)
    requires forall k :: 0 <= k < |bs| ==> ValidBatch(bs[k])
    requires i < |selected| && Selects(selected) && Run(selected, automatic, cap, bs).Some?
    ensures Found(Run(selected, automatic, cap, bs).value.probe[i], selected, automatic, cap, bs, i)
    decreases |bs|
  {
    hide ValidBatch, HandleBatch, Selects, Marked, Found;
    if bs == [] {
      FoundAtFirst(selected, automatic, cap, i);
    } else {
      var before, b := bs[..|bs| - 1], bs[|bs| - 1];
      assert before + [b] == bs;
      RunFinds(selected, automatic, cap, before, i);
      RunIsMarked(selected, automatic, cap, before);
      FoundStep(selected, automatic, cap, before, b, i);
    }
  }

  // -------------------------------------------------------------------- the verdicts

  /** Proven by the cheap stage exactly when the chunks settle it. */
  lemma CheapVerdict(selected: seq<bool>, automatic: seq<bool>, cap: nat, bs: seq<Batch>, i: nat)
    requires forall k :: 0 <= k < |bs| ==> ValidBatch(bs[k])
    requires i < |selected| && Selects(selected) && Run(selected, automatic, cap, bs).Some?
    ensures VerdictOf(Run(selected, automatic, cap, bs).value.probe[i]) ==
      if !selected[i] then NotObserved
      else if !NeverDropped(selected, automatic, cap, bs, i) then Refused
      else if ClearlyDistinct(selected, automatic, bs, i) then Proven
      else Undecided
  {
    RunFinds(selected, automatic, cap, bs, i);
    var c, auto := Run(selected, automatic, cap, bs).value.probe[i], Automatic(selected, automatic, i);
    hide ValidBatch, Run;
    SpansAreProper(auto, bs, i);
    NeighboursDecide(Spans(auto, bs, i));
    SpansApartIff(auto, bs, i);
    if NoneOpen(auto, bs, i) { AllSettledApart(auto, bs, i); }
    hide NoneOpen, PairwiseApart, SettledApart, AllPassWide, NeighboursDisjoint, PairwiseDisjoint, Spans;
  }

  /** The device can count the values of the whole column. */
  predicate Countable(chunks: seq<ColumnChunk>, look: ExactLook) {
    && !look.throws && look.comparable && 0 < |Concat(Values(chunks))| <= 0x7fff_ffff
    && forall k :: 0 <= k < |chunks| ==> !chunks[k].nulls
  }

  /**
    The verdict on column `i` of a pin: a column not selected is not observed, one the probe drops is
    refused, one its chunks settle is proven; one left open whose exact check was kept is proven or
    refused by whether a value repeats anywhere in the table; and all others stay undecided.
   */
  ghost function TableVerdict(
    selected: seq<bool>, automatic: seq<bool>, cap: nat, bs: seq<Batch>, i: nat, look: ExactLook): Verdict
    requires (forall n :: 0 <= n < |bs| ==> ValidBatch(bs[n])) && i < |selected|
  {
    if !selected[i] then NotObserved
    else if !NeverDropped(selected, automatic, cap, bs, i) then Refused
    else if ClearlyDistinct(selected, automatic, bs, i) then Proven
    else if Kept(Run(selected, automatic, cap, bs), i) && Countable(Column(bs, i), look) then
      if NoDup(Concat(Values(Column(bs, i)))) then Proven else Refused
    else Undecided
  }

  lemma CountableDecides(chunks: seq<ColumnChunk>, look: ExactLook)
    requires SortsTo(Concat(Values(chunks)), look.sorted)
    ensures ExactDistinct(chunks, look).Some? && !look.throws <==> Countable(chunks, look)
    ensures Countable(chunks, look) ==> chunks != []
    ensures Countable(chunks, look) ==> (ExactDistinct(chunks, look).value <==> NoDup(Concat(Values(chunks))))
  {
    if Countable(chunks, look) { ExactCountDecides(chunks, look); }
    hide NoDup, SortsTo, Runs;
  }

  /** The exact stage settles what the cheap one left open, where it can. */
  lemma ExactVerdict(l: Ledger, bs: seq<Batch>, i: nat, look: ExactLook)
    requires Shaped(l, |l.bytes|) && i < |l.bytes| && Whole(l, bs, i)
    requires SortsTo(Concat(Values(Column(bs, i))), look.sorted)
    ensures FinalVerdict(l, i, look) ==
      if VerdictOf(l.probe[i]) == Undecided && Kept(Some(l), i) && Countable(Column(bs, i), look) then
        (if NoDup(Concat(Values(Column(bs, i)))) then Proven else Refused)
      else VerdictOf(l.probe[i])
  {
    CountableDecides(Column(bs, i), look);
    hide Countable, ExactDistinct, NoDup, SortsTo;
  }

  /** Over every run the final verdict on a column is the table's. */
  lemma VerdictIsTheTables(
    selected: seq<bool>, automatic: seq<bool>, cap: nat, bs: seq<Batch>, i: nat, look: ExactLook)
    requires forall k :: 0 <= k < |bs| ==> ValidBatch(bs[k])
    requires i < |selected| && Selects(selected) && Run(selected, automatic, cap, bs).Some?
    requires SortsTo(Concat(Values(Column(bs, i))), look.sorted)
    ensures FinalVerdict(Run(selected, automatic, cap, bs).value, i, look) ==
            TableVerdict(selected, automatic, cap, bs, i, look)
  {
    CheapVerdict(selected, automatic, cap, bs, i);
    RunKeepsInv(selected, automatic, cap, bs);
    var l := Run(selected, automatic, cap, bs).value;
    assert Some(l) == Run(selected, automatic, cap, bs);
    hide ValidBatch, Run, Books, ProbeOk, NeverDropped, ClearlyDistinct, NoDup, VerdictOf, SortsTo;
    assert Whole(l, bs, i);
    hide Whole, FinalVerdict, Countable, Kept;
    ExactVerdict(l, bs, i, look);
  }

  lemma KeptIsNeverDropped(selected: seq<bool>, automatic: seq<bool>, cap: nat, bs: seq<Batch>, i: nat)
    requires forall k :: 0 <= k < |bs| ==> ValidBatch(bs[k])
    requires i < |selected| && Selects(selected) && Kept(Run(selected, automatic, cap, bs), i)
    ensures selected[i] && NeverDropped(selected, automatic, cap, bs, i)
    ensures Run(selected, automatic, cap, bs).value.chunks[i] == Column(bs, i)
  {
    RunFinds(selected, automatic, cap, bs, i);
    RunKeepsInv(selected, automatic, cap, bs);
    hide ValidBatch, Run, Books, ProbeOk, NeverDropped;
    assert Whole(Run(selected, automatic, cap, bs).value, bs, i);
  }

  /**
    A column that fits in the cap with the selected ones before it, in a pin nothing makes give up, with
    chunks that pass and copies that are not refused, is decided: proven when no value repeats in the
    whole table, refused when one does.
   */
  lemma FittingColumnsAreDecided(
    selected: seq<bool>, automatic: seq<bool>, cap: nat, bs: seq<Batch>, i: nat, look: ExactLook)
    requires forall k :: 0 <= k < |bs| ==> ValidBatch(bs[k])
    requires i < |selected| && Steady(selected, bs) && Sound(selected, automatic, bs, i)
    requires Due(selected, bs, i + 1) <= cap && Countable(Column(bs, i), look)
    requires SortsTo(Concat(Values(Column(bs, i))), look.sorted)
    ensures TableVerdict(selected, automatic, cap, bs, i, look) ==
            if NoDup(Concat(Values(Column(bs, i)))) then Proven else Refused
  {
    assert Selects(selected);
    FittingColumnKeptIff(selected, automatic, cap, bs, i);
    hide ValidBatch, Run, Steady, Sound, Due, Countable, NoDup, SortsTo;
    KeptIsNeverDropped(selected, automatic, cap, bs, i);
    hide NeverDropped, ClearlyDistinct;
    VerdictIsTheTables(selected, automatic, cap, bs, i, look);
    VerdictsSpeakForTheTable(selected, automatic, cap, bs, i, look);
  }

  // ------------------------------------------------------------------ pins that fail

  /** Some column holds copies that can be given back. */
  ghost predicate HoldsBytes(selected: seq<bool>, automatic: seq<bool>, cap: nat, bs: seq<Batch>)
    requires forall k :: 0 <= k < |bs| ==> ValidBatch(bs[k])
  {
    exists i :: 0 <= i < |selected| && Kept(Run(selected, automatic, cap, bs), i) && Sum(Sizes(Column(bs, i))) > 0
  }

  /** Batch `k` cannot be decoded: not at all, or not without copies to give back that are not there. */
  ghost predicate FailsAt(selected: seq<bool>, automatic: seq<bool>, cap: nat, bs: seq<Batch>, k: nat)
    requires (forall n :: 0 <= n < |bs| ==> ValidBatch(bs[n])) && k < |bs|
  {
    || bs[k].decode.Never?
    || (bs[k].decode.OnRetry? && !HoldsBytes(selected, automatic, cap, bs[..k]))
  }

  lemma {:induction false} SumIsZero(s: seq<nat>)
    ensures Sum(s) == 0 <==> forall i :: 0 <= i < |s| ==> s[i] == 0
    decreases |s|
  {
    if s != [] { SumIsZero(s[..|s| - 1]); }
  }

  lemma TotalIsHeld(selected: seq<bool>, automatic: seq<bool>, cap: nat, bs: seq<Batch>)
    requires forall k :: 0 <= k < |bs| ==> ValidBatch(bs[k])
    requires Run(selected, automatic, cap, bs).Some?
    ensures Run(selected, automatic, cap, bs).value.total != 0 <==> HoldsBytes(selected, automatic, cap, bs)
  {
    RunBalances(selected, automatic, cap, bs);
    RunKeepsInv(selected, automatic, cap, bs);
    var run := Run(selected, automatic, cap, bs);
    var l := run.value;
    hide ValidBatch, Run, Books, ProbeOk;
    SumIsZero(l.bytes);
    forall i | 0 <= i < |selected|
      ensures l.bytes[i] == if Kept(run, i) then Sum(Sizes(Column(bs, i))) else 0
    {
      assert Whole(l, bs, i);
      assert Sizes([]) == [];
    }
  }

  /** A pin fails exactly at the first batch that cannot be decoded. */
  lemma {:induction false} RunFailsIff(selected: seq<bool>, automatic: seq<bool>, cap: nat, bs: seq<Batch>)
    requires forall k :: 0 <= k < |bs| ==> ValidBatch(bs[k])
    ensures Run(selected, automatic, cap, bs).None? <==>
      exists k :: 0 <= k < |bs| && FailsAt(selected, automatic, cap, bs, k)
    decreases |bs|
  {
    hide ValidBatch, HoldsBytes;
    if bs != [] {
      var n := |bs| - 1;
      var before := bs[..n];
      RunFailsIff(selected, automatic, cap, before);
      forall k | 0 <= k < n
        ensures FailsAt(selected, automatic, cap, before, k) == FailsAt(selected, automatic, cap, bs, k)
      {
        assert before[k] == bs[k] && before[..k] == bs[..k];
      }
      if Run(selected, automatic, cap, before).Some? { TotalIsHeld(selected, automatic, cap, before); }
      assert FailsAt(selected, automatic, cap, bs, n) <==>
        bs[n].decode.Never? || (bs[n].decode.OnRetry? && !HoldsBytes(selected, automatic, cap, before));
      hide FailsAt, RetainBatch, Abandon, ObserveAll;
    }
  }
}
