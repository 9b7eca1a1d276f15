/**
  The retention ledger of a pin as the fields and loops of the pin driver, against the
  specification on `Ledger` values.
 */
module PinRetention {
  import opened Basics
  import opened UniqueProbe
  import opened ExactRetention
  import opened PinVerdicts
  import opened RetentionOrder

  method TotalBytes(columns: seq<ColumnChunk>) returns (total: nat)
    ensures total == BatchBytes(columns)
  {
    total := 0;
    var c := 0;
    while c < |columns|
      invariant c <= |columns| && total == BatchBytes(columns[..c])
    {
      assert columns[..c + 1][..c] == columns[..c];
      total := total + columns[c].bytes;
      c := c + 1;
    }
    assert columns[..c] == columns;
  }

  lemma {:induction false} FailureIsFinal(selected: seq<bool>, automatic: seq<bool>, cap: nat, bs: seq<Batch>, k: nat)
    requires (forall j :: 0 <= j < |bs| ==> ValidBatch(bs[j])) && k <= |bs|
    requires Run(selected, automatic, cap, bs[..k]).None?
    ensures Run(selected, automatic, cap, bs).None?
    decreases |bs|
  {
    hide ValidBatch;
    if k < |bs| {
      var before := bs[..|bs| - 1];
      assert before[..k] == bs[..k];
      FailureIsFinal(selected, automatic, cap, before, k);
    } else {
      assert bs[..k] == bs;
    }
  }

  lemma ProvenForAll(
    selected: seq<bool>, automatic: seq<bool>, cap: nat, bs: seq<Batch>, i: nat, l: Ledger, look: ExactLook)
    requires forall k :: 0 <= k < |bs| ==> ValidBatch(bs[k])
    requires Run(selected, automatic, cap, bs) == Some(l) && i < |selected|
    requires SortsTo(Concat(Values(Column(bs, i))), look.sorted)
    ensures FinalVerdict(l, i, look) == Proven ==> NoDup(Concat(Values(Column(bs, i))))
  {
    hide ValidBatch, SortsTo, NoDup;
    if l.chunks[i] == [] {
      RunKeepsInv(selected, automatic, cap, bs);
      hide Run, Books;
      if VerdictOf(l.probe[i]) == Proven { ProvenIsDistinct(l.probe[i], Values(Column(bs, i))); }
    } else {
      RunBalances(selected, automatic, cap, bs);
      VerdictsSpeakForTheTable(selected, automatic, cap, bs, i, look);
    }
  }

  class Retention {
    const cap: nat
    var bytes: seq<nat>
    var total: int
    var chunks: seq<seq<ColumnChunk>>
    var reservations: seq<seq<nat>>
    var declined: seq<Option<Why>>
    var retaining: bool
    var rows: nat
    var gpu: Option<int>
    var probe: seq<ProbeColumn>

    function State(): Ledger
      reads this
    {
      Ledger(bytes, total, chunks, reservations, declined, retaining, rows, gpu, probe)
    }

    constructor (selected: seq<bool>, automatic: seq<bool>, cap: nat)
      ensures State() == Initial(selected, automatic) && this.cap == cap
    {
      var n := |selected|;
      this.cap := cap;
      bytes, total := seq(n, _ => 0), 0;
      chunks, reservations, declined := seq(n, _ => []), seq(n, _ => []), seq(n, _ => None);
      retaining := exists i :: 0 <= i < |selected| && selected[i];
      rows, gpu := 0, None;
      probe := seq(n, i requires 0 <= i < n =>
        ProbeColumn(selected[i], selected[i], selected[i] && i < |automatic| && automatic[i], false, true, []));
    }

    method ReleaseColumn(i: nat)
      requires Shaped(State(), |bytes|) && i < |bytes|
      modifies this
      ensures State() == Release(old(State()), i)
    {
      total := total - bytes[i];
      bytes := bytes[i := 0];
      chunks := chunks[i := []];
      reservations := reservations[i := []];
    }

    method DeclineColumn(i: nat, why: Why)
      requires Shaped(State(), |bytes|) && i < |bytes|
      modifies this
      ensures State() == Decline(old(State()), i, why)
    {
      declined := declined[i := Some(why)];
      ReleaseColumn(i);
      probe := probe[i := ExactUnavailable(probe[i])];
    }

    method AbandonExact()
      requires Shaped(State(), |bytes|)
      modifies this
      ensures State() == Abandon(old(State()))
    {
      if !retaining { return; }
      retaining := false;
      var i := 0;
      while i < |chunks|
        invariant Shaped(State(), |old(bytes)|) && i <= |bytes|
        invariant ClearFrom(State(), i) == Abandon(old(State()))
      {
        ReleaseColumn(i);
        probe := probe[i := ExactUnavailable(probe[i])];
        i := i + 1;
      }
    }

    method EvictFor(i: nat, need: nat)
      requires Shaped(State(), |bytes|) && i < |bytes|
      modifies this
      ensures State() == MakeRoom(old(State()), cap, i, |old(bytes)|, need)
    {
      var later := |bytes|;
      while later > i + 1 && total + need > cap
        invariant Shaped(State(), |old(bytes)|) && i < later <= |bytes|
        invariant MakeRoom(State(), cap, i, later, need) == MakeRoom(old(State()), cap, i, |old(bytes)|, need)
      {
        later := later - 1;
        if bytes[later] > 0 { DeclineColumn(later, Evicted); }
      }
    }

    method RetainOne(i: nat, b: Batch, batchBytes: nat)
      requires Shaped(State(), |b.columns|) && i < |b.columns| && |b.fates| == |b.columns|
      requires batchBytes == BatchBytes(b.columns)
      modifies this
      ensures State() == RetainColumn(old(State()), cap, i, b)
    {
      if !probe[i].candidate || declined[i].Some? {
        ReleaseColumn(i);
        return;
      }
      var chunk, fate := b.columns[i], b.fates[i];
      EvictFor(i, chunk.bytes);
      if total + chunk.bytes > cap {
        DeclineColumn(i, OverCap);
      } else if !HasHeadroom(fate.available, chunk.bytes, batchBytes) {
        DeclineColumn(i, NoHeadroom);
      } else if !fate.granted {
        DeclineColumn(i, NoReservation);
      } else if !fate.copied {
        DeclineColumn(i, CopyFailed);
      } else {
        chunks := chunks[i := chunks[i] + [chunk]];
        reservations := reservations[i := reservations[i] + [chunk.bytes]];
        bytes := bytes[i := bytes[i] + chunk.bytes];
        total := total + chunk.bytes;
      }
    }

    method Retain(b: Batch)
      requires Shaped(State(), |bytes|) && |b.fates| == |b.columns|
      modifies this
      ensures State() == RetainBatch(old(State()), cap, b)
    {
      if !retaining { return; }
      if gpu.Some? && gpu.value != b.device {
        AbandonExact();
      } else if rows + b.rows > MAX_ROWS {
        AbandonExact();
      } else if |b.columns| != |bytes| {
        AbandonExact();
      } else {
        gpu := Some(b.device);
        rows := rows + b.rows;
        ghost var start := State();
        var batchBytes := TotalBytes(b.columns);
        var i := 0;
        while i < |b.columns|
          invariant i <= |b.columns| && Shaped(State(), |b.columns|)
          invariant RetainFrom(State(), cap, i, b) == RetainFrom(start, cap, 0, b)
        {
          RetainOne(i, b, batchBytes);
          i := i + 1;
        }
      }
    }

    method Observe(b: Batch)
      requires |b.looks| == |b.columns|
      modifies this`probe
      ensures probe == ObserveAll(old(probe), b)
    {
      var seen, i := [], 0;
      while i < |probe|
        invariant i <= |probe| && seen == ObserveAll(probe, b)[..i]
        invariant probe == old(probe)
      {
        var c := if |b.columns| != |probe| then Drop(probe[i]) else ObserveColumn(probe[i], b.columns[i], b.looks[i]);
        seen, i := seen + [c], i + 1;
      }
      probe := seen;
    }

    /** False when the batch could not be decoded, so that the pin fails. */
    method HandleOneBatch(b: Batch) returns (ok: bool)
      requires Shaped(State(), |bytes|) && ValidBatch(b)
      modifies this
      ensures ok == HandleBatch(old(State()), cap, b).Some?
      ensures ok ==> State() == HandleBatch(old(State()), cap, b).value
    {
      if b.decode.Never? { return false; }
      if b.decode.OnRetry? {
        if total == 0 { return false; }
        AbandonExact();
      }
      Observe(b);
      Retain(b);
      return true;
    }

    /** Settle what the cheap stage left open, one column at a time, and give everything back. */
    method Finish(looks: seq<ExactLook>) returns (verdicts: seq<Verdict>)
      requires Shaped(State(), |bytes|) && |looks| == |bytes|
      modifies this
      ensures |verdicts| == |looks|
      ensures forall i :: 0 <= i < |looks| ==> verdicts[i] == FinalVerdict(old(State()), i, looks[i])
      ensures forall bs :: Settled(old(State()), cap, bs) ==> Cleared(State())
    {
      verdicts := [];
      var i := 0;
      while i < |probe|
        invariant i <= |probe| == |verdicts| + |probe| - i == |looks|
        invariant Shaped(State(), |looks|) && retaining == old(retaining) && probe == old(probe)
        invariant forall k :: i <= k < |looks| ==> chunks[k] == old(chunks)[k]
        invariant forall k :: 0 <= k < i ==> verdicts[k] == FinalVerdict(old(State()), k, looks[k])
        invariant Books(old(State()), cap) ==> Books(State(), cap)
        invariant forall k :: 0 <= k < |looks| ==> chunks[k] == old(chunks)[k] || chunks[k] == []
      {
        var verdict := VerdictOf(probe[i]);
        if retaining && verdict == Undecided && chunks[i] != [] {
          if !looks[i].throws {
            match ExactDistinct(chunks[i], looks[i]) {
              case None =>
              case Some(unique) => verdict := if unique then Proven else Refused;
            }
          }
          if Books(State(), cap) { ReleaseBooks(State(), cap, i); }
          ReleaseColumn(i);
        }
        verdicts := verdicts + [verdict];
        i := i + 1;
      }
      forall bs | Settled(old(State()), cap, bs) ensures Cleared(Abandon(State())) {
        if !retaining {
          HoldsNothing(old(State()), cap, bs);
        }
        AbandonClears(State(), cap);
      }
      AbandonExact();
    }
  }

  /** Nothing costs column `i` its exact check, judged by the inputs. */
  predicate Fits(selected: seq<bool>, automatic: seq<bool>, cap: nat, bs: seq<Batch>, i: nat) {
    Steady(selected, bs) && Sound(selected, automatic, bs, i) && Due(selected, bs, i + 1) <= cap
  }

  /**
    The verdicts of a whole pin, or nothing when a batch could not be decoded. Whatever copies
    were declined, evicted or abandoned on the way, a proven column repeats no value in the table.
   */
  method ProbeWholePin(selected: seq<bool>, automatic: seq<bool>, cap: nat, bs: seq<Batch>, looks: seq<ExactLook>)
    returns (verdicts: Option<seq<Verdict>>)
    requires |looks| == |selected| && forall k :: 0 <= k < |bs| ==> ValidBatch(bs[k])
    requires forall i :: 0 <= i < |looks| ==> SortsTo(Concat(Values(Column(bs, i))), looks[i].sorted)
    ensures verdicts.Some? <==> Run(selected, automatic, cap, bs).Some?
    ensures verdicts == None <==> exists k :: 0 <= k < |bs| && FailsAt(selected, automatic, cap, bs, k)
    ensures verdicts.Some? ==> |verdicts.value| == if Selects(selected) then |selected| else 0
    ensures verdicts.Some? ==> forall i :: 0 <= i < |verdicts.value| ==>
      && verdicts.value[i] == TableVerdict(selected, automatic, cap, bs, i, looks[i])
      && (verdicts.value[i] == Proven ==> NoDup(Concat(Values(Column(bs, i)))))
    ensures verdicts.Some? ==> forall i :: 0 <= i < |verdicts.value| && Fits(selected, automatic, cap, bs, i) ==>
      Countable(Column(bs, i), looks[i]) ==>
        verdicts.value[i] == if NoDup(Concat(Values(Column(bs, i)))) then Proven else Refused
  {
    RunFailsIff(selected, automatic, cap, bs);
    hide FailsAt;
    var ledger := new Retention(selected, automatic, cap);
    var k := 0;
    assert bs[..0] == [];
    while k < |bs|
      invariant k <= |bs| && Shaped(ledger.State(), |selected|) && ledger.cap == cap
      invariant Run(selected, automatic, cap, bs[..k]) == Some(ledger.State())
    {
      assert bs[..k + 1][..k] == bs[..k];
      var ok := ledger.HandleOneBatch(bs[k]);
      if !ok {
        FailureIsFinal(selected, automatic, cap, bs, k + 1);
        return None;
      }
      k := k + 1;
    }
    assert bs[..k] == bs;
    if !(exists i :: 0 <= i < |selected| && selected[i]) { return Some([]); }
    ghost var l := ledger.State();
    var found := ledger.Finish(looks);
    forall i | 0 <= i < |found|
      ensures found[i] == TableVerdict(selected, automatic, cap, bs, i, looks[i])
      ensures found[i] == Proven ==> NoDup(Concat(Values(Column(bs, i))))
    {
      ProvenForAll(selected, automatic, cap, bs, i, l, looks[i]);
      VerdictIsTheTables(selected, automatic, cap, bs, i, looks[i]);
    }
    forall i | 0 <= i < |found| && Fits(selected, automatic, cap, bs, i) && Countable(Column(bs, i), looks[i])
      ensures found[i] == if NoDup(Concat(Values(Column(bs, i)))) then Proven else Refused
    {
      FittingColumnsAreDecided(selected, automatic, cap, bs, i, looks[i]);
    }
    return Some(found);
  }
}
