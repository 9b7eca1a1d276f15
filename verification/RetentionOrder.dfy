/**
  Which columns of a pin keep their exact check, from the inputs alone: the selection, the batches with
  what the device and the memory space answer about them, and the byte cap. Where the cap leaves no
  room for doubt this does not depend on the order of the batches; elsewhere it may.
 */
module RetentionOrder {
  import opened Basics
  import opened UniqueProbe
  import opened ExactRetention

  // ------------------------------------------------------- conditions on the inputs

  /** The memory space refuses no copy of column `k`: beside it there is room for the batch twice over. */
  predicate Obliged(b: Batch, k: nat) {
    && k < |b.columns| && k < |b.fates| && b.fates[k].granted && b.fates[k].copied
    && b.fates[k].available >= b.columns[k].bytes + 2 * Sum(Sizes(b.columns))
  }

  lemma {:induction false} BatchBytesAreSum(columns: seq<ColumnChunk>)
    ensures BatchBytes(columns) == Sum(Sizes(columns))
    decreases |columns|
  {
    if columns != [] {
      var before := columns[..|columns| - 1];
      BatchBytesAreSum(before);
      assert Sizes(columns)[..|columns| - 1] == Sizes(before);
    }
  }

  lemma HeadroomIs(available: nat, bytes: nat, columns: seq<ColumnChunk>)
    ensures HasHeadroom(available, bytes, BatchBytes(columns)) <==> available >= bytes + 2 * Sum(Sizes(columns))
  {
    BatchBytesAreSum(columns);
  }

  /** The chunk alone gives the probe no reason to drop its column. */
  predicate Passes(automatic: bool, chunk: ColumnChunk, look: Look) {
    chunk.values != [] ==>
      && !chunk.nulls
      && if chunk.integral then !look.throws && Settles(automatic, chunk, look) else !automatic
  }

  /** A sorted chunk repeats no value; nor does an unsorted one that an automatic column has to sort. */
  predicate Settles(automatic: bool, chunk: ColumnChunk, look: Look) {
    if Ascending(chunk.values) then NoDup(chunk.values)
    else automatic ==> look.reserves && NoDup(chunk.values)
  }

  predicate Automatic(selected: seq<bool>, automatic: seq<bool>, k: nat) {
    k < |selected| && selected[k] && k < |automatic| && automatic[k]
  }

  /** Batch `b` leaves column `k` its check, as far as the cap is not concerned. */
  predicate ChunkSound(automatic: bool, b: Batch, k: nat) {
    Obliged(b, k) && k < |b.looks| && Passes(automatic, b.columns[k], b.looks[k])
  }

  /** So does every batch, and the column is selected. */
  predicate Sound(selected: seq<bool>, automatic: seq<bool>, bs: seq<Batch>, k: nat) {
    && k < |selected| && selected[k]
    && forall b | b in bs :: ChunkSound(Automatic(selected, automatic, k), b, k)
  }

  function TotalRows(bs: seq<Batch>): nat {
    if bs == [] then 0 else TotalRows(bs[..|bs| - 1]) + bs[|bs| - 1].rows
  }

  /** Nothing makes the pin give up its exact stage. */
  predicate Steady(selected: seq<bool>, bs: seq<Batch>) {
    && Selects(selected) && TotalRows(bs) <= 0x7fff_ffff
    && (forall b | b in bs :: b.decode.AtOnce? && |b.columns| == |selected|)
    && (forall a, b | a in bs && b in bs :: a.device == b.device)
  }

  /** At the end of the run column `k` still has its check ahead of it. */
  predicate Kept(run: Option<Ledger>, k: nat) {
    && run.Some? && run.value.retaining && k < |run.value.probe| && k < |run.value.declined|
    && run.value.probe[k].candidate && run.value.declined[k].None?
  }

  // ---------------------------------------------------- when the exact stage goes on

  /** What no step of retaining a batch touches. */
  predicate SameCourse(l: Ledger, r: Ledger) {
    r.retaining == l.retaining && r.rows == l.rows && r.gpu == l.gpu
  }

  lemma {:induction false} MakeRoomCourse(l: Ledger, cap: nat, i: nat, later: nat, need: nat)
    requires Shaped(l, |l.bytes|) && i < |l.bytes| && later <= |l.bytes|
    ensures SameCourse(l, MakeRoom(l, cap, i, later, need))
    decreases later
  {
    if later > i + 1 && l.total + need > cap {
      MakeRoomCourse(if l.bytes[later - 1] > 0 then Decline(l, later - 1, Evicted) else l, cap, i, later - 1, need);
    }
  }

  lemma {:induction false} RetainFromCourse(l: Ledger, cap: nat, j: nat, b: Batch)
    requires Shaped(l, |b.columns|) && j <= |b.columns| && |b.fates| == |b.columns|
    ensures SameCourse(l, RetainFrom(l, cap, j, b))
    decreases |b.columns| - j
  {
    if j < |b.columns| {
      MakeRoomCourse(l, cap, j, |l.bytes|, b.columns[j].bytes);
      hide MakeRoom, HasHeadroom, BatchBytes;
      RetainFromCourse(RetainColumn(l, cap, j, b), cap, j + 1, b);
    }
  }

  lemma AbandonNeverRetains(l: Ledger)
    requires Shaped(l, |l.bytes|)
    ensures !Abandon(l).retaining
  {
    if l.retaining { ClearStops(l.(retaining := false), 0); }
  }

  lemma {:induction false} ClearStops(l: Ledger, i: nat)
    requires Shaped(l, |l.bytes|) && i <= |l.bytes|
    ensures ClearFrom(l, i).retaining == l.retaining
    decreases |l.bytes| - i
  {
    if i < |l.bytes| {
      var c := Release(l, i);
      ClearStops(c.(probe := c.probe[i := ExactUnavailable(c.probe[i])]), i + 1);
    }
  }

  /** The batch fits the course the pin is on. */
  predicate Joins(l: Ledger, b: Batch) {
    && l.retaining && b.decode.AtOnce? && (l.gpu.Some? ==> l.gpu.value == b.device)
    && l.rows + b.rows <= MAX_ROWS && |b.columns| == |l.bytes|
  }

  lemma RetainBatchCourse(o: Ledger, cap: nat, b: Batch)
    requires Shaped(o, |o.bytes|) && ValidBatch(b) && b.decode.AtOnce?
    ensures var r := RetainBatch(o, cap, b);
      && (r.retaining <==> Joins(o, b))
      && (Joins(o, b) ==>
            && SameCourse(o.(gpu := Some(b.device), rows := o.rows + b.rows), r)
            && r == RetainFrom(o.(gpu := Some(b.device), rows := o.rows + b.rows), cap, 0, b))
  {
    AbandonNeverRetains(o);
    if Joins(o, b) { RetainFromCourse(o.(gpu := Some(b.device), rows := o.rows + b.rows), cap, 0, b); }
  }

  lemma AbandonedStays(o: Ledger, cap: nat, b: Batch)
    requires Shaped(o, |o.bytes|) && ValidBatch(b) && !o.retaining
    ensures RetainBatch(o, cap, b) == o
  {
  }

  /** One batch more, when it keeps the pin on its course. */
  function Taken(l: Ledger, b: Batch): (m: Ledger)
    requires Shaped(l, |l.bytes|) && |b.looks| == |b.columns|
    ensures Shaped(m, |l.bytes|)
  {
    l.(probe := ObserveAll(l.probe, b), gpu := Some(b.device), rows := l.rows + b.rows)
  }

  lemma HandleBatchCourse(l: Ledger, cap: nat, b: Batch)
    requires Shaped(l, |l.bytes|) && ValidBatch(b)
    ensures var r := HandleBatch(l, cap, b);
      && (r.Some? && r.value.retaining <==> Joins(l, b))
      && (Joins(l, b) ==> SameCourse(Taken(l, b), r.value) && r.value == RetainFrom(Taken(l, b), cap, 0, b))
  {
    hide RetainBatch, RetainFrom, ObserveAll, SortsTo;
    if b.decode.AtOnce? {
      RetainBatchCourse(l.(probe := ObserveAll(l.probe, b)), cap, b);
    } else if b.decode.OnRetry? {
      AbandonNeverRetains(l);
      var a := Abandon(l);
      AbandonedStays(a.(probe := ObserveAll(a.probe, b)), cap, b);
    }
  }

  /** Where the course has come to after the batches. */
  predicate OnCourse(l: Ledger, bs: seq<Batch>) {
    l.rows == TotalRows(bs) && l.gpu == if bs == [] then None else Some(bs[|bs| - 1].device)
  }

  lemma SteadyStep(selected: seq<bool>, before: seq<Batch>, b: Batch, l: Ledger)
    requires OnCourse(l, before) && l.retaining && |l.bytes| == |selected| && Steady(selected, before)
    ensures Steady(selected, before + [b]) <==> Joins(l, b)
  {
    var bs := before + [b];
    assert bs[..|bs| - 1] == before;
    assert forall c :: c in bs <==> c in before || c == b;
    if before != [] { assert before[|before| - 1] in before; }
  }

  lemma SteadyBefore(selected: seq<bool>, bs: seq<Batch>)
    requires bs != [] && Steady(selected, bs)
    ensures Steady(selected, bs[..|bs| - 1])
  {
  }

  /** A pin still has its exact stage at the end exactly when nothing in its inputs makes it give up. */
  lemma {:induction false} RetainingIffSteady(
    selected: seq<bool>, automatic: seq<bool>, cap: nat, bs: seq<Batch>)
    requires forall k :: 0 <= k < |bs| ==> ValidBatch(bs[k])
    ensures var r := Run(selected, automatic, cap, bs);
      && (r.Some? && r.value.retaining <==> Steady(selected, bs))
      && (Steady(selected, bs) ==> OnCourse(r.value, bs))
    decreases |bs|
  {
    hide ValidBatch, HandleBatch, Joins, Steady;
    if bs == [] {
      NoBatchIsSteady(selected);
    } else {
      var before, b := bs[..|bs| - 1], bs[|bs| - 1];
      assert before + [b] == bs;
      RetainingIffSteady(selected, automatic, cap, before);
      var r := Run(selected, automatic, cap, before);
      if r.Some? { HandleBatchCourse(r.value, cap, b); }
      if Steady(selected, before) {
        SteadyStep(selected, before, b, r.value);
      } else {
        if Steady(selected, bs) { SteadyBefore(selected, bs); }
        if r.Some? && Joins(r.value, b) { JoinsRetains(r.value, b); }
      }
    }
  }

  lemma NoBatchIsSteady(selected: seq<bool>)
    ensures Steady(selected, []) <==> Selects(selected)
  {
  }

  lemma JoinsRetains(l: Ledger, b: Batch)
    requires Joins(l, b)
    ensures l.retaining
  {
  }

  // ------------------------------------------- what an undeclined column has been through

  /** A column that is not declined now was not declined before, has its probe as it was, and met no refusal. */
  lemma RetainColumnShows(l: Ledger, cap: nat, b: Batch, j: nat, k: nat)
    requires Books(l, cap) && Shaped(l, |b.columns|) && j < |b.columns| && k < |b.columns| && |b.fates| == |b.columns|
    requires RetainColumn(l, cap, j, b).declined[k].None?
    ensures l.declined[k].None? && RetainColumn(l, cap, j, b).probe[k] == l.probe[k]
    ensures k == j && l.probe[j].candidate ==> Obliged(b, j)
  {
    if !l.probe[j].candidate || l.declined[j].Some? { return; }
    HeadroomIs(b.fates[j].available, b.columns[j].bytes, b.columns);
    hide Books, OnlyEvicts, MakeRoom, HasHeadroom, BatchBytes, Sum, Sizes;
    var need := b.columns[j].bytes;
    MakeRoomFrame(l, cap, j, |l.bytes|, need);
    EvictionShows(l, MakeRoom(l, cap, j, |l.bytes|, need), j, k);
  }

  lemma EvictionShows(l: Ledger, r: Ledger, j: nat, k: nat)
    requires Shaped(l, |l.bytes|) && OnlyEvicts(l, r, j, |l.bytes|) && k < |l.bytes|
    ensures Shaped(r, |l.bytes|) && (r.declined[k].None? ==> l.declined[k].None? && r.probe[k] == l.probe[k])
  {
    assert SameColumn(l, r, k) || (j < k && WasEvicted(l, r, k));
  }

  lemma {:induction false} RetainFromShows(l: Ledger, cap: nat, bs: seq<Batch>, b: Batch, j: nat, k: nat)
    requires Partway(l, cap, bs, b, j) && Shaped(l, |b.columns|) && j <= |b.columns| && |b.fates| == |b.columns|
    requires k < |b.columns| && RetainFrom(l, cap, j, b).declined[k].None?
    ensures l.declined[k].None? && RetainFrom(l, cap, j, b).probe[k] == l.probe[k]
    ensures j <= k && l.probe[k].candidate ==> Obliged(b, k)
    decreases |b.columns| - j
  {
    if j < |b.columns| {
      hide ColumnBooks, Whole, Stale, Obliged, RetainColumn;
      var m := RetainColumn(l, cap, j, b);
      RetainColumnStep(l, cap, bs, b, j);
      RetainFromShows(m, cap, bs, b, j + 1, k);
      RetainColumnShows(l, cap, b, j, k);
    }
  }

  lemma TakenIsPartway(l: Ledger, cap: nat, bs: seq<Batch>, b: Batch)
    requires Inv(l, cap, bs) && ValidBatch(b) && l.retaining
    ensures Partway(Taken(l, b), cap, bs, b, 0)
  {
    hide ColumnBooks, SortsTo, ObserveAll, ProbeOk, Whole, Partway;
    ObserveOk(l.probe, bs, b);
    ObservedIsPartway(l, Taken(l, b), cap, bs, b);
  }

  /** After a batch that the pin joined, an undeclined column is as the probe left it. */
  lemma HandleBatchShows(l: Ledger, cap: nat, bs: seq<Batch>, b: Batch, k: nat)
    requires Inv(l, cap, bs) && ValidBatch(b) && Joins(l, b) && k < |l.bytes|
    requires HandleBatch(l, cap, b).Some? && HandleBatch(l, cap, b).value.declined[k].None?
    ensures l.declined[k].None?
    ensures HandleBatch(l, cap, b).value.probe[k] == ObserveColumn(l.probe[k], b.columns[k], b.looks[k])
    ensures HandleBatch(l, cap, b).value.probe[k].candidate ==> Obliged(b, k)
  {
    HandleBatchCourse(l, cap, b);
    TakenIsPartway(l, cap, bs, b);
    hide HandleBatch, ObserveColumn, Obliged, RetainFrom, Partway;
    RetainFromShows(Taken(l, b), cap, bs, b, 0, k);
  }

  /** As long as the exact stage is there for a column, the probe judges each chunk by itself. */
  lemma ObserveDecides(c: ProbeColumn, chunk: ColumnChunk, look: Look)
    requires c.exactAvailable && SortsTo(chunk.values, look.sorted)
    ensures var r := ObserveColumn(c, chunk, look);
      && (r.candidate <==> c.candidate && Passes(c.automatic, chunk, look))
      && r.exactAvailable && r.automatic == c.automatic
  {
    hide Min, Max;
    var sorted := if Ascending(chunk.values) then chunk.values else look.sorted;
    assert |multiset(look.sorted)| == |multiset(chunk.values)|;
    RunsOfSorted(sorted);
    SortKeepsNoDup(chunk.values, look.sorted);
    hide Runs, NoDup, Ascending;
  }

  /** What the probe has of column `k`, and what the memory space did for it. */
  predicate Judged(c: ProbeColumn, selected: seq<bool>, automatic: seq<bool>, bs: seq<Batch>, k: nat) {
    && c.exactAvailable && c.automatic == Automatic(selected, automatic, k)
    && (c.candidate <==> k < |selected| && selected[k] && AllPass(c.automatic, bs, k))
    && (c.candidate ==> forall b | b in bs :: Obliged(b, k))
  }

  predicate AllPass(automatic: bool, bs: seq<Batch>, k: nat) {
    forall b | b in bs :: k < |b.columns| && k < |b.looks| && Passes(automatic, b.columns[k], b.looks[k])
  }

  lemma JudgedStep(c: ProbeColumn, selected: seq<bool>, automatic: seq<bool>, bs: seq<Batch>, b: Batch, k: nat)
    requires Judged(c, selected, automatic, bs, k) && ValidBatch(b) && k < |b.columns|
    requires ObserveColumn(c, b.columns[k], b.looks[k]).candidate ==> Obliged(b, k)
    ensures Judged(ObserveColumn(c, b.columns[k], b.looks[k]), selected, automatic, bs + [b], k)
  {
    ObserveDecides(c, b.columns[k], b.looks[k]);
    hide ObserveColumn, Passes, Obliged, SortsTo;
    assert forall d :: d in bs + [b] <==> d in bs || d == b;
  }

  /**
    A column the ledger has not declined is a candidate exactly when it was selected and each of its
    chunks passes by itself, and then the memory space refused no copy of it.
   */
  lemma {:induction false} UndeclinedIsJudged(
    selected: seq<bool>, automatic: seq<bool>, cap: nat, bs: seq<Batch>, k: nat)
    requires forall n :: 0 <= n < |bs| ==> ValidBatch(bs[n])
    requires Steady(selected, bs) && k < |selected|
    requires Run(selected, automatic, cap, bs).Some? && Run(selected, automatic, cap, bs).value.declined[k].None?
    ensures Judged(Run(selected, automatic, cap, bs).value.probe[k], selected, automatic, bs, k)
    decreases |bs|
  {
    hide ValidBatch, HandleBatch, Joins, Steady, Judged, ObserveColumn, Obliged;
    if bs == [] {
      InitialJudged(selected, automatic, k);
    } else {
      var before, b := bs[..|bs| - 1], bs[|bs| - 1];
      assert before + [b] == bs;
      SteadyBefore(selected, bs);
      RetainingIffSteady(selected, automatic, cap, before);
      var l := Run(selected, automatic, cap, before).value;
      SteadyStep(selected, before, b, l);
      RunKeepsInv(selected, automatic, cap, before);
      hide Inv;
      HandleBatchShows(l, cap, before, b, k);
      UndeclinedIsJudged(selected, automatic, cap, before, k);
      assert k < |b.columns| by { SteadyWidth(selected, bs, b); }
      JudgedStep(l.probe[k], selected, automatic, before, b, k);
    }
  }

  lemma SteadyWidth(selected: seq<bool>, bs: seq<Batch>, b: Batch)
    requires Steady(selected, bs) && b in bs
    ensures |b.columns| == |selected|
  {
  }

  lemma InitialJudged(selected: seq<bool>, automatic: seq<bool>, k: nat)
    requires k < |selected|
    ensures Judged(Initial(selected, automatic).probe[k], selected, automatic, [], k)
  {
  }

  // ----------------------------------------------------- why a column can be declined

  /** Column `k` was declined for the cap or not at all. */
  predicate CapOnly(l: Ledger, k: nat) {
    k < |l.declined| ==>
      l.declined[k] == None || l.declined[k] == Some(OverCap) || l.declined[k] == Some(Evicted)
  }

  lemma EvictionCapOnly(l: Ledger, r: Ledger, j: nat, k: nat)
    requires Shaped(l, |l.bytes|) && OnlyEvicts(l, r, j, |l.bytes|) && CapOnly(l, k)
    ensures CapOnly(r, k)
  {
    if k < |l.bytes| { assert SameColumn(l, r, k) || (j < k && WasEvicted(l, r, k)); }
  }

  lemma RetainColumnCapOnly(l: Ledger, cap: nat, b: Batch, j: nat, k: nat)
    requires Books(l, cap) && Shaped(l, |b.columns|) && j < |b.columns| && |b.fates| == |b.columns|
    requires Obliged(b, k) && CapOnly(l, k)
    ensures CapOnly(RetainColumn(l, cap, j, b), k)
  {
    if !l.probe[j].candidate || l.declined[j].Some? { return; }
    HeadroomIs(b.fates[j].available, b.columns[j].bytes, b.columns);
    hide Books, OnlyEvicts, MakeRoom, HasHeadroom, BatchBytes, Sum, Sizes;
    var need := b.columns[j].bytes;
    MakeRoomFrame(l, cap, j, |l.bytes|, need);
    EvictionCapOnly(l, MakeRoom(l, cap, j, |l.bytes|, need), j, k);
  }

  lemma {:induction false} RetainFromCapOnly(l: Ledger, cap: nat, bs: seq<Batch>, b: Batch, j: nat, k: nat)
    requires Partway(l, cap, bs, b, j) && Shaped(l, |b.columns|) && j <= |b.columns| && |b.fates| == |b.columns|
    requires Obliged(b, k) && CapOnly(l, k)
    ensures CapOnly(RetainFrom(l, cap, j, b), k)
    decreases |b.columns| - j
  {
    if j < |b.columns| {
      hide ColumnBooks, Whole, Stale, CapOnly, Obliged, RetainColumn;
      RetainColumnCapOnly(l, cap, b, j, k);
      RetainColumnStep(l, cap, bs, b, j);
      RetainFromCapOnly(RetainColumn(l, cap, j, b), cap, bs, b, j + 1, k);
    }
  }

  /** In a steady pin a column whose copies are never refused is declined for the cap or not at all. */
  lemma {:induction false} SteadyCapOnly(
    selected: seq<bool>, automatic: seq<bool>, cap: nat, bs: seq<Batch>, k: nat)
    requires forall n :: 0 <= n < |bs| ==> ValidBatch(bs[n])
    requires Steady(selected, bs) && forall b | b in bs :: Obliged(b, k)
    ensures Run(selected, automatic, cap, bs).Some? && CapOnly(Run(selected, automatic, cap, bs).value, k)
    decreases |bs|
  {
    hide ValidBatch, Steady, Joins, Obliged, HandleBatch;
    if bs != [] {
      var before, b := bs[..|bs| - 1], bs[|bs| - 1];
      assert before + [b] == bs;
      SteadyBefore(selected, bs);
      SteadyCapOnly(selected, automatic, cap, before, k);
      RetainingIffSteady(selected, automatic, cap, before);
      var l := Run(selected, automatic, cap, before).value;
      SteadyStep(selected, before, b, l);
      RunKeepsInv(selected, automatic, cap, before);
      HandleBatchCapOnly(l, cap, before, b, k);
    }
  }

  lemma HandleBatchCapOnly(l: Ledger, cap: nat, bs: seq<Batch>, b: Batch, k: nat)
    requires Inv(l, cap, bs) && ValidBatch(b) && Joins(l, b) && Obliged(b, k) && CapOnly(l, k)
    ensures HandleBatch(l, cap, b).Some? && CapOnly(HandleBatch(l, cap, b).value, k)
  {
    HandleBatchCourse(l, cap, b);
    TakenIsPartway(l, cap, bs, b);
    hide HandleBatch, Obliged, RetainFrom, Partway, ObserveAll;
    RetainFromCapOnly(Taken(l, b), cap, bs, b, 0, k);
  }

  // ------------------------------------------------------ bytes by column and by batch

  /** Bytes of the selected ones among the first `m` columns, column by column. */
  function Totals(selected: seq<bool>, bs: seq<Batch>, m: nat): nat {
    if m == 0 then 0
    else
      var last := if m <= |selected| && selected[m - 1] then Sum(Sizes(Column(bs, m - 1))) else 0;
      Totals(selected, bs, m - 1) + last
  }

  lemma {:induction false} TotalsGrow(selected: seq<bool>, bs: seq<Batch>, b: Batch, m: nat)
    ensures Totals(selected, bs + [b], m) == Totals(selected, bs, m) + ChosenBytes(selected, b.columns, m)
    decreases m
  {
    if m > 0 {
      TotalsGrow(selected, bs, b, m - 1);
      ColumnGrows(bs, b, m - 1);
      var col := Column(bs, m - 1);
      var sizes := Sizes(col + [ColumnOf(b, m - 1)]);
      assert sizes == Sizes(col) + [ColumnOf(b, m - 1).bytes] && sizes[..|sizes| - 1] == Sizes(col);
    }
  }

  /** Counting by column or by batch comes to the same. */
  lemma {:induction false} TotalsAreDue(selected: seq<bool>, bs: seq<Batch>, m: nat)
    ensures Totals(selected, bs, m) == Due(selected, bs, m)
    decreases |bs|
  {
    if bs == [] {
      NoTotals(selected, m);
    } else {
      var before, b := bs[..|bs| - 1], bs[|bs| - 1];
      assert before + [b] == bs;
      TotalsAreDue(selected, before, m);
      TotalsGrow(selected, before, b, m);
    }
  }

  lemma {:induction false} NoTotals(selected: seq<bool>, m: nat)
    ensures Totals(selected, [], m) == 0
    decreases m
  {
    if m > 0 { NoTotals(selected, m - 1); }
  }

  lemma {:induction false} DueAscends(selected: seq<bool>, bs: seq<Batch>, k: nat, m: nat)
    requires k <= m
    ensures Due(selected, bs, k) <= Due(selected, bs, m)
    decreases |bs|
  {
    if bs != [] {
      DueAscends(selected, bs[..|bs| - 1], k, m);
      ChosenMonotone(selected, bs[|bs| - 1].columns, k, m);
    }
  }

  /** The selected ones among the first `m` columns are all still there. */
  predicate AllKept(run: Option<Ledger>, selected: seq<bool>, m: nat) {
    run.Some? && run.value.retaining && forall k :: 0 <= k < m && k < |selected| && selected[k] ==> Kept(run, k)
  }

  lemma {:induction false} HeldIsTotals(selected: seq<bool>, l: Ledger, cap: nat, bs: seq<Batch>, m: nat)
    requires Settled(l, cap, bs) && m <= |l.bytes| == |selected|
    requires Chosen(selected, l.probe) && AllKept(Some(l), selected, m)
    ensures Sum(l.bytes[..m]) == Totals(selected, bs, m)
    decreases m
  {
    if m > 0 {
      HeldIsTotals(selected, l, cap, bs, m - 1);
      assert Whole(l, bs, m - 1) && ColumnBooks(l, m - 1);
      assert l.bytes[..m][..m - 1] == l.bytes[..m - 1];
      if selected[m - 1] { assert Kept(Some(l), m - 1); }
    }
  }

  // ------------------------------------------------------------- the exact conditions

  /** A column that keeps its check met all the conditions that are not about the cap. */
  lemma KeptIsSound(selected: seq<bool>, automatic: seq<bool>, cap: nat, bs: seq<Batch>, k: nat)
    requires forall n :: 0 <= n < |bs| ==> ValidBatch(bs[n])
    requires k < |selected| && Kept(Run(selected, automatic, cap, bs), k)
    ensures Steady(selected, bs) && Sound(selected, automatic, bs, k)
  {
    hide ValidBatch, Run, Steady, Passes, Obliged;
    RetainingIffSteady(selected, automatic, cap, bs);
    UndeclinedIsJudged(selected, automatic, cap, bs, k);
  }

  /** The other way round, unless the ledger declined it. */
  lemma SoundIsKept(selected: seq<bool>, automatic: seq<bool>, cap: nat, bs: seq<Batch>, k: nat)
    requires forall n :: 0 <= n < |bs| ==> ValidBatch(bs[n])
    requires k < |selected| && Steady(selected, bs) && Sound(selected, automatic, bs, k)
    ensures var run := Run(selected, automatic, cap, bs);
      && run.Some? && run.value.retaining && CapOnly(run.value, k)
      && (run.value.declined[k].None? ==> Kept(run, k))
  {
    hide ValidBatch, Run, Steady, Passes, Obliged;
    RetainingIffSteady(selected, automatic, cap, bs);
    SteadyCapOnly(selected, automatic, cap, bs, k);
    if Run(selected, automatic, cap, bs).value.declined[k].None? {
      UndeclinedIsJudged(selected, automatic, cap, bs, k);
      SoundPasses(selected, automatic, bs, k);
    }
  }

  lemma SoundPasses(selected: seq<bool>, automatic: seq<bool>, bs: seq<Batch>, k: nat)
    requires Sound(selected, automatic, bs, k)
    ensures AllPass(Automatic(selected, automatic, k), bs, k)
  {
    hide Passes;
    var auto := Automatic(selected, automatic, k);
    assert forall b | b in bs :: ChunkSound(auto, b, k);
  }

  /**
    A column that fits in the cap with the selected ones before it keeps its check exactly when nothing
    makes the pin give up, its chunks pass, and its copies are not refused; other columns do not matter.
   */
  lemma FittingColumnKeptIff(selected: seq<bool>, automatic: seq<bool>, cap: nat, bs: seq<Batch>, i: nat)
    requires forall n :: 0 <= n < |bs| ==> ValidBatch(bs[n])
    requires i < |selected| && Due(selected, bs, i + 1) <= cap
    ensures Kept(Run(selected, automatic, cap, bs), i) <==> Steady(selected, bs) && Sound(selected, automatic, bs, i)
  {
    hide ValidBatch, Run, Steady, Sound, Kept, Due;
    if Kept(Run(selected, automatic, cap, bs), i) { KeptIsSound(selected, automatic, cap, bs, i); }
    if Steady(selected, bs) && Sound(selected, automatic, bs, i) {
      SoundIsKept(selected, automatic, cap, bs, i);
      FittingColumnsAreSpared(selected, automatic, cap, bs, i);
    }
  }

  /** The selected ones among the first `m` columns are all sound. */
  predicate AllSound(selected: seq<bool>, automatic: seq<bool>, bs: seq<Batch>, m: nat) {
    forall k :: 0 <= k < m && k < |selected| && selected[k] ==> Sound(selected, automatic, bs, k)
  }

  lemma KeptColumnsFit(selected: seq<bool>, automatic: seq<bool>, cap: nat, bs: seq<Batch>, m: nat)
    requires forall n :: 0 <= n < |bs| ==> ValidBatch(bs[n])
    requires m <= |selected| && AllKept(Run(selected, automatic, cap, bs), selected, m)
    ensures Due(selected, bs, m) <= cap
  {
    hide ValidBatch, Run, Kept, ProbeOk, Whole, ColumnBooks;
    var l := Run(selected, automatic, cap, bs).value;
    RunKeepsInv(selected, automatic, cap, bs);
    RunChosen(selected, automatic, cap, bs);
    HeldIsTotals(selected, l, cap, bs, m);
    TotalsAreDue(selected, bs, m);
    SumPrefix(l.bytes, m);
  }

  /** The probe never makes a candidate of a column that was not selected. */
  lemma {:induction false} RunChosen(selected: seq<bool>, automatic: seq<bool>, cap: nat, bs: seq<Batch>)
    requires forall n :: 0 <= n < |bs| ==> ValidBatch(bs[n])
    requires Run(selected, automatic, cap, bs).Some? && Run(selected, automatic, cap, bs).value.retaining
    ensures Chosen(selected, Run(selected, automatic, cap, bs).value.probe)
    decreases |bs|
  {
    hide ValidBatch, HandleBatch, Chosen, Steady, Joins;
    if bs == [] {
      InitialChosen(selected, automatic);
    } else {
      var before, b := bs[..|bs| - 1], bs[|bs| - 1];
      var l := Run(selected, automatic, cap, before).value;
      HandleBatchCourse(l, cap, b);
      JoinsRetains(l, b);
      RunChosen(selected, automatic, cap, before);
      RunKeepsInv(selected, automatic, cap, before);
      HandleBatchChosen(selected, l, cap, before, b);
    }
  }

  lemma HandleBatchChosen(selected: seq<bool>, l: Ledger, cap: nat, bs: seq<Batch>, b: Batch)
    requires Inv(l, cap, bs) && ValidBatch(b) && Joins(l, b) && Chosen(selected, l.probe)
    ensures HandleBatch(l, cap, b).Some? && Chosen(selected, HandleBatch(l, cap, b).value.probe)
  {
    HandleBatchCourse(l, cap, b);
    TakenIsPartway(l, cap, bs, b);
    ObserveOk(l.probe, bs, b);
    hide HandleBatch, RetainFrom, Partway, ObserveAll, ProbeOk;
    RetainFromProof(Taken(l, b), cap, bs, b, 0);
    SameProofChosen(selected, Taken(l, b).probe, HandleBatch(l, cap, b).value.probe);
  }

  /**
    The exact condition, on the inputs alone: the selected ones among the first `m` columns all keep
    their check exactly when nothing makes the pin give up, they are all sound, and their bytes over
    all batches fit in the cap.
   */
  lemma LeadingColumnsStayIffTheyFit(
    selected: seq<bool>, automatic: seq<bool>, cap: nat, bs: seq<Batch>, m: nat)
    requires (forall n :: 0 <= n < |bs| ==> ValidBatch(bs[n])) && m <= |selected|
    ensures AllKept(Run(selected, automatic, cap, bs), selected, m) <==>
      Steady(selected, bs) && AllSound(selected, automatic, bs, m) && Due(selected, bs, m) <= cap
  {
    hide ValidBatch, Run, Steady, Sound, Kept, Due;
    var run := Run(selected, automatic, cap, bs);
    RetainingIffSteady(selected, automatic, cap, bs);
    if AllKept(run, selected, m) {
      forall k | 0 <= k < m && selected[k] ensures Sound(selected, automatic, bs, k) {
        KeptIsSound(selected, automatic, cap, bs, k);
      }
      KeptColumnsFit(selected, automatic, cap, bs, m);
    }
    if Steady(selected, bs) && AllSound(selected, automatic, bs, m) && Due(selected, bs, m) <= cap {
      forall k | 0 <= k < m && selected[k] ensures Kept(run, k) {
        DueAscends(selected, bs, k + 1, m);
        FittingColumnKeptIff(selected, automatic, cap, bs, k);
      }
    }
  }

  /**
    The first selected column that does not fit is declined for the cap, whatever the order of the
    batches and whether or not the probe then drops it; the selected ones before it keep their check.
   */
  lemma FirstOverflowIsDeclined(selected: seq<bool>, automatic: seq<bool>, cap: nat, bs: seq<Batch>, i: nat)
    requires forall n :: 0 <= n < |bs| ==> ValidBatch(bs[n])
    requires i < |selected| && selected[i] && Steady(selected, bs) && AllSound(selected, automatic, bs, i + 1)
    requires Due(selected, bs, i) <= cap < Due(selected, bs, i + 1)
    ensures var run := Run(selected, automatic, cap, bs);
      && AllKept(run, selected, i)
      && (run.value.declined[i] == Some(OverCap) || run.value.declined[i] == Some(Evicted))
  {
    hide ValidBatch, Run, Steady, Sound, Kept, Due;
    LeadingColumnsStayIffTheyFit(selected, automatic, cap, bs, i);
    LeadingColumnsStayIffTheyFit(selected, automatic, cap, bs, i + 1);
    SoundIsKept(selected, automatic, cap, bs, i);
  }

  // --------------------------------------------------------- independent of the order

  lemma {:induction false} SumsWithout(selected: seq<bool>, bs: seq<Batch>, k: nat, m: nat)
    requires k < |bs|
    ensures Due(selected, bs, m) == Due(selected, bs[..k] + bs[k + 1..], m) + ChosenBytes(selected, bs[k].columns, m)
    ensures TotalRows(bs) == TotalRows(bs[..k] + bs[k + 1..]) + bs[k].rows
    decreases |bs|
  {
    hide ChosenBytes;
    var n := |bs| - 1;
    var less := bs[..k] + bs[k + 1..];
    if k == n {
      assert less == bs[..n];
    } else {
      SumsWithout(selected, bs[..n], k, m);
      assert less[..|less| - 1] == bs[..n][..k] + bs[..n][k + 1..] && less[|less| - 1] == bs[n];
    }
  }

  lemma TakeAway(bs: seq<Batch>, k: nat)
    requires k < |bs|
    ensures multiset(bs[..k] + bs[k + 1..]) == multiset(bs) - multiset{bs[k]}
  {
    assert bs == bs[..k] + [bs[k]] + bs[k + 1..];
    assert multiset(bs) == multiset(bs[..k]) + multiset{bs[k]} + multiset(bs[k + 1..]);
  }

  /** What is due and how many rows there are does not depend on the order of the batches. */
  lemma {:induction false} SumsOfPermutation(selected: seq<bool>, bs: seq<Batch>, cs: seq<Batch>, m: nat)
    requires multiset(bs) == multiset(cs)
    ensures Due(selected, bs, m) == Due(selected, cs, m) && TotalRows(bs) == TotalRows(cs)
    decreases |bs|
  {
    hide ChosenBytes;
    assert |bs| == |multiset(bs)| == |multiset(cs)| == |cs|;
    if bs != [] {
      var n, b := |bs| - 1, bs[|bs| - 1];
      assert b in multiset(bs);
      var k :| 0 <= k < |cs| && cs[k] == b;
      var less := cs[..k] + cs[k + 1..];
      TakeAway(cs, k);
      TakeAway(bs, n);
      assert bs[..n] + bs[n + 1..] == bs[..n];
      SumsOfPermutation(selected, bs[..n], less, m);
      SumsWithout(selected, cs, k, m);
    }
  }

  lemma SameMembers(bs: seq<Batch>, cs: seq<Batch>)
    requires multiset(bs) == multiset(cs)
    ensures forall b :: b in bs <==> b in cs
  {
    forall b ensures b in bs <==> b in cs {
      assert b in multiset(bs) <==> b in multiset(cs);
    }
  }

  /** None of the conditions depends on the order of the batches. */
  lemma ConditionsIgnoreOrder(selected: seq<bool>, automatic: seq<bool>, bs: seq<Batch>, cs: seq<Batch>)
    requires multiset(bs) == multiset(cs)
    ensures Steady(selected, bs) <==> Steady(selected, cs)
    ensures forall k :: Sound(selected, automatic, bs, k) <==> Sound(selected, automatic, cs, k)
  {
    hide ChunkSound;
    SameMembers(bs, cs);
    SumsOfPermutation(selected, bs, cs, 0);
  }

  /** Whether the selected ones among the first `m` columns all keep their check is the same in every order. */
  lemma LeadingColumnsIgnoreOrder(
    selected: seq<bool>, automatic: seq<bool>, cap: nat, bs: seq<Batch>, cs: seq<Batch>, m: nat)
    requires (forall n :: 0 <= n < |bs| ==> ValidBatch(bs[n])) && forall n :: 0 <= n < |cs| ==> ValidBatch(cs[n])
    requires multiset(bs) == multiset(cs) && m <= |selected|
    ensures AllKept(Run(selected, automatic, cap, bs), selected, m) <==>
      AllKept(Run(selected, automatic, cap, cs), selected, m)
  {
    hide Run, ValidBatch, AllKept, Steady, Sound, Due;
    LeadingColumnsStayIffTheyFit(selected, automatic, cap, bs, m);
    LeadingColumnsStayIffTheyFit(selected, automatic, cap, cs, m);
    SumsOfPermutation(selected, bs, cs, m);
    ConditionsIgnoreOrder(selected, automatic, bs, cs);
  }

  /** At most column `i`, the last selected one, can fail to fit, and only behind columns that are sound. */
  predicate OnlyLastOverflows(selected: seq<bool>, automatic: seq<bool>, cap: nat, bs: seq<Batch>, i: nat) {
    && i < |selected| && (forall k :: i < k < |selected| ==> !selected[k])
    && Due(selected, bs, i) <= cap
    && (cap < Due(selected, bs, i + 1) ==> AllSound(selected, automatic, bs, i))
  }

  /** Which columns keep their check, when at most the last selected one overflows. */
  lemma KeptColumnsAre(selected: seq<bool>, automatic: seq<bool>, cap: nat, bs: seq<Batch>, i: nat, k: nat)
    requires forall n :: 0 <= n < |bs| ==> ValidBatch(bs[n])
    requires OnlyLastOverflows(selected, automatic, cap, bs, i) && k < |selected|
    ensures Kept(Run(selected, automatic, cap, bs), k) <==>
      Steady(selected, bs) && Sound(selected, automatic, bs, k) && Due(selected, bs, k + 1) <= cap
  {
    hide Run, ValidBatch, Kept, Steady, Sound, Due;
    var run := Run(selected, automatic, cap, bs);
    if k < i { DueAscends(selected, bs, k + 1, i); }
    if Due(selected, bs, k + 1) <= cap {
      FittingColumnKeptIff(selected, automatic, cap, bs, k);
    } else if Kept(run, k) {
      KeptIsSound(selected, automatic, cap, bs, k);
      assert selected[k] by { SoundIsSelected(selected, automatic, bs, k); }
      LeadingColumnsStayIffTheyFit(selected, automatic, cap, bs, i);
      KeptColumnsFit(selected, automatic, cap, bs, i + 1);
    }
  }

  lemma SoundIsSelected(selected: seq<bool>, automatic: seq<bool>, bs: seq<Batch>, k: nat)
    requires Sound(selected, automatic, bs, k)
    ensures k < |selected| && selected[k]
  {
  }

  /** When at most the last selected column overflows, the whole set of kept columns is the same in every order. */
  lemma KeptColumnsIgnoreOrder(
    selected: seq<bool>, automatic: seq<bool>, cap: nat, bs: seq<Batch>, cs: seq<Batch>, i: nat, k: nat)
    requires (forall n :: 0 <= n < |bs| ==> ValidBatch(bs[n])) && forall n :: 0 <= n < |cs| ==> ValidBatch(cs[n])
    requires multiset(bs) == multiset(cs) && OnlyLastOverflows(selected, automatic, cap, bs, i) && k < |selected|
    ensures Kept(Run(selected, automatic, cap, bs), k) <==> Kept(Run(selected, automatic, cap, cs), k)
  {
    hide Run, ValidBatch, Kept, Steady, Sound, Due;
    SumsOfPermutation(selected, bs, cs, i);
    SumsOfPermutation(selected, bs, cs, i + 1);
    SumsOfPermutation(selected, bs, cs, k + 1);
    ConditionsIgnoreOrder(selected, automatic, bs, cs);
    KeptColumnsAre(selected, automatic, cap, bs, i, k);
    KeptColumnsAre(selected, automatic, cap, cs, i, k);
  }

  // --------------------------------------------------- survivors depend on the order

  /** Fixed-width values take as many bytes as they are wide. */
  function Chunk(values: seq<int>, width: nat): ColumnChunk {
    ColumnChunk(values, false, true, |values| * width)
  }

  /** A 64-bit column and an 8-bit column of the same values, and memory in plenty. */
  function Plain(values: seq<int>): Batch {
    var look, fate := Look(true, true, false, values), Fate(1000, true, true);
    Batch(AtOnce, 0, |values|, [Chunk(values, 8), Chunk(values, 1)], [look, look], [fate, fate])
  }

  predicate Fixed(b: Batch, widths: seq<nat>) {
    |b.columns| == |widths| && forall i :: 0 <= i < |widths| ==> b.columns[i] == Chunk(b.columns[i].values, widths[i])
  }

  /** One row of nine bytes, and two rows of eighteen. */
  const ROW := [1]
  const ROWS := [2, 3]

  /** Two candidate columns, and what they hold. */
  predicate Stands(l: Ledger, first: nat, second: nat, declined: seq<Option<Why>>) {
    && Shaped(l, 2) && l.bytes == [first, second] && l.total == first + second
    && l.declined == declined && l.retaining && l.rows <= 10 && (l.gpu.Some? ==> l.gpu.value == 0)
    && forall i :: 0 <= i < 2 ==> l.probe[i].candidate && !l.probe[i].automatic
  }

  predicate Keys(values: seq<int>) {
    0 < |values| <= 2 && Ascending(values) && NoDup(values)
  }

  lemma KeyColumns()
    ensures Keys(ROW) && Keys(ROWS)
  {
  }

  lemma PlainObserved(p: ProbeColumn, values: seq<int>, width: nat)
    requires p.candidate && !p.automatic && Keys(values)
    ensures var q := ObserveColumn(p, Chunk(values, width), Look(true, true, false, values));
      q.candidate && !q.automatic
  {
    RunsOfSorted(values);
  }

  /** One batch of two columns is two column steps. */
  lemma PlainBatch(l: Ledger, x: nat, y: nat, declined: seq<Option<Why>>, values: seq<int>) returns (m: Ledger)
    requires Stands(l, x, y, declined) && l.rows <= 8 && Keys(values)
    ensures Stands(m, x, y, declined) && m.rows == l.rows + |values|
    ensures var b := Plain(values);
      ValidBatch(b) && HandleBatch(l, 10, b) == Some(RetainColumn(RetainColumn(m, 10, 0, b), 10, 1, b))
  {
    var b := Plain(values);
    PlainObserved(l.probe[0], values, 8);
    PlainObserved(l.probe[1], values, 1);
    m := l.(probe := ObserveAll(l.probe, b), gpu := Some(0), rows := l.rows + |values|);
    hide RetainColumn, ObserveAll, SortsTo, ObserveColumn;
    assert ValidBatch(b) by { PlainIsValid(values); }
    var n := RetainColumn(m, 10, 0, b);
    assert RetainFrom(n, 10, 1, b) == RetainFrom(RetainColumn(n, 10, 1, b), 10, 2, b) == RetainColumn(n, 10, 1, b);
    assert RetainFrom(m, 10, 0, b) == RetainFrom(n, 10, 1, b);
  }

  lemma PlainIsValid(values: seq<int>)
    requires Keys(values)
    ensures ValidBatch(Plain(values)) && Fixed(Plain(values), [8, 1])
  {
  }

  lemma PlainBytes(values: seq<int>)
    ensures BatchBytes(Plain(values).columns) == 9 * |values|
  {
    var cs := Plain(values).columns;
    assert cs[..1] == [Chunk(values, 8)] && cs[..1][..0] == [];
    assert BatchBytes(cs[..1]) == BatchBytes(cs[..1][..0]) + 8 * |values|;
  }

  lemma PlainKeeps(l: Ledger, x: nat, y: nat, declined: seq<Option<Why>>, i: nat, values: seq<int>)
    requires Stands(l, x, y, declined) && i < 2 && |values| <= 2 && declined[i].None?
    requires x + y + |values| * (if i == 0 then 8 else 1) <= 10
    ensures Stands(RetainColumn(l, 10, i, Plain(values)),
              if i == 0 then x + 8 * |values| else x, if i == 0 then y else y + |values|, declined)
    ensures RetainColumn(l, 10, i, Plain(values)).rows == l.rows
  {
    PlainBytes(values);
  }

  lemma PlainEvicts(l: Ledger)
    requires Stands(l, 8, 1, [None, None])
    ensures var b := Plain(ROWS);
      RetainColumn(RetainColumn(l, 10, 0, b), 10, 1, b).declined == [Some(OverCap), Some(Evicted)]
  {
    var b := Plain(ROWS);
    var m := Decline(l, 1, Evicted);
    assert MakeRoom(l, 10, 0, 2, 16) == MakeRoom(m, 10, 0, 1, 16) == m;
    assert RetainColumn(l, 10, 0, b) == Decline(m, 0, OverCap);
  }

  lemma PlainOverflows(l: Ledger)
    requires Stands(l, 0, 0, [None, None])
    ensures Stands(RetainColumn(l, 10, 0, Plain(ROWS)), 0, 0, [Some(OverCap), None])
    ensures RetainColumn(l, 10, 0, Plain(ROWS)).rows == l.rows
  {
    assert MakeRoom(l, 10, 0, 2, 16) == MakeRoom(l, 10, 0, 1, 16) == l;
  }

  lemma PlainSkips(l: Ledger, y: nat)
    requires Stands(l, 0, y, [Some(OverCap), None])
    ensures Stands(RetainColumn(l, 10, 0, Plain(ROW)), 0, y, [Some(OverCap), None])
  {
  }

  lemma RowFirst()
    ensures var r := Run([true, true], [], 10, [Plain(ROW), Plain(ROWS)]);
      r.Some? && r.value.declined == [Some(OverCap), Some(Evicted)]
  {
    hide RetainColumn, HandleBatch, Run, ValidBatch;
    var two, b, c := [true, true], Plain(ROW), Plain(ROWS);
    KeyColumns();
    var l := Initial(two, []);
    assert two[0] && Stands(l, 0, 0, [None, None]);
    hide Stands, Initial, Plain, Keys;
    var m := PlainBatch(l, 0, 0, [None, None], ROW);
    PlainKeeps(m, 0, 0, [None, None], 0, ROW);
    PlainKeeps(RetainColumn(m, 10, 0, b), 8, 0, [None, None], 1, ROW);
    var l1 := RetainColumn(RetainColumn(m, 10, 0, b), 10, 1, b);
    var m1 := PlainBatch(l1, 8, 1, [None, None], ROWS);
    PlainEvicts(m1);
    TwoBatches(two, 10, [b, c], l1);
  }

  lemma RowsFirst()
    ensures var r := Run([true, true], [], 10, [Plain(ROWS), Plain(ROW)]);
      r.Some? && r.value.declined == [Some(OverCap), None] && Kept(r, 1)
  {
    hide RetainColumn, HandleBatch, Run, ValidBatch;
    var two, b, c := [true, true], Plain(ROW), Plain(ROWS);
    KeyColumns();
    var l := Initial(two, []);
    assert two[0] && Stands(l, 0, 0, [None, None]);
    hide Initial, Plain, Keys;
    var m := PlainBatch(l, 0, 0, [None, None], ROWS);
    PlainOverflows(m);
    PlainKeeps(RetainColumn(m, 10, 0, c), 0, 0, [Some(OverCap), None], 1, ROWS);
    var l1 := RetainColumn(RetainColumn(m, 10, 0, c), 10, 1, c);
    var m1 := PlainBatch(l1, 0, 2, [Some(OverCap), None], ROW);
    PlainSkips(m1, 2);
    PlainKeeps(RetainColumn(m1, 10, 0, b), 0, 2, [Some(OverCap), None], 1, ROW);
    TwoBatches(two, 10, [c, b], l1);
  }

  /**
    A 64-bit and an 8-bit column, one batch of one row and one of two, ten bytes: swapping the batches
    changes which columns keep their check.
   */
  lemma SurvivorsDependOnOrder()
    ensures exists selected, cap, b, c ::
      && ValidBatch(b) && ValidBatch(c) && Fixed(b, [8, 1]) && Fixed(c, [8, 1])
      && Run(selected, [], cap, [b, c]).Some? && Run(selected, [], cap, [c, b]).Some?
      && !Kept(Run(selected, [], cap, [b, c]), 1) && Kept(Run(selected, [], cap, [c, b]), 1)
  {
    KeyColumns();
    PlainIsValid(ROW);
    PlainIsValid(ROWS);
    RowFirst();
    RowsFirst();
    hide Run, Fixed, ValidBatch;
    var b, c := Plain(ROW), Plain(ROWS);
    assert !Kept(Run([true, true], [], 10, [b, c]), 1) && Kept(Run([true, true], [], 10, [c, b]), 1);
  }

  // -------------------------------------------- a last column behind one that is not sound

  /** Two 64-bit columns of the same values, the first with a null or not, and memory in plenty. */
  function Pair(values: seq<int>, gap: bool): Batch {
    var look, fate := Look(true, true, false, values), Fate(1000, true, true);
    Batch(AtOnce, 0, |values|, [Chunk(values, 8).(nulls := gap), Chunk(values, 8)], [look, look], [fate, fate])
  }

  lemma PairIsValid(values: seq<int>, gap: bool)
    requires Keys(values)
    ensures ValidBatch(Pair(values, gap)) && |Pair(values, gap).columns| == 2
  {
  }

  lemma PairBytes(values: seq<int>, gap: bool)
    ensures BatchBytes(Pair(values, gap).columns) == 16 * |values|
  {
    var cs := Pair(values, gap).columns;
    assert cs[..1] == [Chunk(values, 8).(nulls := gap)] && cs[..1][..0] == [];
    assert BatchBytes(cs[..1]) == BatchBytes(cs[..1][..0]) + 8 * |values|;
  }

  /** Two columns, the first with its candidacy, of which the second is a candidate. */
  predicate Holds(l: Ledger, first: bool, x: nat, y: nat) {
    && Shaped(l, 2) && l.bytes == [x, y] && l.total == x + y && l.retaining && l.rows <= 8
    && (l.gpu.Some? ==> l.gpu.value == 0) && l.declined == [None, None]
    && l.probe[0].candidate == first && !l.probe[0].automatic && l.probe[1].candidate && !l.probe[1].automatic
  }

  /** One batch of two columns is two column steps. */
  lemma PairBatch(l: Ledger, first: bool, x: nat, y: nat, values: seq<int>, gap: bool) returns (m: Ledger)
    requires Holds(l, first, x, y) && l.rows <= 6 && Keys(values)
    ensures Holds(m, first && !gap, x, y) && m.rows == l.rows + |values|
    ensures var b := Pair(values, gap);
      ValidBatch(b) && HandleBatch(l, 24, b) == Some(RetainColumn(RetainColumn(m, 24, 0, b), 24, 1, b))
  {
    var b := Pair(values, gap);
    PairIsValid(values, gap);
    if !gap { PlainObserved(l.probe[0].(candidate := true), values, 8); }
    PlainObserved(l.probe[1], values, 8);
    m := Taken(l, b);
    HandleBatchCourse(l, 24, b);
    hide RetainColumn, HandleBatch, SortsTo, ValidBatch;
    var n := RetainColumn(m, 24, 0, b);
    assert RetainFrom(n, 24, 1, b) == RetainFrom(RetainColumn(n, 24, 1, b), 24, 2, b) == RetainColumn(n, 24, 1, b);
    assert RetainFrom(m, 24, 0, b) == RetainFrom(n, 24, 1, b);
  }

  /** The two rows first: they leave no room for the second column. */
  lemma SoundRowsFirst()
    ensures var bs := [Pair(ROWS, false), Pair(ROW, true)];
      && (forall n :: 0 <= n < |bs| ==> ValidBatch(bs[n]))
      && Run([true, true], [], 24, bs).Some? && !Kept(Run([true, true], [], 24, bs), 1)
  {
    KeyColumns();
    PairIsValid(ROWS, false);
    PairIsValid(ROW, true);
    var two, b, c := [true, true], Pair(ROWS, false), Pair(ROW, true);
    var l := Initial(two, []);
    assert two[0] && Holds(l, true, 0, 0);
    hide Run, HandleBatch, ValidBatch, Steady;
    var m := PairBatch(l, true, 0, 0, ROWS, false);
    PairBytes(ROWS, false);
    var m1 := RetainColumn(RetainColumn(m, 24, 0, b), 24, 1, b);
    assert m1.declined[1].Some?;
    TwoBatches(two, 24, [b, c], m1);
    RunKeepsInv(two, [], 24, [b]);
    assert Run(two, [], 24, [b]) == Some(m1);
    HandleBatchCourse(m1, 24, c);
    assert Joins(m1, c);
    var end := HandleBatch(m1, 24, c).value;
    if end.declined[1].None? { HandleBatchShows(m1, 24, [b], c, 1); }
  }

  /** The null first: the first column is dropped, and the second fits alone. */
  lemma NullFirst()
    ensures var bs := [Pair(ROW, true), Pair(ROWS, false)];
      && (forall n :: 0 <= n < |bs| ==> ValidBatch(bs[n])) && Kept(Run([true, true], [], 24, bs), 1)
  {
    KeyColumns();
    PairIsValid(ROWS, false);
    PairIsValid(ROW, true);
    var two, b, c := [true, true], Pair(ROWS, false), Pair(ROW, true);
    var l := Initial(two, []);
    assert two[0] && Holds(l, true, 0, 0);
    hide Run, HandleBatch, ValidBatch;
    PairBytes(ROW, true);
    PairBytes(ROWS, false);
    var m := PairBatch(l, true, 0, 0, ROW, true);
    var l1 := RetainColumn(RetainColumn(m, 24, 0, c), 24, 1, c);
    assert Holds(l1, false, 0, 8);
    var m1 := PairBatch(l1, false, 0, 8, ROWS, false);
    var l2 := RetainColumn(RetainColumn(m1, 24, 0, b), 24, 1, b);
    assert l2.declined[1].None? && l2.retaining && l2.probe[1].candidate;
    TwoBatches(two, 24, [c, b], l1);
  }

  lemma TwoBatches(selected: seq<bool>, cap: nat, bs: seq<Batch>, l: Ledger)
    requires |bs| == 2 && ValidBatch(bs[0]) && ValidBatch(bs[1])
    requires HandleBatch(Initial(selected, []), cap, bs[0]) == Some(l)
    ensures forall k :: 0 <= k < |bs| ==> ValidBatch(bs[k])
    ensures Run(selected, [], cap, [bs[0]]) == Some(l) && Run(selected, [], cap, bs) == HandleBatch(l, cap, bs[1])
  {
    hide ValidBatch, HandleBatch, Initial;
    var one, none := bs[..1], bs[..0];
    assert one == [bs[0]] && one[..0] == none == [];
    assert Run(selected, [], cap, none) == Some(Initial(selected, []));
    assert Run(selected, [], cap, one) == HandleBatch(Initial(selected, []), cap, bs[0]);
  }

  /**
    Even when only the last column overflows, its check can depend on the order if a column before it
    is not sound: `OnlyLastOverflows` cannot do without that condition.
   */
  lemma UnsoundColumnsMatter()
    ensures exists selected, cap, b, c ::
      && ValidBatch(b) && ValidBatch(c) && |selected| == 2 && selected[0] && selected[1]
      && Due(selected, [b, c], 1) <= cap < Due(selected, [b, c], 2) && Steady(selected, [b, c])
      && !Kept(Run(selected, [], cap, [b, c]), 1) && Kept(Run(selected, [], cap, [c, b]), 1)
  {
    KeyColumns();
    PairIsValid(ROWS, false);
    PairIsValid(ROW, true);
    SoundRowsFirst();
    NullFirst();
    var two, b, c := [true, true], Pair(ROWS, false), Pair(ROW, true);
    var bs := [b, c];
    PairIsSteady();
    PairDue(1);
    PairDue(2);
    hide Run, ValidBatch, Kept, Steady, Due;
    assert two[0] && two[1];
    assert !Kept(Run(two, [], 24, bs), 1) && Kept(Run(two, [], 24, [c, b]), 1);
  }

  lemma PairChosen(values: seq<int>, gap: bool, m: nat)
    requires m <= 2
    ensures ChosenBytes([true, true], Pair(values, gap).columns, m) == 8 * |values| * m
  {
    var two, columns := [true, true], Pair(values, gap).columns;
    assert two[0] && two[1] && columns[0].bytes == columns[1].bytes == 8 * |values|;
    assert ChosenBytes(two, columns, 0) == 0;
    assert ChosenBytes(two, columns, 1) == 8 * |values|;
  }

  lemma PairDue(m: nat)
    requires m <= 2
    ensures Due([true, true], [Pair(ROWS, false), Pair(ROW, true)], m) == 24 * m
  {
    var two, b, c := [true, true], Pair(ROWS, false), Pair(ROW, true);
    var bs := [b, c];
    assert bs[..1] == [b] && [b][..0] == [];
    PairChosen(ROWS, false, m);
    PairChosen(ROW, true, m);
    hide ChosenBytes;
    assert Due(two, [b], m) == ChosenBytes(two, b.columns, m);
    assert Due(two, bs, m) == Due(two, [b], m) + ChosenBytes(two, c.columns, m);
  }

  lemma PairIsSteady()
    ensures Steady([true, true], [Pair(ROWS, false), Pair(ROW, true)])
  {
    var bs := [Pair(ROWS, false), Pair(ROW, true)];
    assert bs[..1] == [bs[0]] && bs[..1][..0] == [];
    assert TotalRows(bs[..1]) == 2;
    assert [true, true][0];
  }
}
