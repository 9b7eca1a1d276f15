/**
  The pin-time uniqueness probe: per-chunk evidence that a column's values are distinct over
  a whole pinned table, and the verdicts drawn from it.

  A column chunk is the sequence of its values; for types without an integer value the
  integers stand for the values up to equality. What the device calls answer beyond the data
  (a failed read, a refused reservation, an exception) comes in a `Look`.
 */
module UniqueProbe {

  datatype ColumnChunk = ColumnChunk(values: seq<int>, nulls: bool, integral: bool, bytes: nat)

  datatype Range = Range(lo: int, hi: int)

  datatype ProbeColumn = ProbeColumn(
    observed: bool, candidate: bool, automatic: bool, undecidable: bool, exactAvailable: bool, ranges: seq<Range>)

  /** `sorted` is what a device sort of the chunk returns. */
  datatype Look = Look(readable: bool, reserves: bool, throws: bool, sorted: seq<int>)

  datatype Verdict = NotObserved | Refused | Undecided | Proven

  // -------------------------------------------------------------------- plain facts

  predicate NoDup(s: seq<int>) {
    forall i, j :: 0 <= i < j < |s| ==> s[i] != s[j]
  }

  predicate Ascending(s: seq<int>) {
    forall i, j :: 0 <= i < j < |s| ==> s[i] <= s[j]
  }

  predicate SortsTo(values: seq<int>, sorted: seq<int>) {
    Ascending(sorted) && multiset(sorted) == multiset(values)
  }

  /** Number of runs of equal neighbours: what `unique_count` returns. */
  function Runs(s: seq<int>): nat {
    if |s| == 0 then 0
    else if |s| == 1 then 1
    else Runs(s[1..]) + if s[0] == s[1] then 0 else 1
  }

  function Min(s: seq<int>): (m: int)
    requires s != []
    ensures m in s && forall i :: 0 <= i < |s| ==> m <= s[i]
  {
    if |s| == 1 then s[0] else var r := Min(s[1..]); if s[0] < r then s[0] else r
  }

  function Max(s: seq<int>): (m: int)
    requires s != []
    ensures m in s && forall i :: 0 <= i < |s| ==> s[i] <= m
  {
    if |s| == 1 then s[0] else var r := Max(s[1..]); if s[0] > r then s[0] else r
  }

  function Concat(chunks: seq<seq<int>>): seq<int> {
    if chunks == [] then [] else Concat(chunks[..|chunks| - 1]) + chunks[|chunks| - 1]
  }

  predicate Overlap(a: Range, b: Range) {
    a.lo <= b.hi && b.lo <= a.hi
  }

  predicate PairwiseDisjoint(rs: seq<Range>) {
    forall i, j :: 0 <= i < j < |rs| ==> !Overlap(rs[i], rs[j])
  }

  // ---------------------------------------------------------------------- the probe

  function Drop(c: ProbeColumn): ProbeColumn {
    if c.candidate then c.(candidate := false, ranges := []) else c
  }

  /** `exact_unavailable`: the exact stage can no longer settle the column. */
  function ExactUnavailable(c: ProbeColumn): ProbeColumn {
    c.(exactAvailable := false)
  }

  predicate OverlapsEarlier(c: ProbeColumn, r: Range) {
    exists k :: 0 <= k < |c.ranges| && Overlap(c.ranges[k], r)
  }

  /** The count over the chunk, or over its sorted copy, and what follows from it. */
  function Judge(c: ProbeColumn, chunk: ColumnChunk, look: Look, sorted: seq<int>): ProbeColumn
    requires chunk.values != []
  {
    if Runs(sorted) != |chunk.values| then Drop(c)
    else if !look.readable then c.(undecidable := true)
    else c.(ranges := c.ranges + [Range(Min(chunk.values), Max(chunk.values))])
  }

  /** `observe` for one column that is still a candidate. */
  function ObserveColumn(c: ProbeColumn, chunk: ColumnChunk, look: Look): ProbeColumn {
    if !c.candidate || chunk.values == [] then c
    else if chunk.nulls then Drop(c)
    else if !chunk.integral then (if c.automatic then Drop(c) else c.(undecidable := true))
    else if look.throws then Drop(c)
    else if c.automatic && !c.exactAvailable &&
            (!look.readable || OverlapsEarlier(c, Range(Min(chunk.values), Max(chunk.values)))) then Drop(c)
    else if Ascending(chunk.values) then Judge(c, chunk, look, chunk.values)
    else if !c.automatic then c.(undecidable := true)
    else if !look.reserves then Drop(c)
    else Judge(c, chunk, look, look.sorted)
  }

  function Insert(r: Range, rs: seq<Range>): seq<Range> {
    if rs == [] || r.lo < rs[0].lo then [r] + rs else [rs[0]] + Insert(r, rs[1..])
  }

  /** The ranges sorted by their lower bound. */
  function SortByLo(rs: seq<Range>): seq<Range> {
    if rs == [] then [] else Insert(rs[0], SortByLo(rs[1..]))
  }

  predicate NeighboursDisjoint(rs: seq<Range>) {
    forall r :: 1 <= r < |rs| ==> rs[r - 1].hi < rs[r].lo
  }

  function VerdictOf(c: ProbeColumn): Verdict {
    if !c.observed then NotObserved
    else if !c.candidate then Refused
    else if c.undecidable then Undecided
    else if NeighboursDisjoint(SortByLo(c.ranges)) then Proven
    else Undecided
  }

  // ------------------------------------------------------------- a verdict's evidence

  predicate Covers(r: Range, values: seq<int>) {
    r.lo <= r.hi && forall i :: 0 <= i < |values| ==> r.lo <= values[i] <= r.hi
  }

  /** One range for each non-empty chunk, in order, and no repeat inside any chunk. */
  predicate Evidence(chunks: seq<seq<int>>, ranges: seq<Range>)
    decreases |chunks|
  {
    if chunks == [] then ranges == []
    else
      var last, before := chunks[|chunks| - 1], chunks[..|chunks| - 1];
      if last == [] then Evidence(before, ranges)
      else
        && ranges != [] && NoDup(last) && Covers(ranges[|ranges| - 1], last)
        && Evidence(before, ranges[..|ranges| - 1])
  }

  /** What the probe knows of a column after `chunks`. */
  predicate ColumnOk(c: ProbeColumn, chunks: seq<seq<int>>) {
    && (c.candidate ==> c.observed)
    && (c.candidate && !c.undecidable ==> Evidence(chunks, c.ranges))
  }

  lemma {:induction false} RunsOfSorted(s: seq<int>)
    requires Ascending(s)
    ensures Runs(s) <= |s|
    ensures Runs(s) == |s| <==> NoDup(s)
    decreases |s|
  {
    if |s| >= 2 {
      var t := s[1..];
      assert Ascending(t);
      RunsOfSorted(t);
      if NoDup(t) && s[0] != s[1] {
        forall j | 1 <= j < |s| ensures s[0] != s[j] { assert s[1] <= s[j]; }
        assert forall i, j :: 1 <= i < j < |s| ==> s[i] == t[i - 1] && s[j] == t[j - 1];
      }
      if NoDup(s) { assert forall i :: 0 <= i < |t| ==> t[i] == s[i + 1]; }
    }
  }

  lemma RepeatCounts(s: seq<int>, i: nat, j: nat)
    requires i < j < |s| && s[i] == s[j]
    ensures multiset(s)[s[i]] >= 2
  {
    assert s == s[..j] + s[j..];
    assert multiset(s) == multiset(s[..j]) + multiset(s[j..]);
    assert s[..j][i] == s[i] && s[j..][0] == s[j];
  }

  lemma {:induction false} NoDupCounts(s: seq<int>, x: int)
    requires NoDup(s)
    ensures multiset(s)[x] <= 1
    decreases |s|
  {
    if s != [] {
      var t := s[1..];
      NoDupCounts(t, x);
      assert s == [s[0]] + t;
      assert multiset(s) == multiset{s[0]} + multiset(t);
      if x == s[0] { assert x !in t; }
    }
  }

  lemma SortKeepsNoDup(values: seq<int>, sorted: seq<int>)
    requires SortsTo(values, sorted)
    ensures NoDup(values) <==> NoDup(sorted)
  {
    if NoDup(values) { SameNoDup(values, sorted); }
    if NoDup(sorted) { SameNoDup(sorted, values); }
  }

  /** Distinctness does not depend on order. */
  lemma SameNoDup(a: seq<int>, b: seq<int>)
    requires multiset(a) == multiset(b) && NoDup(a)
    ensures NoDup(b)
  {
    forall i, j | 0 <= i < j < |b| ensures b[i] != b[j] {
      NoDupCounts(a, b[i]);
      if b[i] == b[j] { RepeatCounts(b, i, j); }
    }
  }

  /** Observing a chunk keeps the evidence for every chunk so far; a dropped column stays dropped. */
  lemma ObserveKeepsEvidence(c: ProbeColumn, chunks: seq<seq<int>>, chunk: ColumnChunk, look: Look)
    requires ColumnOk(c, chunks) && SortsTo(chunk.values, look.sorted)
    ensures ColumnOk(ObserveColumn(c, chunk, look), chunks + [chunk.values])
    ensures ObserveColumn(c, chunk, look).candidate ==> c.candidate
    ensures ObserveColumn(c, chunk, look).observed == c.observed
  {
    var more := chunks + [chunk.values];
    assert more[..|more| - 1] == chunks;
    var c' := ObserveColumn(c, chunk, look);
    if c'.candidate && !c'.undecidable && chunk.values != [] {
      var sorted := if Ascending(chunk.values) then chunk.values else look.sorted;
      assert |multiset(look.sorted)| == |multiset(chunk.values)|;
      RunsOfSorted(sorted);
      SortKeepsNoDup(chunk.values, look.sorted);
      hide Runs, Ascending;
      var r := Range(Min(chunk.values), Max(chunk.values));
      assert Covers(r, chunk.values) by { assert r.lo <= chunk.values[0] <= r.hi; }
      hide Min, Max, Covers;
      assert c'.ranges == c.ranges + [r] && c'.ranges[..|c'.ranges| - 1] == c.ranges;
    }
  }

  // -------------------------------------------------------------- verdicts are sound

  /** Pairwise disjointness from the front, which sorting keeps. */
  predicate Apart(rs: seq<Range>) {
    rs == [] || ((forall x :: x in rs[1..] ==> !Overlap(rs[0], x)) && Apart(rs[1..]))
  }

  lemma {:induction false} InsertMembers(r: Range, rs: seq<Range>, x: Range)
    ensures x in Insert(r, rs) <==> x == r || x in rs
    decreases |rs|
  {
    if rs != [] && rs[0].lo <= r.lo {
      InsertMembers(r, rs[1..], x);
      assert rs == [rs[0]] + rs[1..];
    }
  }

  lemma {:induction false} SortMembers(rs: seq<Range>, x: Range)
    ensures x in SortByLo(rs) <==> x in rs
    decreases |rs|
  {
    if rs != [] {
      SortMembers(rs[1..], x);
      InsertMembers(rs[0], SortByLo(rs[1..]), x);
      assert rs == [rs[0]] + rs[1..];
    }
  }

  lemma {:induction false} InsertApart(r: Range, rs: seq<Range>)
    requires Apart(Insert(r, rs))
    ensures Apart(rs) && forall x :: x in rs ==> !Overlap(r, x)
    decreases |rs|
  {
    var s := Insert(r, rs);
    if rs == [] || r.lo < rs[0].lo {
      assert s[0] == r && s[1..] == rs;
    } else {
      assert s[0] == rs[0] && s[1..] == Insert(r, rs[1..]);
      InsertApart(r, rs[1..]);
      forall x | x in rs[1..] ensures !Overlap(rs[0], x) { InsertMembers(r, rs[1..], x); }
      InsertMembers(r, rs[1..], r);
      assert !Overlap(rs[0], r);
      assert forall x :: x in rs ==> x == rs[0] || x in rs[1..];
    }
  }

  lemma {:induction false} SortApart(rs: seq<Range>)
    requires Apart(SortByLo(rs))
    ensures Apart(rs)
    decreases |rs|
  {
    if rs != [] {
      var s := SortByLo(rs[1..]);
      InsertApart(rs[0], s);
      SortApart(rs[1..]);
      forall x | x in rs[1..] ensures !Overlap(rs[0], x) { SortMembers(rs[1..], x); }
    }
  }

  lemma {:induction false} ApartPairs(rs: seq<Range>)
    requires Apart(rs)
    ensures PairwiseDisjoint(rs)
    decreases |rs|
  {
    if rs != [] {
      ApartPairs(rs[1..]);
      forall i, j | 0 <= i < j < |rs| ensures !Overlap(rs[i], rs[j]) {
        assert rs[j] == rs[1..][j - 1];
        if i > 0 { assert rs[i] == rs[1..][i - 1]; }
      }
    }
  }

  /** Proper ranges in order whose neighbours are disjoint are disjoint pair by pair. */
  lemma {:induction false} NeighboursApart(rs: seq<Range>)
    requires NeighboursDisjoint(rs) && forall k :: 0 <= k < |rs| ==> rs[k].lo <= rs[k].hi
    ensures Apart(rs)
    decreases |rs|
  {
    if rs != [] {
      assert forall k :: 0 <= k < |rs[1..]| ==> rs[1..][k] == rs[k + 1];
      NeighboursApart(rs[1..]);
      forall x | x in rs[1..] ensures !Overlap(rs[0], x) {
        var j :| 0 <= j < |rs[1..]| && rs[1..][j] == x;
        Climb(rs, 0, j + 1);
      }
    }
  }

  lemma {:induction false} Climb(rs: seq<Range>, i: nat, j: nat)
    requires i < j < |rs|
    requires NeighboursDisjoint(rs) && forall k :: 0 <= k < |rs| ==> rs[k].lo <= rs[k].hi
    ensures rs[i].hi < rs[j].lo
    decreases j
  {
    if i + 1 < j {
      Climb(rs, i, j - 1);
      assert rs[j - 1].hi < rs[j].lo;
    }
  }

  lemma {:induction false} EvidenceIsProper(chunks: seq<seq<int>>, ranges: seq<Range>)
    requires Evidence(chunks, ranges)
    ensures forall k :: 0 <= k < |ranges| ==> ranges[k].lo <= ranges[k].hi
    decreases |chunks|
  {
    if chunks != [] {
      var before := chunks[..|chunks| - 1];
      if chunks[|chunks| - 1] == [] { EvidenceIsProper(before, ranges); } else {
        EvidenceIsProper(before, ranges[..|ranges| - 1]);
      }
    }
  }

  /** Every value seen lies in one of the ranges. */
  lemma {:induction false} EvidenceCovers(chunks: seq<seq<int>>, ranges: seq<Range>, i: nat)
    requires Evidence(chunks, ranges) && i < |Concat(chunks)|
    ensures exists k :: 0 <= k < |ranges| && ranges[k].lo <= Concat(chunks)[i] <= ranges[k].hi
    decreases |chunks|
  {
    var last, before := chunks[|chunks| - 1], chunks[..|chunks| - 1];
    var n := |Concat(before)|;
    if last == [] {
      EvidenceCovers(before, ranges, i);
    } else if i < n {
      var rs := ranges[..|ranges| - 1];
      EvidenceCovers(before, rs, i);
      var k :| 0 <= k < |rs| && rs[k].lo <= Concat(before)[i] <= rs[k].hi;
      assert ranges[k] == rs[k];
    } else {
      assert Concat(chunks)[i] == last[i - n];
    }
  }

  lemma {:induction false} DisjointEvidenceIsDistinct(chunks: seq<seq<int>>, ranges: seq<Range>)
    requires Evidence(chunks, ranges) && PairwiseDisjoint(ranges)
    ensures NoDup(Concat(chunks))
    decreases |chunks|
  {
    if chunks != [] {
      var last, before := chunks[|chunks| - 1], chunks[..|chunks| - 1];
      var head := Concat(before);
      if last == [] {
        DisjointEvidenceIsDistinct(before, ranges);
      } else {
        var rs := ranges[..|ranges| - 1];
        DisjointEvidenceIsDistinct(before, rs);
        forall i, j | 0 <= i < |head| && 0 <= j < |last| ensures head[i] != last[j] {
          EvidenceCovers(before, rs, i);
          var k :| 0 <= k < |rs| && rs[k].lo <= head[i] <= rs[k].hi;
          assert !Overlap(ranges[k], ranges[|ranges| - 1]);
        }
        JoinNoDup(head, last);
      }
    }
  }

  lemma JoinNoDup(a: seq<int>, b: seq<int>)
    requires NoDup(a) && NoDup(b) && forall i, j :: 0 <= i < |a| && 0 <= j < |b| ==> a[i] != b[j]
    ensures NoDup(a + b)
  {
  }

  /** A column the cheap stage calls proven holds no value twice in all the chunks it was shown. */
  lemma ProvenIsDistinct(c: ProbeColumn, chunks: seq<seq<int>>)
    requires ColumnOk(c, chunks) && VerdictOf(c) == Proven
    ensures NoDup(Concat(chunks))
  {
    EvidenceIsProper(chunks, c.ranges);
    var s := SortByLo(c.ranges);
    forall k | 0 <= k < |s| ensures s[k].lo <= s[k].hi { SortMembers(c.ranges, s[k]); }
    NeighboursApart(s);
    SortApart(c.ranges);
    ApartPairs(c.ranges);
    DisjointEvidenceIsDistinct(chunks, c.ranges);
  }

  // ----------------------------------------------------------- verdicts are complete

  predicate ByLo(rs: seq<Range>) {
    forall i, j :: 0 <= i < j < |rs| ==> rs[i].lo <= rs[j].lo
  }

  lemma {:induction false} InsertByLo(r: Range, rs: seq<Range>)
    requires ByLo(rs)
    ensures ByLo(Insert(r, rs))
    decreases |rs|
  {
    if rs != [] && rs[0].lo <= r.lo {
      InsertByLo(r, rs[1..]);
      var s := Insert(r, rs[1..]);
      forall j | 0 <= j < |s| ensures rs[0].lo <= s[j].lo {
        InsertMembers(r, rs[1..], s[j]);
        if s[j] != r { assert s[j] in rs[1..]; }
      }
    }
  }

  lemma {:induction false} SortIsByLo(rs: seq<Range>)
    ensures ByLo(SortByLo(rs))
    decreases |rs|
  {
    if rs != [] {
      SortIsByLo(rs[1..]);
      InsertByLo(rs[0], SortByLo(rs[1..]));
    }
  }

  lemma {:induction false} ApartInsert(r: Range, rs: seq<Range>)
    requires Apart(rs) && forall x :: x in rs ==> !Overlap(r, x)
    ensures Apart(Insert(r, rs))
    decreases |rs|
  {
    var s := Insert(r, rs);
    if rs == [] || r.lo < rs[0].lo {
      assert s[1..] == rs;
    } else {
      ApartInsert(r, rs[1..]);
      assert s[1..] == Insert(r, rs[1..]);
      assert rs[0] in rs;
      forall x | x in s[1..] ensures !Overlap(rs[0], x) { InsertMembers(r, rs[1..], x); }
    }
  }

  lemma {:induction false} ApartSorts(rs: seq<Range>)
    requires Apart(rs)
    ensures Apart(SortByLo(rs))
    decreases |rs|
  {
    if rs != [] {
      ApartSorts(rs[1..]);
      forall x | x in SortByLo(rs[1..]) ensures !Overlap(rs[0], x) { SortMembers(rs[1..], x); }
      ApartInsert(rs[0], SortByLo(rs[1..]));
    }
  }

  lemma {:induction false} PairsApart(rs: seq<Range>)
    requires PairwiseDisjoint(rs)
    ensures Apart(rs)
    decreases |rs|
  {
    if rs != [] {
      assert forall k :: 0 <= k < |rs[1..]| ==> rs[1..][k] == rs[k + 1];
      PairsApart(rs[1..]);
    }
  }

  /** The sorted neighbours are disjoint exactly when the ranges are, pair by pair. */
  lemma NeighboursDecide(rs: seq<Range>)
    requires forall k :: 0 <= k < |rs| ==> rs[k].lo <= rs[k].hi
    ensures NeighboursDisjoint(SortByLo(rs)) <==> PairwiseDisjoint(rs)
  {
    var s := SortByLo(rs);
    forall k | 0 <= k < |s| ensures s[k].lo <= s[k].hi { SortMembers(rs, s[k]); }
    if NeighboursDisjoint(s) {
      NeighboursApart(s);
      SortApart(rs);
      ApartPairs(rs);
    }
    if PairwiseDisjoint(rs) {
      PairsApart(rs);
      ApartSorts(rs);
      ApartPairs(s);
      SortIsByLo(rs);
    }
  }
}
