/**
  The device pin's slab: the compressed leaves of a batch laid out in one payload at aligned
  offsets, and the positional allocator that hands the slices back when the batch is re-read.
  Byte counts are unbounded here; their sums are taken to fit in 64 bits.
 */
module SlabLayout {
  import opened Basics

  /** A compressed leaf: encoded size, decoded footprint, and its bytes unless the device pointer is null. */
  datatype Leaf = Leaf(size: nat, alloc: nat, present: bool, data: seq<Byte>)

  predicate ValidLeaf(b: Leaf) {
    b.present ==> |b.data| == b.size
  }

  const LEAF_ALIGN: nat := 256

  function AlignUp(n: nat): (r: nat)
    ensures r % 256 == 0 && n <= r < n + 256
  {
    (n + LEAF_ALIGN - 1) / LEAF_ALIGN * LEAF_ALIGN
  }

  /** The larger of the encoded and the decoded size: the slice has to hold either. */
  function Footprint(b: Leaf): (r: nat)
    ensures b.size <= r && b.alloc <= r && (r == b.size || r == b.alloc)
  {
    if b.size > b.alloc then b.size else b.alloc
  }

  // ------------------------------------------------------------------ the layout

  function Last<T>(s: seq<T>): T requires s != [] { s[|s| - 1] }

  function Init<T>(s: seq<T>): seq<T> requires s != [] { s[..|s| - 1] }

  /** The leaves that get a slot, in order. */
  function Slots(bs: seq<Leaf>): seq<nat> {
    if bs == [] then [] else Slots(Init(bs)) + if Footprint(Last(bs)) > 0 then [|bs| - 1] else []
  }

  /** The cursor after laying out `bs`. */
  function End(bs: seq<Leaf>): nat {
    if bs == [] then 0
    else if Footprint(Last(bs)) == 0 then End(Init(bs))
    else AlignUp(End(Init(bs))) + Footprint(Last(bs))
  }

  function Offsets(bs: seq<Leaf>): seq<nat> {
    if bs == [] then [] else Offsets(Init(bs)) + if Footprint(Last(bs)) > 0 then [AlignUp(End(Init(bs)))] else []
  }

  function Capacity(bs: seq<Leaf>): (r: nat)
    ensures r % 256 == 0 && End(bs) + 256 <= r < End(bs) + 512
  {
    AlignUp(End(bs)) + LEAF_ALIGN
  }

  /** Slot `k` belongs to the `k`-th leaf with a footprint. */
  lemma {:induction false} SlotsInOrder(bs: seq<Leaf>)
    ensures |Slots(bs)| == |Offsets(bs)|
    ensures forall k :: 0 <= k < |Slots(bs)| ==> Slots(bs)[k] < |bs| && Footprint(bs[Slots(bs)[k]]) > 0
    ensures forall a, b :: 0 <= a < b < |Slots(bs)| ==> Slots(bs)[a] < Slots(bs)[b]
    decreases |bs|
  {
    if bs != [] { SlotsInOrder(Init(bs)); }
  }

  /** A leaf with a footprint owns the slot numbered by the leaves with one before it. */
  lemma {:induction false} OwnSlot(bs: seq<Leaf>, i: nat)
    requires i < |bs| && Footprint(bs[i]) > 0
    ensures |Slots(bs[..i])| < |Slots(bs)| && Slots(bs)[|Slots(bs[..i])|] == i
    decreases |bs|
  {
    if i < |bs| - 1 {
      OwnSlot(Init(bs), i);
      assert Init(bs)[..i] == bs[..i];
    }
  }

  /** Slices are aligned, in order, apart, and before the final cursor. */
  lemma {:induction false} SlicesApart(bs: seq<Leaf>)
    ensures |Slots(bs)| == |Offsets(bs)|
    ensures forall k :: 0 <= k < |Slots(bs)| ==> Slots(bs)[k] < |bs|
    ensures forall k :: 0 <= k < |Offsets(bs)| ==> Offsets(bs)[k] % 256 == 0
    ensures forall k :: 0 <= k < |Offsets(bs)| ==>
      Offsets(bs)[k] + Footprint(bs[Slots(bs)[k]]) <= End(bs)
    ensures forall a, b :: 0 <= a < b < |Offsets(bs)| ==>
      Offsets(bs)[a] < Offsets(bs)[a] + Footprint(bs[Slots(bs)[a]]) <= Offsets(bs)[b]
    decreases |bs|
  {
    SlotsInOrder(bs);
    if bs != [] {
      var rest := Init(bs);
      SlicesApart(rest);
      assert forall k :: 0 <= k < |Slots(rest)| ==> rest[Slots(rest)[k]] == bs[Slots(rest)[k]];
    }
  }

  /** Where slice `k` ends. */
  function SliceEnd(bs: seq<Leaf>, k: nat): nat
    requires k < |Offsets(bs)| && k < |Slots(bs)| && Slots(bs)[k] < |bs|
  {
    Offsets(bs)[k] + Footprint(bs[Slots(bs)[k]])
  }

  /** The cursor ends where the last slice does. */
  lemma {:induction false} EndOfLast(bs: seq<Leaf>)
    requires Offsets(bs) != []
    ensures |Slots(bs)| == |Offsets(bs)| && Slots(bs)[|Slots(bs)| - 1] < |bs|
    ensures End(bs) == SliceEnd(bs, |Offsets(bs)| - 1)
    decreases |bs|
  {
    SlotsInOrder(bs);
    if Footprint(Last(bs)) == 0 { EndOfLast(Init(bs)); }
  }

  /** No gap is wider than the alignment: each slice starts at the first aligned byte after the one before. */
  lemma {:induction false} SlicesTight(bs: seq<Leaf>, k: nat)
    requires k < |Offsets(bs)|
    ensures |Slots(bs)| == |Offsets(bs)| && (k > 0 ==> Slots(bs)[k - 1] < |bs|)
    ensures Offsets(bs)[k] == if k == 0 then 0 else AlignUp(SliceEnd(bs, k - 1))
    decreases |bs|
  {
    SlotsInOrder(bs);
    var rest := Init(bs);
    SlotsInOrder(rest);
    if k < |Offsets(rest)| {
      SlicesTight(rest, k);
      hide AlignUp;
    } else if k == 0 {
      EmptyEnd(rest);
    } else {
      EndOfLast(rest);
      hide AlignUp;
    }
  }

  lemma {:induction false} EmptyEnd(bs: seq<Leaf>)
    requires Offsets(bs) == []
    ensures End(bs) == 0 && AlignUp(0) == 0
    decreases |bs|
  {
    if bs != [] { EmptyEnd(Init(bs)); }
  }

  // --------------------------------------------------------------- the payload

  /** The slots point at leaves and their slices lie in a payload of `length` bytes. */
  predicate Fits(bs: seq<Leaf>, offsets: seq<nat>, slots: seq<nat>, length: nat) {
    && |offsets| == |slots|
    && forall k :: 0 <= k < |slots| ==> slots[k] < |bs| && offsets[k] + Footprint(bs[slots[k]]) <= length
  }

  /** Byte `p` is in none of the copies made for the first `n` slots. */
  predicate Uncopied(bs: seq<Leaf>, offsets: seq<nat>, slots: seq<nat>, n: nat, p: nat)
    requires n <= |offsets| == |slots| && forall k :: 0 <= k < |slots| ==> slots[k] < |bs|
  {
    forall k :: 0 <= k < n && bs[slots[k]].present ==> p < offsets[k] || offsets[k] + bs[slots[k]].size <= p
  }

  predicate Holds(payload: seq<Byte>, offset: nat, data: seq<Byte>) {
    offset + |data| <= |payload| && payload[offset..offset + |data|] == data
  }

  method PlaceLeaves(bs: seq<Leaf>) returns (offsets: seq<nat>, slots: seq<nat>, cur: nat)
    ensures offsets == Offsets(bs) && slots == Slots(bs) && cur == End(bs)
  {
    offsets, slots, cur := [], [], 0;
    var i := 0;
    while i < |bs|
      invariant i <= |bs|
      invariant offsets == Offsets(bs[..i]) && slots == Slots(bs[..i]) && cur == End(bs[..i])
    {
      assert Init(bs[..i + 1]) == bs[..i];
      var n := if bs[i].size > bs[i].alloc then bs[i].size else bs[i].alloc;
      if n != 0 {
        cur := AlignUp(cur);
        offsets := offsets + [cur];
        slots := slots + [i];
        cur := cur + n;
      }
      i := i + 1;
    }
    assert bs[..i] == bs;
  }

  /** The payload after the zero fill and the copies: each slice holds its leaf's bytes, all else is zero. */
  method FillPayload(bs: seq<Leaf>) returns (offsets: seq<nat>, slots: seq<nat>, payload: array<Byte>)
    requires forall i :: 0 <= i < |bs| ==> ValidLeaf(bs[i])
    ensures offsets == Offsets(bs) && slots == Slots(bs)
    ensures fresh(payload) && payload.Length == Capacity(bs) && Fits(bs, offsets, slots, payload.Length)
    ensures forall k :: 0 <= k < |slots| && bs[slots[k]].present ==> Holds(payload[..], offsets[k], bs[slots[k]].data)
    ensures forall p :: 0 <= p < payload.Length && Uncopied(bs, offsets, slots, |slots|, p) ==> payload[p] == 0
  {
    var cur;
    offsets, slots, cur := PlaceLeaves(bs);
    SlicesApart(bs);
    hide Slots, Offsets, End, AlignUp;
    payload := new Byte[AlignUp(cur) + LEAF_ALIGN];
    forall p | 0 <= p < payload.Length { payload[p] := 0; }
    var k := 0;
    while k < |offsets|
      invariant k <= |offsets|
      invariant forall h :: 0 <= h < k && bs[slots[h]].present ==> Holds(payload[..], offsets[h], bs[slots[h]].data)
      invariant forall p :: 0 <= p < payload.Length && Uncopied(bs, offsets, slots, k, p) ==> payload[p] == 0
    {
      var b := bs[slots[k]];
      if b.size > 0 && b.present {
        ghost var before := payload[..];
        CopyInto(payload, offsets[k], b.data);
        forall h | 0 <= h < k && bs[slots[h]].present ensures Holds(payload[..], offsets[h], bs[slots[h]].data) {
          assert Holds(before, offsets[h], bs[slots[h]].data);
          assert offsets[h] + bs[slots[h]].size <= offsets[k];
          KeepsEarlier(before, payload[..], offsets[h], bs[slots[h]].data, offsets[k]);
        }
      }
      forall p | 0 <= p < payload.Length && Uncopied(bs, offsets, slots, k + 1, p) ensures payload[p] == 0 {
        assert Uncopied(bs, offsets, slots, k, p);
      }
      k := k + 1;
    }
  }

  lemma KeepsEarlier(before: seq<Byte>, after: seq<Byte>, offset: nat, data: seq<Byte>, start: nat)
    requires |before| == |after| && Holds(before, offset, data) && offset + |data| <= start <= |before|
    requires forall p :: 0 <= p < start ==> after[p] == before[p]
    ensures Holds(after, offset, data)
  {
  }

  method CopyInto(payload: array<Byte>, offset: nat, data: seq<Byte>)
    requires offset + |data| <= payload.Length
    modifies payload
    ensures Holds(payload[..], offset, data)
    ensures forall p :: 0 <= p < payload.Length && (p < offset || offset + |data| <= p) ==>
      payload[p] == old(payload[p])
  {
    forall j | 0 <= j < |data| { payload[offset + j] := data[j]; }
  }

  // ------------------------------------------------------------- reading it back

  /** Leaves before `i` that allocate when the batch is re-read: the slab's cursor at leaf `i`. */
  function Rank(bs: seq<Leaf>): nat {
    if bs == [] then 0 else Rank(Init(bs)) + if Last(bs).alloc > 0 then 1 else 0
  }

  /** The offset the slab hands to its `k`-th caller: its base once the slots are used up. */
  function Handed(offsets: seq<nat>, k: nat): nat {
    if k < |offsets| then offsets[k] else 0
  }

  class Slab {
    const offsets: seq<nat>
    var cursor: nat

    constructor (offsets: seq<nat>)
      ensures this.offsets == offsets && cursor == 0
    {
      this.offsets := offsets;
      cursor := 0;
    }

    method Bump() returns (offset: nat)
      modifies this
      ensures cursor == old(cursor) + 1 && offset == Handed(offsets, old(cursor))
    {
      var k := cursor;
      cursor := cursor + 1;
      if k >= |offsets| { return 0; }
      return offsets[k];
    }
  }

  /** Re-reading allocates one column for each leaf, in order; an empty column allocates nothing. */
  method Reread(bs: seq<Leaf>, slab: Slab) returns (handed: seq<nat>)
    requires slab.cursor == 0
    modifies slab
    ensures |handed| == |bs|
    ensures forall i :: 0 <= i < |bs| && bs[i].alloc > 0 ==> handed[i] == Handed(slab.offsets, Rank(bs[..i]))
  {
    hide Handed, Slots, Offsets;
    handed := [];
    var i := 0;
    while i < |bs|
      invariant i <= |bs| && |handed| == i && slab.cursor == Rank(bs[..i])
      invariant forall j :: 0 <= j < i && bs[j].alloc > 0 ==> handed[j] == Handed(slab.offsets, Rank(bs[..j]))
    {
      assert Init(bs[..i + 1]) == bs[..i];
      var offset := 0;
      if bs[i].alloc > 0 { offset := slab.Bump(); }
      handed := handed + [offset];
      i := i + 1;
    }
  }

  /** A leaf that has bytes but no decoded footprint: it takes a slot and never asks for it. */
  predicate Idle(b: Leaf) {
    b.alloc == 0 && b.size > 0
  }

  lemma {:induction false} RankBelowSlots(bs: seq<Leaf>)
    ensures Rank(bs) <= |Slots(bs)|
    ensures Rank(bs) == |Slots(bs)| <==> forall j :: 0 <= j < |bs| ==> !Idle(bs[j])
    decreases |bs|
  {
    if bs != [] {
      var rest := Init(bs);
      RankBelowSlots(rest);
      assert forall j :: 0 <= j < |rest| ==> rest[j] == bs[j];
      assert bs[|bs| - 1] == Last(bs);
      if !Idle(Last(bs)) && forall j :: 0 <= j < |rest| ==> !Idle(rest[j]) {
        forall j | 0 <= j < |bs| ensures !Idle(bs[j]) { if j < |rest| { assert !Idle(rest[j]); } }
      }
    }
  }

  /** Leaf `i` is handed its own slice exactly when no idle leaf comes before it. */
  lemma HandedOwnSlice(bs: seq<Leaf>, i: nat)
    requires i < |bs| && bs[i].alloc > 0
    ensures |Slots(bs[..i])| < |Slots(bs)| == |Offsets(bs)| && Slots(bs)[|Slots(bs[..i])|] == i
    ensures Handed(Offsets(bs), Rank(bs[..i])) == Offsets(bs)[|Slots(bs[..i])|] <==>
      forall j :: 0 <= j < i ==> !Idle(bs[j])
  {
    OwnSlot(bs, i);
    SlicesApart(bs);
    SlotsInOrder(bs);
    RankBelowSlots(bs[..i]);
    assert forall j :: 0 <= j < i ==> bs[..i][j] == bs[j];
    assert (forall j :: 0 <= j < i ==> !Idle(bs[j])) <==> forall j :: 0 <= j < |bs[..i]| ==> !Idle(bs[..i][j]);
  }

  /** Re-reading hands every leaf its own slice exactly when no idle leaf precedes one that allocates. */
  lemma RereadMatchesLayout(bs: seq<Leaf>)
    ensures (forall i :: 0 <= i < |bs| && bs[i].alloc > 0 ==>
        |Slots(bs[..i])| < |Offsets(bs)| && Handed(Offsets(bs), Rank(bs[..i])) == Offsets(bs)[|Slots(bs[..i])|])
      <==> (forall j, i :: 0 <= j < i < |bs| && bs[i].alloc > 0 ==> !Idle(bs[j]))
  {
    forall i | 0 <= i < |bs| && bs[i].alloc > 0
      ensures |Slots(bs[..i])| < |Offsets(bs)|
      ensures Handed(Offsets(bs), Rank(bs[..i])) == Offsets(bs)[|Slots(bs[..i])|] <==>
        forall j :: 0 <= j < i ==> !Idle(bs[j])
    {
      HandedOwnSlice(bs, i);
    }
  }

  /**
    The whole staging of a device batch: lay out, fill, re-read through the slab. A leaf with no idle
    leaf before it is handed a slice of its footprint that holds its bytes.
   */
  method StageBatch(bs: seq<Leaf>) returns (payload: array<Byte>, handed: seq<nat>)
    requires forall i :: 0 <= i < |bs| ==> ValidLeaf(bs[i])
    ensures fresh(payload) && |handed| == |bs|
    ensures forall i :: 0 <= i < |bs| && bs[i].alloc > 0 && (forall j :: 0 <= j < i ==> !Idle(bs[j])) ==>
      HandedWell(payload[..], handed[i], bs[i])
  {
    var offsets, slots;
    offsets, slots, payload := FillPayload(bs);
    ghost var filled := payload[..];
    var slab := new Slab(offsets);
    handed := Reread(bs, slab);
    assert payload[..] == filled;
    forall i | 0 <= i < |bs| && bs[i].alloc > 0 && (forall j :: 0 <= j < i ==> !Idle(bs[j]))
      ensures HandedWell(filled, handed[i], bs[i])
    {
      HandedOwnSlice(bs, i);
      var k := |Slots(bs[..i])|;
      assert handed[i] == offsets[k] && slots[k] == i;
      SlicesApart(bs);
    }
  }

  /** An aligned slice of the leaf's footprint, inside the payload, that starts with the leaf's bytes. */
  predicate HandedWell(payload: seq<Byte>, offset: nat, b: Leaf) {
    offset % 256 == 0 && offset + Footprint(b) <= |payload| && (b.present ==> Holds(payload, offset, b.data))
  }
}
