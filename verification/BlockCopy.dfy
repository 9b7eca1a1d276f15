/**
  Copies between a contiguous buffer and a payload made of fixed-size blocks, and the staging of
  a compressed batch's buffers into one such payload.
 */
module BlockCopy {
  import opened Basics

  // ------------------------------------------------------------- flattened blocks

  /** The payload as one run of bytes. */
  function Flat(blocks: seq<seq<Byte>>): seq<Byte> {
    if blocks == [] then [] else Flat(blocks[..|blocks| - 1]) + blocks[|blocks| - 1]
  }

  predicate Uniform(blocks: seq<seq<Byte>>, size: nat) {
    forall i :: 0 <= i < |blocks| ==> |blocks[i]| == size
  }

  /** Where block `i` starts. */
  function Start(i: nat, size: nat): nat {
    i * size
  }

  lemma StartStep(i: nat, size: nat)
    ensures Start(0, size) == 0 && Start(i + 1, size) == Start(i, size) + size
  {
  }

  lemma {:induction false} StartOrder(a: nat, b: nat, size: nat)
    requires a < b
    ensures Start(a, size) + size <= Start(b, size)
    decreases b
  {
    hide Start;
    StartStep(b - 1, size);
    if a < b - 1 { StartOrder(a, b - 1, size); }
  }

  lemma BlockInRange(i: nat, off: nat, size: nat, n: nat)
    requires Start(i, size) + off < Start(n, size)
    ensures i < n
  {
    hide Start;
    if n < i { StartOrder(n, i, size); }
  }

  /** The block and the place in it where byte `p` lies. */
  function Locate(p: nat, size: nat): (r: (nat, nat))
    requires size > 0
    ensures p == Start(r.0, size) + r.1 && r.1 < size
  {
    (p / size, p % size)
  }

  /** Overwrite `data` at `offset`. */
  function Write(flat: seq<Byte>, offset: nat, data: seq<Byte>): (r: seq<Byte>)
    requires offset + |data| <= |flat|
    ensures |r| == |flat|
  {
    flat[..offset] + data + flat[offset + |data|..]
  }

  lemma {:induction false} FlatLength(blocks: seq<seq<Byte>>, size: nat)
    requires Uniform(blocks, size)
    ensures |Flat(blocks)| == Start(|blocks|, size)
    decreases |blocks|
  {
    hide Start;
    if blocks == [] { StartStep(0, size); } else {
      FlatLength(blocks[..|blocks| - 1], size);
      StartStep(|blocks| - 1, size);
    }
  }

  lemma WriteLeft(a: seq<Byte>, b: seq<Byte>, offset: nat, data: seq<Byte>)
    requires offset + |data| <= |a|
    ensures Write(a + b, offset, data) == Write(a, offset, data) + b
  {
  }

  lemma WriteRight(a: seq<Byte>, b: seq<Byte>, offset: nat, data: seq<Byte>)
    requires offset + |data| <= |b|
    ensures Write(a + b, |a| + offset, data) == a + Write(b, offset, data)
  {
  }

  /** Overwriting part of one block overwrites that part of the payload, and reading is likewise. */
  lemma {:induction false} WriteInBlock(blocks: seq<seq<Byte>>, size: nat, i: nat, off: nat, data: seq<Byte>)
    requires Uniform(blocks, size) && i < |blocks| && off + |data| <= size
    ensures Start(i, size) + off + |data| <= |Flat(blocks)|
    ensures Flat(blocks[i := Write(blocks[i], off, data)]) == Write(Flat(blocks), Start(i, size) + off, data)
    decreases |blocks|
  {
    hide Start, Write;
    var n := |blocks| - 1;
    var init, last := blocks[..n], blocks[n];
    FlatLength(init, size);
    var after := blocks[i := Write(blocks[i], off, data)];
    if i == n {
      assert after[..n] == init;
      WriteRight(Flat(init), last, off, data);
    } else {
      assert after[..n] == init[i := Write(init[i], off, data)];
      WriteInBlock(init, size, i, off, data);
      WriteLeft(Flat(init), last, Start(i, size) + off, data);
    }
  }

  lemma {:induction false} ReadOfBlock(blocks: seq<seq<Byte>>, size: nat, i: nat, off: nat, chunk: nat)
    requires Uniform(blocks, size) && i < |blocks| && off + chunk <= size
    ensures Start(i, size) + off + chunk <= |Flat(blocks)|
    ensures Flat(blocks)[Start(i, size) + off..Start(i, size) + off + chunk] == blocks[i][off..off + chunk]
    decreases |blocks|
  {
    hide Start;
    var n := |blocks| - 1;
    var init := blocks[..n];
    FlatLength(init, size);
    if i < n { ReadOfBlock(init, size, i, off, chunk); }
  }

  // -------------------------------------------------------------------- the copies

  class Payload {
    const blockSize: nat
    const blocks: seq<array<Byte>>

    ghost predicate Valid() {
      && blockSize > 0
      && (forall i :: 0 <= i < |blocks| ==> blocks[i].Length == blockSize)
      && (forall i, j :: 0 <= i < j < |blocks| ==> blocks[i] != blocks[j])
    }

    constructor (blockSize: nat, count: nat)
      requires blockSize > 0
      ensures Valid() && this.blockSize == blockSize && |blocks| == count
      ensures forall i :: 0 <= i < count ==> fresh(blocks[i])
    {
      var made: seq<array<Byte>> := [];
      while |made| < count
        invariant |made| <= count
        invariant forall i :: 0 <= i < |made| ==> fresh(made[i]) && made[i].Length == blockSize
        invariant forall i, j :: 0 <= i < j < |made| ==> made[i] != made[j]
      {
        var block := new Byte[blockSize];
        made := made + [block];
      }
      this.blockSize := blockSize;
      blocks := made;
    }

    ghost function Contents(): (s: seq<seq<Byte>>)
      requires Valid()
      reads blocks
      ensures |s| == |blocks| && Uniform(s, blockSize)
      ensures forall i :: 0 <= i < |s| ==> s[i] == blocks[i][..]
    {
      seq(|blocks|, i requires 0 <= i < |blocks| reads blocks => blocks[i][..])
    }

    ghost function Bytes(): (s: seq<Byte>)
      requires Valid()
      reads blocks
      ensures |s| == Start(|blocks|, blockSize)
    {
      FlatLength(Contents(), blockSize);
      Flat(Contents())
    }

    method PutInBlock(i: nat, off: nat, data: seq<Byte>)
      requires Valid() && i < |blocks| && off + |data| <= blockSize
      modifies blocks
      ensures Start(i, blockSize) + off + |data| <= |Bytes()|
      ensures Bytes() == Write(old(Bytes()), Start(i, blockSize) + off, data)
    {
      hide Flat, Start, Write;
      ghost var before := Contents();
      WriteInBlock(before, blockSize, i, off, data);
      var block := blocks[i];
      forall j | 0 <= j < |data| { block[off + j] := data[j]; }
      assert block[..] == Write(before[i], off, data) by { WriteIs(before[i], block[..], off, data); }
      assert forall k :: 0 <= k < |blocks| && k != i ==> blocks[k] != block;
      assert forall k :: 0 <= k < |blocks| && k != i ==> Contents()[k] == before[k];
      assert Contents() == before[i := Write(before[i], off, data)];
    }

    /** `copy_device_to_pinned_blocks`: a write at `offset` of the flattened payload. */
    method CopyIn(data: seq<Byte>, offset: nat)
      requires Valid() && offset + |data| <= Start(|blocks|, blockSize)
      modifies blocks
      ensures Bytes() == Write(old(Bytes()), offset, data)
    {
      hide Start, Write, Flat, Locate, Uniform, Contents, Bytes;
      if |data| == 0 {
        WriteNothing(Bytes(), offset, data);
        return;
      }
      var place := Locate(offset, blockSize);
      var index: nat, inBlock: nat, copied: nat := place.0, place.1, 0;
      WriteNothing(Bytes(), offset, data[..0]);
      while copied < |data|
        invariant copied <= |data| && inBlock < blockSize && Start(index, blockSize) + inBlock == offset + copied
        invariant Bytes() == Write(old(Bytes()), offset, data[..copied])
      {
        var chunk := if |data| - copied < blockSize - inBlock then |data| - copied else blockSize - inBlock;
        BlockInRange(index, inBlock, blockSize, |blocks|);
        PutInBlock(index, inBlock, data[copied..copied + chunk]);
        WriteGrows(old(Bytes()), offset, data, copied, chunk);
        copied := copied + chunk;
        inBlock := inBlock + chunk;
        if inBlock == blockSize {
          StartStep(index, blockSize);
          index := index + 1;
          inBlock := 0;
        }
      }
      assert data[..copied] == data;
    }

    /** Part of one block, read into `data` behind its first `at` bytes. */
    method TakeFromBlock(i: nat, off: nat, size: nat, data: array<Byte>, at: nat)
      requires Valid() && i < |blocks| && off + size <= blockSize && at + size <= data.Length && data !in blocks
      modifies data
      ensures Bytes() == old(Bytes()) && Start(i, blockSize) + off + size <= |Bytes()|
      ensures data[..at + size] ==
        old(data[..at]) + Bytes()[Start(i, blockSize) + off..Start(i, blockSize) + off + size]
    {
      hide Flat, Start;
      ReadOfBlock(Contents(), blockSize, i, off, size);
      var block := blocks[i];
      ghost var before, part := data[..at], block[off..off + size];
      assert part == block[..][off..off + size];
      forall j | 0 <= j < size { data[at + j] := block[off + j]; }
      assert data[..at + size] == before + part;
    }

    /** `copy_pinned_blocks_to_device`: the bytes at `offset` of the flattened payload. */
    method CopyOut(offset: nat, size: nat) returns (data: array<Byte>)
      requires Valid() && offset + size <= Start(|blocks|, blockSize)
      ensures fresh(data) && data[..] == Bytes()[offset..offset + size]
    {
      hide Start, Flat, Locate, Uniform, Contents, Bytes;
      data := new Byte[size];
      if size == 0 { return; }
      var place := Locate(offset, blockSize);
      var index: nat, inBlock: nat, copied: nat := place.0, place.1, 0;
      ghost var flat := Bytes();
      while copied < size
        invariant copied <= size && inBlock < blockSize && Start(index, blockSize) + inBlock == offset + copied
        invariant Bytes() == flat && data[..copied] == flat[offset..offset + copied]
      {
        var chunk := if size - copied < blockSize - inBlock then size - copied else blockSize - inBlock;
        BlockInRange(index, inBlock, blockSize, |blocks|);
        TakeFromBlock(index, inBlock, chunk, data, copied);
        JoinSlices(flat, offset, copied, chunk);
        copied := copied + chunk;
        inBlock := inBlock + chunk;
        if inBlock == blockSize {
          StartStep(index, blockSize);
          index := index + 1;
          inBlock := 0;
        }
      }
      assert data[..] == data[..copied];
    }
  }

  lemma JoinSlices(flat: seq<Byte>, offset: nat, copied: nat, chunk: nat)
    requires offset + copied + chunk <= |flat|
    ensures flat[offset..offset + copied] + flat[offset + copied..offset + copied + chunk]
      == flat[offset..offset + copied + chunk]
  {
  }

  lemma WriteNothing(flat: seq<Byte>, offset: nat, data: seq<Byte>)
    requires offset <= |flat| && data == []
    ensures Write(flat, offset, data) == flat
  {
  }

  lemma WriteIs(before: seq<Byte>, after: seq<Byte>, offset: nat, data: seq<Byte>)
    requires |before| == |after| && offset + |data| <= |before|
    requires forall p :: 0 <= p < |before| ==>
      after[p] == if offset <= p < offset + |data| then data[p - offset] else before[p]
    ensures after == Write(before, offset, data)
  {
  }

  lemma WriteGrows(flat: seq<Byte>, offset: nat, data: seq<Byte>, copied: nat, chunk: nat)
    requires offset + |data| <= |flat| && copied + chunk <= |data|
    ensures Write(Write(flat, offset, data[..copied]), offset + copied, data[copied..copied + chunk])
      == Write(flat, offset, data[..copied + chunk])
  {
  }

  // ------------------------------------------------------------- staging a batch

  /** A compressed buffer and its place in the payload; nothing is copied for a null pointer. */
  datatype Piece = Piece(offset: nat, data: seq<Byte>, present: bool)

  function WriteAll(flat: seq<Byte>, pieces: seq<Piece>): (r: seq<Byte>)
    requires forall k :: 0 <= k < |pieces| ==> pieces[k].offset + |pieces[k].data| <= |flat|
    ensures |r| == |flat|
  {
    if pieces == [] then flat
    else
      var last, before := pieces[|pieces| - 1], WriteAll(flat, pieces[..|pieces| - 1]);
      if last.present then Write(before, last.offset, last.data) else before
  }

  predicate Disjoint(a: Piece, b: Piece) {
    a.offset + |a.data| <= b.offset || b.offset + |b.data| <= a.offset
  }

  /** Every staged buffer is in the payload as it was, and the rest of the payload is untouched. */
  lemma {:induction false} StagedBuffersReadBack(flat: seq<Byte>, pieces: seq<Piece>)
    requires forall k :: 0 <= k < |pieces| ==> pieces[k].offset + |pieces[k].data| <= |flat|
    requires forall a, b :: 0 <= a < b < |pieces| ==> Disjoint(pieces[a], pieces[b])
    ensures forall k :: 0 <= k < |pieces| && pieces[k].present ==>
      WriteAll(flat, pieces)[pieces[k].offset..pieces[k].offset + |pieces[k].data|] == pieces[k].data
    ensures forall p :: 0 <= p < |flat| && (forall k :: 0 <= k < |pieces| ==> !Within(pieces[k], p)) ==>
      WriteAll(flat, pieces)[p] == flat[p]
    decreases |pieces|
  {
    if pieces != [] {
      var init, last := pieces[..|pieces| - 1], pieces[|pieces| - 1];
      StagedBuffersReadBack(flat, init);
      var before, after := WriteAll(flat, init), WriteAll(flat, pieces);
      forall k | 0 <= k < |init| && init[k].present
        ensures after[init[k].offset..init[k].offset + |init[k].data|] == init[k].data
      {
        assert Disjoint(pieces[k], last);
        assert before[init[k].offset..init[k].offset + |init[k].data|] == init[k].data;
      }
      forall p | 0 <= p < |flat| && (forall k :: 0 <= k < |pieces| ==> !Within(pieces[k], p))
        ensures after[p] == flat[p]
      {
        forall k | 0 <= k < |init| ensures !Within(init[k], p) { assert !Within(pieces[k], p); }
        assert !Within(last, p);
      }
    }
  }

  predicate Within(piece: Piece, p: nat) {
    piece.present && piece.offset <= p < piece.offset + |piece.data|
  }

  /** The staging loop of the host pin. */
  method Stage(payload: Payload, pieces: seq<Piece>)
    requires payload.Valid()
    requires forall k :: 0 <= k < |pieces| ==>
      pieces[k].offset + |pieces[k].data| <= Start(|payload.blocks|, payload.blockSize)
    modifies payload.blocks
    ensures payload.Bytes() == WriteAll(old(payload.Bytes()), pieces)
  {
    var k := 0;
    while k < |pieces|
      invariant k <= |pieces| && payload.Bytes() == WriteAll(old(payload.Bytes()), pieces[..k])
    {
      assert pieces[..k + 1][..k] == pieces[..k];
      if |pieces[k].data| > 0 && pieces[k].present {
        payload.CopyIn(pieces[k].data, pieces[k].offset);
      }
      k := k + 1;
    }
    assert pieces[..k] == pieces;
  }

  predicate AllDisjoint(pieces: seq<Piece>) {
    forall a, b :: 0 <= a < b < |pieces| ==> Disjoint(pieces[a], pieces[b])
  }

  predicate AllFit(pieces: seq<Piece>, length: nat) {
    forall k :: 0 <= k < |pieces| ==> pieces[k].offset + |pieces[k].data| <= length
  }

  /** Stage disjoint buffers in a fresh payload and copy each of them out again: nothing is lost. */
  method StageAndReadBack(pieces: seq<Piece>, blockSize: nat, count: nat) returns (copies: seq<seq<Byte>>)
    requires blockSize > 0 && AllFit(pieces, Start(count, blockSize)) && AllDisjoint(pieces)
    ensures |copies| == |pieces|
    ensures forall k :: 0 <= k < |pieces| && pieces[k].present ==> copies[k] == pieces[k].data
  {
    var payload := new Payload(blockSize, count);
    ghost var before := payload.Bytes();
    Stage(payload, pieces);
    StagedBuffersReadBack(before, pieces);
    hide Start, WriteAll;
    copies := [];
    while |copies| < |pieces|
      invariant |copies| <= |pieces|
      invariant payload.Bytes() == WriteAll(before, pieces)
      invariant forall k :: 0 <= k < |copies| && pieces[k].present ==> copies[k] == pieces[k].data
    {
      var k := |copies|;
      var copy := payload.CopyOut(pieces[k].offset, |pieces[k].data|);
      copies := copies + [copy[..]];
    }
  }
}
