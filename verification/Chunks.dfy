/** Large datasets in pieces: splitting, choosing what a node still needs, and putting the
    pieces back together in whatever order they arrive. */
module Chunks {
  import opened Core

  type Bytes = seq<byte>

  const DEFAULT_CHUNK_SIZE := 1048576

  datatype Descriptor = Descriptor(id: DataId, size: nat)

  function Describe(bytes: Bytes): Descriptor {
    Descriptor(IdOf(bytes), |bytes|)
  }

  /** `chunkSize` is kept in 32 bits. */
  datatype Manifest = Manifest(data: Descriptor, chunkSize: nat, chunks: seq<Descriptor>)

  // ---- Splitting ----

  function Pieces(bytes: Bytes, size: nat): seq<Bytes>
    requires size > 0
    decreases |bytes|
  {
    if bytes == [] then []
    else if |bytes| <= size then [bytes]
    else [bytes[..size]] + Pieces(bytes[size..], size)
  }

  function Join(pieces: seq<Bytes>): Bytes {
    if pieces == [] then [] else pieces[0] + Join(pieces[1..])
  }

  function Effective(chunkSize: nat): nat {
    if chunkSize == 0 then DEFAULT_CHUNK_SIZE else chunkSize
  }

  function Described(pieces: seq<Bytes>): seq<Descriptor> {
    seq(|pieces|, i requires 0 <= i < |pieces| => Describe(pieces[i]))
  }

  function Split(bytes: Bytes, chunkSize: nat): Manifest {
    Manifest(Describe(bytes), Effective(chunkSize) % 0x1_0000_0000, Described(Pieces(bytes, Effective(chunkSize))))
  }

  /** Where a chunk lies in the whole: start and end. */
  function ChunkRange(m: Manifest, index: nat): Option<(nat, nat)> {
    if index < |m.chunks| then Some((index * m.chunkSize, index * m.chunkSize + m.chunks[index].size)) else None
  }

  lemma {:induction false} JoinPieces(bytes: Bytes, size: nat)
    requires size > 0
    ensures Join(Pieces(bytes, size)) == bytes
    decreases |bytes|
  {
    if |bytes| > size {
      JoinPieces(bytes[size..], size);
    } else if bytes != [] {
      assert Join([bytes]) == bytes + Join([]);
    }
  }

  /** Piece `i` starts at `i` times the size. */
  lemma {:induction false} PieceAt(bytes: Bytes, size: nat, i: nat)
    requires size > 0 && i < |Pieces(bytes, size)|
    ensures i * size + |Pieces(bytes, size)[i]| <= |bytes|
    ensures Pieces(bytes, size)[i] == bytes[i * size..i * size + |Pieces(bytes, size)[i]|]
    decreases |bytes|
  {
    if i > 0 {
      var rest := bytes[size..];
      PieceAt(rest, size, i - 1);
      OneMore(i - 1, size);
      var n, start := |Pieces(rest, size)[i - 1]|, (i - 1) * size;
      assert Pieces(bytes, size)[i] == Pieces(rest, size)[i - 1];
      hide Pieces;
      assert rest[start..start + n] == bytes[start + size..start + size + n];
    } else {
      assert i * size == 0;
    }
  }

  lemma {:induction false} OneMore(i: nat, size: nat)
    ensures i * size + size == (i + 1) * size
  {}

  /** Every piece has the size asked for but the last, which has what is left and is not empty. */
  lemma {:induction false} PiecesExact(bytes: Bytes, size: nat, i: nat)
    requires size > 0
    ensures Pieces(bytes, size) == [] <==> bytes == []
    ensures var n := |Pieces(bytes, size)|;
            i < n ==> if i < n - 1 then |Pieces(bytes, size)[i]| == size else 1 <= |Pieces(bytes, size)[i]| <= size
    decreases |bytes|
  {
    if |bytes| > size { PiecesExact(bytes[size..], size, if i > 0 then i - 1 else 0); }
  }

  /** The ranges are the pieces' own exactly when the size fits its 32 bits, or there is
      only one piece. */
  lemma {:induction false} RangesExact(bytes: Bytes, chunkSize: nat)
    ensures var m, size := Split(bytes, chunkSize), Effective(chunkSize);
            (forall i | 0 <= i < |m.chunks| :: ChunkRange(m, i) == Some((i * size, i * size + |Pieces(bytes, size)[i]|)))
            <==> size < 0x1_0000_0000 || |m.chunks| <= 1
  {
    var m, size := Split(bytes, chunkSize), Effective(chunkSize);
    if size >= 0x1_0000_0000 && |m.chunks| > 1 {
      assert ChunkRange(m, 1) == Some((1 * m.chunkSize, 1 * m.chunkSize + m.chunks[1].size));
      assert m.chunkSize < 0x1_0000_0000;
    }
  }

  // ---- Choosing what to send ----

  /** Chunk `i` is the first of its content, and content the node is not known to hold. */
  predicate Wanted(chunks: seq<Descriptor>, held: set<DataId>, i: nat)
    requires i < |chunks|
  {
    chunks[i].id !in held && forall j | 0 <= j < i :: chunks[j].id != chunks[i].id
  }

  function Ids(chunks: seq<Descriptor>): set<DataId> {
    set i | 0 <= i < |chunks| :: chunks[i].id
  }

  /** The indices of the chunks to send among the first `n`. */
  function Plan(reuse: bool, chunks: seq<Descriptor>, held: set<DataId>, n: nat): (r: seq<nat>)
    requires n <= |chunks|
    ensures forall k | 0 <= k < |r| :: r[k] < n
  {
    if n == 0 then []
    else Plan(reuse, chunks, held, n - 1) + if !reuse || Wanted(chunks, held, n - 1) then [n - 1] else []
  }

  /** All the bytes of a batch. */
  function BytesIn(batch: seq<Chunk>): nat {
    if batch == [] then 0 else BytesIn(batch[..|batch| - 1]) + |batch[|batch| - 1].bytes|
  }

  /** What the controller knows of one node, and its counters. */
  class Sender {
    const reuse: bool
    var held: set<DataId>
    var skipped: nat
    var sent: nat

    constructor (reuse: bool)
      ensures this.reuse == reuse && held == {} && skipped == 0 && sent == 0
    {
      this.reuse := reuse;
      held, skipped, sent := {}, 0, 0;
    }

    /** Builds the batch of a dataset from its manifest. A chunk counts as held from here
        on, before it is delivered. */
    method SendChunked(m: Manifest, bytes: Bytes, ghost chunkSize: nat) returns (batch: seq<Chunk>)
      requires m == Split(bytes, chunkSize)
      modifies this
      ensures Indices(batch) == Plan(reuse, m.chunks, old(held), |m.chunks|)
      ensures forall k | 0 <= k < |batch| :: batch[k] == CutOut(bytes, m, batch[k].index)
      ensures forall k | 0 <= k < |batch| && Fits(chunkSize, batch[k].index) ::
                batch[k] == PieceOf(bytes, chunkSize, batch[k].index)
      ensures held == old(held) + Ids(m.chunks)
      ensures skipped + |batch| == old(skipped) + |m.chunks|
      ensures sent == old(sent) + BytesIn(batch)
    {
      hide Plan, Ids, BytesIn, Wanted, Split, Pieces, PieceOf, Indices, CutOut;
      NothingYet(reuse, m.chunks, old(held));
      batch := [];
      for index := 0 to |m.chunks|
        invariant Indices(batch) == Plan(reuse, m.chunks, old(held), index) && |Indices(batch)| == |batch|
        invariant forall k | 0 <= k < |batch| :: batch[k].index < |m.chunks|
        invariant forall k | 0 <= k < |batch| :: batch[k] == CutOut(bytes, m, batch[k].index)
        invariant held == old(held) + Ids(m.chunks[..index])
        invariant skipped + |batch| == old(skipped) + index
        invariant sent == old(sent) + BytesIn(batch)
      {
        var chunk := m.chunks[index];
        PlanNext(reuse, m.chunks, old(held), index);
        if reuse && chunk.id in held {
          skipped := skipped + 1;
        } else {
          var range := ChunkRange(m, index).value;
          RangeInside(bytes, chunkSize, index);
          var cut := Chunk(index, bytes[range.0..range.1]);
          IndicesAppend(batch, cut);
          batch := batch + [cut];
          held := held + {chunk.id};
          sent := sent + chunk.size;
        }
      }
      assert m.chunks[..|m.chunks|] == m.chunks;
      forall k | 0 <= k < |batch| && Fits(chunkSize, batch[k].index)
        ensures batch[k] == PieceOf(bytes, chunkSize, batch[k].index)
      {
        RangeIsPiece(bytes, chunkSize, batch[k].index);
      }
    }
  }

  datatype Chunk = Chunk(index: nat, bytes: Bytes)

  function Indices(batch: seq<Chunk>): seq<nat> {
    seq(|batch|, i requires 0 <= i < |batch| => batch[i].index)
  }

  function PieceOf(bytes: Bytes, chunkSize: nat, i: nat): Chunk {
    var pieces := Pieces(bytes, Effective(chunkSize));
    Chunk(i, if i < |pieces| then pieces[i] else [])
  }

  lemma {:induction false} NothingYet(reuse: bool, chunks: seq<Descriptor>, held: set<DataId>)
    ensures Plan(reuse, chunks, held, 0) == Indices([]) == [] && BytesIn([]) == 0 && Ids(chunks[..0]) == {}
  {}

  lemma {:induction false} PlanNext(reuse: bool, chunks: seq<Descriptor>, held: set<DataId>, i: nat)
    requires i < |chunks|
    ensures Plan(reuse, chunks, held, i + 1)
         == Plan(reuse, chunks, held, i) + if reuse && chunks[i].id in held + Ids(chunks[..i]) then [] else [i]
    ensures Ids(chunks[..i + 1]) == Ids(chunks[..i]) + {chunks[i].id}
  {
    HeldMeans(chunks, held, i);
    assert chunks[..i + 1] == chunks[..i] + [chunks[i]];
    IdsAppend(chunks[..i], chunks[i]);
  }

  lemma {:induction false} IndicesAppend(batch: seq<Chunk>, c: Chunk)
    ensures Indices(batch + [c]) == Indices(batch) + [c.index] && |Indices(batch + [c])| == |batch| + 1
    ensures BytesIn(batch + [c]) == BytesIn(batch) + |c.bytes|
  {
    assert (batch + [c])[..|batch|] == batch;
  }

  /** The bytes the manifest's range names. */
  function CutOut(bytes: Bytes, m: Manifest, i: nat): Chunk {
    var r := ChunkRange(m, i);
    Chunk(i, if r.Some? && r.value.1 <= |bytes| then bytes[r.value.0..r.value.1] else [])
  }

  /** Chunk `i` starts where 32 bits say it does. */
  predicate Fits(chunkSize: nat, i: nat) {
    Effective(chunkSize) < 0x1_0000_0000 || i == 0
  }

  /** A range never leaves the dataset, though a size over 32 bits puts it too early. */
  lemma {:induction false} RangeInside(bytes: Bytes, chunkSize: nat, i: nat)
    requires i < |Split(bytes, chunkSize).chunks|
    ensures var r := ChunkRange(Split(bytes, chunkSize), i).value;
            && r.0 <= r.1 <= |bytes| && r.1 - r.0 == Split(bytes, chunkSize).chunks[i].size
            && Chunk(i, bytes[r.0..r.1]) == CutOut(bytes, Split(bytes, chunkSize), i)
  {
    var size := Effective(chunkSize);
    PieceAt(bytes, size, i);
    ScaleDown(i, size % 0x1_0000_0000, size);
  }

  lemma {:induction false} ScaleDown(i: nat, small: nat, large: nat)
    requires small <= large
    ensures i * small <= i * large
  {}

  /** The bytes cut out for a chunk are its piece. */
  lemma {:induction false} RangeIsPiece(bytes: Bytes, chunkSize: nat, i: nat)
    requires Fits(chunkSize, i) && i < |Split(bytes, chunkSize).chunks|
    ensures CutOut(bytes, Split(bytes, chunkSize), i) == PieceOf(bytes, chunkSize, i)
  {
    RangeInside(bytes, chunkSize, i);
    PieceAt(bytes, Effective(chunkSize), i);
    if i == 0 { assert i * Effective(chunkSize) == 0; }
  }

  lemma {:induction false} IdsAppend(chunks: seq<Descriptor>, d: Descriptor)
    ensures Ids(chunks + [d]) == Ids(chunks) + {d.id}
  {
    var all := chunks + [d];
    forall x | x in Ids(chunks) + {d.id} ensures x in Ids(all) {
      if x == d.id {
        assert all[|chunks|].id == x;
      } else {
        var i :| 0 <= i < |chunks| && chunks[i].id == x;
        assert all[i].id == x;
      }
    }
  }

  lemma {:induction false} HeldMeans(chunks: seq<Descriptor>, held: set<DataId>, i: nat)
    requires i < |chunks|
    ensures chunks[i].id in held + Ids(chunks[..i]) <==> !Wanted(chunks, held, i)
  {
    if !Wanted(chunks, held, i) && chunks[i].id !in held {
      var j :| 0 <= j < i && chunks[j].id == chunks[i].id;
      assert chunks[..i][j].id == chunks[i].id;
    }
  }

  lemma {:induction false} PlanIs(chunks: seq<Descriptor>, held: set<DataId>, n: nat, i: nat)
    requires n <= |chunks|
    ensures i in Plan(true, chunks, held, n) <==> i < n && Wanted(chunks, held, i)
    decreases n
  {
    if n > 0 { PlanIs(chunks, held, n - 1, i); }
  }

  predicate Increasing(p: seq<nat>) {
    forall k, l | 0 <= k < l < |p| :: p[k] < p[l]
  }

  lemma {:induction false} PlanOrdered(reuse: bool, chunks: seq<Descriptor>, held: set<DataId>, n: nat)
    requires n <= |chunks|
    ensures Increasing(Plan(reuse, chunks, held, n))
    decreases n
  {
    if n > 0 {
      PlanOrdered(reuse, chunks, held, n - 1);
      var p, q := Plan(reuse, chunks, held, n), Plan(reuse, chunks, held, n - 1);
      assert p == q + [n - 1] || p == q;
    }
  }

  /** With reuse off it holds every chunk. */
  lemma {:induction false} EveryChunk(chunks: seq<Descriptor>, held: set<DataId>, n: nat)
    requires n <= |chunks|
    ensures |Plan(false, chunks, held, n)| == n && forall i | 0 <= i < n :: Plan(false, chunks, held, n)[i] == i
    decreases n
  {
    if n > 0 { EveryChunk(chunks, held, n - 1); }
  }

  /** Some chunk with the content of chunk `i` is the first with it. */
  lemma {:induction false} FirstOfKind(chunks: seq<Descriptor>, i: nat) returns (j: nat)
    requires i < |chunks|
    ensures j <= i && chunks[j].id == chunks[i].id && forall k | 0 <= k < j :: chunks[k].id != chunks[i].id
  {
    if k :| 0 <= k < i && chunks[k].id == chunks[i].id {
      j := FirstOfKind(chunks, k);
    } else {
      j := i;
    }
  }

  /** With reuse on, the batch holds exactly the first occurrence of each content the node
      lacked: all of them, in order, none twice. */
  lemma {:induction false} ChunkPlan(chunks: seq<Descriptor>, held: set<DataId>)
    ensures var p := Plan(true, chunks, held, |chunks|);
            forall k, l | 0 <= k < l < |p| :: p[k] < p[l] && chunks[p[k]].id != chunks[p[l]].id
    ensures var p := Plan(true, chunks, held, |chunks|);
            (set k | 0 <= k < |p| :: chunks[p[k]].id) == Ids(chunks) - held
  {
    var p := Plan(true, chunks, held, |chunks|);
    PlanOrdered(true, chunks, held, |chunks|);
    forall k | 0 <= k < |p| ensures Wanted(chunks, held, p[k]) {
      assert p[k] in p;
      PlanIs(chunks, held, |chunks|, p[k]);
    }
    forall x | x in Ids(chunks) - held ensures exists k :: 0 <= k < |p| && chunks[p[k]].id == x {
      var i :| 0 <= i < |chunks| && chunks[i].id == x;
      var j := FirstOfKind(chunks, i);
      PlanIs(chunks, held, |chunks|, j);
    }
  }

  /** Once credited, nothing of the dataset is ever sent again, delivered or not. */
  lemma {:induction false} CreditedIsFinal(chunks: seq<Descriptor>, held: set<DataId>, n: nat)
    requires Ids(chunks) <= held && n <= |chunks|
    ensures Plan(true, chunks, held, n) == []
    decreases n
  {
    if n > 0 {
      CreditedIsFinal(chunks, held, n - 1);
      assert chunks[n - 1].id in Ids(chunks);
    }
  }
}
