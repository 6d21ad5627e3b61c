/** Putting a dataset back together on the node: pieces arrive in any order, and pieces
    the node already has are filled in from its store. A content address stands for its
    bytes, so a store is a set of addresses. */
module Assembly {
  import opened Core
  import opened Chunks

  datatype ChunkError = UnknownData | IndexOutOfRange | ChunkMismatch | DataMismatch

  /** A dataset being collected. */
  datatype Pending = Pending(manifest: Manifest, got: map<nat, Bytes>)

  type Outcome = Result<Option<Bytes>, ChunkError>

  function InOrder(got: map<nat, Bytes>, n: nat): seq<Bytes> {
    seq(n, i requires 0 <= i < n => if i in got then got[i] else [])
  }

  /** Accepts one piece; the whole dataset comes out with the last. */
  function Add(p: Option<Pending>, index: nat, bytes: Bytes): (Option<Pending>, Outcome) {
    if p.None? then (p, Err(UnknownData))
    else
      var m := p.value.manifest;
      if index >= |m.chunks| then (p, Err(IndexOutOfRange))
      else if Describe(bytes) != m.chunks[index] then (p, Err(ChunkMismatch))
      else
        var got := p.value.got[index := bytes];
        if |got| < |m.chunks| then (Some(Pending(m, got)), Ok(None))
        else
          var whole := Join(InOrder(got, |m.chunks|));
          (None, if IdOf(whole) == m.data.id then Ok(Some(whole)) else Err(DataMismatch))
  }

  /** Supplies, from index `i` on, every missing piece the store has; the outcome is that
      of the last piece supplied. */
  function Fill(p: Option<Pending>, store: set<DataId>, i: nat, last: Outcome): (Option<Pending>, Outcome)
    decreases if p.Some? && i < |p.value.manifest.chunks| then |p.value.manifest.chunks| - i else 0
  {
    if p.None? || i >= |p.value.manifest.chunks| then (p, last)
    else
      var id := p.value.manifest.chunks[i].id;
      if i in p.value.got || id !in store then Fill(p, store, i + 1, last)
      else
        var (q, r) := Add(p, i, id.content);
        if r.Err? then (q, r) else Fill(q, store, i + 1, r)
  }

  function BeginWith(m: Manifest, store: set<DataId>): (Option<Pending>, Outcome) {
    Fill(Some(Pending(m, map[])), store, 0, Ok(None))
  }

  /** Keeps the piece in the store too, and fills in whatever that makes known. */
  function AddStored(p: Option<Pending>, store: set<DataId>, index: nat, bytes: Bytes): (Option<Pending>,
                     set<DataId>, Outcome) {
    var kept := store + {IdOf(bytes)};
    var (q, r) := Add(p, index, bytes);
    if r == Ok(None) then
      var (filled, s) := Fill(q, kept, 0, Ok(None));
      (filled, kept, s)
    else (q, kept, r)
  }

  // ---- What a collection holds ----

  /** The pieces of `bytes` that a store supplies. */
  predicate Holds(m: Manifest, pieces: seq<Bytes>, store: set<DataId>, got: map<nat, Bytes>) {
    && |pieces| == |m.chunks|
    && (forall i | i in got :: i < |pieces| && got[i] == pieces[i] && m.chunks[i].id in store)
  }

  predicate FilledTo(m: Manifest, store: set<DataId>, got: map<nat, Bytes>, n: nat) {
    forall i: nat | i < n && i < |m.chunks| && m.chunks[i].id in store :: i in got
  }

  predicate Complete(m: Manifest, store: set<DataId>) {
    forall i | 0 <= i < |m.chunks| :: m.chunks[i].id in store
  }

  predicate Describes(m: Manifest, pieces: seq<Bytes>, bytes: Bytes) {
    m.chunks == Described(pieces) && m.data == Describe(bytes) && Join(pieces) == bytes && pieces != []
  }

  lemma {:induction false} SplitDescribes(bytes: Bytes, chunkSize: nat)
    requires bytes != []
    ensures Describes(Split(bytes, chunkSize), Pieces(bytes, Effective(chunkSize)), bytes)
  {
    JoinPieces(bytes, Effective(chunkSize));
  }

  /** As many pieces as there are means every piece. */
  lemma {:induction false} AllThere(got: map<nat, Bytes>, n: nat)
    requires forall i | i in got :: i < n
    ensures |got| <= n && (|got| == n <==> forall i: nat | i < n :: i in got)
  {
    assert got.Keys <= Below(n);
    SubsetSize(got.Keys, Below(n));
    assert |got| == |got.Keys|;
    if forall i: nat | i < n :: i in got { assert got.Keys == Below(n); }
  }

  /** What adding a right piece comes to, with `more` collected then. */
  function Added(m: Manifest, more: map<nat, Bytes>, bytes: Bytes): (Option<Pending>, Outcome) {
    if forall j | 0 <= j < |m.chunks| :: j in more then (None, Ok(Some(bytes))) else (Some(Pending(m, more)), Ok(None))
  }

  /** Adding the right piece: it joins the collection, or completes the dataset. */
  lemma {:induction false} AddRight(m: Manifest, pieces: seq<Bytes>, bytes: Bytes, store: set<DataId>,
                                    got: map<nat, Bytes>, i: nat)
    requires Describes(m, pieces, bytes) && Holds(m, pieces, store, got) && i < |m.chunks| && m.chunks[i].id in store
    ensures var more := got[i := pieces[i]];
            Holds(m, pieces, store, more) && Add(Some(Pending(m, got)), i, pieces[i]) == Added(m, more, bytes)
  {
    var more := got[i := pieces[i]];
    AllThere(more, |m.chunks|);
    if forall j: nat | j < |m.chunks| :: j in more {
      assert InOrder(more, |m.chunks|) == pieces;
    }
  }

  /** Where a collection stands with `store` on hand: finished, or holding exactly what
      the store supplies. */
  predicate Collecting(m: Manifest, pieces: seq<Bytes>, store: set<DataId>, p: Option<Pending>) {
    if Complete(m, store) then p == None
    else
      && p.Some? && p.value.manifest == m
      && Holds(m, pieces, store, p.value.got) && FilledTo(m, store, p.value.got, |m.chunks|)
  }

  function Whole(m: Manifest, store: set<DataId>, bytes: Bytes): Option<Bytes> {
    if Complete(m, store) then Some(bytes) else None
  }

  lemma {:induction false} FilledUp(m: Manifest, pieces: seq<Bytes>, store: set<DataId>, got: map<nat, Bytes>)
    requires Holds(m, pieces, store, got) && FilledTo(m, store, got, |m.chunks|)
    requires exists j: nat :: j < |m.chunks| && j !in got
    ensures !Complete(m, store) && Collecting(m, pieces, store, Some(Pending(m, got)))
  {
    var j: nat :| j < |m.chunks| && j !in got;
    assert m.chunks[j].id !in store;
  }

  /** Filling ends with everything the store has, or with the dataset when that is all. */
  lemma {:induction false} FillRight(m: Manifest, pieces: seq<Bytes>, bytes: Bytes, store: set<DataId>,
                                     got: map<nat, Bytes>, i: nat)
    requires Describes(m, pieces, bytes) && Holds(m, pieces, store, got) && FilledTo(m, store, got, i)
    requires i <= |m.chunks|
    requires exists j: nat :: j < |m.chunks| && j !in got
    ensures var (p, r) := Fill(Some(Pending(m, got)), store, i, Ok(None));
            Collecting(m, pieces, store, p) && r == Ok(Whole(m, store, bytes))
    decreases |m.chunks| - i
  {
    hide Collecting, Add, Complete;
    if i == |m.chunks| {
      FilledUp(m, pieces, store, got);
    } else if i in got || m.chunks[i].id !in store {
      FillRight(m, pieces, bytes, store, got, i + 1);
    } else {
      var more := got[i := pieces[i]];
      AddRight(m, pieces, bytes, store, got, i);
      assert m.chunks[i].id.content == pieces[i];
      if forall j: nat | j < |m.chunks| :: j in more {
        Finishes(m, pieces, store, more);
      } else {
        hide Describes;
        FillRight(m, pieces, bytes, store, more, i + 1);
      }
    }
  }

  lemma {:induction false} Finishes(m: Manifest, pieces: seq<Bytes>, store: set<DataId>, got: map<nat, Bytes>)
    requires Holds(m, pieces, store, got) && forall j: nat | j < |m.chunks| :: j in got
    ensures Complete(m, store) && Collecting(m, pieces, store, None)
  {}

  // ---- Any order of arrival ----

  lemma {:induction false} BeginRight(m: Manifest, pieces: seq<Bytes>, bytes: Bytes, store: set<DataId>)
    requires Describes(m, pieces, bytes)
    ensures var (p, r) := BeginWith(m, store); Collecting(m, pieces, store, p) && r == Ok(Whole(m, store, bytes))
  {
    var none: map<nat, Bytes> := map[];
    assert 0 < |m.chunks| && 0 !in none;
    FillRight(m, pieces, bytes, store, none, 0);
  }

  /** One arrival: the dataset comes out exactly when this makes the store complete. */
  lemma {:induction false} ArriveRight(m: Manifest, pieces: seq<Bytes>, bytes: Bytes, store: set<DataId>,
                                       p: Option<Pending>, i: nat)
    requires Describes(m, pieces, bytes) && Collecting(m, pieces, store, p) && i < |m.chunks|
    ensures var (q, kept, r) := AddStored(p, store, i, pieces[i]);
            && kept == store + {m.chunks[i].id}
            && Collecting(m, pieces, kept, q)
            && r == if Complete(m, store) then Err(UnknownData) else Ok(Whole(m, kept, bytes))
  {
    var kept := store + {m.chunks[i].id};
    if p.Some? {
      var got := p.value.got;
      assert Holds(m, pieces, kept, got);
      AddRight(m, pieces, bytes, kept, got, i);
      var more := got[i := pieces[i]];
      if !(forall j: nat | j < |m.chunks| :: j in more) {
        FillRight(m, pieces, bytes, kept, more, 0);
      } else {
        assert Complete(m, kept);
      }
    }
  }

  /** All the outcomes of a transfer: of the manifest, then of each piece as it arrives. */
  function Arrivals(pieces: seq<Bytes>, p: Option<Pending>, store: set<DataId>, order: seq<nat>): (seq<Outcome>,
                    set<DataId>)
    requires forall k | 0 <= k < |order| :: order[k] < |pieces|
    decreases |order|
  {
    if order == [] then ([], store)
    else
      var (q, kept, r) := AddStored(p, store, order[0], pieces[order[0]]);
      var (rest, last) := Arrivals(pieces, q, kept, order[1..]);
      ([r] + rest, last)
  }

  /** How many outcomes are the dataset, and that they are the right one. */
  function Delivered(outcomes: seq<Outcome>, bytes: Bytes): nat {
    if outcomes == [] then 0
    else (if outcomes[0] == Ok(Some(bytes)) then 1 else 0) + Delivered(outcomes[1..], bytes)
  }

  predicate NothingElse(outcomes: seq<Outcome>, bytes: Bytes) {
    forall k | 0 <= k < |outcomes| :: outcomes[k] in {Ok(None), Ok(Some(bytes)), Err(UnknownData)}
  }

  /** The contents of the chunks an order names. */
  function Arriving(m: Manifest, order: seq<nat>): set<DataId>
    requires forall k | 0 <= k < |order| :: order[k] < |m.chunks|
  {
    set k | 0 <= k < |order| :: m.chunks[order[k]].id
  }

  lemma {:induction false} ArrivingFirst(m: Manifest, order: seq<nat>)
    requires order != [] && forall k | 0 <= k < |order| :: order[k] < |m.chunks|
    ensures Arriving(m, order) == {m.chunks[order[0]].id} + Arriving(m, order[1..])
  {
    var later := order[1..];
    assert forall k | 1 <= k < |order| :: order[k] == later[k - 1];
    forall x | x in Arriving(m, later) ensures x in Arriving(m, order) {
      var k :| 0 <= k < |later| && m.chunks[later[k]].id == x;
      assert order[k + 1] == later[k];
    }
  }

  lemma {:induction false} NothingElseFirst(r: Outcome, rest: seq<Outcome>, bytes: Bytes)
    requires r in {Ok(None), Ok(Some(bytes)), Err(UnknownData)} && NothingElse(rest, bytes)
    ensures NothingElse([r] + rest, bytes)
  {}

  lemma {:induction false} CompleteGrows(m: Manifest, few: set<DataId>, more: set<DataId>)
    requires Complete(m, few) && few <= more
    ensures Complete(m, more)
  {}

  /** However the pieces arrive, the dataset comes out once if they complete it. */
  lemma {:induction false} ArrivalsRight(m: Manifest, pieces: seq<Bytes>, bytes: Bytes, store: set<DataId>,
                                         p: Option<Pending>, order: seq<nat>)
    requires Describes(m, pieces, bytes) && Collecting(m, pieces, store, p)
    requires forall k | 0 <= k < |order| :: order[k] < |pieces|
    ensures var (outcomes, last) := Arrivals(pieces, p, store, order);
            && last == store + Arriving(m, order)
            && NothingElse(outcomes, bytes)
            && Delivered(outcomes, bytes) == if !Complete(m, store) && Complete(m, last) then 1 else 0
    decreases |order|
  {
    if order != [] {
      hide AddStored, Collecting, Complete, Describes, Arriving;
      var i, later := order[0], order[1..];
      ArriveRight(m, pieces, bytes, store, p, i);
      var (q, kept, r) := AddStored(p, store, i, pieces[i]);
      ArrivalsRight(m, pieces, bytes, kept, q, later);
      var (rest, last) := Arrivals(pieces, q, kept, later);
      ArrivingFirst(m, order);
      if Complete(m, store) { CompleteGrows(m, store, kept); }
      if Complete(m, kept) { CompleteGrows(m, kept, last); }
      assert Arrivals(pieces, p, store, order) == ([r] + rest, last);
      hide Arrivals, NothingElse;
      NothingElseFirst(r, rest, bytes);
      assert ([r] + rest)[1..] == rest;
    }
  }

  lemma {:induction false} Rebuilds(m: Manifest, pieces: seq<Bytes>, bytes: Bytes, credited: set<DataId>,
                                    store: set<DataId>, order: seq<nat>)
    requires Describes(m, pieces, bytes) && credited <= store && forall k | 0 <= k < |order| :: order[k] < |pieces|
    requires forall i | i in Plan(true, m.chunks, credited, |m.chunks|) :: i in order
    ensures var (p, first) := BeginWith(m, store);
            var outcomes := [first] + Arrivals(pieces, p, store, order).0;
            Delivered(outcomes, bytes) == 1 && NothingElse(outcomes, bytes)
  {
    BatchCompletes(m, credited, order);
    hide Plan, BeginWith, Describes, Collecting, Arrivals, Arriving, NothingElse;
    BeginRight(m, pieces, bytes, store);
    var (p, first) := BeginWith(m, store);
    ArrivalsRight(m, pieces, bytes, store, p, order);
    var (rest, last) := Arrivals(pieces, p, store, order);
    assert Complete(m, last);
    hide Complete;
    NothingElseFirst(first, rest, bytes);
    assert ([first] + rest)[1..] == rest;
  }

  /** A node that has what it is credited with, and receives the batch in any order, with
      repetitions, gets the dataset exactly once, byte for byte, and nothing else. */
  lemma {:induction false} AnyOrderRebuilds(bytes: Bytes, chunkSize: nat, credited: set<DataId>,
                                            store: set<DataId>, order: seq<nat>)
    requires bytes != [] && credited <= store
    requires forall k | 0 <= k < |order| :: order[k] < |Pieces(bytes, Effective(chunkSize))|
    requires var chunks := Split(bytes, chunkSize).chunks;
             forall i | i in Plan(true, chunks, credited, |chunks|) :: i in order
    ensures var m, pieces := Split(bytes, chunkSize), Pieces(bytes, Effective(chunkSize));
            var (p, first) := BeginWith(m, store);
            var outcomes := [first] + Arrivals(pieces, p, store, order).0;
            Delivered(outcomes, bytes) == 1 && NothingElse(outcomes, bytes)
  {
    hide Split, Pieces, Plan, BeginWith, Describes, Arrivals, NothingElse, Delivered;
    SplitDescribes(bytes, chunkSize);
    Rebuilds(Split(bytes, chunkSize), Pieces(bytes, Effective(chunkSize)), bytes, credited, store, order);
  }

  /** What is credited and what is sent together are all the contents there are. */
  lemma {:induction false} BatchCompletes(m: Manifest, credited: set<DataId>, order: seq<nat>)
    requires forall k | 0 <= k < |order| :: order[k] < |m.chunks|
    requires forall i | i in Plan(true, m.chunks, credited, |m.chunks|) :: i in order
    ensures forall i | 0 <= i < |m.chunks| :: m.chunks[i].id in credited + Arriving(m, order)
  {
    forall i | 0 <= i < |m.chunks| && m.chunks[i].id !in credited ensures m.chunks[i].id in Arriving(m, order) {
      var j := FirstOfKind(m.chunks, i);
      PlanIs(m.chunks, credited, |m.chunks|, j);
      var k :| 0 <= k < |order| && order[k] == j;
      assert m.chunks[order[k]].id == m.chunks[i].id;
    }
  }

  /** Chunks are credited before they arrive. When the batch is lost, the next transfer of
      the same dataset sends nothing, and a node without the pieces never has it. */
  lemma {:induction false} LostBatchIsNotRepeated(bytes: Bytes, chunkSize: nat, credited: set<DataId>,
                                                  store: set<DataId>)
    requires bytes != []
    ensures var m := Split(bytes, chunkSize);
            && Plan(true, m.chunks, credited + Ids(m.chunks), |m.chunks|) == []
            && (BeginWith(m, store).1 == Ok(Some(bytes)) <==> Ids(m.chunks) <= store)
  {
    var m, pieces := Split(bytes, chunkSize), Pieces(bytes, Effective(chunkSize));
    CreditedIsFinal(m.chunks, credited + Ids(m.chunks), |m.chunks|);
    SplitDescribes(bytes, chunkSize);
    BeginRight(m, pieces, bytes, store);
    assert Complete(m, store) <==> Ids(m.chunks) <= store by {
      assert forall i | 0 <= i < |m.chunks| :: m.chunks[i].id in Ids(m.chunks);
    }
  }

  // ---- Pieces that are not what they should be ----

  /** Finished, or holding right pieces only, and not all. */
  ghost predicate Underway(m: Manifest, pieces: seq<Bytes>, store: set<DataId>, p: Option<Pending>) {
    p.None? || (p.value.manifest == m && Holds(m, pieces, store, p.value.got)
                && exists j: nat :: j < |m.chunks| && j !in p.value.got)
  }

  lemma {:induction false} CollectingUnderway(m: Manifest, pieces: seq<Bytes>, store: set<DataId>, p: Option<Pending>)
    requires Collecting(m, pieces, store, p) && |pieces| == |m.chunks|
    ensures Underway(m, pieces, store, p) && (p.None? <==> Complete(m, store))
  {
    if !Complete(m, store) {
      var j: nat :| j < |m.chunks| && m.chunks[j].id !in store;
      assert j !in p.value.got;
    }
  }

  /** What becomes of any arrival at all: nothing once the dataset is out; refused, and nothing
      changed, for a place there is not or bytes that do not belong there; taken otherwise. */
  function Judged(m: Manifest, pieces: seq<Bytes>, open: bool, index: nat, b: Bytes, whole: Option<Bytes>): Outcome {
    if !open then Err(UnknownData)
    else if index >= |pieces| then Err(IndexOutOfRange)
    else if b != pieces[index] then Err(ChunkMismatch)
    else Ok(whole)
  }

  lemma {:induction false} WrongPiece(m: Manifest, pieces: seq<Bytes>, bytes: Bytes, p: Option<Pending>, index: nat,
                                      b: Bytes)
    requires Describes(m, pieces, bytes) && p.Some? && p.value.manifest == m
    requires index >= |pieces| || b != pieces[index]
    ensures Add(p, index, b) == (p, Err(if index >= |pieces| then IndexOutOfRange else ChunkMismatch))
  {
    if index < |pieces| { assert IdOf(b).content == b && IdOf(pieces[index]).content == pieces[index]; }
  }

  lemma {:induction false} ArriveAny(m: Manifest, pieces: seq<Bytes>, bytes: Bytes, store: set<DataId>,
                                     p: Option<Pending>, index: nat, b: Bytes)
    requires Describes(m, pieces, bytes) && Underway(m, pieces, store, p)
    ensures var (q, kept, r) := AddStored(p, store, index, b);
            && kept == store + {IdOf(b)} && Underway(m, pieces, kept, q)
            && r == Judged(m, pieces, p.Some?, index, b, Whole(m, kept, bytes))
            && (q.None? <==> p.None? || r == Ok(Some(bytes)))
            && (r.Err? ==> q == p)
  {
    var kept := store + {IdOf(b)};
    assert |pieces| == |m.chunks|;
    if p.Some? {
      var got := p.value.got;
      assert Holds(m, pieces, kept, got);
      if index < |pieces| && b == pieces[index] {
        assert m.chunks[index].id in kept;
        RightPiece(m, pieces, bytes, kept, got, index);
      } else {
        WrongPiece(m, pieces, bytes, p, index, b);
      }
    }
  }

  lemma {:induction false} RightPiece(m: Manifest, pieces: seq<Bytes>, bytes: Bytes, kept: set<DataId>,
                                      got: map<nat, Bytes>, i: nat)
    requires Describes(m, pieces, bytes) && Holds(m, pieces, kept, got) && i < |m.chunks| && m.chunks[i].id in kept
    ensures var (q, r) := Add(Some(Pending(m, got)), i, pieces[i]);
            var (filled, s) := if r == Ok(None) then Fill(q, kept, 0, Ok(None)) else (q, r);
            && Underway(m, pieces, kept, filled) && s == Ok(Whole(m, kept, bytes))
            && (filled.None? <==> s == Ok(Some(bytes)))
  {
    var more := got[i := pieces[i]];
    AddRight(m, pieces, bytes, kept, got, i);
    hide Add, Fill;
    if forall j: nat | j < |m.chunks| :: j in more {
      Finishes(m, pieces, kept, more);
    } else {
      FillRight(m, pieces, bytes, kept, more, 0);
      CollectingUnderway(m, pieces, kept, Fill(Some(Pending(m, more)), kept, 0, Ok(None)).0);
    }
  }

  /** Whatever arrives, in whatever order. */
  function AnyArrivals(p: Option<Pending>, store: set<DataId>, arrivals: seq<Chunk>): seq<Outcome>
    decreases |arrivals|
  {
    if arrivals == [] then []
    else
      var (q, kept, r) := AddStored(p, store, arrivals[0].index, arrivals[0].bytes);
      [r] + AnyArrivals(q, kept, arrivals[1..])
  }

  /** Each is refused for what it is, and what comes out is the dataset or nothing. */
  predicate Vetted(m: Manifest, pieces: seq<Bytes>, bytes: Bytes, c: Chunk, r: Outcome) {
    match r
    case Ok(whole) => c.index < |pieces| && c.bytes == pieces[c.index] && (whole.Some? ==> whole.value == bytes)
    case Err(IndexOutOfRange) => c.index >= |pieces|
    case Err(ChunkMismatch) => c.index < |pieces| && c.bytes != pieces[c.index]
    case Err(UnknownData) => true
    case Err(DataMismatch) => false
  }

  lemma {:induction false} AnyArrivalsVetted(m: Manifest, pieces: seq<Bytes>, bytes: Bytes, store: set<DataId>,
                                             p: Option<Pending>, arrivals: seq<Chunk>)
    requires Describes(m, pieces, bytes) && Underway(m, pieces, store, p)
    ensures var outcomes := AnyArrivals(p, store, arrivals);
            && |outcomes| == |arrivals|
            && (forall k | 0 <= k < |arrivals| :: Vetted(m, pieces, bytes, arrivals[k], outcomes[k]))
            && Delivered(outcomes, bytes) <= if p.Some? then 1 else 0
    decreases |arrivals|
  {
    if arrivals != [] {
      var c, rest := arrivals[0], arrivals[1..];
      ArriveAny(m, pieces, bytes, store, p, c.index, c.bytes);
      var (q, kept, r) := AddStored(p, store, c.index, c.bytes);
      hide AddStored, Underway, Describes;
      AnyArrivalsVetted(m, pieces, bytes, kept, q, rest);
      var later := AnyArrivals(q, kept, rest);
      assert ([r] + later)[1..] == later;
      assert Vetted(m, pieces, bytes, c, r);
      hide Vetted;
    }
  }

  /** Whatever is sent, and in whatever order, a node gets nothing but the dataset, at most
      once; a piece is refused exactly when its place does not exist or its bytes do not
      belong there, as long as the dataset is not out yet. */
  lemma {:induction false} NothingForged(bytes: Bytes, chunkSize: nat, store: set<DataId>, arrivals: seq<Chunk>)
    requires bytes != []
    ensures var m, pieces := Split(bytes, chunkSize), Pieces(bytes, Effective(chunkSize));
            var (p, first) := BeginWith(m, store);
            var outcomes := AnyArrivals(p, store, arrivals);
            && (first == Ok(None) || first == Ok(Some(bytes))) && |outcomes| == |arrivals|
            && (forall k | 0 <= k < |arrivals| :: Vetted(m, pieces, bytes, arrivals[k], outcomes[k]))
            && Delivered([first] + outcomes, bytes) <= 1
  {
    var m, pieces := Split(bytes, chunkSize), Pieces(bytes, Effective(chunkSize));
    SplitDescribes(bytes, chunkSize);
    hide Split, Pieces, BeginWith, Vetted;
    BeginRight(m, pieces, bytes, store);
    var (p, first) := BeginWith(m, store);
    CollectingUnderway(m, pieces, store, p);
    hide Describes, Collecting, Underway;
    AnyArrivalsVetted(m, pieces, bytes, store, p, arrivals);
    var outcomes := AnyArrivals(p, store, arrivals);
    assert ([first] + outcomes)[1..] == outcomes;
  }

  /** A manifest that names one dataset and lists the pieces of another gets neither: with the
      last piece the collection ends, and says so. */
  lemma {:induction false} FalseManifest(m: Manifest, pieces: seq<Bytes>, store: set<DataId>,
                                         got: map<nat, Bytes>, i: nat)
    requires m.chunks == Described(pieces) && Holds(m, pieces, store, got) && i < |m.chunks|
    requires forall j: nat | j < |m.chunks| && j != i :: j in got
    ensures Add(Some(Pending(m, got)), i, pieces[i])
         == (None, if m.data.id == IdOf(Join(pieces)) then Ok(Some(Join(pieces))) else Err(DataMismatch))
  {
    var more := got[i := pieces[i]];
    AllThere(more, |m.chunks|);
    assert InOrder(more, |m.chunks|) == pieces;
  }
}
