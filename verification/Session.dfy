/**
 * The allocator as its client sees it: separate blocks of bytes.  Whatever sequence of
 * requests and writes a client makes, each of its blocks reads back as if it were alone
 * in the world.
 */
module Session {
  import opened Arithmetic
  import opened SizeClass
  import opened ChunkMemory
  import opened BinStores
  import opened Tiling
  import opened Tags
  import opened HeapState
  import opened HeapMoves
  import opened HeapFree
  import opened Bytes
  import opened Alignment
  import opened Malloc

  /** Contents of the client's blocks, by address. */
  type Blocks = map<int, seq<int>>

  /** The block at b is in use, large enough, and holds these bytes. */
  ghost predicate Contains(h: Heap, b: int, content: seq<int>) {
    && b - 8 in Live(h.g) && |content| + CHUNK_OVERHEAD <= h.g.tiles[b - 8].size
    && (forall i {:trigger ByteHeld(h.m, b, content, i)} :: 0 <= i < |content| ==> ByteHeld(h.m, b, content, i))
  }

  ghost predicate ByteHeld(m: Memory, b: int, content: seq<int>, i: int)
    requires 0 <= i < |content|
  {
    WordOf(b + i) in m && ByteAt(m, b + i) == content[i]
  }

  /** The chunks in use are exactly the client's blocks. */
  ghost predicate Agrees(h: Heap, blocks: Blocks) {
    && (forall p {:trigger p in Live(h.g)} :: p in Live(h.g) ==> p + 8 in blocks)
    && (forall b {:trigger Contains(h, b, blocks[b])} :: b in blocks ==> Contains(h, b, blocks[b]))
  }

  lemma HoldsOn(h: Heap, h': Heap, xs: set<int>, b: int, content: seq<int>)
    requires HeapOk(h, {}) && Contains(h, b, content) && Preserved(h.m, h'.m, h.g, h'.g, xs) && b - 8 !in xs
    ensures Contains(h', b, content)
  {
    hide HeapOk, Preserved, ByteAt, WordOf;
    StaysLive(h.m, h'.m, h.g, h'.g, xs, b - 8);
    forall i | 0 <= i < |content| ensures ByteHeld(h'.m, b, content, i) {
      assert ByteHeld(h.m, b, content, i);
      BlockWords(h, b - 8, i);
      SameByte(h.m, h'.m, h.g, h'.g, xs, b - 8, i);
    }
  }

  /** The bytes that a block of n bytes at b happens to hold. */
  ghost function Found(h: Heap, b: int, n: nat): (c: seq<int>)
    requires HeapOk(h, {}) && b - 8 in Live(h.g) && n + CHUNK_OVERHEAD <= h.g.tiles[b - 8].size
    ensures |c| == n && Contains(h, b, c)
  {
    var c := seq(n, i requires 0 <= i < n => BlockWords(h, b - 8, i); ByteAt(h.m, b + i));
    FoundHeld(h, b, c);
    c
  }

  lemma FoundHeld(h: Heap, b: int, c: seq<int>)
    requires HeapOk(h, {}) && b - 8 in Live(h.g) && |c| + CHUNK_OVERHEAD <= h.g.tiles[b - 8].size
    requires forall i :: 0 <= i < |c| ==> WordOf(b + i) in h.m ==> c[i] == ByteAt(h.m, b + i)
    ensures Contains(h, b, c)
  {
    hide HeapOk, ByteAt;
    forall i | 0 <= i < |c| ensures ByteHeld(h.m, b, c, i) { BlockWords(h, b - 8, i); assert c[i] == ByteAt(h.m, b + i); }
  }

  /** Two blocks have no byte in common. */
  ghost predicate Disjoint(blocks: Blocks, b: int, c: int) {
    b in blocks && c in blocks && b < c ==> b + |blocks[b]| <= c
  }

  lemma BlocksApart(h: Heap, blocks: Blocks, b: int, c: int)
    requires HeapOk(h, {}) && Agrees(h, blocks)
    ensures Disjoint(blocks, b, c)
  {
    hide TableOk, RowOk;
    OpenHeap(h, {});
    if b in blocks && c in blocks && b < c {
      assert Contains(h, b, blocks[b]) && Contains(h, c, blocks[c]);
      Order(h.g, b - 8, c - 8);
      Seat(h.g, c - 8);
    }
  }

  // ---------------------------------------------------------------- runs

  datatype Op =
    | DoMalloc(bytes: nat)
    | DoMemalign(alignment: bv32, bytes: nat)
    | DoFree(b: int)
    | DoRealloc(b: int, bytes: nat)
    | DoWrite(b: int, i: nat, v: int)

  /** What the allocator answered: an address, or 0, and the bytes found in new space. */
  datatype Answer = Answer(mem: int, found: seq<int>)

  /** A correct caller frees and resizes its own blocks, and writes inside them. */
  predicate Legal(blocks: Blocks, op: Op) {
    match op
    case DoMalloc(bytes) => bytes < WORD_SPAN
    case DoMemalign(alignment, bytes) => bytes < WORD_SPAN && alignment <= 0x8000_0000
    case DoFree(b) => b == 0 || b in blocks
    case DoRealloc(b, bytes) => (b == 0 || b in blocks) && bytes < WORD_SPAN
    case DoWrite(b, i, v) => b in blocks && i < |blocks[b]| && 0 <= v < 256
  }

  /** The kept beginning of a resized block. */
  function Kept(content: seq<int>, bytes: nat): seq<int> {
    content[..Min(|content|, bytes)]
  }

  function Content(blocks: Blocks, b: int): seq<int> {
    if b in blocks then blocks[b] else []
  }

  /** One step of ideal memory, every block an array of its own; calls that are not legal are not made. */
  function Step(blocks: Blocks, op: Op, a: Answer): Blocks {
    if !Legal(blocks, op) then blocks else
    match op
    case DoMalloc(_) => if a.mem == 0 then blocks else blocks[a.mem := a.found]
    case DoMemalign(_, _) => if a.mem == 0 then blocks else blocks[a.mem := a.found]
    case DoFree(b) => blocks - {b}
    case DoRealloc(b, bytes) => if a.mem == 0 then blocks else (blocks - {b})[a.mem := Kept(Content(blocks, b), bytes) + a.found]
    case DoWrite(b, i, v) => blocks[b := blocks[b][i := v]]
  }

  ghost predicate AllDisjoint(blocks: Blocks) {
    forall b, c {:trigger Disjoint(blocks, b, c)} :: Disjoint(blocks, b, c)
  }

  /** A block handed out is aligned, of the size asked for, and not one the client has. */
  ghost predicate Honest(blocks: Blocks, op: Op, a: Answer) {
    Legal(blocks, op) && a.mem != 0 ==>
      match op
      case DoMalloc(bytes) => a.mem !in blocks && a.mem % 8 == 0 && |a.found| == bytes
      case DoMemalign(alignment, bytes) =>
        && a.mem !in blocks && a.mem % 8 == 0 && |a.found| == bytes
        && Meets(a.mem, alignment)
      case DoFree(b) => true
      case DoRealloc(b, bytes) =>
        && (a.mem == b || a.mem !in blocks) && a.mem % 8 == 0 && |Kept(Content(blocks, b), bytes)| + |a.found| == bytes
      case DoWrite(b, i, v) => true
  }

  /** Ideal memory after a run. */
  function Replay(blocks: Blocks, ops: seq<Op>, answers: seq<Answer>): Blocks
    requires |ops| == |answers|
  {
    if ops == [] then blocks
    else
      var n := |ops| - 1;
      Step(Replay(blocks, ops[..n], answers[..n]), ops[n], answers[n])
  }

  // ---------------------------------------------------------------- each call

  lemma AfterServed(h: Heap, h': Heap, blocks: Blocks, b: int, bytes: nat) returns (found: seq<int>)
    requires HeapOk(h', {}) && Agrees(h, blocks) && (blocks.Keys != {} ==> HeapOk(h, {}))
    requires PutToUse(h, h', b - 8, RequestToSize(bytes)) && bytes < MAX_REQUEST
    ensures |found| == bytes && b !in blocks && Agrees(h', blocks[b := found])
  {
    hide HeapOk, Preserved, Contains;
    RequestFits(bytes);
    found := Found(h', b, bytes);
    NotHeld(h, blocks, b);
    var blocks' := blocks[b := found];
    forall c | c in blocks' ensures Contains(h', c, blocks'[c]) {
      if c != b {
        assert Contains(h, c, blocks[c]);
        HoldsOn(h, h', {}, c, blocks[c]);
      }
    }
    forall p | p in Live(h'.g) ensures p + 8 in blocks' {}
  }

  lemma NotHeld(h: Heap, blocks: Blocks, b: int)
    requires Agrees(h, blocks) && b - 8 !in Live(h.g)
    ensures b !in blocks
  {
    forall c | c in blocks ensures c != b { assert Contains(h, c, blocks[c]); }
  }

  lemma AfterFree(h: Heap, h': Heap, blocks: Blocks, b: int)
    requires HeapOk(h, {}) && Agrees(h, blocks)
    requires Live(h'.g) == Live(h.g) - {b - 8} && Preserved(h.m, h'.m, h.g, h'.g, {b - 8})
    ensures Agrees(h', blocks - {b})
  {
    hide HeapOk, Preserved, Contains;
    forall c | c in blocks - {b} ensures Contains(h', c, (blocks - {b})[c]) {
      assert Contains(h, c, blocks[c]);
      HoldsOn(h, h', {b - 8}, c, blocks[c]);
    }
  }

  lemma AfterRealloc(h: Heap, h': Heap, blocks: Blocks, b: int, b': int, bytes: nat) returns (found: seq<int>)
    requires HeapOk(h, {}) && HeapOk(h', {}) && Agrees(h, blocks) && b in blocks && bytes < MAX_REQUEST
    requires Reallocated(h, h', b, b', bytes)
    ensures |Kept(blocks[b], bytes)| + |found| == bytes && (b' == b || b' !in blocks)
    ensures Agrees(h', (blocks - {b})[b' := Kept(blocks[b], bytes) + found])
  {
    hide HeapOk, Preserved, Contains, ByteAt;
    RequestFits(bytes);
    assert Contains(h, b, blocks[b]);
    var content := Found(h', b', bytes);
    var k := |Kept(blocks[b], bytes)|;
    found := content[k..];
    KeptBytes(h, h', blocks[b], content, b, b', bytes);
    assert Kept(blocks[b], bytes) + found == content;
    if b' != b { NotHeld(h, blocks, b'); }
    var blocks' := (blocks - {b})[b' := content];
    forall c | c in blocks' ensures Contains(h', c, blocks'[c]) {
      if c != b' {
        assert Contains(h, c, blocks[c]);
        HoldsOn(h, h', {b - 8}, c, blocks[c]);
      }
    }
    forall p | p in Live(h'.g) ensures p + 8 in blocks' {}
  }

  lemma KeptBytes(h: Heap, h': Heap, before: seq<int>, after: seq<int>, b: int, b': int, bytes: nat)
    requires Contains(h, b, before) && Contains(h', b', after) && |after| == bytes
    requires BytesMoved(h.m, h'.m, b, b', Min(h.g.tiles[b - 8].size - CHUNK_OVERHEAD, bytes))
    ensures Kept(before, bytes) == after[..Min(|before|, bytes)]
  {
    hide ByteAt, WordOf;
    forall i | 0 <= i < Min(|before|, bytes) ensures before[i] == after[i] {
      assert ByteMoved(h.m, h'.m, b, b', i);
      assert ByteHeld(h.m, b, before, i) && ByteHeld(h'.m, b', after, i);
    }
  }

  lemma AfterWrite(h: Heap, h': Heap, blocks: Blocks, b: int, i: nat, v: int)
    requires HeapOk(h, {}) && Agrees(h, blocks) && b in blocks && i < |blocks[b]| && 0 <= v < 256
    requires WordOf(b + i) in h.m && h' == h.(m := SetByte(h.m, b + i, v)) && Preserved(h.m, h'.m, h.g, h.g, {b - 8})
    ensures Agrees(h', blocks[b := blocks[b][i := v]])
  {
    hide HeapOk, Preserved, ByteAt, SetByte;
    var blocks' := blocks[b := blocks[b][i := v]];
    forall c | c in blocks' ensures Contains(h', c, blocks'[c]) {
      assert Contains(h, c, blocks[c]);
      if c != b {
        HoldsOn(h, h', {b - 8}, c, blocks[c]);
      } else {
        WroteByte(h, b, blocks[b], i, v);
      }
    }
  }

  lemma WroteByte(h: Heap, b: int, content: seq<int>, i: nat, v: int)
    requires Contains(h, b, content) && i < |content| && 0 <= v < 256 && WordOf(b + i) in h.m
    ensures Contains(h.(m := SetByte(h.m, b + i, v)), b, content[i := v])
  {
    hide ByteAt, WordOf;
    var m' := SetByte(h.m, b + i, v);
    var after := content[i := v];
    forall j | 0 <= j < |after| ensures ByteHeld(m', b, after, j) {
      assert ByteHeld(h.m, b, content, j);
      ByteStored(h.m, b + i, v, b + j);
    }
  }

  // ---------------------------------------------------------------- the client

  lemma IllegalStep(blocks: Blocks, op: Op)
    ensures !Legal(blocks, op) ==> forall a :: Step(blocks, op, a) == blocks && Honest(blocks, op, a)
  {}

  lemma LegalStep(blocks: Blocks, op: Op)
    requires (op.DoFree? || op.DoWrite?) && Legal(blocks, op)
    ensures forall a {:trigger Honest(blocks, op, a)} :: Honest(blocks, op, a)
    ensures forall a :: Step(blocks, op, a) == if op.DoFree? then blocks - {op.b} else blocks[op.b := blocks[op.b][op.i := op.v]]
  {}

  lemma ReallocNone(blocks: Blocks, bytes: nat, a: Answer)
    requires 0 !in blocks && bytes < WORD_SPAN
    ensures Step(blocks, DoRealloc(0, bytes), a) == Step(blocks, DoMalloc(bytes), a)
    ensures Honest(blocks, DoRealloc(0, bytes), a) <==> Honest(blocks, DoMalloc(bytes), a)
  {
    assert blocks - {0} == blocks && [] + a.found == a.found;
  }

  lemma BlockLive(h: Heap, blocks: Blocks, b: int)
    requires Agrees(h, blocks) && b in blocks
    ensures b - 8 in Live(h.g)
  {
    hide HeapOk;
    assert Contains(h, b, blocks[b]);
  }

  lemma MovedLive(h: Heap, h': Heap, b: int, mem: int, bytes: nat)
    requires Reallocated(h, h', b, mem, bytes)
    ensures mem - 8 in Live(h'.g) && Aligned(mem) && HeapOk(h', {})
  {
    hide HeapOk, Preserved;
  }

  lemma ReplayNone(blocks: Blocks)
    ensures Replay(blocks, [], []) == blocks
  {}

  lemma ReplayMore(blocks: Blocks, ops: seq<Op>, answers: seq<Answer>, op: Op, a: Answer)
    requires |ops| == |answers|
    ensures Replay(blocks, ops + [op], answers + [a]) == Step(Replay(blocks, ops, answers), op, a)
  {
    assert (ops + [op])[..|ops|] == ops && (answers + [a])[..|ops|] == answers;
  }

  lemma NotZero(h: Heap, blocks: Blocks)
    requires Agrees(h, blocks) && (blocks.Keys != {} ==> HeapOk(h, {}))
    ensures 0 !in blocks
  {
    hide TableOk, TagsOk;
    if 0 in blocks {
      assert Contains(h, 0, blocks[0]);
      RolesHeap(h, {});
    }
  }

  class Client {
    const heap: Allocator
    var sizes: map<int, nat>
    ghost var blocks: Blocks

    /** The allocator is sound, its chunks in use are the client's blocks, and they hold what the client thinks. */
    ghost predicate Valid()
      reads this, heap, heap.table
    {
      && heap.Valid() && Agrees(heap.State(), blocks)
      && sizes.Keys == blocks.Keys && forall b :: b in blocks ==> sizes[b] == |blocks[b]|
    }

    constructor (heap: Allocator)
      requires heap.Valid() && Live(heap.row) == {}
      ensures Valid() && this.heap == heap && blocks == map[]
    {
      this.heap := heap;
      sizes := map[];
      blocks := map[];
    }

    lemma Ready()
      requires Valid()
      ensures blocks.Keys != {} ==> heap.Holding({})
      ensures AllDisjoint(blocks)
    {
      hide HeapOk;
      if exists b :: b in blocks {
        var b :| b in blocks;
        assert Contains(heap.State(), b, blocks[b]);
        heap.LiveHolds(b - 8);
        forall b, c ensures Disjoint(blocks, b, c) { BlocksApart(heap.State(), blocks, b, c); }
      } else {
        assert forall b :: b !in blocks.Keys;
      }
    }

    /** The client reads back what ideal memory holds. */
    method Read(b: int, i: nat) returns (v: int)
      requires Valid() && b in blocks && i < |blocks[b]|
      ensures v == blocks[b][i]
    {
      hide HeapOk, ByteAt;
      assert Contains(heap.State(), b, blocks[b]);
      assert ByteHeld(heap.table.mem, b, blocks[b], i);
      v := ByteAt(heap.table.mem, b + i);
    }

    method Write(b: int, i: nat, v: int)
      requires Valid() && Legal(blocks, DoWrite(b, i, v))
      modifies this, heap.table
      ensures Valid() && blocks == old(blocks)[b := old(blocks)[b][i := v]]
    {
      hide HeapOk, Preserved, ByteAt, SetByte;
      assert Contains(heap.State(), b, blocks[b]);
      Ready();
      ghost var h := heap.State();
      ByteScribble(h, b - 8, i, v);
      heap.table.mem := SetByte(heap.table.mem, b + i, v);
      AfterWrite(h, heap.State(), blocks, b, i, v);
      blocks := blocks[b := blocks[b][i := v]];
    }

    /** The block at mem, just handed out, becomes one of the client's; h is the heap as it was. */
    method Gain(mem: int, bytes: nat, ghost h: Heap) returns (ghost found: seq<int>)
      requires heap.Valid() && Agrees(h, blocks) && (blocks.Keys != {} ==> HeapOk(h, {}))
      requires sizes.Keys == blocks.Keys && forall b :: b in blocks ==> sizes[b] == |blocks[b]|
      requires bytes < MAX_REQUEST && PutToUse(h, heap.State(), mem - 8, RequestToSize(bytes))
      modifies this
      ensures Valid() && |found| == bytes && mem !in old(blocks) && blocks == old(blocks)[mem := found]
    {
      hide HeapOk, Preserved, Agrees;
      found := AfterServed(h, heap.State(), blocks, mem, bytes);
      blocks := blocks[mem := found];
      sizes := sizes[mem := bytes];
    }

    method Allocate(bytes: nat) returns (mem: int, ghost found: seq<int>)
      requires Valid() && heap.Steady() && bytes < WORD_SPAN
      modifies this, heap, heap.table
      ensures Valid() && (old(heap.Settled()) ==> heap.Settled())
      ensures blocks == Step(old(blocks), DoMalloc(bytes), Answer(mem, found)) && Honest(old(blocks), DoMalloc(bytes), Answer(mem, found))
    {
      hide HeapOk, Preserved, Agrees;
      Ready();
      ghost var h := heap.State();
      mem := heap.Malloc(bytes);
      found := [];
      if mem != 0 {
        found := Gain(mem, bytes, h);
      }
    }

    method AllocateAligned(alignment: bv32, bytes: nat) returns (mem: int, ghost found: seq<int>)
      requires Valid() && heap.Steady() && Legal(blocks, DoMemalign(alignment, bytes))
      modifies this, heap, heap.table
      ensures Valid() && (old(heap.Settled()) ==> heap.Settled())
      ensures blocks == Step(old(blocks), DoMemalign(alignment, bytes), Answer(mem, found))
      ensures Honest(old(blocks), DoMemalign(alignment, bytes), Answer(mem, found))
    {
      hide HeapOk, Preserved, Meets, Agrees;
      Ready();
      ghost var h := heap.State();
      mem := heap.Memalign(alignment, bytes);
      found := [];
      if mem != 0 {
        found := Gain(mem, bytes, h);
      }
    }

    method Release(b: int)
      requires Valid() && Legal(blocks, DoFree(b))
      modifies this, heap, heap.table
      ensures Valid() && blocks == old(blocks) - {b}
      ensures old(heap.Settled()) ==> heap.Settled()
    {
      hide HeapOk, Preserved;
      Ready();
      ghost var h := heap.State();
      if b in blocks { assert Contains(h, b, blocks[b]); }
      heap.Free(b);
      if b != 0 { AfterFree(h, heap.State(), blocks, b); } else { NotZero(h, blocks); }
      blocks := blocks - {b};
      sizes := sizes - {b};
    }

    method Resize(b: int, bytes: nat) returns (mem: int, ghost found: seq<int>)
      requires Valid() && heap.Steady() && Legal(blocks, DoRealloc(b, bytes))
      modifies this, heap, heap.table
      ensures Valid() && (old(heap.Settled()) ==> heap.Settled())
      ensures blocks == Step(old(blocks), DoRealloc(b, bytes), Answer(mem, found)) && Honest(old(blocks), DoRealloc(b, bytes), Answer(mem, found))
    {
      hide HeapOk, Preserved, Step, Honest;
      if b == 0 {
        Ready();
        NotZero(heap.State(), blocks);
        mem, found := ResizeNone(bytes);
        ReallocNone(old(blocks), bytes, Answer(mem, found));
      } else {
        mem, found := ResizeBlock(b, bytes);
      }
    }

    /** realloc of no block is malloc. */
    method ResizeNone(bytes: nat) returns (mem: int, ghost found: seq<int>)
      requires Valid() && heap.Steady() && bytes < WORD_SPAN
      modifies this, heap, heap.table
      ensures Valid() && (old(heap.Settled()) ==> heap.Settled())
      ensures blocks == Step(old(blocks), DoMalloc(bytes), Answer(mem, found)) && Honest(old(blocks), DoMalloc(bytes), Answer(mem, found))
    {
      hide HeapOk, Preserved, Agrees;
      Ready();
      ghost var h := heap.State();
      mem := heap.Realloc(0, bytes);
      found := [];
      if mem != 0 {
        found := Gain(mem, bytes, h);
      }
    }

    method ResizeBlock(b: int, bytes: nat) returns (mem: int, ghost found: seq<int>)
      requires Valid() && b != 0 && b in blocks && bytes < WORD_SPAN
      modifies this, heap, heap.table
      ensures Valid() && (old(heap.Settled()) ==> heap.Settled())
      ensures blocks == Step(old(blocks), DoRealloc(b, bytes), Answer(mem, found)) && Honest(old(blocks), DoRealloc(b, bytes), Answer(mem, found))
    {
      hide HeapOk, Preserved, Reallocated, Contains;
      Ready();
      ghost var h := heap.State();
      BlockLive(h, blocks, b);
      mem := heap.Realloc(b, bytes);
      found := [];
      if mem != 0 {
        MovedLive(h, heap.State(), b, mem, bytes);
        heap.LiveHolds(mem - 8);
        found := AfterRealloc(h, heap.State(), blocks, b, mem, bytes);
        blocks := (blocks - {b})[mem := Kept(blocks[b], bytes) + found];
        sizes := (sizes - {b})[mem := bytes];
      }
    }

    /** One call, made if it is legal. */
    method Perform(op: Op) returns (mem: int, ghost found: seq<int>)
      requires Valid() && heap.Steady()
      modifies this, heap, heap.table
      ensures old(heap.Settled()) ==> heap.Settled()
      ensures Valid() && blocks == Step(old(blocks), op, Answer(mem, found)) && Honest(old(blocks), op, Answer(mem, found))
    {
      hide HeapOk, Agrees, Step, Honest;
      mem, found := 0, [];
      IllegalStep(blocks, op);
      match op
      case DoMalloc(bytes) =>
        if bytes < WORD_SPAN { mem, found := Allocate(bytes); }
      case DoMemalign(alignment, bytes) =>
        if bytes < WORD_SPAN && alignment <= 0x8000_0000 { mem, found := AllocateAligned(alignment, bytes); }
      case DoFree(b) =>
        if b == 0 || b in sizes { LegalStep(blocks, op); Release(b); }
      case DoRealloc(b, bytes) =>
        if (b == 0 || b in sizes) && bytes < WORD_SPAN { mem, found := Resize(b, bytes); }
      case DoWrite(b, i, v) =>
        if b in sizes && i < sizes[b] && 0 <= v < 256 { LegalStep(blocks, op); Write(b, i, v); }
    }

    /**
     * Any run of calls: the allocator's invariant holds at the end, and the client's blocks
     * are those of ideal memory that got the same answers, each honest when it was given.
     * The run stops early only where the next call might spoil the heap, which never comes
     * about once the end of the segment is at a word border.
     */
    method Run(ops: seq<Op>) returns (mems: seq<int>, ghost answers: seq<Answer>)
      requires Valid()
      modifies this, heap, heap.table
      ensures Valid() && heap.Valid() && AllDisjoint(blocks)
      ensures |mems| <= |ops| && (|mems| < |ops| ==> !heap.Steady()) && (old(heap.Settled()) ==> |mems| == |ops|)
      ensures |answers| == |mems| && forall k :: 0 <= k < |mems| ==> answers[k].mem == mems[k]
      ensures blocks == Replay(old(blocks), ops[..|mems|], answers)
      ensures forall k :: 0 <= k < |mems| ==> Honest(Replay(old(blocks), ops[..k], answers[..k]), ops[k], answers[k])
    {
      hide HeapOk, Agrees, Step, Honest, Replay;
      mems, answers := [], [];
      ReplayNone(blocks);
      while |mems| < |ops| && heap.Steady()
        invariant Valid() && |answers| == |mems| <= |ops|
        invariant old(heap.Settled()) ==> heap.Settled()
        invariant forall k :: 0 <= k < |mems| ==> answers[k].mem == mems[k]
        invariant blocks == Replay(old(blocks), ops[..|mems|], answers)
        invariant forall k :: 0 <= k < |mems| ==> Honest(Replay(old(blocks), ops[..k], answers[..k]), ops[k], answers[k])
        decreases |ops| - |mems|
      {
        var n := |mems|;
        ghost var before := answers;
        var mem, found := Perform(ops[n]);
        mems := mems + [mem];
        answers := answers + [Answer(mem, found)];
        assert ops[..n + 1] == ops[..n] + [ops[n]];
        ReplayMore(old(blocks), ops[..n], before, ops[n], Answer(mem, found));
        assert forall k :: 0 <= k <= n ==> answers[..k] == before[..k];
      }
      Ready();
    }
  }
}
