/** The allocation functions of `any_completion_handler_impl`: ask the
    handler's allocator for more bytes than needed, align inside the block, and
    hide the distance to the start of the block behind the user's bytes, where
    deallocation finds it again. */
module AlignedStorage {
  import opened MachineIntegers
  import opened Wrappers

  /** `sizeof(std::ptrdiff_t)`. */
  const TAG_SIZE: Size := 8
  const MAX_ALIGNMENT: Size := 0x8000_0000_0000_0000

  /* ----- std::align ----- */

  predicate Aligned(p: nat, a: nat)
    requires a > 0
  {
    p == 0 || (p >= a && Aligned(p - a, a))
  }

  /** The first aligned address that is not below `x`. */
  function AlignUp(a: nat, x: nat): (r: nat)
    requires a > 0
    ensures x <= r < x + a && Aligned(r, a)
  {
    if x == 0 then 0 else if x <= a then a else a + AlignUp(a, x - a)
  }

  /** Aligned addresses are the multiples of the alignment. */
  lemma {:induction false} AlignedMeansMultiple(p: nat, a: nat)
    requires a > 0
    ensures Aligned(p, a) <==> p % a == 0
  {
    if p >= a {
      AlignedMeansMultiple(p - a, a);
      AddModulus(p - a, a);
    }
  }

  lemma AddModulus(x: nat, a: nat)
    requires a > 0
    ensures (x + a) % a == x % a
  {
    var d := (x + a) / a - x / a - 1;
    assert d * a == x % a - (x + a) % a;
    MultipleIsFar(d, a);
  }

  lemma MultipleIsFar(d: int, a: nat)
    ensures d >= 1 ==> d * a >= a
    ensures d <= -1 ==> d * a <= 0 - a
  {
    if d >= 1 {
      assert d * a == a + (d - 1) * a;
    } else if d <= -1 {
      assert d * a == 0 - a + (d + 1) * a;
    }
  }

  /** `AlignUp` is what section 20.6.5 [ptr.align] of ISO/IEC 14882:2011 asks
      for: an aligned address, and the first one from `x` on. */
  lemma AlignUpIsFirst(a: nat, x: nat)
    requires a > 0
    ensures Aligned(AlignUp(a, x), a)
    ensures forall y :: x <= y < AlignUp(a, x) ==> !Aligned(y, a)
  {
    forall y | x <= y < AlignUp(a, x)
      ensures !Aligned(y, a)
    {
      NothingAlignedBetween(a, x, y);
    }
  }

  lemma {:induction false} NothingAlignedBetween(a: nat, x: nat, y: nat)
    requires a > 0 && x <= y < AlignUp(a, x)
    ensures !Aligned(y, a)
  {
    if x > a {
      NothingAlignedBetween(a, x - a, y - a);
    }
  }

  /** `std::align`: null when the bytes do not fit behind the first aligned
      address. */
  function Align(alignment: Size, size: Size, ptr: nat, space: Size): Option<nat>
    requires alignment > 0
  {
    var p := AlignUp(alignment, ptr);
    if (p - ptr) + size <= space then Some(p) else None
  }

  /** The computation of the space to align in does not fit a `size_t`. */
  predicate Wraps(size: Size, alignment: Size) {
    size + alignment - 1 >= SIZE_LIMIT
  }

  /** `size + align_size - 1` in `size_t` arithmetic. */
  function Space(size: Size, alignment: Size): Size
    requires alignment > 0
  {
    (size + alignment - 1) % SIZE_LIMIT
  }

  /** The length asked of the underlying allocator. */
  function Requested(size: Size, alignment: Size): Size
    requires alignment > 0
  {
    (Space(size, alignment) + TAG_SIZE) % SIZE_LIMIT
  }

  /** With the space that the code computes, aligning fails exactly when that
      computation wraps around, and else finds the first aligned address. */
  lemma AlignFailsOnWrap(alignment: Size, size: Size, ptr: nat)
    requires alignment > 0
    ensures Align(alignment, size, ptr, Space(size, alignment))
      == if Wraps(size, alignment) then None else Some(AlignUp(alignment, ptr))
  {
    SpaceValue(size, alignment);
  }

  lemma SpaceValue(size: Size, alignment: Size)
    requires alignment > 0
    ensures Wraps(size, alignment) ==> Space(size, alignment) < size
    ensures !Wraps(size, alignment) ==> Space(size, alignment) == size + alignment - 1
  {
  }

  lemma RequestedValue(size: Size, alignment: Size)
    requires alignment > 0
    ensures Requested(size, alignment) == size + alignment + 7 <==> size + alignment + 7 < SIZE_LIMIT
    ensures size + alignment + 7 >= SIZE_LIMIT ==> Requested(size, alignment) < size + TAG_SIZE
  {
  }

  /** A block of the requested length, wherever it starts, holds the user's
      bytes and the tag exactly when the length does not wrap around. */
  lemma RequestSuffices(size: Size, alignment: Size, base: nat)
    requires alignment > 0
    ensures AlignUp(alignment, base) + size + TAG_SIZE <= base + Requested(size, alignment)
      <==> size + alignment - 1 + TAG_SIZE < SIZE_LIMIT
  {
    RequestedValue(size, alignment);
  }

  /* ----- The hidden tag ----- */

  function Digit(n: nat, i: nat): Byte {
    if i == 0 then n % 256 else Digit(n / 256, i - 1)
  }

  /** The object representation of a non-negative integer, `k` bytes long. */
  function Encode(n: nat, k: nat): (bytes: seq<Byte>)
    ensures |bytes| == k
  {
    seq(k, (i: nat) => Digit(n, i))
  }

  function Decode(bytes: seq<Byte>): nat {
    if bytes == [] then 0 else bytes[0] + 256 * Decode(bytes[1..])
  }

  function Power256(k: nat): nat {
    if k == 0 then 1 else 256 * Power256(k - 1)
  }

  lemma {:induction false} DecodeEncode(n: nat, k: nat)
    requires n < Power256(k)
    ensures Decode(Encode(n, k)) == n
  {
    if k > 0 {
      DecodeEncode(n / 256, k - 1);
      assert Encode(n, k)[1..] == Encode(n / 256, k - 1);
    }
  }

  lemma TagRoundTrip(off: nat)
    requires off < MAX_ALIGNMENT
    ensures Decode(Encode(off, TAG_SIZE)) == off
  {
    assert Power256(8) == SIZE_LIMIT by {
      assert Power256(4) == 0x1_0000_0000;
    }
    DecodeEncode(off, TAG_SIZE);
  }

  /* ----- The reference ledger ----- */

  /** A block of the underlying allocator. */
  datatype Block = Block(base: nat, length: nat)

  /** What was asked for at an address handed out, the block behind it, and what
      the client has written into it, by index. */
  datatype Chunk = Chunk(base: nat, size: Size, alignment: Size, bytes: map<nat, Byte>) {
    function Length(): nat {
      size + alignment + 7
    }

    function Whole(): Block {
      Block(base, Length())
    }
  }

  function NewChunk(base: nat, size: Size, alignment: Size): Chunk {
    Chunk(base, size, alignment, map[])
  }

  /** The book-keeping that the code does not do: which chunks are live, which
      blocks were obtained and returned so far, and which were obtained for a
      request that then failed. */
  datatype Ledger = Ledger(chunks: map<nat, Chunk>, obtained: multiset<Block>, returned: multiset<Block>,
                           lost: multiset<Block>)

  const EMPTY := Ledger(map[], multiset{}, multiset{}, multiset{})

  /** A client allocates (the underlying allocator answers with `base`), writes
      one of its own bytes, or frees an address. */
  datatype Op =
    | Allocate(size: Size, alignment: Size, base: nat)
    | Write(p: nat, index: nat, value: Byte)
    | Free(p: nat)

  predicate Apart(b: Block, c: Block) {
    b.base + b.length <= c.base || c.base + c.length <= b.base
  }

  /** A block inside the address space that overlaps no live one. */
  predicate Available(chunks: map<nat, Chunk>, b: Block) {
    b.base + b.length < SIZE_LIMIT && forall q :: q in chunks ==> Apart(b, chunks[q].Whole())
  }

  /** The underlying allocator only hands out memory that is not in use, inside
      the address space, unless the request wraps around; a write stays within
      the bytes asked for; only live addresses are freed. */
  predicate Legal(l: Ledger, op: Op) {
    match op
    case Allocate(size, alignment, base) =>
      && 0 < alignment <= MAX_ALIGNMENT
      && (Wraps(size, alignment) || Available(l.chunks, NewChunk(base, size, alignment).Whole()))
    case Write(p, index, _) => p in l.chunks && index < l.chunks[p].size
    case Free(p) => p in l.chunks
  }

  function Step(l: Ledger, op: Op): Ledger
    requires Legal(l, op)
  {
    match op
    case Allocate(size, alignment, base) =>
      var b := Block(base, Requested(size, alignment));
      if Wraps(size, alignment) then l.(obtained := l.obtained + multiset{b}, lost := l.lost + multiset{b})
      else
        var c := NewChunk(base, size, alignment);
        l.(chunks := l.chunks[AlignUp(alignment, base) := c], obtained := l.obtained + multiset{c.Whole()})
    case Write(p, index, value) =>
      var c := l.chunks[p];
      l.(chunks := l.chunks[p := c.(bytes := c.bytes[index := value])])
    case Free(p) => l.(chunks := l.chunks - {p}, returned := l.returned + multiset{l.chunks[p].Whole()})
  }

  /** What the clients' operations do to the chunks and to the traffic. */
  lemma StepOutcomes(l: Ledger, op: Op)
    requires Legal(l, op)
    ensures op.Allocate? && op.size + op.alignment - 1 < SIZE_LIMIT ==>
      var p, after := AlignUp(op.alignment, op.base), Step(l, op);
      && p in after.chunks && after.chunks[p] == Chunk(op.base, op.size, op.alignment, map[])
      && after.chunks - {p} == l.chunks - {p} && after.returned == l.returned && after.lost == l.lost
      && after.obtained == l.obtained + multiset{Block(op.base, op.size + op.alignment - 1 + 8)}
    ensures op.Allocate? && op.size + op.alignment - 1 >= SIZE_LIMIT ==>
      var after := Step(l, op);
      && after.chunks == l.chunks && after.returned == l.returned
      && exists b: Block :: b.base == op.base && after.obtained == l.obtained + multiset{b}
                            && after.lost == l.lost + multiset{b}
    ensures op.Write? ==>
      var c, after := l.chunks[op.p], Step(l, op);
      && op.p in after.chunks && after.chunks[op.p] == c.(bytes := c.bytes[op.index := op.value])
      && after.chunks - {op.p} == l.chunks - {op.p}
      && (after.obtained, after.returned, after.lost) == (l.obtained, l.returned, l.lost)
    ensures op.Free? ==>
      var c, after := l.chunks[op.p], Step(l, op);
      && after.chunks == l.chunks - {op.p} && after.obtained == l.obtained && after.lost == l.lost
      && after.returned == l.returned + multiset{Block(c.base, c.size + c.alignment - 1 + 8)}
  {
    if op.Allocate? && Wraps(op.size, op.alignment) {
      var b := Block(op.base, Requested(op.size, op.alignment));
      assert Step(l, op).obtained == l.obtained + multiset{b};
    }
  }

  predicate LegalRun(l: Ledger, ops: seq<Op>)
    decreases |ops|
  {
    ops == [] || (Legal(l, ops[0]) && LegalRun(Step(l, ops[0]), ops[1..]))
  }

  function Run(l: Ledger, ops: seq<Op>): Ledger
    requires LegalRun(l, ops)
    decreases |ops|
  {
    if ops == [] then l else Run(Step(l, ops[0]), ops[1..])
  }

  /** The chunks lie in their blocks, aligned, and the blocks are disjoint. */
  ghost predicate WellPlaced(chunks: map<nat, Chunk>) {
    && (forall p :: p in chunks ==> PlacedAt(p, chunks[p]))
    && (forall p, q :: p in chunks && q in chunks && p != q ==> Apart(chunks[p].Whole(), chunks[q].Whole()))
  }

  /** The address is aligned, and the user's bytes and the tag behind them lie
      inside the block. */
  predicate PlacedAt(p: nat, c: Chunk) {
    && 0 < c.alignment <= MAX_ALIGNMENT
    && Aligned(p, c.alignment)
    && c.base <= p < c.base + c.alignment
    && p + c.size + TAG_SIZE <= c.base + c.Length()
  }

  function LiveBlocks(chunks: map<nat, Chunk>): set<Block> {
    set p | p in chunks :: chunks[p].Whole()
  }

  /** Every block obtained was returned as often as it was obtained, except that
      the blocks of live chunks are each owed once and lost ones are never
      returned; nothing else was returned. */
  ghost predicate Balanced(l: Ledger) {
    l.obtained == l.returned + multiset(LiveBlocks(l.chunks)) + l.lost
  }

  lemma StepPlaced(l: Ledger, op: Op)
    requires Legal(l, op) && WellPlaced(l.chunks)
    ensures WellPlaced(Step(l, op).chunks)
  {
    match op
    case Allocate(size, alignment, base) =>
      if !Wraps(size, alignment) {
        ChunkPlaced(size, alignment, base);
        AddPlaced(l.chunks, AlignUp(alignment, base), NewChunk(base, size, alignment));
      }
    case Write(p, index, value) =>
      AddPlaced(l.chunks, p, Step(l, op).chunks[p]);
    case Free(_) =>
  }

  lemma ChunkPlaced(size: Size, alignment: Size, base: nat)
    requires 0 < alignment <= MAX_ALIGNMENT
    ensures PlacedAt(AlignUp(alignment, base), NewChunk(base, size, alignment))
  {
  }

  lemma AddPlaced(chunks: map<nat, Chunk>, p: nat, c: Chunk)
    requires WellPlaced(chunks) && PlacedAt(p, c)
    requires forall q :: q in chunks && q != p ==> Apart(c.Whole(), chunks[q].Whole())
    ensures WellPlaced(chunks[p := c])
  {
    var more := chunks[p := c];
    forall q, r | q in more && r in more && q != r
      ensures Apart(more[q].Whole(), more[r].Whole())
    {
      assert q != p && r != p ==> Apart(chunks[q].Whole(), chunks[r].Whole());
    }
  }

  /** A new chunk never gets the address of a live one. */
  lemma NewAddress(l: Ledger, op: Op)
    requires op.Allocate? && !Wraps(op.size, op.alignment) && Legal(l, op) && WellPlaced(l.chunks)
    ensures forall q :: q in l.chunks ==> q != AlignUp(op.alignment, op.base)
    ensures NewChunk(op.base, op.size, op.alignment).Whole() !in LiveBlocks(l.chunks)
  {
  }

  lemma StepBalanced(l: Ledger, op: Op)
    requires Legal(l, op) && WellPlaced(l.chunks) && Balanced(l)
    ensures Balanced(Step(l, op))
  {
    match op
    case Allocate(size, alignment, base) =>
      if !Wraps(size, alignment) {
        NewAddress(l, op);
        AddedBlock(l.chunks, AlignUp(alignment, base), NewChunk(base, size, alignment));
      }
    case Write(p, _, _) =>
      SameBlocks(l.chunks, p, Step(l, op).chunks[p]);
    case Free(p) =>
      RemovedBlock(l.chunks, p);
  }

  lemma AddedBlock(chunks: map<nat, Chunk>, p: nat, c: Chunk)
    requires p !in chunks
    ensures LiveBlocks(chunks[p := c]) == LiveBlocks(chunks) + {c.Whole()}
  {
    var more := chunks[p := c];
    assert more[p] == c && forall q :: q in chunks ==> more[q] == chunks[q];
    forall b | b in LiveBlocks(chunks) + {c.Whole()}
      ensures b in LiveBlocks(more)
    {
      if b == c.Whole() {
        assert more[p].Whole() == b;
      } else {
        var q :| q in chunks && chunks[q].Whole() == b;
        assert more[q].Whole() == b;
      }
    }
  }

  lemma SameBlocks(chunks: map<nat, Chunk>, p: nat, c: Chunk)
    requires p in chunks && c.Whole() == chunks[p].Whole()
    ensures LiveBlocks(chunks[p := c]) == LiveBlocks(chunks)
  {
    var more := chunks[p := c];
    forall b | b in LiveBlocks(chunks)
      ensures b in LiveBlocks(more)
    {
      var q :| q in chunks && chunks[q].Whole() == b;
      assert more[q].Whole() == b;
    }
  }

  lemma RemovedBlock(chunks: map<nat, Chunk>, p: nat)
    requires p in chunks && WellPlaced(chunks)
    ensures LiveBlocks(chunks - {p}) == LiveBlocks(chunks) - {chunks[p].Whole()}
    ensures chunks[p].Whole() in LiveBlocks(chunks)
  {
    var fewer := chunks - {p};
    forall b | b in LiveBlocks(chunks) - {chunks[p].Whole()}
      ensures b in LiveBlocks(fewer)
    {
      var q :| q in chunks && chunks[q].Whole() == b;
      assert fewer[q].Whole() == b;
    }
    forall b | b in LiveBlocks(fewer)
      ensures b in LiveBlocks(chunks) - {chunks[p].Whole()}
    {
      var q :| q in fewer && fewer[q].Whole() == b;
      assert chunks[q].Whole() == b && Apart(chunks[p].Whole(), b);
    }
  }

  /** Over any legal run the blocks obtained are exactly the blocks returned,
      the blocks of live chunks, each once, and the lost ones. */
  lemma {:induction false} RunBalanced(l: Ledger, ops: seq<Op>)
    requires LegalRun(l, ops) && WellPlaced(l.chunks) && Balanced(l)
    ensures WellPlaced(Run(l, ops).chunks) && Balanced(Run(l, ops))
    decreases |ops|
  {
    if ops != [] {
      StepPlaced(l, ops[0]);
      StepBalanced(l, ops[0]);
      RunBalanced(Step(l, ops[0]), ops[1..]);
    }
  }

  /** How many requests of a run wrap around. */
  function WrappedRequests(ops: seq<Op>): nat {
    if ops == [] then 0
    else (if ops[0].Allocate? && Wraps(ops[0].size, ops[0].alignment) then 1 else 0) + WrappedRequests(ops[1..])
  }

  /** Each request that wraps around loses a block, and nothing else does. */
  lemma {:induction false} LostByWrapping(l: Ledger, ops: seq<Op>)
    requires LegalRun(l, ops)
    ensures |Run(l, ops).lost| == |l.lost| + WrappedRequests(ops)
    decreases |ops|
  {
    if ops != [] {
      LostByWrapping(Step(l, ops[0]), ops[1..]);
    }
  }

  /* ----- The clients' bytes ----- */

  /** Write number `i` of a run is the last one to its place, and the chunk is
      not freed after it. */
  predicate Stands(ops: seq<Op>, i: nat)
    requires i < |ops|
  {
    ops[i].Write? && Untouched(ops[i + 1..], ops[i].p, ops[i].index)
  }

  predicate Untouched(ops: seq<Op>, p: nat, index: nat) {
    forall op :: op in ops ==> op != Free(p) && !(op.Write? && op.p == p && op.index == index)
  }

  predicate Holds(l: Ledger, p: nat, index: nat, value: Byte) {
    p in l.chunks && index in l.chunks[p].bytes && l.chunks[p].bytes[index] == value
  }

  lemma {:induction false} ByteKept(l: Ledger, ops: seq<Op>, p: nat, index: nat, value: Byte)
    requires LegalRun(l, ops) && WellPlaced(l.chunks)
    requires Holds(l, p, index, value) && Untouched(ops, p, index)
    ensures Holds(Run(l, ops), p, index, value)
    decreases |ops|
  {
    if ops != [] {
      StepPlaced(l, ops[0]);
      if ops[0].Allocate? && !Wraps(ops[0].size, ops[0].alignment) {
        NewAddress(l, ops[0]);
      }
      ByteKept(Step(l, ops[0]), ops[1..], p, index, value);
    }
  }

  /** Over any legal run, each byte of a live chunk is the one its client wrote
      last. */
  lemma {:induction false} LastWriteStands(l: Ledger, ops: seq<Op>, i: nat)
    requires LegalRun(l, ops) && WellPlaced(l.chunks)
    requires i < |ops| && Stands(ops, i)
    ensures Holds(Run(l, ops), ops[i].p, ops[i].index, ops[i].value)
    decreases |ops|
  {
    StepPlaced(l, ops[0]);
    if i == 0 {
      ByteKept(Step(l, ops[0]), ops[1..], ops[0].p, ops[0].index, ops[0].value);
    } else {
      assert ops[1..][i..] == ops[i + 1..];
      LastWriteStands(Step(l, ops[0]), ops[1..], i - 1);
    }
  }

  /* ----- The code ----- */

  /** Memory with `bytes` copied over it, as `std::memcpy` does. */
  function Overlay(memory: seq<Byte>, at: nat, bytes: seq<Byte>): seq<Byte>
    requires at + |bytes| <= |memory|
  {
    memory[..at] + bytes + memory[at + |bytes|..]
  }

  lemma OverlayKeeps(memory: seq<Byte>, at: nat, bytes: seq<Byte>, lo: nat, hi: nat)
    requires at + |bytes| <= |memory| && lo <= hi <= |memory|
    requires hi <= at || at + |bytes| <= lo
    ensures Overlay(memory, at, bytes)[lo..hi] == memory[lo..hi]
  {
  }

  /** The eight bytes behind the user's bytes encode the distance to the base. */
  ghost predicate Tagged(memory: seq<Byte>, p: nat, c: Chunk) {
    && c.base <= p && p + c.size + TAG_SIZE <= |memory|
    && memory[p + c.size..p + c.size + TAG_SIZE] == Encode(p - c.base, TAG_SIZE)
  }

  /** The memory holds what the client has written. */
  ghost predicate Filled(memory: seq<Byte>, p: nat, c: Chunk) {
    && p + c.size <= |memory|
    && forall i :: i in c.bytes ==> i < c.size && memory[p + i] == c.bytes[i]
  }

  ghost predicate AllIntact(memory: seq<Byte>, chunks: map<nat, Chunk>) {
    forall p :: p in chunks ==> Tagged(memory, p, chunks[p]) && Filled(memory, p, chunks[p])
  }

  /** Bytes copied to a place clear of a chunk and its tag leave it intact. */
  lemma OverlayKeepsChunk(memory: seq<Byte>, at: nat, bytes: seq<Byte>, p: nat, c: Chunk)
    requires at + |bytes| <= |memory| && Tagged(memory, p, c) && Filled(memory, p, c)
    requires at + |bytes| <= p || p + c.size + TAG_SIZE <= at
    ensures Tagged(Overlay(memory, at, bytes), p, c) && Filled(Overlay(memory, at, bytes), p, c)
  {
    OverlayKeeps(memory, at, bytes, p + c.size, p + c.size + TAG_SIZE);
  }

  lemma ChunksApart(p: nat, c: Chunk, q: nat, d: Chunk)
    requires PlacedAt(p, c) && PlacedAt(q, d) && Apart(c.Whole(), d.Whole())
    ensures p + c.size + TAG_SIZE <= q || q + d.size + TAG_SIZE <= p
  {
  }

  /** Storing the tag of a new chunk disturbs no other chunk. */
  lemma AllocateKeepsChunks(memory: seq<Byte>, chunks: map<nat, Chunk>, p: nat, c: Chunk, tag: seq<Byte>)
    requires WellPlaced(chunks) && AllIntact(memory, chunks)
    requires PlacedAt(p, c) && c.base + c.Length() <= |memory| && c.bytes == map[]
    requires forall q :: q in chunks ==> Apart(c.Whole(), chunks[q].Whole())
    requires tag == Encode(p - c.base, TAG_SIZE)
    ensures AllIntact(Overlay(memory, p + c.size, tag), chunks[p := c])
  {
    var after := Overlay(memory, p + c.size, tag);
    forall q | q in chunks
      ensures Tagged(after, q, chunks[q]) && Filled(after, q, chunks[q])
    {
      ChunksApart(p, c, q, chunks[q]);
      OverlayKeepsChunk(memory, p + c.size, tag, q, chunks[q]);
    }
    assert after[p + c.size..p + c.size + TAG_SIZE] == tag;
  }

  lemma WriteKeepsOwn(memory: seq<Byte>, p: nat, c: Chunk, index: nat, value: Byte)
    requires Tagged(memory, p, c) && Filled(memory, p, c) && index < c.size
    ensures var after, d := Overlay(memory, p + index, [value]), c.(bytes := c.bytes[index := value]);
            Tagged(after, p, d) && Filled(after, p, d)
  {
    var after := Overlay(memory, p + index, [value]);
    OverlayKeeps(memory, p + index, [value], p + c.size, p + c.size + TAG_SIZE);
    forall i | i in c.bytes && i != index
      ensures after[p + i] == c.bytes[i]
    {
      assert memory[p + i] == c.bytes[i];
    }
  }

  /** A client's write stores its byte and disturbs no other chunk. */
  lemma WriteKeepsChunks(memory: seq<Byte>, chunks: map<nat, Chunk>, p: nat, index: nat, value: Byte)
    requires WellPlaced(chunks) && AllIntact(memory, chunks)
    requires p in chunks && index < chunks[p].size && p + index < |memory|
    ensures AllIntact(Overlay(memory, p + index, [value]),
                      chunks[p := chunks[p].(bytes := chunks[p].bytes[index := value])])
  {
    var after := Overlay(memory, p + index, [value]);
    forall q | q in chunks && q != p
      ensures Tagged(after, q, chunks[q]) && Filled(after, q, chunks[q])
    {
      ChunksApart(p, chunks[p], q, chunks[q]);
      OverlayKeepsChunk(memory, p + index, [value], q, chunks[q]);
    }
    WriteKeepsOwn(memory, p, chunks[p], index, value);
  }

  /** The address space, and the traffic with the allocator underneath. There
      is no table of chunks here: what the code knows about a chunk is what the
      caller passes and what the memory holds. */
  class Memory {
    var memory: seq<Byte>
    var obtained: multiset<Block>
    var returned: multiset<Block>

    constructor (initial: seq<Byte>)
      ensures memory == initial && obtained == multiset{} && returned == multiset{}
    {
      memory, obtained, returned := initial, multiset{}, multiset{};
    }

    /** Every live chunk still has its tag and the bytes its client wrote, and
        the traffic is as booked. */
    ghost predicate Mirrors(l: Ledger)
      reads this
    {
      && |memory| == SIZE_LIMIT
      && WellPlaced(l.chunks) && AllIntact(memory, l.chunks)
      && obtained == l.obtained && returned == l.returned
    }

    /** `allocate(size, align_size)`; the underlying allocator returns `base`.
        `None` is the exception `std::bad_alloc`, thrown exactly when the request
        wraps around; the block obtained for it is never given back. */
    method Allocate(size: Size, alignment: Size, base: nat, ghost l: Ledger) returns (p: Option<nat>)
      requires Mirrors(l) && Legal(l, Op.Allocate(size, alignment, base))
      modifies this
      ensures Mirrors(Step(l, Op.Allocate(size, alignment, base)))
      ensures p == if Wraps(size, alignment) then None else Some(AlignUp(alignment, base))
      ensures p == None ==> memory == old(memory)
      ensures p.Some? ==>
        && p.value + size + TAG_SIZE <= |old(memory)|
        && memory == Overlay(old(memory), p.value + size, Encode(p.value - base, TAG_SIZE))
    {
      p := ObtainAndAlign(size, alignment, base);
      if p.Some? {
        ghost var c := NewChunk(base, size, alignment);
        ChunkPlaced(size, alignment, base);
        assert Available(l.chunks, c.Whole());
        StoreTag(p.value, p.value - base, size, l.chunks, c);
      }
    }

    /** The part of `allocate` up to the alignment step. */
    method ObtainAndAlign(size: Size, alignment: Size, base: nat) returns (p: Option<nat>)
      requires alignment > 0
      modifies this`obtained
      ensures p == if Wraps(size, alignment) then None else Some(AlignUp(alignment, base))
      ensures obtained == old(obtained) + multiset{Block(base, Requested(size, alignment))}
      ensures size + alignment + 7 < SIZE_LIMIT ==> Requested(size, alignment) == size + alignment + 7
    {
      var space := Space(size, alignment);
      obtained := obtained + multiset{Block(base, (space + TAG_SIZE) % SIZE_LIMIT)};
      p := Align(alignment, size, base, space);
      AlignFailsOnWrap(alignment, size, base);
      RequestedValue(size, alignment);
    }

    /** Copy the distance to the base behind the user's bytes of a new chunk. */
    method StoreTag(p: nat, off: nat, size: Size, ghost chunks: map<nat, Chunk>, ghost c: Chunk)
      requires |memory| == SIZE_LIMIT && WellPlaced(chunks) && AllIntact(memory, chunks)
      requires PlacedAt(p, c) && Available(chunks, c.Whole()) && c.bytes == map[] && c.size == size && off == p - c.base
      modifies this`memory
      ensures p + size + TAG_SIZE <= |memory| == SIZE_LIMIT
      ensures memory == Overlay(old(memory), p + size, Encode(off, TAG_SIZE))
      ensures WellPlaced(chunks[p := c]) && AllIntact(memory, chunks[p := c])
    {
      AddPlaced(chunks, p, c);
      var tag := Encode(off, TAG_SIZE);
      AllocateKeepsChunks(memory, chunks, p, c, tag);
      memory := Overlay(memory, p + size, tag);
    }

    /** `deallocate(p, size, align)`; `None` is the null pointer. The base is
        worked out from the tag alone. */
    method Deallocate(p: Option<nat>, size: Size, alignment: Size, ghost l: Ledger)
      requires Mirrors(l)
      requires p.Some? ==>
        p.value in l.chunks && l.chunks[p.value].size == size && l.chunks[p.value].alignment == alignment
      modifies this`returned
      ensures Mirrors(if p.Some? then Step(l, Free(p.value)) else l)
    {
      if p.Some? {
        ghost var c := l.chunks[p.value];
        assert Tagged(memory, p.value, c) && PlacedAt(p.value, c);
        TagRoundTrip(p.value - c.base);
        var off := Decode(memory[p.value + size..p.value + size + TAG_SIZE]);
        var base := p.value - off;
        returned := returned + multiset{Block(base, size + alignment - 1 + TAG_SIZE)};
        StepPlaced(l, Free(p.value));
      }
    }

    /** The client writes one byte of its chunk. */
    method WriteByte(p: nat, index: nat, value: Byte, ghost l: Ledger)
      requires Mirrors(l) && Legal(l, Write(p, index, value))
      modifies this`memory
      ensures Mirrors(Step(l, Write(p, index, value)))
      ensures memory == Overlay(old(memory), p + index, [value])
    {
      assert PlacedAt(p, l.chunks[p]) && Tagged(memory, p, l.chunks[p]);
      StepPlaced(l, Write(p, index, value));
      WriteKeepsChunks(memory, l.chunks, p, index, value);
      memory := Overlay(memory, p + index, [value]);
    }
  }

  /** A request for the largest size there is: the allocator underneath is asked
      for a few bytes, which are then lost. */
  method WrappedRequestLosesBlock(initial: seq<Byte>, base: nat) returns (m: Memory, p: Option<nat>)
    requires |initial| == SIZE_LIMIT
    ensures fresh(m) && p == None && m.memory == initial
    ensures m.obtained == multiset{Block(base, 14)} && m.returned == multiset{}
  {
    m := new Memory(initial);
    assert Requested(SIZE_LIMIT - 1, 8) == 14;
    p := m.Allocate(SIZE_LIMIT - 1, 8, base, EMPTY);
  }

  /** The sizes that the clients remember for the addresses they hold. */
  ghost predicate Remembers(sizes: map<nat, (Size, Size)>, chunks: map<nat, Chunk>) {
    && sizes.Keys == chunks.Keys
    && forall p :: p in chunks ==> sizes[p] == (chunks[p].size, chunks[p].alignment)
  }

  lemma RemembersStep(sizes: map<nat, (Size, Size)>, l: Ledger, op: Op)
    requires Remembers(sizes, l.chunks) && Legal(l, op)
    ensures var after := match op
              case Allocate(size, alignment, base) =>
                if Wraps(size, alignment) then sizes else sizes[AlignUp(alignment, base) := (size, alignment)]
              case Write(_, _, _) => sizes
              case Free(p) => sizes - {p};
            Remembers(after, Step(l, op).chunks)
  {
  }

  /** Perform one client operation. */
  method Apply(m: Memory, op: Op, sizes: map<nat, (Size, Size)>, ghost l: Ledger)
    returns (after: map<nat, (Size, Size)>)
    requires m.Mirrors(l) && Remembers(sizes, l.chunks) && Legal(l, op)
    modifies m
    ensures m.Mirrors(Step(l, op)) && Remembers(after, Step(l, op).chunks)
  {
    RemembersStep(sizes, l, op);
    match op
    case Allocate(size, alignment, base) =>
      var p := m.Allocate(size, alignment, base, l);
      after := if p.Some? then sizes[p.value := (size, alignment)] else sizes;
    case Write(p, index, value) =>
      m.WriteByte(p, index, value, l);
      after := sizes;
    case Free(p) =>
      m.Deallocate(Some(p), sizes[p].0, sizes[p].1, l);
      after := sizes - {p};
  }

  /** Drive the memory with any legal interleaving of allocations, frees and
      writes, whatever was in memory before. The tags survive, each client finds
      in its chunk what it wrote last, and each block goes back to the underlying
      allocator exactly once, with the base and the length it was obtained with,
      except that each request that wraps around loses one. */
  method RunOps(initial: seq<Byte>, ops: seq<Op>) returns (m: Memory, ghost l: Ledger)
    requires |initial| == SIZE_LIMIT
    requires LegalRun(EMPTY, ops)
    ensures fresh(m) && l == Run(EMPTY, ops)
    ensures m.Mirrors(l) && Balanced(l) && |l.lost| == WrappedRequests(ops)
    ensures forall i :: 0 <= i < |ops| && Stands(ops, i) ==>
      ops[i].p + ops[i].index < |m.memory| && m.memory[ops[i].p + ops[i].index] == ops[i].value
  {
    m := new Memory(initial);
    ghost var l0 := EMPTY;
    l := l0;
    var sizes: map<nat, (Size, Size)> := map[];
    for i := 0 to |ops|
      invariant fresh(m) && m.Mirrors(l) && Remembers(sizes, l.chunks)
      invariant LegalRun(l, ops[i..]) && Run(l, ops[i..]) == Run(l0, ops)
    {
      assert ops[i..][0] == ops[i] && ops[i..][1..] == ops[i + 1..];
      sizes := Apply(m, ops[i], sizes, l);
      l := Step(l, ops[i]);
    }
    RunBalanced(l0, ops);
    LostByWrapping(l0, ops);
    forall i | 0 <= i < |ops| && Stands(ops, i)
      ensures ops[i].p + ops[i].index < |m.memory| && m.memory[ops[i].p + ops[i].index] == ops[i].value
    {
      LastWriteStands(l0, ops, i);
      assert Filled(m.memory, ops[i].p, l.chunks[ops[i].p]);
    }
  }
}
