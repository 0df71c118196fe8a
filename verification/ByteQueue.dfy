/** The reference machine for a stream buffer: a first-in first-out queue of
    bytes with a size cap. It has no array, no positions and no reallocation.

    `staged` is what the client has written so far into the memory returned by
    the last preparation, `room` how much it was promised, and `taken` the
    characters already handed to the reader. `reach` bounds how far the array
    of the real buffer has grown by now; the queue itself does not need it. */
module ByteQueue {
  import opened MachineIntegers

  datatype Queue = Queue(bytes: seq<char>, staged: seq<char>, room: nat, taken: seq<char>, reach: nat)

  datatype Op =
    | Prepare(n: Size)
    | Stage(chunk: seq<char>)
    | Commit(n: Size)
    | Consume(n: Size, base: Size)
    | Put(c: char)
    | Peek
    | Get

  /** How far `overflow` grows a buffer at a time. */
  const BUFFER_DELTA: Size := 128

  /** What a client of the stream buffer is allowed to do next. Preparation
      must fit under the cap; staging must stay inside the prepared memory;
      only staged bytes may be committed; and the counts that the code passes
      to `pbump` and `gbump` must fit in an `int`. A consume finds the array at
      some address `base`; one beyond the queue is legal as long as the pointer
      sum it forms is representable. */
  predicate Legal(q: Queue, op: Op, maxSize: Size) {
    match op
    case Prepare(n) => |q.bytes| + n <= maxSize
    case Stage(chunk) => |q.staged| + |chunk| <= q.room
    case Commit(n) => n <= |q.staged| && n <= INT_MAX
    case Consume(n, base) =>
      && Min(n, |q.bytes|) <= INT_MAX
      && base + q.reach + (if n <= |q.bytes| then 0 else n) < SIZE_LIMIT
    case _ => true
  }

  function Step(q: Queue, op: Op, maxSize: Size): Queue
    requires Legal(q, op, maxSize)
  {
    match op
    case Prepare(n) => q.(staged := [], room := n, reach := Max(q.reach, |q.bytes| + n))
    case Stage(chunk) => q.(staged := q.staged + chunk)
    case Commit(n) => q.(bytes := q.bytes + q.staged[..n], staged := q.staged[n..], room := q.room - Min(n, q.room))
    case Consume(n, _) => q.(bytes := q.bytes[Min(n, |q.bytes|)..])
    case Put(c) =>
      q.(bytes := if |q.bytes| < maxSize then q.bytes + [c] else q.bytes, staged := [], room := 0,
         reach := Max(q.reach, Min(|q.bytes| + BUFFER_DELTA, maxSize)))
    case Peek => q
    case Get => if q.bytes == [] then q else q.(bytes := q.bytes[1..], taken := q.taken + [q.bytes[0]])
  }

  /** What the operations do to the queue, to what is staged, and to what the
      reader got. */
  lemma StepOutcomes(q: Queue, op: Op, maxSize: Size)
    requires Legal(q, op, maxSize)
    ensures var after := Step(q, op, maxSize);
            && (op.Prepare? ==> after.bytes == q.bytes && after.staged == [] && after.room == op.n)
            && (op.Stage? ==> after.bytes == q.bytes && after.staged == q.staged + op.chunk)
            && (op.Commit? ==> after.bytes == q.bytes + q.staged[..op.n] && after.staged == q.staged[op.n..])
            && (op.Consume? ==> after.bytes == if op.n <= |q.bytes| then q.bytes[op.n..] else [])
            && (op.Put? ==> after.bytes == if |q.bytes| < maxSize then q.bytes + [op.c] else q.bytes)
            && (op == Peek || (op == Get && q.bytes == []) ==> after == q)
            && (op == Get && q.bytes != [] ==> after.bytes == q.bytes[1..] && after.taken == q.taken + [q.bytes[0]])
            && (op != Get ==> after.taken == q.taken)
  {
  }

  /** A run is legal when each operation is, after the ones before it. */
  predicate LegalRun(q: Queue, ops: seq<Op>, maxSize: Size)
    decreases |ops|
  {
    ops == [] || (Legal(q, ops[0], maxSize) && LegalRun(Step(q, ops[0], maxSize), ops[1..], maxSize))
  }

  function Run(q: Queue, ops: seq<Op>, maxSize: Size): Queue
    requires LegalRun(q, ops, maxSize)
    decreases |ops|
  {
    if ops == [] then q else Run(Step(q, ops[0], maxSize), ops[1..], maxSize)
  }

  /** The bytes one operation adds at the back. */
  function Added(q: Queue, op: Op, maxSize: Size): seq<char>
    requires Legal(q, op, maxSize)
  {
    match op
    case Commit(n) => q.staged[..n]
    case Put(c) => if |q.bytes| < maxSize then [c] else []
    case _ => []
  }

  /** The bytes one operation removes from the front. */
  function Removed(q: Queue, op: Op): seq<char> {
    match op
    case Consume(n, _) => q.bytes[..Min(n, |q.bytes|)]
    case Get => if q.bytes == [] then [] else q.bytes[..1]
    case _ => []
  }

  /** The bytes that entered the queue during a run, in order. */
  function Entered(q: Queue, ops: seq<Op>, maxSize: Size): seq<char>
    requires LegalRun(q, ops, maxSize)
    decreases |ops|
  {
    if ops == [] then []
    else Added(q, ops[0], maxSize) + Entered(Step(q, ops[0], maxSize), ops[1..], maxSize)
  }

  /** The bytes that left the queue during a run, in order. */
  function Left(q: Queue, ops: seq<Op>, maxSize: Size): seq<char>
    requires LegalRun(q, ops, maxSize)
    decreases |ops|
  {
    if ops == [] then []
    else Removed(q, ops[0]) + Left(Step(q, ops[0], maxSize), ops[1..], maxSize)
  }

  lemma StepConserves(q: Queue, op: Op, maxSize: Size)
    requires Legal(q, op, maxSize)
    ensures q.bytes + Added(q, op, maxSize) == Removed(q, op) + Step(q, op, maxSize).bytes
  {
  }

  /** First in, first out: what was there followed by what entered is what left
      followed by what remains. */
  lemma {:induction false} FirstInFirstOut(q: Queue, ops: seq<Op>, maxSize: Size)
    requires LegalRun(q, ops, maxSize)
    ensures q.bytes + Entered(q, ops, maxSize) == Left(q, ops, maxSize) + Run(q, ops, maxSize).bytes
    decreases |ops|
  {
    if ops != [] {
      var next, rest := Step(q, ops[0], maxSize), ops[1..];
      StepConserves(q, ops[0], maxSize);
      FirstInFirstOut(next, rest, maxSize);
      Chain(q.bytes, Added(q, ops[0], maxSize), Removed(q, ops[0]), next.bytes,
            Entered(next, rest, maxSize), Left(next, rest, maxSize), Run(next, rest, maxSize).bytes);
    }
  }

  lemma Chain<T>(a: seq<T>, added: seq<T>, removed: seq<T>, b: seq<T>, entered: seq<T>, left: seq<T>, c: seq<T>)
    requires a + added == removed + b && b + entered == left + c
    ensures a + (added + entered) == removed + left + c
  {
    assert a + (added + entered) == a + added + entered;
    assert removed + b + entered == removed + (b + entered);
    assert removed + (left + c) == removed + left + c;
  }

  /** The queue, the memory promised to the client and the array never outgrow
      the cap. */
  lemma {:induction false} CapKept(q: Queue, ops: seq<Op>, maxSize: Size)
    requires LegalRun(q, ops, maxSize)
    requires |q.bytes| + q.room <= maxSize && |q.staged| <= q.room && q.reach <= maxSize
    ensures var r := Run(q, ops, maxSize);
            |r.bytes| + r.room <= maxSize && |r.staged| <= r.room && r.reach <= maxSize
    decreases |ops|
  {
    if ops != [] {
      CapKept(Step(q, ops[0], maxSize), ops[1..], maxSize);
    }
  }
}
