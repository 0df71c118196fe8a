/** Model of `asio::basic_streambuf`: one growable array with a get area
    [gptr, egptr), an input sequence [gptr, pptr) and an output sequence
    [pptr, epptr). Pointers are offsets from the start of the array; `eback`
    is always offset 0. An exception is a `threw` result. */
module BasicStreambuf {
  import opened MachineIntegers
  import opened Wrappers
  import Q = ByteQueue

  const BUFFER_DELTA: Size := Q.BUFFER_DELTA

  /** The input sequence that a refused `prepare` leaves behind. The shift to
      the front has been done but the positions still are the old ones, so the
      first `g` bytes are gone and the last `g` appear twice; if the source
      and the target of the shift do not overlap nothing changes. */
  function AfterRefusal<T>(input: seq<T>, g: nat): seq<T> {
    if g < |input| then input[g..] + input[|input| - g..] else input
  }

  /** A refused `prepare` keeps the input exactly when the input repeats itself
      with period `g`. */
  lemma RefusalKeepsPeriodicInput<T>(input: seq<T>, g: nat)
    ensures AfterRefusal(input, g) == input <==> forall j :: 0 <= j < |input| - g ==> input[j] == input[j + g]
  {
  }

  /** Whatever the bytes are, a refused `prepare` keeps them if and only if
      nothing is shifted or the shift moves them clear of where they were. */
  lemma RefusalKeepsEveryInput(size: nat, g: nat)
    ensures (forall input: seq<char> | |input| == size :: AfterRefusal(input, g) == input) <==> g == 0 || size <= g
  {
    if g == 0 {
      forall input: seq<char> | |input| == size ensures AfterRefusal(input, g) == input {
        RefusalKeepsPeriodicInput(input, g);
      }
    } else if g < size {
      var marked: seq<char> := seq(size, i => if i == 0 then 'x' else 'y');
      RefusalKeepsPeriodicInput(marked, g);
      assert marked[0] != marked[0 + g];
      assert AfterRefusal(marked, g) != marked;
    }
  }

  /** How far `consume(n)` moves the read position when the array starts at
      address `base`: the pointer sum is formed before it is compared, and the
      count is cast to `int` for `gbump`. */
  function ConsumeDistance(base: Size, gnext: nat, pnext: nat, n: Size): int
    requires gnext <= pnext && base + pnext < SIZE_LIMIT
  {
    var sum := (base + gnext + n) % SIZE_LIMIT;
    CastToInt(if sum > base + pnext then pnext - gnext else n)
  }

  /** The documentation promises that an `n` beyond the input consumes all of
      it. The call does what is promised exactly in two cases: the pointer sum
      does not wrap around and the count to drop fits an `int`; or it wraps
      around and the low half of `n` happens to be the size of the input. */
  lemma ConsumeAsDocumented(base: Size, gnext: nat, pnext: nat, n: Size)
    requires gnext <= pnext && base + pnext < SIZE_LIMIT
    ensures ConsumeDistance(base, gnext, pnext, n) == Min(n, pnext - gnext)
      <==> if base + gnext + n < SIZE_LIMIT then Min(n, pnext - gnext) <= INT_MAX
           else CastToInt(n) == pnext - gnext
  {
  }

  /** The documented promise fails for the largest count there is: instead of
      emptying the input, the call puts the previous character back. */
  lemma ConsumeEverythingCounterexample()
    ensures ConsumeDistance(4096, 1, 3, SIZE_LIMIT - 1) == -1
  {
  }

  lemma Slice<T>(a: array<T>, i: nat, j: nat)
    requires i <= j <= a.Length
    ensures a[i..j] == a[..][i..j]
  {
  }

  /** What the shift of `before[g..p]` to the front leaves between the old
      positions, and behind them. */
  lemma Shifted<T>(before: seq<T>, g: nat, p: nat, e: nat)
    requires g <= p <= e <= |before|
    ensures var after := before[g..p] + before[p - g..];
            && |after| == |before| && after[0..p - g] == before[g..p]
            && after[g..p] == AfterRefusal(before[g..p], g) && after[p..e] == before[p..e]
  {
    var after := before[g..p] + before[p - g..];
    if g < p - g {
      assert after[g..p - g] == before[g..p][g..];
      assert after[p - g..p] == before[p - g..p];
      assert after[g..p] == after[g..p - g] + after[p - g..p];
    }
  }

  /** `std::memmove(&a[0], &a[from], count)`. */
  method MoveToFront<T>(a: array<T>, from: nat, count: nat)
    requires from + count <= a.Length
    modifies a
    ensures a[..] == old(a[..][from..from + count] + a[..][count..])
  {
    forall i | 0 <= i < count {
      a[i] := a[from + i];
    }
  }

  /** `std::vector::resize` to a length that is not smaller: the elements are
      kept and the new ones are zero. */
  method Resize(a: array<char>, length: nat) returns (b: array<char>)
    requires a.Length <= length
    ensures fresh(b) && b.Length == length
    ensures b[..] == a[..] + seq(length - a.Length, _ => '\0')
  {
    b := new char[length](_ => '\0');
    forall i | 0 <= i < a.Length {
      b[i] := a[i];
    }
  }

  class Streambuf {
    const maxSize: Size
    var buffer: array<char>
    var capacity: nat
    var gptr: nat
    var egptr: nat
    var pptr: nat
    var epptr: nat

    /** The invariant of every reachable state. */
    ghost predicate Valid()
      reads this
    {
      && gptr <= egptr <= pptr <= epptr <= maxSize
      && buffer.Length == Max(epptr, 1)
      && buffer.Length <= capacity
    }

    /** `data()`: the input sequence. */
    function Input(): seq<char>
      requires Valid()
      reads this, buffer
    {
      buffer[gptr..pptr]
    }

    /** The output sequence. */
    ghost function Output(): seq<char>
      requires Valid()
      reads this, buffer
    {
      buffer[pptr..epptr]
    }

    /** `spare` is how much more than needed the vector chooses to reserve. */
    constructor (maximumSize: Size, spare: nat)
      ensures Valid() && fresh(buffer)
      ensures maxSize == maximumSize
      ensures Input() == [] && gptr == 0 && epptr == Min(maximumSize, 128)
    {
      var pend := Min(maximumSize, BUFFER_DELTA);
      maxSize := maximumSize;
      buffer := new char[Max(pend, 1)](_ => '\0');
      capacity := Max(pend, 1) + spare;
      gptr, egptr := 0, 0;
      pptr, epptr := 0, pend;
    }

    function InputSize(): Size
      requires Valid()
      reads this
    {
      pptr - gptr
    }

    /** Make room for `n` characters at the end, or refuse. */
    method Reserve(n: Size, spare: nat) returns (threw: bool)
      requires Valid()
      modifies this, buffer
      ensures Valid() && (buffer == old(buffer) || fresh(buffer))
      ensures threw <==> old(pptr - gptr) + n > maxSize
      ensures n <= old(epptr - pptr) ==> unchanged(this) && unchanged(old(buffer))
      ensures !threw ==> Input() == old(Input()) && n <= epptr - pptr
      ensures !threw && n > old(epptr - pptr) ==>
        gptr == 0 && egptr == pptr && epptr == Max(old(epptr), old(pptr - gptr) + n)
      ensures threw ==> unchanged(this) && Input() == AfterRefusal(old(Input()), gptr)
      ensures threw ==> Output() == old(Output())
      ensures capacity >= old(capacity)
    {
      var room: Size := epptr - pptr;
      if n <= room {
        return false;
      }
      threw := MakeRoom(n, spare);
    }

    /** The part of `reserve` after the test for enough space: shift, grow or
        refuse, then follow with the positions. */
    method MakeRoom(n: Size, spare: nat) returns (threw: bool)
      requires Valid() && n > epptr - pptr
      modifies this, buffer
      ensures Valid() && (buffer == old(buffer) || fresh(buffer)) && capacity >= old(capacity)
      ensures threw <==> old(pptr - gptr) + n > maxSize
      ensures !threw ==> Input() == old(Input())
      ensures !threw ==> gptr == 0 && egptr == pptr && epptr == Max(old(epptr), old(pptr - gptr) + n)
      ensures threw ==> unchanged(this) && Input() == AfterRefusal(old(Input()), gptr) && Output() == old(Output())
    {
      var gnext: Size := gptr;
      var pnext: Size := pptr;
      if gnext > 0 {
        pnext := pnext - gnext;
        ShiftToFront();
      } else {
        assert AfterRefusal(old(Input()), 0) == old(Input());
      }
      threw := Grow(n, pnext, spare);
    }

    /** The test and the growth of `reserve` once the input is at the front. */
    method Grow(n: Size, pnext: Size, spare: nat) returns (threw: bool)
      requires Valid() && pnext == pptr - gptr
      modifies this
      ensures Valid() && (buffer == old(buffer) || fresh(buffer)) && capacity >= old(capacity)
      ensures threw <==> n > epptr - pnext && pnext + n > maxSize
      ensures threw ==> unchanged(this)
      ensures !threw ==> gptr == 0 && egptr == pptr == pnext && epptr == Max(old(epptr), pnext + n)
      ensures !threw ==> Input() == old(buffer[..pnext])
    {
      var pend: Size := epptr;
      var room: Size := pend - pnext;
      if n > room {
        if !(n <= maxSize && (var left: Size := maxSize - n; pnext <= left)) {
          return true;
        }
        pend := pnext + n;
        Enlarge(pnext, Max(pend, 1), spare);
      }
      SetAreas(pnext, pend);
      return false;
    }

    /** `setg` and `setp` at the end of `reserve`. */
    method SetAreas(pnext: nat, pend: nat)
      requires pnext <= pend <= maxSize && buffer.Length == Max(pend, 1) <= capacity
      modifies this`gptr, this`egptr, this`pptr, this`epptr
      ensures Valid() && gptr == 0 && egptr == pptr == pnext && epptr == pend
      ensures Input() == buffer[..pnext]
    {
      gptr, egptr := 0, pnext;
      pptr, epptr := pnext, pend;
    }

    /** `buffer_.resize(length)`, tracking the capacity of the vector. */
    method Enlarge(ghost used: nat, length: nat, spare: nat)
      requires used <= buffer.Length <= length && buffer.Length <= capacity
      modifies this`buffer, this`capacity
      ensures fresh(buffer) && buffer.Length == length <= capacity && capacity >= old(capacity)
      ensures buffer[..used] == old(buffer[..used])
    {
      buffer := Resize(buffer, length);
      if length > capacity {
        capacity := length + spare;
      }
    }

    /** The shift of `reserve`, before the positions follow it. */
    method ShiftToFront()
      requires Valid()
      modifies buffer
      ensures buffer[..pptr - gptr] == old(Input())
      ensures Input() == AfterRefusal(old(Input()), gptr) && Output() == old(Output())
    {
      ghost var before := buffer[..];
      Slice(buffer, gptr, pptr);
      Slice(buffer, pptr, epptr);
      MoveToFront(buffer, gptr, pptr - gptr);
      Shifted(before, gptr, pptr, epptr);
      Slice(buffer, 0, pptr - gptr);
      Slice(buffer, gptr, pptr);
      Slice(buffer, pptr, epptr);
    }

    /** `prepare(n)`. The memory returned starts at `pptr`. */
    method Prepare(n: Size, spare: nat) returns (threw: bool)
      requires Valid()
      modifies this, buffer
      ensures Valid() && (buffer == old(buffer) || fresh(buffer))
      ensures threw <==> old(|Input()|) + n > maxSize
      ensures !threw ==> Input() == old(Input()) && n <= |Output()|
      ensures !threw ==> epptr == Max(old(epptr), old(|Input()|) + n)
      ensures threw ==> unchanged(this) && Input() == AfterRefusal(old(Input()), gptr) && Output() == old(Output())
    {
      threw := Reserve(n, spare);
    }

    /** The client writes `chunk` into the prepared memory, `at` bytes in. */
    method Fill(at: nat, chunk: seq<char>)
      requires Valid() && at + |chunk| <= |Output()|
      modifies buffer
      ensures Valid() && Input() == old(Input())
      ensures Output() == old(Output()[..at]) + chunk + old(Output()[at + |chunk|..])
    {
      forall i | 0 <= i < |chunk| {
        buffer[pptr + at + i] := chunk[i];
      }
    }

    /** Move the boundary between two adjacent pieces of an array. */
    static lemma Resplit(a: array<char>, i: nat, j: nat, k: nat, l: nat)
      requires i <= j <= k <= l <= a.Length
      ensures a[i..k] == a[i..j] + a[j..l][..k - j]
      ensures a[k..l] == a[j..l][k - j..]
    {
    }

    /** `commit(n)`. The source moves the whole output sequence when `n` is
        larger than it; the count has to survive the cast to `int`. */
    method Commit(n: Size)
      requires Valid()
      requires Min(n, |Output()|) <= INT_MAX
      modifies this
      ensures Valid() && buffer == old(buffer)
      ensures Input() == old(Input() + Output()[..Min(n, |Output()|)])
      ensures Output() == old(Output()[Min(n, |Output()|)..])
      ensures egptr == pptr && gptr == old(gptr) && epptr == old(epptr)
    {
      var count: Size := Min(n, epptr - pptr);
      CastToIntExact(count);
      pptr := pptr + CastToInt(count);
      egptr := pptr;
      Resplit(buffer, gptr, old(pptr), pptr, epptr);
    }

    /** `consume(n)`, with the array at address `base`. The sum of the read
        pointer and `n` has to be representable, and so has the number of
        characters dropped, as an `int`. */
    method Consume(n: Size, base: Size)
      requires Valid()
      requires base + pptr < SIZE_LIMIT && base + gptr + n < SIZE_LIMIT && Min(n, |Input()|) <= INT_MAX
      modifies this
      ensures Valid() && buffer == old(buffer)
      ensures gptr == old(gptr) + old(ConsumeDistance(base, gptr, pptr, n))
      ensures Input() == old(Input()[Min(n, |Input()|)..])
      ensures Output() == old(Output()) && pptr == old(pptr) && epptr == old(epptr)
    {
      if egptr < pptr {
        egptr := pptr;
      }
      var distance := Dropped(n, base);
      Gbump(distance);
    }

    /** The argument of `gbump` in `consume`. */
    method Dropped(n: Size, base: Size) returns (distance: int)
      requires Valid()
      requires base + pptr < SIZE_LIMIT && base + gptr + n < SIZE_LIMIT && Min(n, pptr - gptr) <= INT_MAX
      ensures distance == ConsumeDistance(base, gptr, pptr, n) == Min(n, pptr - gptr)
    {
      var count := n;
      var sum: Size := base + gptr + n;
      if sum > base + pptr {
        count := pptr - gptr;
      }
      ConsumeAsDocumented(base, gptr, pptr, n);
      distance := CastToInt(count);
    }

    /** `gbump(n)`. */
    method Gbump(n: nat)
      requires Valid() && gptr + n <= egptr
      modifies this`gptr
      ensures Valid() && gptr == old(gptr) + n
      ensures Input() == old(Input())[n..] && Output() == old(Output())
    {
      gptr := gptr + n;
    }

    /** `underflow()`: expose what has been written since the get area was set;
        `None` is end-of-file. */
    method Underflow() returns (c: Option<char>)
      requires Valid()
      modifies this
      ensures Valid() && buffer == old(buffer)
      ensures gptr == old(gptr) && pptr == old(pptr) && epptr == old(epptr)
      ensures Input() == old(Input()) && Output() == old(Output())
      ensures if Input() == [] then c == None else c == Some(Input()[0]) && egptr == pptr
    {
      if gptr < pptr {
        egptr := pptr;
        return Some(buffer[gptr]);
      }
      return None;
    }

    /** `*pptr() = c; pbump(1);` */
    method Store(c: char)
      requires Valid() && pptr < epptr
      modifies this`pptr, buffer
      ensures Valid() && pptr == old(pptr) + 1
      ensures Input() == old(Input()) + [c] && Output() == old(Output()[1..])
    {
      ghost var before := buffer[..];
      buffer[pptr] := c;
      pptr := pptr + 1;
      assert buffer[..] == before[..pptr - 1] + [c] + before[pptr..];
      assert buffer[gptr..pptr] == before[gptr..pptr - 1] + [c];
    }

    /** `overflow(c)`; `None` is end-of-file, for which nothing is stored. It
        throws exactly when the buffer is full, and then harms nothing. */
    method Overflow(c: Option<char>, spare: nat) returns (threw: bool)
      requires Valid()
      modifies this, buffer
      ensures Valid() && (buffer == old(buffer) || fresh(buffer))
      ensures threw <==> c.Some? && old(|Input()|) == maxSize
      ensures threw || c == None ==> unchanged(this) && Input() == old(Input()) && Output() == old(Output())
      ensures !threw && c.Some? ==> Input() == old(Input()) + [c.value]
      ensures !threw && c.Some? && old(pptr == epptr) ==>
        epptr == Max(old(epptr), Min(old(|Input()|) + 128, maxSize))
      ensures epptr <= Max(old(epptr), Min(old(|Input()|) + BUFFER_DELTA, maxSize))
    {
      threw := false;
      if c == None {
        return;
      }
      if pptr == epptr {
        var bufferSize: Size := pptr - gptr;
        var ask: Size := if bufferSize < maxSize && maxSize - bufferSize < BUFFER_DELTA
                         then maxSize - bufferSize else BUFFER_DELTA;
        threw := Reserve(ask, spare);
        if threw {
          return;
        }
      }
      Store(c.value);
    }

    /** `std::streambuf::sputc`: store in the put area or call `overflow`. */
    method Sputc(c: char, spare: nat) returns (threw: bool)
      requires Valid()
      modifies this, buffer
      ensures Valid() && (buffer == old(buffer) || fresh(buffer))
      ensures threw <==> old(|Input()|) == maxSize
      ensures Input() == if threw then old(Input()) else old(Input()) + [c]
      ensures epptr <= Max(old(epptr), Min(old(|Input()|) + BUFFER_DELTA, maxSize))
    {
      if pptr < epptr {
        Store(c);
        return false;
      }
      threw := Overflow(Some(c), spare);
    }

    /** `std::streambuf::sgetc`: look at the next character. */
    method Sgetc() returns (c: Option<char>)
      requires Valid()
      modifies this
      ensures Valid() && buffer == old(buffer)
      ensures gptr == old(gptr) && pptr == old(pptr) && epptr == old(epptr)
      ensures Input() == old(Input()) && Output() == old(Output())
      ensures if Input() == [] then c == None else c == Some(Input()[0]) && gptr < egptr
    {
      if gptr < egptr {
        return Some(buffer[gptr]);
      }
      c := Underflow();
    }

    /** `std::streambuf::sbumpc`: take the next character. */
    method Sbumpc() returns (c: Option<char>)
      requires Valid()
      modifies this
      ensures Valid() && buffer == old(buffer)
      ensures Output() == old(Output()) && pptr == old(pptr) && epptr == old(epptr)
      ensures old(Input()) == [] ==> c == None && Input() == []
      ensures old(Input()) != [] ==> c == Some(old(Input()[0])) && Input() == old(Input()[1..])
    {
      c := Sgetc();
      if c.Some? {
        gptr := gptr + 1;
      }
    }

    /** `read_size_helper(sb, m)`: how much to ask for in one read. */
    function ReadSizeHelper(m: Size): (r: Size)
      requires Valid()
      reads this
      ensures r <= m && InputSize() + r <= maxSize
      ensures r >= Min(512, Min(m, maxSize - InputSize())) && r <= Max(512, capacity - InputSize())
      ensures m >= capacity - InputSize() && capacity <= maxSize ==> r >= capacity - InputSize()
      ensures m > 0 && InputSize() < maxSize ==> r > 0
    {
      var unused: nat := capacity - InputSize();
      var left: Size := maxSize - InputSize();
      Min(Max(512, unused), Min(m, left))
    }
  }

  /** The stream buffer shows the reference queue as its input sequence, and
      its output sequence starts with what the client has staged. */
  ghost predicate Mirrors(sb: Streambuf, q: Q.Queue)
    reads sb, sb.buffer
  {
    && sb.Valid()
    && sb.Input() == q.bytes
    && |q.staged| <= q.room <= |sb.Output()|
    && q.staged <= sb.Output()
    && sb.epptr <= q.reach
  }

  /** Perform an operation on the output sequence. */
  method ApplyOutput(sb: Streambuf, op: Q.Op, staged: nat, spare: nat, ghost q: Q.Queue)
    requires op.Prepare? || op.Stage? || op.Commit?
    requires Mirrors(sb, q) && Q.Legal(q, op, sb.maxSize) && staged == |q.staged|
    modifies sb, sb.buffer
    ensures sb.buffer == old(sb.buffer) || fresh(sb.buffer)
    ensures Mirrors(sb, Q.Step(q, op, sb.maxSize))
  {
    if op.Prepare? {
      var threw := sb.Prepare(op.n, spare);
      assert !threw;
    } else if op.Stage? {
      sb.Fill(staged, op.chunk);
      assert q.staged + op.chunk <= sb.Output();
    } else {
      ghost var output := sb.Output();
      assert output[..op.n] == q.staged[..op.n] && q.staged[op.n..] <= output[op.n..];
      sb.Commit(op.n);
    }
  }

  /** Drop the front of the input sequence. */
  method ApplyConsume(sb: Streambuf, n: Size, base: Size, ghost q: Q.Queue)
    requires Mirrors(sb, q) && Q.Legal(q, Q.Consume(n, base), sb.maxSize)
    modifies sb
    ensures sb.buffer == old(sb.buffer) && Mirrors(sb, Q.Step(q, Q.Consume(n, base), sb.maxSize))
  {
    sb.Consume(n, base);
  }

  /** Perform one client operation; `staged` counts the bytes already staged.
      Only a character put on a full buffer throws. */
  method Apply(sb: Streambuf, op: Q.Op, staged: nat, spare: nat, ghost q: Q.Queue)
    returns (threw: bool, got: Option<char>)
    requires Mirrors(sb, q) && Q.Legal(q, op, sb.maxSize) && staged == |q.staged|
    modifies sb, sb.buffer
    ensures sb.buffer == old(sb.buffer) || fresh(sb.buffer)
    ensures Mirrors(sb, Q.Step(q, op, sb.maxSize))
    ensures threw <==> op.Put? && |q.bytes| == sb.maxSize
    ensures got == if op.Get? && q.bytes != [] then Some(q.bytes[0]) else None
  {
    threw, got := false, None;
    match op
    case Consume(n, base) => ApplyConsume(sb, n, base, q);
    case Put(c) => threw := sb.Sputc(c, spare);
    case Peek => var _ := sb.Sgetc();
    case Get => got := sb.Sbumpc();
    case _ => ApplyOutput(sb, op, staged, spare, q);
  }

  /** Drive a stream buffer with any legal sequence of client operations. Its
      input sequence is the reference queue at every point of the run, however
      the array was shifted and reallocated, and the reader got the same
      characters. */
  method RunOps(sb: Streambuf, ops: seq<Q.Op>, spare: nat) returns (taken: seq<char>)
    requires sb.Valid()
    requires Q.LegalRun(Q.Queue(sb.Input(), [], 0, [], sb.epptr), ops, sb.maxSize)
    modifies sb, sb.buffer
    ensures var q := Q.Run(Q.Queue(old(sb.Input()), [], 0, [], old(sb.epptr)), ops, sb.maxSize);
            Mirrors(sb, q) && taken == q.taken
  {
    ghost var q0 := Q.Queue(sb.Input(), [], 0, [], sb.epptr);
    ghost var q := q0;
    var staged := 0;
    taken := [];
    for i := 0 to |ops|
      invariant sb.buffer == old(sb.buffer) || fresh(sb.buffer)
      invariant Q.LegalRun(q, ops[i..], sb.maxSize)
      invariant Q.Run(q, ops[i..], sb.maxSize) == Q.Run(q0, ops, sb.maxSize)
      invariant Mirrors(sb, q) && taken == q.taken && staged == |q.staged|
    {
      assert ops[i..][0] == ops[i] && ops[i..][1..] == ops[i + 1..];
      var _, got := Apply(sb, ops[i], staged, spare, q);
      taken := if got.Some? then taken + [got.value] else taken;
      staged := StagedAfter(ops[i], staged);
      q := Q.Step(q, ops[i], sb.maxSize);
    }
  }

  function StagedAfter(op: Q.Op, staged: nat): nat
    requires op.Commit? ==> op.n <= staged
  {
    match op
    case Stage(chunk) => staged + |chunk|
    case Commit(n) => staged - n
    case Prepare(_) => 0
    case Put(_) => 0
    case _ => staged
  }

  /** A refusal that damages the input: four characters under a cap of four,
      one of them read, and no room for two more. */
  method RefusedPrepareLosesInput() returns (sb: Streambuf, threw: bool, before: seq<char>)
    ensures fresh(sb) && sb.Valid() && threw
    ensures before == "bcd" && sb.Input() == "cdd"
  {
    sb := new Streambuf(4, 0);
    for i := 0 to 4
      invariant sb.Valid() && fresh(sb.buffer) && sb.Input() == "abcd"[..i]
    {
      var _ := sb.Sputc("abcd"[i], 0);
    }
    var _ := sb.Sbumpc();
    before := sb.Input();
    threw := sb.Prepare(2, 0);
  }
}
