/** Model of `read_at` on a stream buffer: the loop that fills the buffer from a
    device until the completion condition is met, asking each time for what
    `read_size_helper` suggests. */
module ReadAt {
  import opened MachineIntegers
  import opened BasicStreambuf

  /** One call of the device's `read_some_at`: how many bytes it would like to
      return, and whether it reports an error. */
  datatype DeviceRead = DeviceRead(count: nat, failed: bool)

  const DEFAULT_MAX_TRANSFER_SIZE: Size := 65536

  datatype Completion = TransferAll | TransferAtLeast(minimum: Size) | TransferExactly(size: Size) {
    /** The completion condition: how much may be read next, or 0 to stop. */
    function Limit(failed: bool, total: nat): Size {
      if failed then 0
      else match this
        case TransferAll => DEFAULT_MAX_TRANSFER_SIZE
        case TransferAtLeast(minimum) => if total >= minimum then 0 else DEFAULT_MAX_TRANSFER_SIZE
        case TransferExactly(size) => if total >= size then 0 else Min(size - total, DEFAULT_MAX_TRANSFER_SIZE)
    }

    /** What the loop is to achieve with `room` bytes left under the cap. */
    function Goal(room: nat): nat {
      match this
      case TransferAll => room
      case TransferAtLeast(minimum) => Min(minimum, room)
      case TransferExactly(size) => Min(size, room)
    }
  }

  /** One turn of the loop: where in the file it reads, how much memory it
      offers the device, and how much the device fills. */
  datatype Round = Round(at: nat, offered: nat, count: nat)

  /** Everything a loop depends on: the condition, where it starts in a file of
      some size, and how many bytes are left under the cap. */
  datatype Setting = Setting(completion: Completion, offset: nat, fileSize: nat, room: nat) {
    /** How much the file holds from a position on. */
    function Left(at: nat): nat {
      if at <= fileSize then fileSize - at else 0
    }

    /** The memory offered: at least 512 bytes, or all that the condition and the
        cap allow. */
    predicate Asked(wanted: nat, failed: bool, at: nat)
      requires offset <= at <= offset + room
    {
      var most := Min(completion.Limit(failed, at - offset), room - (at - offset));
      Min(512, most) <= wanted <= most
    }

    /** A round offers memory and gets what the device has and wants to give. */
    predicate Proper(r: Round, call: DeviceRead) {
      && offset <= r.at <= offset + room && r.offered > 0 && Asked(r.offered, false, r.at)
      && r.count == Min(call.count, Min(r.offered, Left(r.at)))
    }
  }

  /** Where the loop has got to after `k` rounds. */
  function Reached(rounds: seq<Round>, offset: nat, k: nat): nat
    requires k <= |rounds|
  {
    if k == 0 then offset else rounds[k - 1].at + rounds[k - 1].count
  }

  function End(rounds: seq<Round>, offset: nat): nat {
    Reached(rounds, offset, |rounds|)
  }

  /** Round `k` is the answer to call `k` and starts where the previous round
      ended; the calls before it succeeded. */
  predicate Follows(rounds: seq<Round>, k: nat, calls: seq<DeviceRead>, x: Setting)
    requires k < |rounds| <= |calls|
  {
    && x.Proper(rounds[k], calls[k])
    && rounds[k].at == Reached(rounds, x.offset, k)
    && (k > 0 ==> !calls[k - 1].failed)
  }

  /** The rounds follow the calls of the device one by one. */
  ghost predicate Logged(rounds: seq<Round>, calls: seq<DeviceRead>, x: Setting) {
    |rounds| <= |calls| && forall k :: 0 <= k < |rounds| ==> Follows(rounds, k, calls, x)
  }

  /** The log is proper and says where the loop is and whether the last call
      failed. */
  ghost predicate Consistent(rounds: seq<Round>, calls: seq<DeviceRead>, x: Setting, at: nat, failed: bool) {
    && Logged(rounds, calls, x) && at == End(rounds, x.offset)
    && (failed <==> rounds != [] && calls[|rounds| - 1].failed)
  }

  lemma LogRound(rounds: seq<Round>, r: Round, calls: seq<DeviceRead>, x: Setting, at: nat)
    requires Consistent(rounds, calls, x, at, false) && |rounds| < |calls|
    requires x.Proper(r, calls[|rounds|]) && r.at == at
    ensures Consistent(rounds + [r], calls, x, at + r.count, calls[|rounds|].failed)
  {
    forall k | 0 <= k < |rounds| + 1
      ensures Follows(rounds + [r], k, calls, x)
    {
      assert k < |rounds| ==> Follows(rounds, k, calls, x);
    }
  }

  /** Every call succeeds and would deliver at least a byte. */
  ghost predicate Delivers(calls: seq<DeviceRead>) {
    forall i :: 0 <= i < |calls| ==> calls[i].count > 0 && !calls[i].failed
  }

  /** The loop never goes back, nor past the file, the cap or an exact size. A
      device that keeps delivering, and has enough, moves it on in every round. */
  lemma RoundsProgress(rounds: seq<Round>, calls: seq<DeviceRead>, x: Setting)
    requires Logged(rounds, calls, x)
    ensures var total := End(rounds, x.offset) - x.offset;
            && 0 <= total <= Min(x.room, x.Left(x.offset))
            && (x.completion.TransferExactly? ==> total <= x.completion.size)
            && (Delivers(calls) && x.completion.Goal(x.room) <= x.Left(x.offset) ==> total >= |rounds|)
  {
    ReachedProgress(rounds, calls, x, |rounds|);
  }

  /** No round is made once the condition is met. A round reads where the last
      one ended, offers no more than the largest transfer, what is left under
      the cap and what an exact size lacks, but at least 512 bytes unless that
      is less, and gets what the device has and wants to give. */
  lemma RoundOutcome(rounds: seq<Round>, calls: seq<DeviceRead>, x: Setting, k: nat)
    requires Logged(rounds, calls, x) && k < |rounds|
    ensures var r, total := rounds[k], rounds[k].at - x.offset;
            && r.at == (if k == 0 then x.offset else rounds[k - 1].at + rounds[k - 1].count)
            && (k > 0 ==> !calls[k - 1].failed)
            && 0 <= total < x.room && 0 < r.offered <= Min(65536, x.room - total)
            && (x.completion.TransferAtLeast? ==> total < x.completion.minimum)
            && (x.completion.TransferExactly? ==> total + r.offered <= x.completion.size)
            && (r.offered >= 512 || r.offered == x.room - total
                || (x.completion.TransferExactly? && total + r.offered == x.completion.size))
            && r.count == Min(calls[k].count, Min(r.offered, if r.at <= x.fileSize then x.fileSize - r.at else 0))
  {
    assert Follows(rounds, k, calls, x);
  }

  lemma {:induction false} ReachedProgress(rounds: seq<Round>, calls: seq<DeviceRead>, x: Setting, k: nat)
    requires Logged(rounds, calls, x) && k <= |rounds|
    ensures var total := Reached(rounds, x.offset, k) - x.offset;
            && 0 <= total <= Min(x.room, x.Left(x.offset))
            && (x.completion.TransferExactly? ==> total <= x.completion.size)
            && (Delivers(calls) && x.completion.Goal(x.room) <= x.Left(x.offset) ==> total >= k)
  {
    if k > 0 {
      ReachedProgress(rounds, calls, x, k - 1);
      assert Follows(rounds, k - 1, calls, x);
    }
  }

  method Ask(sb: Streambuf, x: Setting, failed: bool, at: nat) returns (wanted: Size)
    requires sb.Valid() && x.offset <= at && |sb.Input()| + x.room == sb.maxSize + (at - x.offset)
    ensures |sb.Input()| + wanted <= sb.maxSize && x.Asked(wanted, failed, at)
  {
    wanted := sb.ReadSizeHelper(x.completion.Limit(failed, at - x.offset));
  }

  /** The piece of a file between two positions; past its end there is nothing. */
  ghost function Piece(file: seq<char>, a: nat, b: nat): seq<char> {
    if a <= b <= |file| then file[a..b] else []
  }

  lemma PieceTwice(start: seq<char>, file: seq<char>, a: nat, b: nat, n: nat)
    requires a <= b && (b <= |file| || a == b) && (b + n <= |file| || n == 0)
    ensures start + Piece(file, a, b) + Piece(file, b, b + n) == start + Piece(file, a, b + n)
  {
  }

  /** One turn of the loop below: prepare, let the device write, commit. */
  method ReadRound(sb: Streambuf, file: seq<char>, at: nat, call: DeviceRead, wanted: Size, spare: nat)
    returns (n: nat)
    requires sb.Valid() && |sb.Input()| + wanted <= sb.maxSize && wanted <= DEFAULT_MAX_TRANSFER_SIZE
    modifies sb, sb.buffer
    ensures sb.Valid() && (sb.buffer == old(sb.buffer) || fresh(sb.buffer))
    ensures n == Min(call.count, Min(wanted, if at <= |file| then |file| - at else 0))
    ensures if at <= |file| then sb.Input() == old(sb.Input()) + file[at..at + n] else sb.Input() == old(sb.Input())
  {
    n := Min(call.count, Min(wanted, if at <= |file| then |file| - at else 0));
    var data := if at <= |file| then file[at..at + n] else [];
    var threw := sb.Prepare(wanted, spare);
    assert !threw;
    sb.Fill(0, data);
    assert sb.Output()[..n] == data;
    sb.Commit(n);
  }

  /** What a loop has achieved when it stops: it met the condition or filled the
      buffer unless the script ended, and a device that keeps delivering gets it
      to its goal. */
  lemma LoopEnded(rounds: seq<Round>, calls: seq<DeviceRead>, x: Setting, at: nat, failed: bool, wanted: nat)
    requires Consistent(rounds, calls, x, at, failed)
    requires x.offset <= at <= x.offset + x.room && x.Asked(wanted, failed, at)
    requires wanted == 0 || |rounds| == |calls|
    ensures |rounds| < |calls| ==>
      || failed || at - x.offset == x.room
      || (x.completion.TransferAtLeast? && at - x.offset >= x.completion.minimum)
      || (x.completion.TransferExactly? && at - x.offset == x.completion.size)
    ensures Delivers(calls) ==>
      var enough := Min(x.fileSize - x.offset, |calls|);
      && (x.completion.TransferAll? && x.room <= enough ==> at - x.offset == x.room)
      && (x.completion.TransferAtLeast? && Min(x.completion.minimum, x.room) <= enough ==>
            at - x.offset >= Min(x.completion.minimum, x.room))
      && (x.completion.TransferExactly? && Min(x.completion.size, x.room) <= enough ==>
            at - x.offset == Min(x.completion.size, x.room))
  {
    RoundsProgress(rounds, calls, x);
  }

  /** The input is `start` followed by the piece of the file covered so far, and
      `wanted` is what will be asked for next. */
  ghost predicate Holds(sb: Streambuf, file: seq<char>, x: Setting, start: seq<char>, at: nat, failed: bool,
                        wanted: nat)
    reads sb, sb.buffer
  {
    && sb.Valid() && x.offset <= at <= x.offset + x.room && |start| + x.room == sb.maxSize
    && (at <= |file| || at == x.offset)
    && sb.Input() == start + Piece(file, x.offset, at)
    && x.Asked(wanted, failed, at)
  }

  /** One turn of the loop, and what it asks for next. */
  method ReadTurn(sb: Streambuf, file: seq<char>, x: Setting, at: nat, call: DeviceRead, wanted: Size, spare: nat,
                  ghost start: seq<char>)
    returns (more: Size, n: nat)
    requires Holds(sb, file, x, start, at, false, wanted) && x.fileSize == |file| && wanted > 0
    modifies sb, sb.buffer
    ensures sb.buffer == old(sb.buffer) || fresh(sb.buffer)
    ensures x.Proper(Round(at, wanted, n), call) && Holds(sb, file, x, start, at + n, call.failed, more)
  {
    n := ReadRound(sb, file, at, call, wanted, spare);
    PieceTwice(start, file, x.offset, at, n);
    more := Ask(sb, x, call.failed, at + n);
  }

  /** The same with the round added to the log. */
  method LoggedTurn(sb: Streambuf, file: seq<char>, x: Setting, calls: seq<DeviceRead>, rounds: seq<Round>, at: nat,
                    wanted: Size, spare: nat, ghost start: seq<char>)
    returns (more: Size, rounds': seq<Round>, at': nat, failed: bool)
    requires Consistent(rounds, calls, x, at, false) && |rounds| < |calls|
    requires Holds(sb, file, x, start, at, false, wanted) && x.fileSize == |file| && wanted > 0
    modifies sb, sb.buffer
    ensures sb.buffer == old(sb.buffer) || fresh(sb.buffer)
    ensures Consistent(rounds', calls, x, at', failed) && |rounds'| == |rounds| + 1
    ensures Holds(sb, file, x, start, at', failed, more)
  {
    var n;
    more, n := ReadTurn(sb, file, x, at, calls[|rounds|], wanted, spare, start);
    LogRound(rounds, Round(at, wanted, n), calls, x, at);
    rounds', at', failed := rounds + [Round(at, wanted, n)], at + n, calls[|rounds|].failed;
  }

  /** `read_at(device, offset, sb, completion, ec)`. The device holds `file` and
      `calls` scripts what its reads do; the loop stops early only if the script
      ends. No `prepare` throws. The rounds made are a proper log of the calls
      consumed, and the input grows by exactly the piece of the file that they
      cover. The loop ends by itself exactly when the completion condition is
      met, which includes a failed call, or the buffer is full; and it gets to
      its goal if the device keeps delivering. */
  method Read(sb: Streambuf, file: seq<char>, offset: nat, completion: Completion, calls: seq<DeviceRead>, spare: nat)
    returns (total: nat, failed: bool, rounds: seq<Round>)
    requires sb.Valid()
    modifies sb, sb.buffer
    ensures sb.Valid() && (if offset <= |file| then offset + total <= |file| else total == 0)
    ensures sb.Input() == old(sb.Input()) + if offset <= |file| then file[offset..offset + total] else []
    ensures var x := Setting(completion, offset, |file|, sb.maxSize - old(|sb.Input()|));
            && Consistent(rounds, calls, x, offset + total, failed) && total <= x.room
            && (|rounds| < |calls| ==>
                  || failed || total == x.room
                  || (completion.TransferAtLeast? && total >= completion.minimum)
                  || (completion.TransferExactly? && total == completion.size))
            && (Delivers(calls) ==>
                  var enough := Min(|file| - offset, |calls|);
                  && (completion.TransferAll? && x.room <= enough ==> total == x.room)
                  && (completion.TransferAtLeast? && Min(completion.minimum, x.room) <= enough ==>
                        total >= Min(completion.minimum, x.room))
                  && (completion.TransferExactly? && Min(completion.size, x.room) <= enough ==>
                        total == Min(completion.size, x.room)))
  {
    ghost var start := sb.Input();
    var x := Setting(completion, offset, |file|, sb.maxSize - |sb.Input()|);
    failed, rounds := false, [];
    var at: nat := offset;
    var wanted := Ask(sb, x, failed, at);
    while wanted > 0 && |rounds| < |calls|
      invariant sb.buffer == old(sb.buffer) || fresh(sb.buffer)
      invariant Consistent(rounds, calls, x, at, failed)
      invariant Holds(sb, file, x, start, at, failed, wanted)
      decreases |calls| - |rounds|
    {
      wanted, rounds, at, failed := LoggedTurn(sb, file, x, calls, rounds, at, wanted, spare, start);
    }
    LoopEnded(rounds, calls, x, at, failed, wanted);
    total := at - offset;
  }
}
