/** What the send and the receive loop of a socket stream do with a script of
    socket outcomes and clock readings. A script is finite: when it ends in the
    middle of a loop the call has not returned yet, so a statement about all
    scripts is one about every moment of every call. */
module SocketTransfer {
  import opened MachineIntegers
  import opened ChronoTimeTraits

  datatype Error =
    | NoError | TimedOut | EndOfFile | NotFound | WouldBlock | TryAgain | InProgress | OsError(code: nat)

  type Failure = e: Error | e != NoError witness TimedOut

  /** A wait for the socket: it became ready, the wait timed out, or it failed.
      The code only asks whether it failed. */
  datatype Poll = Ready | Expired | PollFailed(error: Failure)

  /** A send accepts some bytes, a receive delivers some; either can fail. A
      call that does not fail clears the error code. */
  datatype SendResult = Accepted(bytes: nat) | SendFailed(error: Failure)
  datatype ReceiveResult = Arrived(data: seq<char>) | ReceiveFailed(error: Failure)

  /** One turn of a loop: the clock, the transfer, and, if it comes to that, the
      clock again and the wait. */
  datatype SendRound = SendRound(now: Int64, io: SendResult, later: Int64, poll: Poll)
  datatype ReceiveRound = ReceiveRound(now: Int64, io: ReceiveResult, later: Int64, poll: Poll)

  /** What the socket and the clock are going to do, turn after turn. */
  datatype Sends = NoSends | Sends(first: SendRound, rest: Sends)
  datatype Receives = NoReceives | Receives(first: ReceiveRound, rest: Receives)

  datatype Ending = Finished | GaveUp(error: Error) | Waiting

  predicate Retry(e: Error) {
    e == WouldBlock || e == TryAgain
  }

  /** How one turn of the send loop, with `size` bytes left, ends, and how many
      bytes it moves. `Finished` means that the loop goes on. */
  datatype SendTurn = SendTurn(sent: nat, ending: Ending)

  function TurnOfSend(r: SendRound, size: nat, expiry: Int64): (t: SendTurn)
    ensures t.sent <= size && t.ending != Waiting
    ensures t.ending != Finished ==> t.sent == 0
    ensures r.now > expiry ==> t.ending == GaveUp(TimedOut)
  {
    if expiry < r.now then SendTurn(0, GaveUp(TimedOut))
    else match r.io
      case Accepted(n) => SendTurn(Min(n, size), if Min(n, size) > 0 then Finished else GaveUp(NoError))
      case SendFailed(e) =>
        if !Retry(e) then SendTurn(0, GaveUp(e))
        else SendTurn(0, if r.poll.PollFailed? then GaveUp(r.poll.error) else Finished)
  }

  /** How many bytes went out, how many turns were taken, how it ended, and what
      the socket will do next. */
  datatype Transmission = Transmission(sent: nat, turns: nat, ending: Ending, next: Sends)

  /** The send loop, with `size` bytes left to send. */
  function Transmit(size: nat, script: Sends, expiry: Int64): Transmission
    decreases script
  {
    if size == 0 then Transmission(0, 0, Finished, script)
    else match script
      case NoSends => Transmission(0, 0, Waiting, script)
      case Sends(first, rest) =>
        var turn := TurnOfSend(first, size, expiry);
        if turn.ending != Finished then Transmission(0, 1, turn.ending, rest)
        else After(turn.sent, 1, Transmit(size - turn.sent, rest, expiry))
  }

  /** A transmission that goes on after some bytes and turns. */
  function After(sent: nat, turns: nat, t: Transmission): Transmission {
    Transmission(sent + t.sent, turns + t.turns, t.ending, t.next)
  }

  /** What one turn of the receive loop, with a window of `size` bytes, brings.
      `Waiting` means that the loop goes on. */
  datatype ReceiveTurn = ReceiveTurn(data: seq<char>, ending: Ending)

  function TurnOfReceive(r: ReceiveRound, size: nat, expiry: Int64): (t: ReceiveTurn)
    ensures |t.data| <= size && (t.ending == Finished <==> t.data != [])
    ensures r.now > expiry ==> t.ending == GaveUp(TimedOut)
  {
    if expiry < r.now then ReceiveTurn([], GaveUp(TimedOut))
    else match r.io
      case Arrived(data) =>
        var got := data[..Min(|data|, size)];
        ReceiveTurn(got, if |got| > 0 then Finished else GaveUp(EndOfFile))
      case ReceiveFailed(e) =>
        if !Retry(e) then ReceiveTurn([], GaveUp(e))
        else ReceiveTurn([], if r.poll.PollFailed? then GaveUp(r.poll.error) else Waiting)
  }

  /** What arrived, how many turns were taken, how it ended, and what comes next. */
  datatype Reception = Reception(data: seq<char>, turns: nat, ending: Ending, next: Receives)

  /** The receive loop. */
  function Receive(size: nat, script: Receives, expiry: Int64): Reception
    decreases script
  {
    match script
    case NoReceives => Reception([], 0, Waiting, script)
    case Receives(first, rest) =>
      var turn := TurnOfReceive(first, size, expiry);
      if turn.ending != Waiting then Reception(turn.data, 1, turn.ending, rest)
      else Later(1, Receive(size, rest, expiry))
  }

  /** A reception after some fruitless turns. */
  function Later(turns: nat, t: Reception): Reception {
    Reception(t.data, turns + t.turns, t.ending, t.next)
  }

  /** The error code after a loop: the reason for giving up, untouched if no
      turn was taken, and otherwise cleared by the last system call. */
  function ErrorAfter(ending: Ending, turns: nat, before: Error): Error {
    match ending
    case GaveUp(e) => e
    case _ => if turns == 0 then before else NoError
  }

  /* ----- What a turn leads to, outcome by outcome ----- */

  /** A send loop with something left to send stops at a late clock reading, at
      an error other than a busy socket, at a failed wait, and when the socket
      takes nothing. After a successful send it goes on with the rest, and after
      any other wait for a busy socket with all that it had. */
  lemma SendOutcomes(size: nat, r: SendRound, rest: Sends, expiry: Int64)
    requires size > 0
    ensures r.now > expiry ==> Transmit(size, Sends(r, rest), expiry) == Transmission(0, 1, GaveUp(TimedOut), rest)
    ensures r.now <= expiry && r.io == Accepted(0) ==>
      Transmit(size, Sends(r, rest), expiry) == Transmission(0, 1, GaveUp(NoError), rest)
    ensures r.now <= expiry && r.io.Accepted? && r.io.bytes > 0 ==>
      var n := if r.io.bytes <= size then r.io.bytes else size;
      var t := Transmit(size - n, rest, expiry);
      Transmit(size, Sends(r, rest), expiry) == Transmission(n + t.sent, 1 + t.turns, t.ending, t.next)
    ensures r.now <= expiry && r.io.SendFailed? && r.io.error != WouldBlock && r.io.error != TryAgain ==>
      Transmit(size, Sends(r, rest), expiry) == Transmission(0, 1, GaveUp(r.io.error), rest)
    ensures r.now <= expiry && (r.io == SendFailed(WouldBlock) || r.io == SendFailed(TryAgain)) ==>
      var t := Transmit(size, rest, expiry);
      Transmit(size, Sends(r, rest), expiry) ==
        match r.poll
        case PollFailed(e) => Transmission(0, 1, GaveUp(e), rest)
        case _ => Transmission(t.sent, 1 + t.turns, t.ending, t.next)
  {
  }

  /** With nothing to send the loop is done without a turn; with something, and
      the script at its end, it has not returned. */
  lemma SendAtEnd(size: nat, script: Sends, expiry: Int64)
    ensures size == 0 ==> Transmit(size, script, expiry) == Transmission(0, 0, Finished, script)
    ensures size > 0 && script.NoSends? ==> Transmit(size, script, expiry) == Transmission(0, 0, Waiting, script)
  {
  }

  /** A receive loop stops with the first bytes that arrive, as many as fit, at
      the end of the input, at a late clock reading, at an error other than a
      busy socket, and at a failed wait; it goes on after any other wait. */
  lemma ReceiveOutcomes(size: nat, r: ReceiveRound, rest: Receives, expiry: Int64)
    requires size > 0
    ensures r.now > expiry ==> Receive(size, Receives(r, rest), expiry) == Reception([], 1, GaveUp(TimedOut), rest)
    ensures r.now <= expiry && r.io == Arrived([]) ==>
      Receive(size, Receives(r, rest), expiry) == Reception([], 1, GaveUp(EndOfFile), rest)
    ensures r.now <= expiry && r.io.Arrived? && r.io.data != [] ==>
      var n := if |r.io.data| <= size then |r.io.data| else size;
      Receive(size, Receives(r, rest), expiry) == Reception(r.io.data[..n], 1, Finished, rest)
    ensures r.now <= expiry && r.io.ReceiveFailed? && r.io.error != WouldBlock && r.io.error != TryAgain ==>
      Receive(size, Receives(r, rest), expiry) == Reception([], 1, GaveUp(r.io.error), rest)
    ensures r.now <= expiry && (r.io == ReceiveFailed(WouldBlock) || r.io == ReceiveFailed(TryAgain)) ==>
      var t := Receive(size, rest, expiry);
      Receive(size, Receives(r, rest), expiry) ==
        match r.poll
        case PollFailed(e) => Reception([], 1, GaveUp(e), rest)
        case _ => Reception(t.data, 1 + t.turns, t.ending, t.next)
  {
  }

  lemma ReceiveAtEnd(size: nat, script: Receives, expiry: Int64)
    ensures script.NoReceives? ==> Receive(size, script, expiry) == Reception([], 0, Waiting, script)
  {
  }

  /** What the first `n` turns of a script bring in time, for a window of `size`
      bytes. */
  function Arrivals(script: Receives, n: nat, size: nat, expiry: Int64): seq<char>
    requires n <= ReceiveCount(script)
  {
    if n == 0 then []
    else
      var r := script.first;
      (if r.now <= expiry && r.io.Arrived? then r.io.data[..Min(|r.io.data|, size)] else [])
        + Arrivals(script.rest, n - 1, size, expiry)
  }

  function WithoutFirst(script: Receives, n: nat): Receives
    requires n <= ReceiveCount(script)
  {
    if n == 0 then script else WithoutFirst(script.rest, n - 1)
  }

  /** Every receive loop delivers exactly what its turns brought in time. */
  lemma {:induction false} ReceiveTakesArrivals(size: nat, script: Receives, expiry: Int64)
    ensures var t := Receive(size, script, expiry);
            && t.turns <= ReceiveCount(script) && t.next == WithoutFirst(script, t.turns)
            && t.data == Arrivals(script, t.turns, size, expiry)
    decreases script
  {
    if script.Receives? {
      ReceiveTakesArrivals(size, script.rest, expiry);
      assert TurnOfReceive(script.first, size, expiry).data + [] == TurnOfReceive(script.first, size, expiry).data;
    }
  }

  lemma {:induction false} ArrivalsSplit(script: Receives, n: nat, m: nat, size: nat, expiry: Int64)
    requires n <= ReceiveCount(script) && m <= ReceiveCount(WithoutFirst(script, n))
    ensures n + m <= ReceiveCount(script)
    ensures WithoutFirst(WithoutFirst(script, n), m) == WithoutFirst(script, n + m)
    ensures Arrivals(script, n + m, size, expiry)
      == Arrivals(script, n, size, expiry) + Arrivals(WithoutFirst(script, n), m, size, expiry)
    decreases n
  {
    if n == 0 {
      assert [] + Arrivals(script, m, size, expiry) == Arrivals(script, m, size, expiry);
    } else {
      ArrivalsSplit(script.rest, n - 1, m, size, expiry);
    }
  }

  /** A send loop finishes exactly when it has sent everything; a failed or
      unfinished one has sent a proper prefix, and the socket has to be asked
      again only if the script ran out. */
  lemma {:induction false} TransmitSendsPrefix(size: nat, script: Sends, expiry: Int64)
    ensures var t := Transmit(size, script, expiry);
            && t.sent <= size
            && (t.ending == Finished <==> t.sent == size)
            && (t.ending == Waiting ==> t.next == NoSends)
    decreases script
  {
    if size > 0 && script.Sends? {
      TransmitSendsPrefix(size - TurnOfSend(script.first, size, expiry).sent, script.rest, expiry);
    }
  }

  lemma {:induction false} ReceiveFitsWindow(size: nat, script: Receives, expiry: Int64)
    ensures var t := Receive(size, script, expiry);
            && |t.data| <= size
            && (t.ending == Finished <==> t.data != [])
            && (t.ending == Waiting ==> t.next == NoReceives)
    decreases script
  {
    if script.Receives? {
      ReceiveFitsWindow(size, script.rest, expiry);
    }
  }

  /* ----- The deadline ----- */

  function ThenSends(early: Sends, late: Sends): Sends {
    match early
    case NoSends => late
    case Sends(first, rest) => Sends(first, ThenSends(rest, late))
  }

  function ThenReceives(early: Receives, late: Receives): Receives {
    match early
    case NoReceives => late
    case Receives(first, rest) => Receives(first, ThenReceives(rest, late))
  }

  /** A clock reading past the deadline ends the send loop at the latest in that
      turn, and nothing from that turn on makes a difference to what was sent. */
  lemma {:induction false} NothingSentPastDeadline(size: nat, early: Sends, late: Sends, expiry: Int64)
    requires late.Sends? && late.first.now > expiry
    ensures Transmit(size, ThenSends(early, late), expiry).sent == Transmit(size, early, expiry).sent
    ensures Transmit(size, ThenSends(early, late), expiry).turns <= Transmit(size, early, expiry).turns + 1
    ensures Transmit(size, ThenSends(early, late), expiry).ending != Waiting
    decreases early
  {
    if size > 0 && early.Sends? {
      NothingSentPastDeadline(size - TurnOfSend(early.first, size, expiry).sent, early.rest, late, expiry);
    }
  }

  lemma {:induction false} NothingReceivedPastDeadline(size: nat, early: Receives, late: Receives, expiry: Int64)
    requires late.Receives? && late.first.now > expiry
    ensures Receive(size, ThenReceives(early, late), expiry).data == Receive(size, early, expiry).data
    ensures Receive(size, ThenReceives(early, late), expiry).turns <= Receive(size, early, expiry).turns + 1
    ensures Receive(size, ThenReceives(early, late), expiry).ending != Waiting
    decreases early
  {
    if early.Receives? {
      NothingReceivedPastDeadline(size, early.rest, late, expiry);
    }
  }

  /** The clock strictly advances from turn to turn. */
  predicate SendsAdvance(script: Sends) {
    script.Sends? && script.rest.Sends? ==> script.first.now < script.rest.first.now && SendsAdvance(script.rest)
  }

  predicate ReceivesAdvance(script: Receives) {
    script.Receives? && script.rest.Receives? ==>
      script.first.now < script.rest.first.now && ReceivesAdvance(script.rest)
  }

  function SendCount(script: Sends): nat {
    if script.NoSends? then 0 else 1 + SendCount(script.rest)
  }

  function ReceiveCount(script: Receives): nat {
    if script.NoReceives? then 0 else 1 + ReceiveCount(script.rest)
  }

  /** With a strictly advancing clock the send loop returns: the time left until
      the deadline bounds the number of turns. */
  lemma {:induction false} TransmitReturns(size: nat, script: Sends, expiry: Int64)
    requires SendsAdvance(script) && script.Sends? && SendCount(script) > expiry - script.first.now + 1
    ensures Transmit(size, script, expiry).ending != Waiting
    decreases script
  {
    if size > 0 && script.first.now <= expiry {
      TransmitReturns(size - TurnOfSend(script.first, size, expiry).sent, script.rest, expiry);
    }
  }

  lemma {:induction false} ReceiveReturns(size: nat, script: Receives, expiry: Int64)
    requires ReceivesAdvance(script) && script.Receives? && ReceiveCount(script) > expiry - script.first.now + 1
    ensures Receive(size, script, expiry).ending != Waiting
    decreases script
  {
    if script.first.now <= expiry {
      ReceiveReturns(size, script.rest, expiry);
    }
  }

  /* ----- The waits ----- */

  /** A wait handed to `poll`, and the clock reading it was computed from. */
  datatype Wait = Wait(now: Int64, msec: int)

  function WaitFor(now: Int64, expiry: Int64): Wait {
    Wait(now, Timeout(expiry, now))
  }

  /** The wait of one turn of the send loop: a turn that is in time and finds the
      socket busy has one. */
  function WaitOfSend(r: SendRound, expiry: Int64): seq<Wait> {
    if r.now <= expiry && r.io.SendFailed? && Retry(r.io.error) then [WaitFor(r.later, expiry)] else []
  }

  /** All waits of a send loop, in order. */
  function WaitsOfSend(size: nat, script: Sends, expiry: Int64): seq<Wait>
    decreases script
  {
    if size == 0 || script.NoSends? then []
    else
      var turn := TurnOfSend(script.first, size, expiry);
      WaitOfSend(script.first, expiry)
        + if turn.ending != Finished then [] else WaitsOfSend(size - turn.sent, script.rest, expiry)
  }

  function WaitOfReceive(r: ReceiveRound, expiry: Int64): seq<Wait> {
    if r.now <= expiry && r.io.ReceiveFailed? && Retry(r.io.error) then [WaitFor(r.later, expiry)] else []
  }

  /** All waits of a receive loop, in order. */
  function WaitsOfReceive(size: nat, script: Receives, expiry: Int64): seq<Wait>
    decreases script
  {
    if script.NoReceives? then []
    else
      var turn := TurnOfReceive(script.first, size, expiry);
      WaitOfReceive(script.first, expiry)
        + if turn.ending != Waiting then [] else WaitsOfReceive(size, script.rest, expiry)
  }

  lemma WaitsAssociate(xs: seq<Wait>, ys: seq<Wait>, zs: seq<Wait>)
    ensures xs + ys + zs == xs + (ys + zs)
  {
  }

  /** In a send loop a turn waits exactly when it is in time and finds the socket
      busy, for the time left at its second clock reading. */
  lemma SendWaitOutcomes(size: nat, r: SendRound, rest: Sends, expiry: Int64)
    requires size > 0
    ensures r.now <= expiry && (r.io == SendFailed(WouldBlock) || r.io == SendFailed(TryAgain)) ==>
      WaitsOfSend(size, Sends(r, rest), expiry) == [Wait(r.later, Timeout(expiry, r.later))]
        + if r.poll.PollFailed? then [] else WaitsOfSend(size, rest, expiry)
    ensures r.now <= expiry && r.io.Accepted? && r.io.bytes > 0 ==>
      WaitsOfSend(size, Sends(r, rest), expiry) == WaitsOfSend(Max(size - r.io.bytes, 0), rest, expiry)
    ensures r.now > expiry || r.io == Accepted(0) ==> WaitsOfSend(size, Sends(r, rest), expiry) == []
    ensures r.io.SendFailed? && r.io.error != WouldBlock && r.io.error != TryAgain ==>
      WaitsOfSend(size, Sends(r, rest), expiry) == []
  {
  }

  lemma ReceiveWaitOutcomes(size: nat, r: ReceiveRound, rest: Receives, expiry: Int64)
    ensures r.now <= expiry && (r.io == ReceiveFailed(WouldBlock) || r.io == ReceiveFailed(TryAgain)) ==>
      WaitsOfReceive(size, Receives(r, rest), expiry) == [Wait(r.later, Timeout(expiry, r.later))]
        + if r.poll.PollFailed? then [] else WaitsOfReceive(size, rest, expiry)
    ensures r.now > expiry ==> WaitsOfReceive(size, Receives(r, rest), expiry) == []
    ensures r.io.Arrived? ==> WaitsOfReceive(size, Receives(r, rest), expiry) == []
    ensures r.io.ReceiveFailed? && r.io.error != WouldBlock && r.io.error != TryAgain ==>
      WaitsOfReceive(size, Receives(r, rest), expiry) == []
  {
  }

  ghost predicate Bounded(waits: seq<Wait>, expiry: Int64) {
    forall i :: 0 <= i < |waits| ==> WaitsForDeadline(waits[i].msec, expiry, waits[i].now)
  }

  lemma WaitBounded(now: Int64, expiry: Int64)
    ensures Bounded([WaitFor(now, expiry)], expiry)
  {
    TimeoutWaitsForDeadline(expiry, now);
  }

  /** Every wait of a send loop fits an `int`, is not forever, and does not
      exceed the time that is left. */
  lemma {:induction false} SendWaitsBounded(size: nat, script: Sends, expiry: Int64)
    ensures Bounded(WaitsOfSend(size, script, expiry), expiry)
    decreases script
  {
    if size > 0 && script.Sends? {
      WaitBounded(script.first.later, expiry);
      SendWaitsBounded(size - TurnOfSend(script.first, size, expiry).sent, script.rest, expiry);
    }
  }

  lemma {:induction false} ReceiveWaitsBounded(size: nat, script: Receives, expiry: Int64)
    ensures Bounded(WaitsOfReceive(size, script, expiry), expiry)
    decreases script
  {
    if script.Receives? {
      WaitBounded(script.first.later, expiry);
      ReceiveWaitsBounded(size, script.rest, expiry);
    }
  }
}
