/** The code of `basic_socket_streambuf`: fixed get and put areas in front of a
    socket. Positions are offsets into the two buffers. */
module SocketStreambuf {
  import opened MachineIntegers
  import opened Wrappers
  import opened ChronoTimeTraits
  import opened SocketTransfer
  import S = SocketStream

  const BUFFER_SIZE: nat := S.BUFFER_SIZE
  const PUTBACK_MAX: nat := S.PUTBACK_MAX

  /** A native socket: what it and the clock will do, what has passed through
      it, and the waits for it that were handed to `poll`. */
  class Connection {
    var sends: Sends
    var receives: Receives
    var wireOut: seq<char>
    var wireIn: seq<char>
    var waits: seq<Wait>

    constructor (sends: Sends, receives: Receives)
      ensures this.sends == sends && this.receives == receives && wireOut == [] && wireIn == [] && waits == []
    {
      this.sends, this.receives := sends, receives;
      wireOut, wireIn, waits := [], [], [];
    }

    /** `poll` with `timeout()`, at a clock reading. */
    method WaitUntilReady(now: Int64, expiry: Int64)
      modifies this`waits
      ensures waits == old(waits) + [WaitFor(now, expiry)]
    {
      var msec := Timeout(expiry, now);
      waits := waits + [Wait(now, msec)];
    }

    /** One turn of the send loop. `Finished` means that the loop goes on. */
    method SendOnce(output: seq<char>, expiry: Int64) returns (bytes: nat, ending: Ending)
      requires output != [] && sends.Sends?
      modifies this`sends, this`wireOut, this`waits
      ensures SendTurn(bytes, ending) == TurnOfSend(old(sends).first, |output|, expiry)
      ensures sends == old(sends).rest && wireOut == old(wireOut) + output[..bytes]
      ensures waits == old(waits) + WaitOfSend(old(sends).first, expiry)
    {
      var round := sends.first;
      sends := sends.rest;
      bytes, ending := 0, Finished;
      if expiry < round.now {
        ending := GaveUp(TimedOut);
      } else if round.io.Accepted? {
        bytes := Min(round.io.bytes, |output|);
        wireOut := wireOut + output[..bytes];
        if bytes == 0 {
          ending := GaveUp(NoError);
        }
      } else if !Retry(round.io.error) {
        ending := GaveUp(round.io.error);
      } else {
        WaitUntilReady(round.later, expiry);
        if round.poll.PollFailed? {
          ending := GaveUp(round.poll.error);
        }
      }
    }

    /** The loop of `overflow`: send the output in as many pieces as the socket
        takes, waiting in between, until the deadline passes. */
    method SendAll(output: seq<char>, expiry: Int64, ec: Error)
      returns (ending: Ending, ec': Error, ghost t: Transmission)
      modifies this`sends, this`wireOut, this`waits
      ensures t == Transmit(|output|, old(sends), expiry) && t.sent <= |output|
      ensures sends == t.next && wireOut == old(wireOut) + output[..t.sent]
      ensures waits == old(waits) + WaitsOfSend(|output|, old(sends), expiry)
      ensures ending == t.ending && ec' == ErrorAfter(t.ending, t.turns, ec)
    {
      t := Transmit(|output|, sends, expiry);
      ghost var turns: nat, total := 0, waits + WaitsOfSend(|output|, sends, expiry);
      var sent: nat := 0;
      ec', ending := ec, Finished;
      while sent < |output| && ending == Finished && sends.Sends?
        invariant sent <= |output| && wireOut == old(wireOut) + output[..sent]
        invariant t == After(sent, turns, Remaining(ending, |output| - sent, sends, expiry))
        invariant total == waits + RemainingWaits(ending, |output| - sent, sends, expiry)
        invariant ec' == ErrorAfter(ending, turns, ec)
        decreases sends, ending == Finished
      {
        sent, ending := SendMore(output, sent, expiry, turns, old(wireOut));
        turns := turns + 1;
        ec' := if ending.GaveUp? then ending.error else NoError;
      }
      if ending == Finished && sent < |output| {
        ending := Waiting;
      }
    }

    /** One turn of the loop with `sent` bytes of the output gone. */
    method SendMore(output: seq<char>, sent: nat, expiry: Int64, ghost turns: nat, ghost wire: seq<char>)
      returns (sent': nat, ending: Ending)
      requires sent < |output| && sends.Sends? && wireOut == wire + output[..sent]
      modifies this`sends, this`wireOut, this`waits
      ensures sends == old(sends).rest && ending != Waiting
      ensures sent' <= |output| && wireOut == wire + output[..sent']
      ensures After(sent', turns + 1, Remaining(ending, |output| - sent', sends, expiry))
        == After(sent, turns, Remaining(Finished, |output| - sent, old(sends), expiry))
      ensures waits + RemainingWaits(ending, |output| - sent', sends, expiry)
        == old(waits) + RemainingWaits(Finished, |output| - sent, old(sends), expiry)
    {
      var bytes;
      bytes, ending := SendOnce(output[sent..], expiry);
      sent' := sent + bytes;
      TakeMore(wire, output, sent, bytes);
      WaitsAssociate(old(waits), WaitOfSend(old(sends).first, expiry),
                     RemainingWaits(ending, |output| - sent', sends, expiry));
    }

    static lemma TakeMore(wire: seq<char>, output: seq<char>, sent: nat, bytes: nat)
      requires sent + bytes <= |output|
      ensures wire + output[..sent] + output[sent..][..bytes] == wire + output[..sent + bytes]
    {
    }

    /** What is still to come of a send loop: nothing if it has ended. */
    static ghost function Remaining(ending: Ending, size: nat, sends: Sends, expiry: Int64): Transmission {
      if ending == Finished then Transmit(size, sends, expiry) else Transmission(0, 0, ending, sends)
    }

    static ghost function RemainingWaits(ending: Ending, size: nat, sends: Sends, expiry: Int64): seq<Wait> {
      if ending == Finished then WaitsOfSend(size, sends, expiry) else []
    }

    /** One turn of the receive loop. `Waiting` means that the loop goes on. */
    method ReceiveOnce(size: nat, expiry: Int64) returns (data: seq<char>, ending: Ending)
      requires receives.Receives?
      modifies this`receives, this`wireIn, this`waits
      ensures ReceiveTurn(data, ending) == TurnOfReceive(old(receives).first, size, expiry)
      ensures receives == old(receives).rest && wireIn == old(wireIn) + data
      ensures waits == old(waits) + WaitOfReceive(old(receives).first, expiry)
    {
      var round := receives.first;
      receives := receives.rest;
      data, ending := [], Waiting;
      if expiry < round.now {
        ending := GaveUp(TimedOut);
      } else if round.io.Arrived? {
        data := round.io.data[..Min(|round.io.data|, size)];
        wireIn := wireIn + data;
        ending := if |data| > 0 then Finished else GaveUp(EndOfFile);
      } else if !Retry(round.io.error) {
        ending := GaveUp(round.io.error);
      } else {
        WaitUntilReady(round.later, expiry);
        if round.poll.PollFailed? {
          ending := GaveUp(round.poll.error);
        }
      }
    }

    /** The loop of `underflow`. */
    method ReceiveSome(size: nat, expiry: Int64, ec: Error)
      returns (data: seq<char>, ending: Ending, ec': Error, ghost t: Reception)
      modifies this`receives, this`wireIn, this`waits
      ensures t == Receive(size, old(receives), expiry)
      ensures receives == t.next && data == t.data && wireIn == old(wireIn) + data
      ensures waits == old(waits) + WaitsOfReceive(size, old(receives), expiry)
      ensures ending == t.ending && ec' == ErrorAfter(t.ending, t.turns, ec)
    {
      t := Receive(size, receives, expiry);
      ghost var turns: nat, total := 0, waits + WaitsOfReceive(size, receives, expiry);
      data, ec', ending := [], ec, Waiting;
      while receives.Receives? && ending == Waiting
        invariant (ending == Waiting ==> data == []) && wireIn == old(wireIn) + data
        invariant t == Later(turns, Upcoming(ending, data, size, receives, expiry))
        invariant total == waits + UpcomingWaits(ending, size, receives, expiry)
        invariant ec' == ErrorAfter(ending, turns, ec)
        decreases receives
      {
        data, ending := ReceiveMore(size, expiry, turns);
        turns := turns + 1;
        ec' := if ending.GaveUp? then ending.error else NoError;
      }
    }

    /** One turn of the loop after `turns` fruitless ones. */
    method ReceiveMore(size: nat, expiry: Int64, ghost turns: nat) returns (data: seq<char>, ending: Ending)
      requires receives.Receives?
      modifies this`receives, this`wireIn, this`waits
      ensures receives == old(receives).rest && wireIn == old(wireIn) + data && (ending == Waiting ==> data == [])
      ensures Later(turns + 1, Upcoming(ending, data, size, receives, expiry))
        == Later(turns, Upcoming(Waiting, [], size, old(receives), expiry))
      ensures waits + UpcomingWaits(ending, size, receives, expiry)
        == old(waits) + UpcomingWaits(Waiting, size, old(receives), expiry)
    {
      data, ending := ReceiveOnce(size, expiry);
      WaitsAssociate(old(waits), WaitOfReceive(old(receives).first, expiry),
                     UpcomingWaits(ending, size, receives, expiry));
    }

    static ghost function UpcomingWaits(ending: Ending, size: nat, receives: Receives, expiry: Int64): seq<Wait> {
      if ending == Waiting then WaitsOfReceive(size, receives, expiry) else []
    }

    /** What is still to come of a receive loop: nothing if it has ended. */
    static ghost function Upcoming(ending: Ending, data: seq<char>, size: nat, receives: Receives, expiry: Int64)
      : Reception
    {
      if ending == Waiting then Receive(size, receives, expiry) else Reception(data, 0, ending, receives)
    }
  }

  /** The result of `getsockopt` for SO_ERROR. */
  datatype SocketOption = Fetched(value: Error) | FetchFailed(error: Failure)

  /** One endpoint's turn in `connect_to_endpoints`: the clock, reopening the
      socket, the connect call, and, if it has to wait, the clock, the wait and
      the fetched SO_ERROR. */
  datatype Dial = Dial(now: Int64, reopened: Error, connected: Error, later: Int64, poll: Poll, soError: SocketOption)

  /** The endpoint is taken to be connected. */
  predicate Succeeded(d: Dial) {
    && d.reopened == NoError
    && (d.connected == NoError || (Pending(d) && !d.poll.PollFailed? && d.soError == Fetched(NoError)))
  }

  /** The endpoint is connected: at once, or the socket became ready and has no
      error to report. */
  predicate Established(d: Dial) {
    && d.reopened == NoError
    && (d.connected == NoError || (Pending(d) && d.poll.Ready? && d.soError == Fetched(NoError)))
  }

  /** The wait for the endpoint timed out, and the socket, still busy, has no
      error to report yet. */
  predicate Overlooked(d: Dial) {
    Pending(d) && d.poll.Expired? && d.soError == Fetched(NoError)
  }

  /** The socket has to be waited for. */
  predicate Pending(d: Dial) {
    d.reopened == NoError && (d.connected == InProgress || d.connected == WouldBlock)
  }

  /** The endpoint failed in a way that stops the search. */
  predicate Aborted(d: Dial) {
    Pending(d) && !d.poll.PollFailed? && d.soError.FetchFailed?
  }

  /** The search goes on with the next endpoint. */
  predicate GoesOn(d: Dial) {
    !Succeeded(d) && !Aborted(d)
  }

  /** The error code that an endpoint leaves behind. */
  function DialError(d: Dial): Error {
    if d.reopened != NoError then d.reopened
    else if !Pending(d) then d.connected
    else if d.poll.PollFailed? then d.poll.error
    else if d.soError.FetchFailed? then d.soError.error
    else d.soError.value
  }

  /** The search went on after endpoint `i`, which had left the error `e`: to the
      next one, to the end of the list, or until the deadline had passed. */
  predicate WentOn(dials: seq<Dial>, i: nat, tried: nat, expiry: Int64, ec: Error, e: Error)
    requires i < tried <= |dials|
  {
    i < tried - 1 || (if tried == |dials| then ec == e else dials[tried].now > expiry && ec == TimedOut)
  }

  /** The outcomes of a turn by its fields. */
  lemma DialOutcomes(d: Dial)
    ensures d.reopened != NoError ==> GoesOn(d) && DialError(d) == d.reopened
    ensures d.reopened == NoError && d.connected == NoError ==> Succeeded(d) && Established(d)
    ensures d.reopened == NoError && d.connected !in {NoError, InProgress, WouldBlock} ==>
      GoesOn(d) && DialError(d) == d.connected
    ensures Pending(d) <==> d.reopened == NoError && (d.connected == InProgress || d.connected == WouldBlock)
    ensures Pending(d) ==>
      && (Established(d) <==> d.poll == Ready && d.soError == Fetched(NoError))
      && (Overlooked(d) <==> d.poll == Expired && d.soError == Fetched(NoError))
      && (d.poll.PollFailed? ==> GoesOn(d) && DialError(d) == d.poll.error)
      && (!d.poll.PollFailed? && d.soError.FetchFailed? ==> Aborted(d) && DialError(d) == d.soError.error)
      && (!d.poll.PollFailed? && d.soError == Fetched(NoError) ==> Succeeded(d))
      && (!d.poll.PollFailed? && d.soError.Fetched? && d.soError.value != NoError ==>
            GoesOn(d) && DialError(d) == d.soError.value)
  {
  }

  /** A turn waits exactly when the connect call says that it takes time. */
  lemma DialWaitOutcomes(d: Dial, expiry: Int64)
    ensures WaitOfDial(d, expiry) ==
      if d.reopened == NoError && (d.connected == InProgress || d.connected == WouldBlock)
      then [Wait(d.later, Timeout(expiry, d.later))] else []
  {
  }

  function WaitOfDial(d: Dial, expiry: Int64): seq<Wait> {
    if Pending(d) then [WaitFor(d.later, expiry)] else []
  }

  /** All waits for the first `k` endpoints, in order. */
  function WaitsOfDials(dials: seq<Dial>, k: nat, expiry: Int64): seq<Wait>
    requires k <= |dials|
  {
    if k == 0 then [] else WaitsOfDials(dials, k - 1, expiry) + WaitOfDial(dials[k - 1], expiry)
  }

  lemma {:induction false} DialWaitsBounded(dials: seq<Dial>, k: nat, expiry: Int64)
    requires k <= |dials|
    ensures Bounded(WaitsOfDials(dials, k, expiry), expiry)
  {
    if k > 0 {
      DialWaitsBounded(dials, k - 1, expiry);
      WaitBounded(dials[k - 1].later, expiry);
    }
  }

  class Streambuf {
    var getBuffer: array<char>
    var putBuffer: array<char>
    var gptr: nat
    var egptr: nat
    var pbase: nat
    var pptr: nat
    var epptr: nat
    var ec: Error
    var expiry: Int64
    var conn: Connection

    /** The invariant of every reachable state. The first eight bytes of the get
        buffer are kept for characters put back. */
    ghost predicate Valid()
      reads this
    {
      && getBuffer.Length == BUFFER_SIZE && (putBuffer.Length == BUFFER_SIZE || putBuffer.Length == 0)
      && getBuffer != putBuffer
      && PUTBACK_MAX <= gptr <= egptr <= BUFFER_SIZE
      && pbase <= pptr <= epptr == putBuffer.Length
    }

    /** The meaning of the positions. */
    ghost function View(): S.Stream
      requires Valid()
      reads this, getBuffer, putBuffer, conn
    {
      S.Stream(getBuffer[gptr..egptr], putBuffer[pbase..pptr], epptr - pptr, putBuffer.Length != 0, ec, expiry,
               conn.sends, conn.receives, conn.wireOut, conn.wireIn, conn.waits)
    }

    /** A stream over a given socket. */
    constructor (conn: Connection)
      ensures Valid() && fresh(getBuffer) && fresh(putBuffer) && this.conn == conn
      ensures View() == S.Fresh(conn.sends, conn.receives, conn.wireOut, conn.wireIn, conn.waits)
    {
      getBuffer := new char[BUFFER_SIZE](_ => '\0');
      putBuffer := new char[BUFFER_SIZE](_ => '\0');
      gptr, egptr := PUTBACK_MAX, PUTBACK_MAX;
      pbase, pptr, epptr := 0, 0, BUFFER_SIZE;
      ec, expiry, this.conn := NoError, S.MAX_EXPIRY, conn;
    }

    /** `init_buffers()`. */
    method InitBuffers()
      requires getBuffer.Length == BUFFER_SIZE && (putBuffer.Length == BUFFER_SIZE || putBuffer.Length == 0)
      requires getBuffer != putBuffer
      modifies this`gptr, this`egptr, this`pbase, this`pptr, this`epptr
      ensures Valid()
      ensures View() == S.Stream([], [], putBuffer.Length, putBuffer.Length != 0, ec, expiry,
                                 conn.sends, conn.receives, conn.wireOut, conn.wireIn, conn.waits)
    {
      gptr, egptr := PUTBACK_MAX, PUTBACK_MAX;
      pbase, pptr, epptr := 0, 0, putBuffer.Length;
    }

    /** `overflow(c)`: send what is pending, or the character itself when there
        is no put buffer, and only then take the character. */
    method Overflow(c: Option<char>) returns (ending: Ending)
      requires Valid()
      modifies this, putBuffer, conn
      ensures Valid() && putBuffer == old(putBuffer) && getBuffer == old(getBuffer) && conn == old(conn)
      ensures View() == S.Overflow(old(View()), c).0 && ending == S.Overflow(old(View()), c).1
    {
      ghost var before := View();
      var output;
      if putBuffer.Length == 0 {
        if c == None {
          return Finished;
        }
        output := [c.value];
      } else {
        output := putBuffer[pbase..pptr];
      }
      ghost var t;
      ending, ec, t := conn.SendAll(output, expiry, ec);
      assert View() == S.Sent(before, output, t);
      if ending == Finished && putBuffer.Length != 0 {
        StartPutArea(c);
      }
    }

    /** The put area is the whole put buffer again and holds at most `c`. */
    method StartPutArea(c: Option<char>)
      requires Valid() && putBuffer.Length != 0
      modifies this`pbase, this`pptr, this`epptr, putBuffer
      ensures Valid()
      ensures View() == old(View()).(pending := S.Taken(c), room := BUFFER_SIZE - |S.Taken(c)|)
    {
      pbase, pptr, epptr := 0, 0, putBuffer.Length;
      if c.Some? {
        putBuffer[pptr] := c.value;
        pptr := pptr + 1;
      }
      assert putBuffer[pbase..pptr] == S.Taken(c);
    }

    /** `std::streambuf::sputc`. */
    method Sputc(c: char) returns (ending: Ending)
      requires Valid()
      modifies this, putBuffer, conn
      ensures Valid() && putBuffer == old(putBuffer) && getBuffer == old(getBuffer) && conn == old(conn)
      ensures View() == S.Put(old(View()), c).0 && ending == S.Put(old(View()), c).1
    {
      if pptr < epptr {
        ghost var pending := View().pending;
        putBuffer[pptr] := c;
        pptr := pptr + 1;
        assert putBuffer[pbase..pptr] == pending + [c];
        return Finished;
      }
      ending := Overflow(Some(c));
    }

    /** `setbuf(s, n)`. The old put buffer is dropped. */
    method SetBuf(isNull: bool) returns (accepted: bool)
      requires Valid()
      modifies this, conn
      ensures Valid() && getBuffer == old(getBuffer) && conn == old(conn)
      ensures putBuffer == old(putBuffer) || fresh(putBuffer)
      ensures View() == S.SetBuf(old(View()), isNull).0 && accepted == S.SetBuf(old(View()), isNull).1
    {
      if pptr == pbase && isNull {
        putBuffer := new char[0];
        pbase, pptr, epptr := 0, 0, 0;
        var _ := Overflow(None);
        return true;
      }
      return false;
    }

    /** `underflow()`: only when nothing is unread, receive into the window
        behind the put-back slots. */
    method Underflow() returns (ending: Ending)
      requires Valid()
      modifies this, getBuffer, conn
      ensures Valid() && putBuffer == old(putBuffer) && getBuffer == old(getBuffer) && conn == old(conn)
      ensures View() == S.Underflow(old(View())).0 && ending == S.Underflow(old(View())).1
      ensures old(View()).unread == [] ==> (ending == Finished <==> View().unread != [])
    {
      if gptr != egptr {
        return GaveUp(ec);
      }
      var data;
      var size := getBuffer.Length - PUTBACK_MAX;
      ReceiveFitsWindow(size, conn.receives, expiry);
      ghost var r;
      data, ending, ec, r := conn.ReceiveSome(size, expiry, ec);
      if ending == Finished {
        Deliver(data);
      }
    }

    /** What was received lies behind the put-back slots and is the get area. */
    method Deliver(data: seq<char>)
      requires Valid() && |data| <= BUFFER_SIZE - PUTBACK_MAX
      modifies this`gptr, this`egptr, getBuffer
      ensures Valid() && View() == old(View()).(unread := data)
    {
      forall i | 0 <= i < |data| {
        getBuffer[PUTBACK_MAX + i] := data[i];
      }
      gptr, egptr := PUTBACK_MAX, PUTBACK_MAX + |data|;
      assert getBuffer[gptr..egptr] == data;
    }

    /** `std::streambuf::sbumpc`. */
    method Sbumpc() returns (c: Option<char>)
      requires Valid()
      modifies this, getBuffer, conn
      ensures Valid() && putBuffer == old(putBuffer) && getBuffer == old(getBuffer) && conn == old(conn)
      ensures View() == S.Get(old(View())).0 && c == S.Get(old(View())).1
    {
      if gptr == egptr {
        var ending := Underflow();
        if ending != Finished {
          return None;
        }
      }
      c := TakeUnread();
    }

    method TakeUnread() returns (c: Option<char>)
      requires Valid() && gptr < egptr
      modifies this`gptr
      ensures Valid() && View() == S.Take(old(View())).0 && c == S.Take(old(View())).1
    {
      ghost var unread := View().unread;
      c := Some(getBuffer[gptr]);
      gptr := gptr + 1;
      assert getBuffer[gptr..egptr] == unread[1..];
    }

    /** `close()`: flush, close the socket, and start afresh if that worked. */
    method Close(closeError: Error)
      requires Valid()
      modifies this, putBuffer, conn
      ensures Valid() && putBuffer == old(putBuffer) && getBuffer == old(getBuffer) && conn == old(conn)
      ensures View() == S.Closed(S.Overflow(old(View()), None).0, closeError)
    {
      var _ := Overflow(None);
      CloseSocket(closeError);
    }

    /** The part of `close()` after the flush. */
    method CloseSocket(closeError: Error)
      requires Valid()
      modifies this
      ensures Valid() && putBuffer == old(putBuffer) && getBuffer == old(getBuffer) && conn == old(conn)
      ensures View() == S.Closed(old(View()), closeError)
    {
      ec := closeError;
      if ec == NoError {
        InitBuffers();
      }
    }

    /** Move construction; `rest` is the closed socket the source keeps. Unread
        input, error and expiry move over, and so does the mode; output that
        was pending does not. */
    constructor MoveFrom(other: Streambuf, rest: Connection)
      requires other.Valid() && rest != other.conn
      modifies other
      ensures Valid() && other.Valid() && conn == old(other.conn) && other.conn == rest
      ensures getBuffer == old(other.getBuffer) && putBuffer == old(other.putBuffer)
      ensures fresh(other.getBuffer) && fresh(other.putBuffer)
      ensures View() == old(other.View()).(pending := [])
      ensures other.View() == S.Fresh(rest.sends, rest.receives, rest.wireOut, rest.wireIn, rest.waits)
    {
      getBuffer, putBuffer, conn := other.getBuffer, other.putBuffer, other.conn;
      new;
      Adopt(other);
      var getNew := new char[BUFFER_SIZE](_ => '\0');
      var putNew := new char[BUFFER_SIZE](_ => '\0');
      ghost var mine := View();
      other.Reset(getNew, putNew, rest);
      assert View() == mine;
    }

    /** Move assignment. The target is closed first, which flushes it to its old
        socket; the source takes over the buffers of the target, and a missing
        put buffer is restored. Moved to itself, where the socket stays and the
        swaps do nothing, a stream is flushed, closed and then as new. */
    method MoveAssign(other: Streambuf, closeError: Error, rest: Connection)
      requires Valid() && other.Valid()
      requires this != other ==> conn != other.conn && rest != conn && rest != other.conn
      requires this != other ==> {getBuffer, putBuffer} !! {other.getBuffer, other.putBuffer}
      modifies this, other, putBuffer, conn
      ensures Valid() && other.Valid() && conn == old(other.conn)
      ensures old(conn).wireOut == S.Overflow(old(View()), None).0.wireOut
      ensures this != other ==>
        && View() == old(other.View()).(pending := []) && other.conn == rest
        && other.View() == S.Fresh(rest.sends, rest.receives, rest.wireOut, rest.wireIn, rest.waits)
      ensures this == other ==>
        View() == S.Fresh(conn.sends, conn.receives, conn.wireOut, conn.wireIn, conn.waits)
    {
      ghost var theirs := other.View();
      Close(closeError);
      if this == other {
        Reset(getBuffer, putBuffer, conn);
      } else {
        assert other.View() == theirs;
        TakeOver(other, rest);
      }
    }

    /** Move assignment after the target has been closed. */
    method TakeOver(other: Streambuf, rest: Connection)
      requires Valid() && other.Valid() && this != other && rest != other.conn
      requires {getBuffer, putBuffer} !! {other.getBuffer, other.putBuffer}
      modifies this, other
      ensures Valid() && other.Valid() && conn == old(other.conn) && other.conn == rest
      ensures View() == old(other.View()).(pending := [])
      ensures other.View() == S.Fresh(rest.sends, rest.receives, rest.wireOut, rest.wireIn, rest.waits)
    {
      var getOld, putOld := getBuffer, putBuffer;
      Adopt(other);
      ghost var mine := View();
      other.Reset(getOld, putOld, rest);
      assert View() == mine;
    }

    /** This stream's half of the swap, and its new positions. */
    method Adopt(other: Streambuf)
      requires other.Valid() && this != other
      modifies this
      ensures Valid() && conn == other.conn && View() == other.View().(pending := [])
      ensures getBuffer == other.getBuffer && putBuffer == other.putBuffer
    {
      conn, ec, expiry := other.conn, other.ec, other.expiry;
      getBuffer, putBuffer := other.getBuffer, other.putBuffer;
      gptr, egptr := other.gptr, other.egptr;
      pbase, pptr, epptr := other.pptr, other.pptr, other.epptr;
    }

    /** The source's half of the swap: it ends up fresh and buffered, whatever
        mode the buffers it receives were used in. */
    method Reset(getOld: array<char>, putOld: array<char>, rest: Connection)
      requires getOld.Length == BUFFER_SIZE && (putOld.Length == BUFFER_SIZE || putOld.Length == 0) && getOld != putOld
      modifies this
      ensures getBuffer == getOld && (putBuffer == putOld || fresh(putBuffer))
      ensures Valid() && conn == rest
      ensures View() == S.Fresh(rest.sends, rest.receives, rest.wireOut, rest.wireIn, rest.waits)
    {
      getBuffer, putBuffer, conn := getOld, putOld, rest;
      ec, expiry := NoError, S.MAX_EXPIRY;
      if putBuffer.Length != BUFFER_SIZE {
        putBuffer := new char[BUFFER_SIZE](_ => '\0');
      }
      InitBuffers();
    }

    /** `connect(endpoint)`; the result is whether it returned `this`. That says
        that the connection was established, as documented, except exactly when
        the wait for the endpoint timed out without an error to report. */
    method Connect(d: Dial) returns (ok: bool)
      requires Valid()
      modifies this, conn`waits
      ensures Valid() && putBuffer == old(putBuffer) && getBuffer == old(getBuffer) && conn == old(conn)
      ensures View() == S.Emptied(old(View()), ec).(waits := conn.waits) && (ok <==> ec == NoError)
      ensures conn.waits == old(conn.waits) + if d.now <= expiry then WaitOfDial(d, expiry) else []
      ensures (ok <==> d.now <= expiry && Established(d)) <==> !(d.now <= expiry && Overlooked(d))
    {
      InitBuffers();
      ec := NoError;
      var tried := ConnectToEndpoints([d]);
      assert tried == 1 ==> WaitsOfDials([d], 1, expiry) == [] + WaitOfDial(d, expiry);
      return ec == NoError;
    }

    /** The loop of `connect_to_endpoints`. */
    method Search(dials: seq<Dial>) returns (tried: nat)
      modifies this`ec, conn`waits
      ensures tried <= |dials| && conn.waits == old(conn.waits) + WaitsOfDials(dials, tried, expiry)
      ensures old(ec) != NoError ==> tried == 0 && ec == old(ec)
      ensures forall i :: 0 <= i < tried ==> dials[i].now <= expiry
      ensures forall i :: 0 <= i < tried - 1 ==> GoesOn(dials[i])
      ensures old(ec) == NoError ==> (ec == NoError <==> tried > 0 && Succeeded(dials[tried - 1]))
      ensures old(ec) == NoError && |dials| == 0 ==> ec == NotFound
      ensures old(ec) == NoError && tried < |dials| ==>
        || (tried > 0 && (Succeeded(dials[tried - 1]) || Aborted(dials[tried - 1])))
        || (dials[tried].now > expiry && ec == TimedOut)
      ensures old(ec) == NoError && tried > 0 && (tried == |dials| || Aborted(dials[tried - 1])) ==>
        ec == DialError(dials[tried - 1])
    {
      tried := 0;
      if ec != NoError {
        return;
      }
      ec := NotFound;
      while tried < |dials|
        invariant tried <= |dials| && conn.waits == old(conn.waits) + WaitsOfDials(dials, tried, expiry)
        invariant forall i :: 0 <= i < tried ==> dials[i].now <= expiry && GoesOn(dials[i])
        invariant ec == if tried == 0 then NotFound else DialError(dials[tried - 1])
        invariant ec != NoError
      {
        if expiry < dials[tried].now {
          ec := TimedOut;
          return;
        }
        WaitsAssociate(old(conn.waits), WaitsOfDials(dials, tried, expiry), WaitOfDial(dials[tried], expiry));
        var stop := DialOnce(dials[tried]);
        tried := tried + 1;
        if stop {
          return;
        }
      }
    }

    /** One endpoint's turn, up to the decision to stop the search. */
    method DialOnce(d: Dial) returns (stop: bool)
      modifies this`ec, conn`waits
      ensures stop <==> !GoesOn(d)
      ensures ec == DialError(d) && (ec == NoError <==> Succeeded(d))
      ensures conn.waits == old(conn.waits) + WaitOfDial(d, expiry)
    {
      ec := d.reopened;
      if ec != NoError {
        return false;
      }
      ec := d.connected;
      if ec == NoError {
        return true;
      }
      if ec != InProgress && ec != WouldBlock {
        return false;
      }
      conn.WaitUntilReady(d.later, expiry);
      if d.poll.PollFailed? {
        ec := d.poll.error;
        return false;
      }
      if d.soError.FetchFailed? {
        ec := d.soError.error;
        return true;
      }
      ec := d.soError.value;
      return ec == NoError;
    }

    /** `connect_to_endpoints` over a list of endpoints, each given by what
        happens when it is dialled. */
    method ConnectToEndpoints(dials: seq<Dial>) returns (tried: nat)
      modifies this`ec, conn`waits
      ensures tried <= |dials| && conn.waits == old(conn.waits) + WaitsOfDials(dials, tried, expiry)
      ensures old(ec) != NoError ==> tried == 0 && ec == old(ec)
      ensures forall i :: 0 <= i < tried ==> dials[i].now <= expiry
      ensures forall i :: 0 <= i < tried - 1 ==> GoesOn(dials[i])
      ensures old(ec) == NoError ==> (ec == NoError <==> tried > 0 && Succeeded(dials[tried - 1]))
      ensures old(ec) == NoError && |dials| == 0 ==> ec == NotFound
      ensures old(ec) == NoError && tried < |dials| ==>
        || (tried > 0 && (Succeeded(dials[tried - 1]) || Aborted(dials[tried - 1])))
        || (dials[tried].now > expiry && ec == TimedOut)
      ensures old(ec) == NoError && tried > 0 && (tried == |dials| || Aborted(dials[tried - 1])) ==>
        ec == DialError(dials[tried - 1])
      ensures old(ec) == NoError ==>
        ((ec == NoError <==> tried > 0 && Established(dials[tried - 1]))
          <==> !(tried > 0 && Overlooked(dials[tried - 1])))
      ensures old(ec) == NoError ==> forall i :: 0 <= i < tried && dials[i].reopened != NoError ==>
        WentOn(dials, i, tried, expiry, ec, dials[i].reopened)
      ensures old(ec) == NoError ==>
        forall i :: 0 <= i < tried && dials[i].reopened == NoError && dials[i].connected == NoError ==>
          i == tried - 1 && ec == NoError
      ensures old(ec) == NoError ==>
        forall i | 0 <= i < tried && dials[i].reopened == NoError
                   && dials[i].connected !in {NoError, InProgress, WouldBlock} ::
          WentOn(dials, i, tried, expiry, ec, dials[i].connected)
      ensures old(ec) == NoError ==>
        forall i :: 0 <= i < tried && Pending(dials[i]) && dials[i].poll.PollFailed? ==>
          WentOn(dials, i, tried, expiry, ec, dials[i].poll.error)
      ensures old(ec) == NoError ==>
        forall i | 0 <= i < tried && Pending(dials[i]) && !dials[i].poll.PollFailed? && dials[i].soError.FetchFailed? ::
          i == tried - 1 && ec == dials[i].soError.error
      ensures old(ec) == NoError ==>
        forall i :: 0 <= i < tried && Pending(dials[i]) && !dials[i].poll.PollFailed? && dials[i].soError.Fetched? ==>
          if dials[i].soError.value == NoError then i == tried - 1 && ec == NoError
          else WentOn(dials, i, tried, expiry, ec, dials[i].soError.value)
    {
      tried := Search(dials);
      if old(ec) == NoError {
        forall i | 0 <= i < tried
          ensures GoesOn(dials[i]) ==> WentOn(dials, i, tried, expiry, ec, DialError(dials[i]))
          ensures Succeeded(dials[i]) || Aborted(dials[i]) ==> i == tried - 1 && ec == DialError(dials[i])
        {
        }
      }
    }
  }

  /** Perform one operation of a program that uses the stream. */
  method Apply(sb: Streambuf, op: S.Op, ghost tally: S.Tally)
    returns (ending: Ending, got: Option<char>, ghost more: S.Tally)
    requires sb.Valid()
    modifies sb, sb.getBuffer, sb.putBuffer, sb.conn
    ensures sb.Valid() && sb.conn == old(sb.conn) && sb.getBuffer == old(sb.getBuffer)
    ensures sb.putBuffer == old(sb.putBuffer) || fresh(sb.putBuffer)
    ensures (sb.View(), more) == S.Step(old(sb.View()), tally, op)
    ensures more.accepted == tally.accepted + if op.PutChar? && ending == Finished then [op.c] else []
    ensures more.handed == tally.handed + if op.GetChar? && got.Some? then [got.value] else []
  {
    ghost var before := sb.View();
    ending, got := Finished, None;
    more := S.Step(before, tally, op).1;
    match op
    case PutChar(c) => ending := sb.Sputc(c);
    case Sync => ending := sb.Overflow(None);
    case SetBuffer(isNull) => var _ := sb.SetBuf(isNull);
    case GetChar => got := sb.Sbumpc();
  }

  /** Drive the real stream with any sequence of operations, recording the
      characters whose put it reports as successful and those it hands out. It
      behaves as the stream on sequences does, and what it reported obeys the
      conservation laws. */
  method RunOps(sb: Streambuf, ops: seq<S.Op>) returns (accepted: seq<char>, handed: seq<char>, ghost tally: S.Tally)
    requires sb.Valid()
    modifies sb, sb.getBuffer, sb.putBuffer, sb.conn
    ensures sb.Valid() && (sb.View(), tally) == S.Run(old(sb.View()), S.NO_TALLY, ops)
    ensures accepted == tally.accepted && handed == tally.handed
    ensures S.OutputKept(old(sb.View()), sb.View(), tally)
    ensures old(sb.View().wireIn) <= sb.View().wireIn
    ensures handed + sb.View().unread == old(sb.View().unread) + sb.View().wireIn[old(|sb.View().wireIn|)..]
    ensures exists n :: S.ArrivedBy(old(sb.View()), sb.View(), n)
    ensures S.WaitedInTime(old(sb.View()), sb.View())
  {
    accepted, handed, tally := [], [], S.NO_TALLY;
    ghost var start := sb.View();
    for i := 0 to |ops|
      invariant sb.Valid() && sb.conn == old(sb.conn) && sb.getBuffer == old(sb.getBuffer)
      invariant sb.putBuffer == old(sb.putBuffer) || fresh(sb.putBuffer)
      invariant S.Run(sb.View(), tally, ops[i..]) == S.Run(start, S.NO_TALLY, ops)
      invariant accepted == tally.accepted && handed == tally.handed
    {
      assert ops[i..][0] == ops[i] && ops[i..][1..] == ops[i + 1..];
      var ending, got;
      ending, got, tally := Apply(sb, ops[i], tally);
      if ops[i].PutChar? && ending == Finished {
        accepted := accepted + [ops[i].c];
      }
      if ops[i].GetChar? && got.Some? {
        handed := handed + [got.value];
      }
    }
    S.OutputConservation(start, ops);
    S.InputConservation(start, ops);
    S.RunWaitsInTime(start, start, S.NO_TALLY, ops);
  }

  /** Output that arrives twice: the first of two flushes fails on the way. */
  method FailedSyncDoublesOutput(error: Failure) returns (sb: Streambuf, accepted: seq<char>)
    requires !Retry(error)
    ensures fresh(sb) && sb.Valid() && accepted == "ab" && sb.conn.wireOut == "aab"
  {
    var later := Sends(SendRound(2, Accepted(2), 2, Ready), NoSends);
    var script := Sends(SendRound(0, Accepted(1), 0, Ready), Sends(SendRound(1, SendFailed(error), 1, Ready), later));
    var conn := new Connection(script, NoReceives);
    sb := new Streambuf(conn);
    S.FailedSyncDoublesOutput('a', 'b', conn.sends);
    var taken, _, _ := RunOps(sb, [S.PutChar('a'), S.PutChar('b'), S.Sync, S.Sync]);
    accepted := taken;
  }

  /** A connection reported although the only endpoint never answered. */
  method SilentEndpointReported(sb: Streambuf) returns (d: Dial, ok: bool)
    requires sb.Valid() && sb.expiry >= 0
    modifies sb, sb.conn`waits
    ensures ok && d.now <= sb.expiry && !Established(d)
  {
    d := Dial(0, NoError, InProgress, 0, Expired, Fetched(NoError));
    ok := sb.Connect(d);
    assert sb.View().expiry == old(sb.View().expiry);
  }
}
