/** The meaning of a socket stream's operations on sequences: unread input,
    pending output and the wire, without arrays or positions. */
module SocketStream {
  import opened MachineIntegers
  import opened Wrappers
  import opened SocketTransfer

  const BUFFER_SIZE: nat := 512
  const PUTBACK_MAX: nat := 8
  const MAX_EXPIRY: Int64 := INT64_MAX

  /** How much `underflow` receives at most. */
  const WINDOW: nat := BUFFER_SIZE - PUTBACK_MAX

  /** `room` is the space left in the put area; an unbuffered stream has none.
      The scripts are what the socket and the clock are going to do, the wires
      are what has passed through the socket so far, and the waits are what was
      handed to `poll`. */
  datatype Stream = Stream(
    unread: seq<char>, pending: seq<char>, room: nat, buffered: bool, ec: Error, expiry: Int64,
    sends: Sends, receives: Receives, wireOut: seq<char>, wireIn: seq<char>, waits: seq<Wait>)

  /** What `overflow(c)` has to send; `None` is end-of-file. */
  function Output(s: Stream, c: Option<char>): seq<char> {
    if s.buffered then s.pending else if c.Some? then [c.value] else []
  }

  function Sent(s: Stream, output: seq<char>, t: Transmission): Stream
    requires t.sent <= |output|
  {
    s.(wireOut := s.wireOut + output[..t.sent], sends := t.next, ec := ErrorAfter(t.ending, t.turns, s.ec),
       waits := s.waits + WaitsOfSend(|output|, s.sends, s.expiry))
  }

  /** `overflow(c)`, given how the transmission of its output goes. */
  function OverflowWith(s: Stream, c: Option<char>, t: Transmission): (Stream, Ending)
    requires t.sent <= |Output(s, c)|
  {
    if !s.buffered && c == None then (s, Finished)
    else
      var after := Sent(s, Output(s, c), t);
      if t.ending != Finished || !s.buffered then (after, t.ending)
      else if c == None then (after.(pending := [], room := BUFFER_SIZE), Finished)
      else (after.(pending := [c.value], room := BUFFER_SIZE - 1), Finished)
  }

  function Overflow(s: Stream, c: Option<char>): (Stream, Ending) {
    TransmitSendsPrefix(|Output(s, c)|, s.sends, s.expiry);
    OverflowWith(s, c, Transmit(|Output(s, c)|, s.sends, s.expiry))
  }

  /** `sputc(c)`. */
  function Put(s: Stream, c: char): (Stream, Ending) {
    if s.room > 0 then (s.(pending := s.pending + [c], room := s.room - 1), Finished) else Overflow(s, Some(c))
  }

  /** `setbuf(s, n)`: only a null buffer is accepted, and only when no output is
      pending. */
  function SetBuf(s: Stream, isNull: bool): (Stream, bool) {
    if s.pending == [] && isNull then (s.(buffered := false, room := 0), true) else (s, false)
  }

  /** `underflow()` on an empty get area, given how the reception goes. */
  function UnderflowWith(s: Stream, r: Reception): Stream {
    s.(unread := r.data, wireIn := s.wireIn + r.data, receives := r.next,
       ec := ErrorAfter(r.ending, r.turns, s.ec),
       waits := s.waits + WaitsOfReceive(WINDOW, s.receives, s.expiry))
  }

  function Underflow(s: Stream): (Stream, Ending) {
    if s.unread != [] then (s, GaveUp(s.ec))
    else
      var r := Receive(WINDOW, s.receives, s.expiry);
      (UnderflowWith(s, r), r.ending)
  }

  /** Hand out the next unread byte. */
  function Take(s: Stream): (Stream, Option<char>) {
    if s.unread == [] then (s, None) else (s.(unread := s.unread[1..]), Some(s.unread[0]))
  }

  /** `sbumpc()`. */
  function Get(s: Stream): (Stream, Option<char>) {
    Take(if s.unread != [] then s else Underflow(s).0)
  }

  /** Both areas are emptied. */
  function Emptied(s: Stream, ec: Error): Stream {
    s.(unread := [], pending := [], room := if s.buffered then BUFFER_SIZE else 0, ec := ec)
  }

  /** `close()` once the output has been flushed: start afresh unless closing
      the socket failed. */
  function Closed(s: Stream, closeError: Error): Stream {
    if closeError == NoError
    then Emptied(s, NoError)
    else s.(ec := closeError)
  }

  /** A freshly constructed stream over a socket. */
  function Fresh(sends: Sends, receives: Receives, wireOut: seq<char>, wireIn: seq<char>, waits: seq<Wait>): Stream {
    Stream([], [], BUFFER_SIZE, true, NoError, MAX_EXPIRY, sends, receives, wireOut, wireIn, waits)
  }

  /* ----- What an operation does, outcome by outcome ----- */

  /** `overflow(c)` on a buffered stream sends what is pending; when all of it is
      out, the put area is empty but for `c`, and otherwise it is as it was. */
  lemma BufferedOverflow(s: Stream, c: Option<char>)
    requires s.buffered
    ensures var t := Transmit(|s.pending|, s.sends, s.expiry);
            var (after, ending) := Overflow(s, c);
            && t.sent <= |s.pending| && ending == t.ending && (ending == Finished <==> t.sent == |s.pending|)
            && after.wireOut == s.wireOut + s.pending[..t.sent] && after.sends == t.next
            && after.pending == (if ending != Finished then s.pending else if c.Some? then [c.value] else [])
            && after.room == (if ending != Finished then s.room else if c.Some? then 511 else 512)
            && (ending.GaveUp? ==> after.ec == ending.error) && (t.turns == 0 ==> after.ec == s.ec)
            && (!ending.GaveUp? && t.turns > 0 ==> after.ec == NoError)
            && (after.unread, after.wireIn, after.receives) == (s.unread, s.wireIn, s.receives)
            && (after.buffered, after.expiry) == (true, s.expiry)
  {
    TransmitSendsPrefix(|s.pending|, s.sends, s.expiry);
  }

  /** On an unbuffered stream it sends the bare character. */
  lemma UnbufferedOverflow(s: Stream, c: char)
    requires !s.buffered
    ensures Overflow(s, None) == (s, Finished)
    ensures var t := Transmit(1, s.sends, s.expiry);
            var (after, ending) := Overflow(s, Some(c));
            && ending == t.ending && after.sends == t.next
            && after.wireOut == s.wireOut + (if ending == Finished then [c] else [])
            && (ending.GaveUp? ==> after.ec == ending.error) && (t.turns == 0 ==> after.ec == s.ec)
            && (!ending.GaveUp? && t.turns > 0 ==> after.ec == NoError)
            && (after.unread, after.wireIn, after.receives) == (s.unread, s.wireIn, s.receives)
            && (after.pending, after.room, after.buffered) == (s.pending, s.room, false)
            && after.expiry == s.expiry
  {
    TransmitSendsPrefix(1, s.sends, s.expiry);
    var t := Transmit(1, s.sends, s.expiry);
    assert Overflow(s, Some(c)) == OverflowWith(s, Some(c), t);
    OneSent(s, c, t);
  }

  lemma OneSent(s: Stream, c: char, t: Transmission)
    requires t.sent <= 1 && (t.ending == Finished <==> t.sent == 1)
    ensures Sent(s, [c], t).wireOut == s.wireOut + if t.ending == Finished then [c] else []
  {
    assert [c][..t.sent] == if t.ending == Finished then [c] else [];
  }

  /** `underflow()` with something unread gives up at once; otherwise it receives
      up to 504 bytes, which become the unread ones. */
  lemma UnderflowOutcome(s: Stream)
    ensures s.unread != [] ==> Underflow(s) == (s, GaveUp(s.ec))
    ensures s.unread == [] ==>
      var r := Receive(504, s.receives, s.expiry);
      && Underflow(s).1 == r.ending && Underflow(s).0.unread == r.data
      && Underflow(s).0.wireIn == s.wireIn + r.data
  {
  }

  /** `sbumpc()` hands out the next unread character. Without one it receives up
      to 504 bytes, keeps all but the first and hands that one out. */
  lemma GetOutcome(s: Stream)
    ensures s.unread != [] ==> Get(s) == (s.(unread := s.unread[1..]), Some(s.unread[0]))
    ensures s.unread == [] ==>
      var r := Receive(504, s.receives, s.expiry);
      var (after, c) := Get(s);
      && after.wireIn == s.wireIn + r.data && after.receives == r.next
      && (r.data == [] ==> c == None && after.unread == [])
      && (r.data != [] ==> c == Some(r.data[0]) && after.unread == r.data[1..])
      && (r.ending.GaveUp? ==> after.ec == r.ending.error) && (r.turns == 0 ==> after.ec == s.ec)
      && (!r.ending.GaveUp? && r.turns > 0 ==> after.ec == NoError)
      && (after.pending, after.room, after.wireOut, after.sends) == (s.pending, s.room, s.wireOut, s.sends)
      && (after.buffered, after.expiry) == (s.buffered, s.expiry)
  {
  }

  /** `setbuf`, the two ways of emptying a stream, and a new one. */
  lemma ResetOutcomes(s: Stream, isNull: bool, ec: Error)
    ensures isNull && s.pending == [] ==> SetBuf(s, isNull) == (s.(buffered := false, room := 0), true)
    ensures !isNull || s.pending != [] ==> SetBuf(s, isNull) == (s, false)
    ensures Emptied(s, ec) == s.(unread := [], pending := [], room := if s.buffered then 512 else 0, ec := ec)
    ensures ec != NoError ==> Closed(s, ec) == s.(ec := ec)
    ensures Closed(s, NoError).unread == [] && Closed(s, NoError).pending == [] && Closed(s, NoError).ec == NoError
    ensures Closed(s, NoError).room == if s.buffered then 512 else 0
    ensures Closed(s, NoError).(unread := s.unread, pending := s.pending, room := s.room, ec := s.ec) == s
  {
  }

  /** A new stream is empty, buffered and without error, and no clock reading is
      past its deadline. */
  lemma FreshStream(sends: Sends, receives: Receives, wireOut: seq<char>, wireIn: seq<char>, waits: seq<Wait>,
                    now: Int64)
    ensures var s := Fresh(sends, receives, wireOut, wireIn, waits);
            && s.unread == [] && s.pending == [] && s.room == 512 && s.buffered && s.ec == NoError
            && (s.sends, s.receives, s.wireOut, s.wireIn, s.waits) == (sends, receives, wireOut, wireIn, waits)
            && now <= s.expiry
  {
  }

  /* ----- Runs ----- */

  datatype Op = PutChar(c: char) | Sync | SetBuffer(isNull: bool) | GetChar

  /** What the program using the stream has seen: the characters whose put
      succeeded, the characters it was given, what went out in calls that
      succeeded, and how many bytes went out in calls that did not. */
  datatype Tally = Tally(accepted: seq<char>, handed: seq<char>, settled: seq<char>, unsettled: nat)

  const NO_TALLY := Tally([], [], [], 0)

  function Settle(before: Stream, r: (Stream, Ending), tally: Tally, c: seq<char>): Tally
    requires |before.wireOut| <= |r.0.wireOut|
  {
    if r.1 == Finished
    then tally.(accepted := tally.accepted + c, settled := tally.settled + r.0.wireOut[|before.wireOut|..])
    else tally.(unsettled := tally.unsettled + |r.0.wireOut| - |before.wireOut|)
  }

  lemma OverflowGrowsWire(s: Stream, c: Option<char>)
    ensures |s.wireOut| <= |Overflow(s, c).0.wireOut|
  {
  }

  function Step(s: Stream, tally: Tally, op: Op): (Stream, Tally) {
    match op
    case PutChar(c) => OverflowGrowsWire(s, Some(c)); (Put(s, c).0, Settle(s, Put(s, c), tally, [c]))
    case Sync => OverflowGrowsWire(s, None); (Overflow(s, None).0, Settle(s, Overflow(s, None), tally, []))
    case SetBuffer(isNull) => (SetBuf(s, isNull).0, tally)
    case GetChar =>
      var (after, c) := Get(s);
      (after, if c.Some? then tally.(handed := tally.handed + [c.value]) else tally)
  }

  function Run(s: Stream, tally: Tally, ops: seq<Op>): (Stream, Tally)
    decreases |ops|
  {
    if ops == [] then (s, tally)
    else var (next, more) := Step(s, tally, ops[0]); Run(next, more, ops[1..])
  }

  lemma Behind<T>(xs: seq<T>, ys: seq<T>)
    ensures xs <= xs + ys && (xs + ys)[|xs|..] == ys
  {
  }

  /** An overflow that fails, or has not returned yet, keeps the put area, has
      sent a proper prefix of what it tried to send, and takes no character. */
  lemma FailedOverflowKeepsPending(s: Stream, c: Option<char>)
    ensures var (after, ending) := Overflow(s, c);
            ending != Finished ==>
              && after.pending == s.pending && after.room == s.room && after.buffered == s.buffered
              && s.wireOut <= after.wireOut
              && var extra := after.wireOut[|s.wireOut|..];
                 if s.buffered then extra < s.pending else extra == []
  {
    TransmitSendsPrefix(|Output(s, c)|, s.sends, s.expiry);
    var t := Transmit(|Output(s, c)|, s.sends, s.expiry);
    Behind(s.wireOut, Output(s, c)[..t.sent]);
  }

  /** A step is the operation it is named after. */
  lemma StepOutcome(s: Stream, tally: Tally, c: char, isNull: bool)
    ensures s.room > 0 ==>
      Step(s, tally, PutChar(c)).0 == s.(pending := s.pending + [c], room := s.room - 1)
    ensures s.room == 0 ==> Step(s, tally, PutChar(c)).0 == Overflow(s, Some(c)).0
    ensures Step(s, tally, Sync).0 == Overflow(s, None).0
    ensures Step(s, tally, SetBuffer(isNull)).0 == SetBuf(s, isNull).0
    ensures Step(s, tally, GetChar).0 == Get(s).0
  {
  }

  /** An unbuffered stream has nothing pending and no room. */
  predicate Shaped(s: Stream) {
    s.buffered || (s.pending == [] && s.room == 0)
  }

  /** When an overflow that failed is tried again and succeeds, everything that
      was pending goes out behind the prefix that had gone out before. */
  lemma RetrySendsAgain(s: Stream, c: Option<char>, d: Option<char>)
    requires s.buffered
    ensures var (failed, ending) := Overflow(s, c);
            var (after, again) := Overflow(failed, d);
            var k := |failed.wireOut| - |s.wireOut|;
            ending != Finished && again == Finished ==>
              && 0 <= k < |s.pending| && after.wireOut == s.wireOut + s.pending[..k] + s.pending
              && after.pending == if d.Some? then [d.value] else []
  {
    BufferedOverflow(s, c);
    var failed := Overflow(s, c).0;
    BufferedOverflow(failed, d);
    var again := Transmit(|failed.pending|, failed.sends, failed.expiry);
    assert again.sent == |failed.pending| ==> failed.pending[..again.sent] == failed.pending;
  }

  function Taken(c: Option<char>): seq<char> {
    if c.Some? then [c.value] else []
  }

  /** A successful overflow moves everything to the wire, in order. */
  lemma FinishedOverflowSends(s: Stream, c: Option<char>)
    requires Shaped(s) && Overflow(s, c).1 == Finished
    ensures var after := Overflow(s, c).0;
            after.wireOut == s.wireOut + Output(s, c) && Output(s, c) + after.pending == s.pending + Taken(c)
  {
    var output := Output(s, c);
    TransmitSendsPrefix(|output|, s.sends, s.expiry);
    var t := Transmit(|output|, s.sends, s.expiry);
    assert Overflow(s, c) == OverflowWith(s, c, t);
    FinishedTransmission(s, c, t);
  }

  lemma FinishedTransmission(s: Stream, c: Option<char>, t: Transmission)
    requires Shaped(s) && t.sent <= |Output(s, c)| && (t.ending == Finished <==> t.sent == |Output(s, c)|)
    requires OverflowWith(s, c, t).1 == Finished
    ensures var after := OverflowWith(s, c, t).0;
            after.wireOut == s.wireOut + Output(s, c) && Output(s, c) + after.pending == s.pending + Taken(c)
  {
    assert t.ending == Finished ==> Output(s, c)[..t.sent] == Output(s, c);
  }

  lemma OverflowConserves(s: Stream, c: Option<char>)
    requires Shaped(s)
    ensures var (after, ending) := Overflow(s, c);
            && Shaped(after) && after.unread == s.unread && after.wireIn == s.wireIn && s.wireOut <= after.wireOut
            && (ending == Finished ==> after.wireOut[|s.wireOut|..] + after.pending == s.pending + Taken(c))
            && (ending != Finished ==> after.pending == s.pending)
  {
    if Overflow(s, c).1 == Finished {
      FinishedOverflowSends(s, c);
      Behind(s.wireOut, Output(s, c));
    } else {
      FailedOverflowKeepsPending(s, c);
    }
  }

  /** `xs` is `ys` with some characters left out. */
  ghost predicate Subsequence(xs: seq<char>, ys: seq<char>)
    decreases |ys|
  {
    xs == [] ||
    (ys != [] &&
     var x, y := |xs| - 1, |ys| - 1;
     Subsequence(xs, ys[..y]) || (xs[x] == ys[y] && Subsequence(xs[..x], ys[..y])))
  }

  lemma {:induction false} SubsequenceGrows(xs: seq<char>, ys: seq<char>, more: seq<char>)
    requires Subsequence(xs, ys)
    ensures Subsequence(xs, ys + more) && Subsequence(xs + more, ys + more)
    decreases |more|
  {
    if more == [] {
      assert xs + more == xs && ys + more == ys;
    } else {
      var k := |more| - 1;
      SubsequenceGrows(xs, ys, more[..k]);
      assert (ys + more)[..|ys| + k] == ys + more[..k];
      assert (xs + more)[..|xs| + k] == xs + more[..k];
    }
  }

  lemma DropOfAppended<T>(xs: seq<T>, ys: seq<T>, k: nat)
    requires k <= |xs|
    ensures (xs + ys)[k..] == xs[k..] + ys
  {
  }

  /** The conservation law of one step: what successful calls have sent and what
      is pending are what was pending at the start and the accepted characters,
      in order; what other calls have sent comes in between on the wire. */
  ghost predicate Conserved(start: Stream, s: Stream, tally: Tally) {
    && tally.settled + s.pending == start.pending + tally.accepted
    && |s.wireOut| == |start.wireOut| + |tally.settled| + tally.unsettled
    && (tally.unsettled == 0 ==> s.wireOut == start.wireOut + tally.settled)
    && start.wireOut <= s.wireOut && Subsequence(tally.settled, s.wireOut[|start.wireOut|..])
  }

  lemma MoreOnWire(base: seq<char>, wire: seq<char>, sent: seq<char>, settled: seq<char>)
    requires base <= wire && Subsequence(settled, wire[|base|..])
    ensures var since := (wire + sent)[|base|..];
            base <= wire + sent && Subsequence(settled, since) && Subsequence(settled + sent, since)
  {
    DropOfAppended(wire, sent, |base|);
    SubsequenceGrows(settled, wire[|base|..], sent);
  }

  /** One call of `overflow` or `sputc` that takes `c` keeps the balance. */
  lemma SettleConserves(start: Stream, s: Stream, tally: Tally, r: (Stream, Ending), c: seq<char>)
    requires Conserved(start, s, tally) && s.wireOut <= r.0.wireOut
    requires r.1 == Finished ==> r.0.wireOut[|s.wireOut|..] + r.0.pending == s.pending + c
    requires r.1 != Finished ==> r.0.pending == s.pending
    ensures Conserved(start, r.0, Settle(s, r, tally, c))
  {
    var sent := r.0.wireOut[|s.wireOut|..];
    assert r.0.wireOut == s.wireOut + sent;
    MoreOnWire(start.wireOut, s.wireOut, sent, tally.settled);
    if r.1 == Finished {
      assert tally.settled + sent + r.0.pending == tally.settled + (sent + r.0.pending);
      assert tally.settled + (s.pending + c) == tally.settled + s.pending + c;
      assert start.pending + tally.accepted + c == start.pending + (tally.accepted + c);
      assert start.wireOut + tally.settled + sent == start.wireOut + (tally.settled + sent);
    } else if |r.0.wireOut| == |s.wireOut| {
      assert r.0.wireOut == s.wireOut;
    }
  }

  lemma StepConserves(start: Stream, s: Stream, tally: Tally, op: Op)
    requires Shaped(s) && Conserved(start, s, tally)
    ensures var (after, more) := Step(s, tally, op);
            Shaped(after) && Conserved(start, after, more) && more.unsettled >= tally.unsettled
  {
    match op
    case PutChar(c) =>
      OverflowConserves(s, Some(c));
      SettleConserves(start, s, tally, Put(s, c), [c]);
    case Sync =>
      OverflowConserves(s, None);
      SettleConserves(start, s, tally, Overflow(s, None), []);
    case SetBuffer(_) =>
    case GetChar =>
  }

  lemma {:induction false} RunConserves(start: Stream, s: Stream, tally: Tally, ops: seq<Op>)
    requires Shaped(s) && Conserved(start, s, tally)
    ensures var (after, more) := Run(s, tally, ops);
            Shaped(after) && Conserved(start, after, more)
    decreases |ops|
  {
    if ops != [] {
      StepConserves(start, s, tally, ops[0]);
      var (next, more) := Step(s, tally, ops[0]);
      RunConserves(start, next, more, ops[1..]);
    }
  }

  /** What the balance means for the wire. */
  lemma ConservedOnWire(start: Stream, s: Stream, tally: Tally)
    requires Conserved(start, s, tally)
    ensures Subsequence(start.pending + tally.accepted, s.wireOut[|start.wireOut|..] + s.pending)
    ensures s.wireOut + s.pending == start.wireOut + start.pending + tally.accepted <==> tally.unsettled == 0
  {
    SubsequenceGrows(tally.settled, s.wireOut[|start.wireOut|..], s.pending);
    if tally.unsettled == 0 {
      assert start.wireOut + tally.settled + s.pending == start.wireOut + (tally.settled + s.pending);
      assert start.wireOut + (start.pending + tally.accepted) == start.wireOut + start.pending + tally.accepted;
    }
  }

  /** What successful calls sent, followed by the pending output, is what was
      pending at the start followed by the accepted characters. The wire has no
      more than that and what other calls sent, loses and reorders nothing of
      it, and shows exactly it when other calls sent nothing. */
  ghost predicate OutputKept(start: Stream, s: Stream, tally: Tally) {
    && tally.settled + s.pending == start.pending + tally.accepted
    && start.wireOut <= s.wireOut
    && |s.wireOut| == |start.wireOut| + |tally.settled| + tally.unsettled
    && Subsequence(start.pending + tally.accepted, s.wireOut[|start.wireOut|..] + s.pending)
    && (s.wireOut + s.pending == start.wireOut + start.pending + tally.accepted <==> tally.unsettled == 0)
  }

  /** Over every run of puts, syncs, `setbuf` calls and reads, for every split
      of the sends and in both modes: what successful calls sent, followed by
      the pending output, is what was pending before followed by the accepted
      characters, in order. So nothing that a failed call had sent counts: it is
      sent again. The wire itself never loses or reorders an accepted character;
      it shows them without repetition exactly when no unsuccessful call had
      sent anything. */
  lemma OutputConservation(s: Stream, ops: seq<Op>)
    requires Shaped(s)
    ensures OutputKept(s, Run(s, NO_TALLY, ops).0, Run(s, NO_TALLY, ops).1)
  {
    assert NO_TALLY.settled + s.pending == s.pending + NO_TALLY.accepted;
    assert s.wireOut == s.wireOut + NO_TALLY.settled;
    RunConserves(s, s, NO_TALLY, ops);
    ConservedOnWire(s, Run(s, NO_TALLY, ops).0, Run(s, NO_TALLY, ops).1);
  }

  /** A socket that in time takes one byte, then fails, and later takes two. */
  predicate FailsOnce(script: Sends, expiry: Int64) {
    && script.Sends? && script.rest.Sends? && script.rest.rest.Sends?
    && script.first.now <= expiry && script.rest.first.now <= expiry && script.rest.rest.first.now <= expiry
    && script.first.io == Accepted(1)
    && script.rest.first.io.SendFailed? && !Retry(script.rest.first.io.error)
    && script.rest.rest.first.io == Accepted(2)
  }

  lemma FirstSyncFails(s: Stream)
    requires s.buffered && |s.pending| == 2 && FailsOnce(s.sends, s.expiry)
    ensures var error := s.sends.rest.first.io.error;
            var after := s.(wireOut := s.wireOut + s.pending[..1], sends := s.sends.rest.rest, ec := error);
            Overflow(s, None) == (after, GaveUp(error))
  {
    var error := s.sends.rest.first.io.error;
    assert Transmit(1, s.sends.rest, s.expiry) == Transmission(0, 1, GaveUp(error), s.sends.rest.rest);
    assert Transmit(2, s.sends, s.expiry) == Transmission(1, 2, GaveUp(error), s.sends.rest.rest);
    assert WaitsOfSend(1, s.sends.rest, s.expiry) == [];
    assert s.waits + [] == s.waits;
  }

  lemma SecondSyncWorks(s: Stream)
    requires s.buffered && |s.pending| == 2 && s.sends.Sends? && s.sends.first.now <= s.expiry
    requires s.sends.first.io == Accepted(2)
    ensures var after := s.(wireOut := s.wireOut + s.pending, sends := s.sends.rest, ec := NoError);
            Overflow(s, None) == (after.(pending := [], room := BUFFER_SIZE), Finished)
  {
    assert Transmit(2, s.sends, s.expiry) == Transmission(2, 1, Finished, s.sends.rest);
    assert WaitsOfSend(2, s.sends, s.expiry) == [] + WaitsOfSend(0, s.sends.rest, s.expiry);
    assert s.pending[..2] == s.pending && s.waits + [] == s.waits;
  }

  lemma StoredPut(s: Stream, tally: Tally, c: char)
    requires s.room > 0
    ensures Step(s, tally, PutChar(c)) ==
      (s.(pending := s.pending + [c], room := s.room - 1), tally.(accepted := tally.accepted + [c]))
  {
    assert tally.settled + s.wireOut[|s.wireOut|..] == tally.settled;
  }

  lemma RunFirst(s: Stream, tally: Tally, op: Op, ops: seq<Op>)
    ensures var (next, more) := Step(s, tally, op);
            Run(s, tally, [op] + ops) == Run(next, more, ops)
  {
    assert ([op] + ops)[1..] == ops;
  }

  lemma SyncedTwice(s: Stream, tally: Tally)
    requires s.buffered && |s.pending| == 2 && FailsOnce(s.sends, s.expiry)
    ensures var (after, more) := Run(s, tally, [Sync, Sync]);
            && after.wireOut == s.wireOut + s.pending[..1] + s.pending && after.pending == [] && after.ec == NoError
            && more.accepted == tally.accepted && more.unsettled == tally.unsettled + 1
  {
    FirstSyncFails(s);
    var (failed, more) := Step(s, tally, Sync);
    SecondSyncWorks(failed);
    RunFirst(s, tally, Sync, [Sync]);
    RunFirst(failed, more, Sync, []);
    assert [Sync] == [Sync] + [] && [Sync, Sync] == [Sync] + [Sync];
  }

  /** Two characters are put and flushed twice, because the first flush failed
      on the way: the first character arrives twice. */
  lemma FailedSyncDoublesOutput(x: char, y: char, script: Sends)
    requires FailsOnce(script, MAX_EXPIRY)
    ensures var s := Fresh(script, NoReceives, [], [], []);
            var (after, tally) := Run(s, NO_TALLY, [PutChar(x), PutChar(y), Sync, Sync]);
            && after.wireOut == [x, x, y] && after.pending == [] && after.ec == NoError
            && tally.accepted == [x, y] && tally.unsettled == 1
  {
    var s := Fresh(script, NoReceives, [], [], []);
    StoredPut(s, NO_TALLY, x);
    var s1, t1 := s.(pending := [x], room := 511), NO_TALLY.(accepted := [x]);
    assert Step(s, NO_TALLY, PutChar(x)) == (s1, t1) by {
      assert [] + [x] == [x];
    }
    StoredPut(s1, t1, y);
    var s2, t2 := s.(pending := [x, y], room := 510), NO_TALLY.(accepted := [x, y]);
    assert Step(s1, t1, PutChar(y)) == (s2, t2) by {
      assert [x] + [y] == [x, y];
    }
    SyncedTwice(s2, t2);
    RunFirst(s2, t2, Sync, [Sync]);
    RunFirst(s1, t1, PutChar(y), [Sync, Sync]);
    RunFirst(s, NO_TALLY, PutChar(x), [PutChar(y), Sync, Sync]);
  }

  /** Bytes handed to the reader followed by the unread ones are the bytes that
      have arrived, in order. */
  ghost predicate InputConserved(start: Stream, s: Stream, tally: Tally) {
    && start.wireIn <= s.wireIn
    && tally.handed + s.unread == start.unread + s.wireIn[|start.wireIn|..]
  }

  lemma TakeFirst<T>(xs: seq<T>, ys: seq<T>)
    ensures ys != [] ==> xs + [ys[0]] + ys[1..] == xs + ys
  {
  }

  lemma StepConservesInput(start: Stream, s: Stream, tally: Tally, op: Op)
    requires Shaped(s) && InputConserved(start, s, tally)
    ensures var (after, more) := Step(s, tally, op);
            Shaped(after) && InputConserved(start, after, more)
  {
    match op
    case PutChar(c) => OverflowConserves(s, Some(c));
    case Sync => OverflowConserves(s, None);
    case SetBuffer(_) =>
    case GetChar =>
      if s.unread == [] {
        var data := Underflow(s).0.unread;
        DropOfAppended(s.wireIn, data, |start.wireIn|);
        var since := s.wireIn[|start.wireIn|..];
        assert tally.handed == start.unread + since by {
          assert tally.handed + s.unread == tally.handed;
        }
        assert start.unread + since + data == start.unread + (since + data);
        TakeFirst(tally.handed, data);
      } else {
        TakeFirst(tally.handed, s.unread);
      }
  }

  lemma {:induction false} RunConservesInput(start: Stream, s: Stream, tally: Tally, ops: seq<Op>)
    requires Shaped(s) && InputConserved(start, s, tally)
    ensures InputConserved(start, Run(s, tally, ops).0, Run(s, tally, ops).1)
    decreases |ops|
  {
    if ops != [] {
      StepConservesInput(start, s, tally, ops[0]);
      var (next, more) := Step(s, tally, ops[0]);
      RunConservesInput(start, next, more, ops[1..]);
    }
  }

  /** The first `n` turns of the script have been taken, and what they brought in
      time is on the wire. */
  ghost predicate ArrivedBy(start: Stream, s: Stream, n: nat) {
    && n <= ReceiveCount(start.receives) && s.receives == WithoutFirst(start.receives, n)
    && s.wireIn == start.wireIn + Arrivals(start.receives, n, 504, start.expiry) && s.expiry == start.expiry
  }

  lemma StepKeepsInput(s: Stream, tally: Tally, op: Op)
    requires !op.GetChar?
    ensures var after := Step(s, tally, op).0;
            after.receives == s.receives && after.wireIn == s.wireIn && after.expiry == s.expiry
  {
  }

  lemma GetArrives(start: Stream, s: Stream, n: nat) returns (m: nat)
    requires ArrivedBy(start, s, n)
    ensures ArrivedBy(start, Get(s).0, m)
  {
    m := n;
    if s.unread == [] {
      var r := Receive(WINDOW, s.receives, s.expiry);
      ReceiveTakesArrivals(WINDOW, s.receives, s.expiry);
      ArrivalsSplit(start.receives, n, r.turns, WINDOW, start.expiry);
      AppendTwice(start.wireIn, Arrivals(start.receives, n, WINDOW, start.expiry), r.data);
      m := n + r.turns;
    }
  }

  lemma AppendTwice<T>(xs: seq<T>, ys: seq<T>, zs: seq<T>)
    ensures xs + ys + zs == xs + (ys + zs)
  {
  }

  lemma StepArrives(start: Stream, s: Stream, n: nat, tally: Tally, op: Op) returns (m: nat)
    requires ArrivedBy(start, s, n)
    ensures ArrivedBy(start, Step(s, tally, op).0, m)
  {
    if op.GetChar? {
      m := GetArrives(start, s, n);
    } else {
      StepKeepsInput(s, tally, op);
      m := n;
    }
  }

  lemma {:induction false} RunArrives(start: Stream, s: Stream, n: nat, tally: Tally, ops: seq<Op>) returns (m: nat)
    requires ArrivedBy(start, s, n)
    ensures ArrivedBy(start, Run(s, tally, ops).0, m)
    decreases |ops|
  {
    m := n;
    if ops != [] {
      var (next, more) := Step(s, tally, ops[0]);
      m := StepArrives(start, s, n, tally, ops[0]);
      m := RunArrives(start, next, m, more, ops[1..]);
    }
  }

  /** Over every run, whatever arrives and however it is split: the bytes handed
      to the reader followed by the unread ones are the bytes that were unread
      at the start followed by those received since, and these are what the
      turns taken from the script brought in time, in order. */
  lemma InputConservation(s: Stream, ops: seq<Op>)
    requires Shaped(s)
    ensures var (after, tally) := Run(s, NO_TALLY, ops);
            s.wireIn <= after.wireIn && tally.handed + after.unread == s.unread + after.wireIn[|s.wireIn|..]
    ensures exists n :: ArrivedBy(s, Run(s, NO_TALLY, ops).0, n)
  {
    assert s.wireIn[|s.wireIn|..] == [];
    RunConservesInput(s, s, NO_TALLY, ops);
    assert ArrivedBy(s, s, 0) by {
      assert s.wireIn + [] == s.wireIn;
    }
    var n := RunArrives(s, s, 0, NO_TALLY, ops);
  }

  /* ----- The waits of a run ----- */

  /** Every wait since the start is bounded by the time that was left. */
  ghost predicate WaitedInTime(start: Stream, s: Stream) {
    && s.expiry == start.expiry && start.waits <= s.waits
    && Bounded(s.waits[|start.waits|..], start.expiry)
  }

  lemma MoreWaits(start: Stream, s: Stream, after: Stream, more: seq<Wait>)
    requires WaitedInTime(start, s) && Bounded(more, s.expiry)
    requires after.waits == s.waits + more && after.expiry == s.expiry
    ensures WaitedInTime(start, after)
  {
    DropOfAppended(s.waits, more, |start.waits|);
  }

  lemma StepWaitsInTime(start: Stream, s: Stream, tally: Tally, op: Op)
    requires WaitedInTime(start, s)
    ensures WaitedInTime(start, Step(s, tally, op).0)
  {
    match op
    case PutChar(c) =>
      if s.room == 0 {
        OverflowWaits(start, s, Some(c));
      }
    case Sync => OverflowWaits(start, s, None);
    case SetBuffer(_) =>
    case GetChar =>
      if s.unread == [] {
        ReceiveWaitsBounded(WINDOW, s.receives, s.expiry);
        MoreWaits(start, s, Underflow(s).0, WaitsOfReceive(WINDOW, s.receives, s.expiry));
      }
  }

  lemma OverflowWaits(start: Stream, s: Stream, c: Option<char>)
    requires WaitedInTime(start, s)
    ensures WaitedInTime(start, Overflow(s, c).0)
  {
    var size := |Output(s, c)|;
    if s.buffered || c.Some? {
      SendWaitsBounded(size, s.sends, s.expiry);
      MoreWaits(start, s, Overflow(s, c).0, WaitsOfSend(size, s.sends, s.expiry));
    }
  }

  /** Over every run, each wait handed to `poll` fits an `int`, is not forever,
      and does not exceed the time that is left until the deadline. */
  lemma {:induction false} RunWaitsInTime(start: Stream, s: Stream, tally: Tally, ops: seq<Op>)
    requires WaitedInTime(start, s)
    ensures WaitedInTime(start, Run(s, tally, ops).0)
    decreases |ops|
  {
    if ops != [] {
      StepWaitsInTime(start, s, tally, ops[0]);
      var (next, more) := Step(s, tally, ops[0]);
      RunWaitsInTime(start, next, more, ops[1..]);
    }
  }
}
