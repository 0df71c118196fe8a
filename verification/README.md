# Verified model of Asio's stream buffers, completion handler wrapper and token binders

The repository is a server built on a vendored copy of Asio. This project models
the three parts of Asio that carry logic of their own and proves, in Dafny, what
their documentation promises, or exactly when they keep the promise.

* **Stream buffers.** `basic_streambuf` is one growable array with moving
  positions (`BasicStreambuf.dfy`), proved to be a plain byte queue under a size
  cap (`ByteQueue.dfy`); `ReadAt.dfy` is the loop that fills it from a device.
  `basic_socket_streambuf` (`SocketStreambuf.dfy`) puts
  512-byte areas in front of a socket; its operations are proved equal to
  operations on sequences (`SocketStream.dfy`), for which the conservation laws
  hold over every run. `SocketTransfer.dfy` is the meaning of its two loops and
  `ChronoTimeTraits.dfy` the deadline arithmetic.
* **`any_completion_handler`.** `HandlerOwnership.dfy` states what one step of a
  program does to the owners and targets and proves the invariant of all runs,
  with handlers that re-enter; `AnyCompletionHandler.dfy` is the code on real
  objects and refines those steps. `AlignedStorage.dfy` is the allocator that
  hides an offset behind the user's bytes.
* **Token binders.** `Tokens.dfy` covers executor, allocator and cancellation
  slot binders: construction, initiation and association.
  `CompletionSignatures.dfy` is the choice of the base class of `async_result`.

How the model reads the code:

* Pointers into a buffer are offsets from its start. Exceptions are results
  (`threw`, `None`, `GaveUp`). A character is Dafny's `char`, end-of-file is
  `None`. `std::size_t` values are of type `Size`, so every sum and difference
  stored in one is proved not to wrap around; where one may, a `%` says so.
* The socket and the clock are a script: what each system call returns and what
  each clock reading says. A transfer never exceeds what was offered, a call
  that fails sets an error code, and one that does not fail clears it. A finite
  script that runs out means that the call has not returned yet (`Waiting`), so a
  statement about all scripts is one about every moment of every call. A wait
  ends ready, expired or failed; the code only asks whether it failed.
* `Sputc`, `Sgetc` and `Sbumpc` are the operations of `std::streambuf` itself, which
  call the virtual functions modelled here; `Fill` is the client writing into
  prepared memory.
* `spare` in the stream buffer is how much more than needed the vector reserves.
* An executor's C++ type is its `kind`; the type of a handler names its function
  table, so the `static_cast` behind the table is safe exactly if the types agree.

Five promises of the documentation turn out to depend on a condition. Each has
an input on which the code fails it, and the exact condition is proved:

* A refused `prepare` has already shifted the buffer. It keeps every input
  exactly when nothing is shifted or the shift does not overlap
  (`RefusalKeepsEveryInput`). `RefusedPrepareLosesInput` is a run from a new
  buffer that turns "bcd" into "cdd".
* `consume(n)` with an `n` beyond the input consumes everything exactly under
  the condition of `ConsumeAsDocumented`; `ConsumeEverythingCounterexample` is a
  concrete failure.
* The wire of the socket stream shows the accepted characters in order exactly
  when no unsuccessful call had sent anything (`OutputConservation`). A failed
  call leaves the put area as it was, so what it had sent is sent again
  (`RetrySendsAgain`), but no accepted character is lost or reordered.
  `FailedSyncDoublesOutput` is a run from a new stream.
* `connect` reports a connection exactly when there is one, except when the wait
  for an endpoint expires and the busy socket has no error to report yet
  (`Connect`, `ConnectToEndpoints`); `SilentEndpointReported` is such a call.
* `allocate` on a handler's allocator throws exactly when the computation of its
  space wraps around (`AlignFailsOnWrap`), and then the block it obtained is never
  given back: over every run the number of lost blocks is the number of such
  requests (`LostByWrapping`). When only the eight bytes of the tag make the
  length wrap around, the block is too short for them (`RequestSuffices`).
  `WrappedRequestLosesBlock` is a request that wraps around.

## Model

| member | source | states |
|---|---|---|
| BasicStreambuf.Streambuf.constructor | includes/asio/basic_streambuf.hpp:131-141 | A new buffer is empty, satisfies the position invariant, and has room for the smaller of the cap and 128 characters |
| BasicStreambuf.Streambuf.Reserve | includes/asio/basic_streambuf.hpp:308-346 | Throws exactly when size plus n exceeds the cap, without wrap-around; otherwise keeps the input and leaves room for n; a refusal keeps all positions |
| BasicStreambuf.Streambuf.ShiftToFront | includes/asio/basic_streambuf.hpp:321-326 | The memmove puts the input at the front; read through the old positions it is the damaged input of a refusal |
| BasicStreambuf.Streambuf.Grow | includes/asio/basic_streambuf.hpp:328-345 | After the shift: the exact condition of refusal, and the new positions and contents otherwise |
| BasicStreambuf.RefusalKeepsPeriodicInput | includes/asio/basic_streambuf.hpp:321-340 | A refused prepare keeps an input exactly when the input repeats itself with the period of the shift |
| BasicStreambuf.RefusalKeepsEveryInput | includes/asio/basic_streambuf.hpp:321-340 | A refused prepare keeps every input of a size exactly when nothing is shifted or source and target do not overlap |
| BasicStreambuf.RefusedPrepareLosesInput | includes/asio/basic_streambuf.hpp:321-340 | From a new buffer: four puts, one get and a refused prepare leave "cdd" where "bcd" was |
| BasicStreambuf.Streambuf.Prepare | includes/asio/basic_streambuf.hpp:209-219 | Throws exactly when size() + n > max_size(); otherwise n characters can be written and the input is unchanged |
| BasicStreambuf.Streambuf.Commit | includes/asio/basic_streambuf.hpp:221-238 | Moves the first n characters of the output sequence, or all of it, to the end of the input |
| BasicStreambuf.Streambuf.Consume | includes/asio/basic_streambuf.hpp:240-254 | Wherever the array lies, drops the first n characters of the input, or all of it, by the distance of `ConsumeAsDocumented`, and leaves the output sequence |
| MachineIntegers.CastToIntExact | includes/asio/basic_streambuf.hpp:236-253 | The count given to pbump and gbump survives the cast exactly when it is at most INT_MAX |
| BasicStreambuf.ConsumeAsDocumented | includes/asio/basic_streambuf.hpp:244-253 | The exact condition, over all addresses and counts, under which consume drops what the documentation promises |
| BasicStreambuf.ConsumeEverythingCounterexample | includes/asio/basic_streambuf.hpp:251-253 | Consuming the largest count moves the read position back by one |
| BasicStreambuf.Streambuf.Underflow | includes/asio/basic_streambuf.hpp:263-274 | Exposes everything written so far and returns its first character, or end-of-file when there is none |
| BasicStreambuf.Streambuf.Overflow | includes/asio/basic_streambuf.hpp:283-306 | Throws exactly when the buffer is full, and then changes nothing; otherwise appends exactly the character, growing a full array by 128 or all that is left |
| BasicStreambuf.Streambuf.ReadSizeHelper | includes/asio/basic_streambuf.hpp:353-359 | The suggested read is at most what is asked, always fits under the cap, and is at least 512 bytes or all that these two allow, and at most the larger of 512 and the unused capacity |
| BasicStreambuf.Apply | includes/asio/basic_streambuf.hpp:214-346 | One client operation keeps the buffer equal to the reference queue; only a put on a full buffer throws |
| BasicStreambuf.RunOps | includes/asio/basic_streambuf.hpp:214-346 | Over every legal run the input sequence is the reference queue and the reader gets the same characters |
| ByteQueue.StepOutcomes | includes/asio/basic_streambuf.hpp:209-306 | What each operation does to the queue, to what is staged and to what the reader got |
| ByteQueue.FirstInFirstOut | includes/asio/basic_streambuf.hpp:221-254 | Over every legal run of the reference queue, what was there and what entered is what left and what remains, in order |
| ByteQueue.CapKept | includes/asio/basic_streambuf.hpp:163-171 | Over every legal run, queue, promised memory and array stay under the cap |
| ReadAt.ReadRound | includes/asio/impl/read_at.hpp:133-139 | One round never throws, and the input grows by exactly the bytes the device has and gives, within what was asked |
| ReadAt.RoundsProgress | includes/asio/impl/read_at.hpp:119-142 | A logged loop never goes back nor past the file, the cap or an exact size, and a device that keeps delivering moves it on in every round |
| ReadAt.RoundOutcome | includes/asio/impl/read_at.hpp:119-139 | A round is made only while the condition is not met, reads where the last one ended, offers within the stated bounds and gets what the device has and gives |
| ReadAt.LoopEnded | includes/asio/completion_condition.hpp:47-96 | For all three completion conditions, by their fields: a loop that stops before the script failed, met its condition or filled the buffer, and a device that keeps delivering gets it to its goal |
| ReadAt.Read | includes/asio/impl/read_at.hpp:119-142 | The rounds answer the device's calls one by one, from any offset; the total and the input are exactly the piece of the file they cover; and the loop ends as `LoopEnded` says |
| ChronoTimeTraits.ArithmeticSaturates | includes/asio/detail/chrono_time_traits.hpp:54-108 | For all 64-bit time points, subtract and add are the exact result cut off at the ends of the range, with no overflow on the way |
| ChronoTimeTraits.TimeoutWaitsForDeadline | includes/asio/basic_socket_streambuf.hpp:447-457 | The wait lies in [0, INT_MAX], never exceeds the time left, and is short of it by less than a millisecond unless cut off |
| SocketTransfer.SendOutcomes | includes/asio/basic_socket_streambuf.hpp:359-392 | By the fields of a turn: a late reading, a fatal error, a failed wait and a send of nothing end the loop with their errors; a send and any other wait for a busy socket let it go on, with the rest and with all of it |
| SocketTransfer.ReceiveOutcomes | includes/asio/basic_socket_streambuf.hpp:292-333 | By the fields of a turn: what arrives is delivered as it is, up to the window; an empty arrival is end-of-file; errors and failed waits end the loop, other waits let it go on |
| SocketTransfer.ReceiveTakesArrivals | includes/asio/basic_socket_streambuf.hpp:292-333 | Every receive loop delivers what its turns brought in time, and has taken these turns from the script |
| SocketTransfer.SendWaitOutcomes | includes/asio/basic_socket_streambuf.hpp:388-391 | A turn of the send loop waits exactly when it is in time and finds the socket busy, for the time left at its second reading |
| SocketTransfer.ReceiveWaitOutcomes | includes/asio/basic_socket_streambuf.hpp:329-332 | The same for the receive loop |
| SocketTransfer.SendWaitsBounded | includes/asio/basic_socket_streambuf.hpp:359-392 | Every wait of a send loop fits an int, is not forever and does not exceed the time left |
| SocketTransfer.ReceiveWaitsBounded | includes/asio/basic_socket_streambuf.hpp:292-333 | The same for the receive loop |
| SocketTransfer.TransmitSendsPrefix | includes/asio/basic_socket_streambuf.hpp:359-392 | The send loop finishes exactly when all is sent; otherwise a proper prefix has been sent |
| SocketTransfer.ReceiveFitsWindow | includes/asio/basic_socket_streambuf.hpp:292-333 | What the receive loop delivers fits the window, and it succeeds exactly when that is not empty |
| SocketTransfer.NothingSentPastDeadline | includes/asio/basic_socket_streambuf.hpp:361-366 | From the first clock reading past the deadline on, nothing the socket would do changes what is sent, and the loop returns |
| SocketTransfer.NothingReceivedPastDeadline | includes/asio/basic_socket_streambuf.hpp:294-299 | The same for the receive loop |
| SocketTransfer.TransmitReturns | includes/asio/basic_socket_streambuf.hpp:359-392 | With a strictly advancing clock the send loop returns within the time left until the deadline |
| SocketTransfer.ReceiveReturns | includes/asio/basic_socket_streambuf.hpp:292-333 | With a strictly advancing clock the receive loop returns within the time left until the deadline |
| SocketStream.BufferedOverflow | includes/asio/basic_socket_streambuf.hpp:359-406 | What was sent of the pending output is on the wire; if all was, the put area is empty but for the character, else unchanged; the error is that of the loop; the input side is untouched |
| SocketStream.UnbufferedOverflow | includes/asio/basic_socket_streambuf.hpp:345-392 | Without a put buffer end-of-file does nothing and a character is sent by itself |
| SocketStream.UnderflowOutcome | includes/asio/basic_socket_streambuf.hpp:289-315 | Gives up at once when something is unread; otherwise what is received becomes the get area |
| SocketStream.GetOutcome | includes/asio/basic_socket_streambuf.hpp:283-335 | Hands out the next unread character, or receives and hands out the first of what arrived; the output side is untouched |
| SocketStream.ResetOutcomes | includes/asio/basic_socket_streambuf.hpp:219-226 | A close that worked empties both areas and the error, one that failed leaves its error only; a null buffer makes an idle stream unbuffered and anything else changes nothing |
| SocketStream.FreshStream | includes/asio/basic_socket_streambuf.hpp:121-136 | A new stream is empty, buffered and without error, and no clock reading is past its deadline |
| SocketStream.StepOutcome | includes/asio/basic_socket_streambuf.hpp:283-427 | A put is stored while there is room and flushes otherwise; each other step is its operation |
| SocketStreambuf.Connection.WaitUntilReady | includes/asio/basic_socket_streambuf.hpp:388-391 | The one wait handed to poll is the time left at the clock reading, and it is recorded |
| SocketStreambuf.Connection.SendAll | includes/asio/basic_socket_streambuf.hpp:359-392 | The loop puts exactly the transmitted prefix on the wire, whatever the pieces, leaves the stated error code, and waits once for each turn that finds the socket busy in time, by the time left then |
| SocketStreambuf.Connection.ReceiveSome | includes/asio/basic_socket_streambuf.hpp:292-333 | The loop delivers exactly the first bytes that arrive, leaves the stated error code, and waits once for each turn that finds the socket busy in time |
| SocketStreambuf.Streambuf.constructor | includes/asio/basic_socket_streambuf.hpp:121-136 | A new stream is empty, buffered, without error and without deadline |
| SocketStreambuf.Streambuf.InitBuffers | includes/asio/basic_socket_streambuf.hpp:435-445 | Both areas are emptied and the put area spans the put buffer, in either mode |
| SocketStreambuf.Streambuf.Overflow | includes/asio/basic_socket_streambuf.hpp:337-409 | The code on arrays does what the stream on sequences does: send what is pending, or the bare character, then take the character |
| SocketStreambuf.Streambuf.SetBuf | includes/asio/basic_socket_streambuf.hpp:416-427 | Only a null buffer with nothing pending is accepted, which makes the stream unbuffered; a refusal changes nothing |
| SocketStreambuf.Streambuf.Underflow | includes/asio/basic_socket_streambuf.hpp:283-335 | Receives only when nothing is unread, into the window behind the put-back slots, and never outside the buffer |
| SocketStreambuf.Streambuf.Close | includes/asio/basic_socket_streambuf.hpp:219-226 | Flushes, closes, and starts afresh exactly when closing worked |
| SocketStreambuf.Streambuf.MoveFrom | includes/asio/basic_socket_streambuf.hpp:139-152 | Unread input, error, expiry, mode and socket move over exactly, pending output is dropped, and the source is as freshly constructed |
| SocketStreambuf.Streambuf.MoveAssign | includes/asio/basic_socket_streambuf.hpp:155-171 | The same after flushing the target to its old socket, whatever modes the two had; moved to itself, a stream is flushed, closed and as new |
| SocketStreambuf.Streambuf.ConnectToEndpoints | includes/asio/basic_socket_streambuf.hpp:465-526 | Tries a prefix of the endpoints in order; no error exactly when the last one tried succeeded; nothing is tried after a success, an expired reading or a getsockopt failure; an empty list gives not_found; no error means a connection established, both ways, exactly unless the last wait expired with nothing to report; one wait is made for each endpoint tried that has to be waited for; for each outcome of a turn, by its fields, whether the search stopped there and which error is left |
| SocketStreambuf.DialOutcomes | includes/asio/basic_socket_streambuf.hpp:484-523 | By the fields of an endpoint's turn: which outcomes stop the search, which let it go on, with which error, and which are a connection |
| SocketStreambuf.DialWaitsBounded | includes/asio/basic_socket_streambuf.hpp:507-510 | Every wait of a search fits an int, is not forever and does not exceed the time left |
| SocketStreambuf.Streambuf.Connect | includes/asio/basic_socket_streambuf.hpp:178-193 | Both areas are emptied, and the result says whether the connection was established exactly unless the wait expired with nothing to report |
| SocketStreambuf.SilentEndpointReported | includes/asio/basic_socket_streambuf.hpp:507-523 | On any stream whose deadline has not passed: an endpoint that never answers, reported as connected |
| SocketStream.FailedOverflowKeepsPending | includes/asio/basic_socket_streambuf.hpp:359-391 | A failed overflow leaves the put area as it was and has sent a proper prefix of it, or nothing when unbuffered |
| SocketStream.RetrySendsAgain | includes/asio/basic_socket_streambuf.hpp:359-409 | After a failed overflow, a successful one sends everything pending behind the prefix that had gone out |
| SocketStream.StepConserves | includes/asio/basic_socket_streambuf.hpp:337-427 | Each operation keeps the balance: what successful calls sent and what is pending are what was pending and what was accepted, in order |
| SocketStream.OutputConservation | includes/asio/basic_socket_streambuf.hpp:337-427 | Over every run in both modes that balance holds in order; the wire has every accepted character in order, and nothing else exactly when no unsuccessful call sent anything |
| SocketStream.FailedSyncDoublesOutput | includes/asio/basic_socket_streambuf.hpp:359-391 | For every socket that takes one byte, fails, and then takes two: two puts and two syncs put x, x, y on the wire |
| SocketStreambuf.FailedSyncDoublesOutput | includes/asio/basic_socket_streambuf.hpp:359-391 | The same on a new real stream: "ab" is accepted and "aab" sent |
| SocketStream.InputConservation | includes/asio/basic_socket_streambuf.hpp:283-335 | Over every run, what was handed out and what is unread are what was unread and what arrived, in order, and what arrived is what the turns taken from the script brought in time |
| SocketStream.RunWaitsInTime | includes/asio/basic_socket_streambuf.hpp:283-457 | Over every run, each wait handed to poll fits an int, is not forever and does not exceed the time left |
| SocketStreambuf.Apply | includes/asio/basic_socket_streambuf.hpp:283-427 | One operation on the real stream is the step on sequences, and what it returns is what the step counts as accepted and handed out |
| SocketStreambuf.RunOps | includes/asio/basic_socket_streambuf.hpp:283-457 | The real stream, driven by any operations: what its calls reported as accepted and handed out obeys both conservation laws, and every wait is bounded |
| AlignedStorage.StepOutcomes | includes/asio/any_completion_handler.hpp:131-176 | A new chunk is booked at its aligned address with base, size and alignment, a free removes it and returns its block, a write changes one byte, and a wrapping request loses its block |
| AlignedStorage.AlignUpIsFirst | includes/asio/any_completion_handler.hpp:145-146 | The address is aligned and the first such one, as section 20.6.5 [ptr.align] of ISO/IEC 14882:2011 asks |
| AlignedStorage.AlignedMeansMultiple | includes/asio/any_completion_handler.hpp:145-146 | Aligned addresses are exactly the multiples of the alignment |
| AlignedStorage.AlignFailsOnWrap | includes/asio/any_completion_handler.hpp:140-155 | The alignment step fails exactly when the computation of the space wraps around, and else finds the first aligned address |
| AlignedStorage.RequestSuffices | includes/asio/any_completion_handler.hpp:140-149 | Wherever the block starts, the requested length holds user bytes and tag exactly when its computation does not wrap around |
| AlignedStorage.TagRoundTrip | includes/asio/any_completion_handler.hpp:148-171 | Decoding the eight bytes of a stored offset gives the offset back |
| AlignedStorage.Memory.Allocate | includes/asio/any_completion_handler.hpp:131-156 | Returns the first aligned address and changes no byte but the eight of its tag; every live chunk keeps its tag and its client's bytes; throws exactly when the request wraps around |
| AlignedStorage.Memory.Deallocate | includes/asio/any_completion_handler.hpp:158-176 | Finds the base from the tag alone and returns the block with the base and length it was obtained with; null does nothing |
| AlignedStorage.Memory.WriteByte | includes/asio/any_completion_handler.hpp:131-176 | A client's write inside its own bytes disturbs no tag and no byte of another chunk |
| AlignedStorage.WrappedRequestLosesBlock | includes/asio/any_completion_handler.hpp:140-155 | On new memory: a request for the largest size obtains a block of 14 bytes, fails, and does not return it |
| AlignedStorage.LastWriteStands | includes/asio/any_completion_handler.hpp:131-176 | Over every run, each byte of a live chunk is booked as the one its client wrote last |
| AlignedStorage.RunBalanced | includes/asio/any_completion_handler.hpp:131-176 | Over every run, the blocks obtained are the blocks returned, those of live chunks, each once, and the lost ones, and chunks stay aligned and disjoint |
| AlignedStorage.LostByWrapping | includes/asio/any_completion_handler.hpp:140-155 | Over every run, as many blocks are lost as requests wrapped around |
| AlignedStorage.RunOps | includes/asio/any_completion_handler.hpp:131-176 | The code, driven by any interleaving of allocations, writes and frees over any initial memory, produces exactly that traffic, and memory holds in every live chunk what its client wrote last |
| HandlerOwnership.ConstructionOutcomes | includes/asio/any_completion_handler.hpp:637-668 | An empty wrapper has no pointers; one around a handler owns a new target of its type; a throwing allocation changes nothing and a throwing constructor frees the storage |
| HandlerOwnership.MoveOutcomes | includes/asio/any_completion_handler.hpp:671-722 | Moves take both pointers and leave none, assignment gives up the old target, a self-move does nothing, a swap exchanges; other wrappers stay |
| HandlerOwnership.ReleaseOutcomes | includes/asio/any_completion_handler.hpp:692-703 | Assigning null and destruction destroy and free exactly the wrapper's own target |
| HandlerOwnership.InvokeOutcomes | includes/asio/any_completion_handler.hpp:745-756 | An empty wrapper does nothing; otherwise the target is given up, the table stays, and unless moving out throws the target is invoked and the handler's steps follow |
| HandlerOwnership.ExecInOrder | includes/asio/any_completion_handler.hpp:637-756 | The steps of a program are done one after the other, nested ones included |
| HandlerOwnership.ExecSound | includes/asio/any_completion_handler.hpp:637-756 | Every construction, move, swap, assignment, destruction and call, with whatever the handler does meanwhile, keeps the ownership invariant |
| HandlerOwnership.InvokeSound | includes/asio/any_completion_handler.hpp:179-191 | A call gives up ownership; the history of its target is then complete: destroyed, freed, and invoked last unless moving the handler out threw |
| HandlerOwnership.ReleaseSound | includes/asio/any_completion_handler.hpp:76-115 | Giving up a target completes its history: destroyed once, then freed once |
| HandlerOwnership.EveryRunIsSound | includes/asio/any_completion_handler.hpp:671-756 | Over every run no target has two owners, each is destroyed and freed exactly once, each is invoked at most once and only after its storage is freed; without wrappers nothing is left |
| AnyCompletionHandler.Storage.Create | includes/asio/any_completion_handler.hpp:90-106 | The storage of a handler whose constructor throws is freed and never used |
| AnyCompletionHandler.Storage.Destroy | includes/asio/any_completion_handler.hpp:108-115 | Destroys and frees a live target through the table of its own type |
| AnyCompletionHandler.Storage.Call | includes/asio/any_completion_handler.hpp:178-191 | Destroys and frees on every path and invokes only afterwards |
| AnyCompletionHandler.Wrapper.MoveFrom | includes/asio/any_completion_handler.hpp:671-677 | Takes the target and leaves the source without one |
| AnyCompletionHandler.Wrapper.MoveAssign | includes/asio/any_completion_handler.hpp:683-689 | Takes the source's target and releases the old one; a self-move changes nothing |
| AnyCompletionHandler.Wrapper.AssignNull | includes/asio/any_completion_handler.hpp:692-696 | Releases the target and leaves the wrapper empty |
| AnyCompletionHandler.Wrapper.Destruct | includes/asio/any_completion_handler.hpp:699-703 | Releases the target if there is one |
| AnyCompletionHandler.Wrapper.Swap | includes/asio/any_completion_handler.hpp:718-722 | Exchanges both pointers, also with itself |
| AnyCompletionHandler.Wrapper.Call | includes/asio/any_completion_handler.hpp:745-756 | Empties the wrapper before the handler runs, keeps its table, and reports an empty wrapper |
| AnyCompletionHandler.Execute | includes/asio/any_completion_handler.hpp:637-756 | On real objects every step, with nested steps of invoked handlers, is the step of the ownership model |
| AnyCompletionHandler.RunProgram | includes/asio/any_completion_handler.hpp:637-756 | A whole program on real objects leaves each target owned once and untouched, or destroyed and freed once and invoked at most once |
| Tokens.BindOutcomes | includes/asio/bind_executor.hpp:153-184 | By the fields of the values: an executor replaces the inner executor exactly when both are executors of the same type, and goes on below it; everything else is kept |
| Tokens.BindLayers | includes/asio/bind_executor.hpp:153-184 | Constructing an executor binder overwrites exactly the leading run of inner executors of the same type |
| Tokens.BuiltLayers | includes/asio/bind_executor.hpp:329-334 | In a built stack each executor is the outermost of its run of adjacent same-typed executors; everything else is as given |
| Tokens.BuiltLayer | includes/asio/bind_executor.hpp:329-334 | By the fields: the value at a depth is the first of its run of executors of one type, and what lies right above the run is none |
| Tokens.InitiationRebuilds | includes/asio/bind_executor.hpp:558-601 | Initiating any stack peels all layers and rebuilds the token from them with the original arguments |
| Tokens.InitiationKeepsToken | includes/asio/bind_allocator.hpp:488-531 | The user's initiation gets the very same token and arguments exactly when the token is settled or is not peeled |
| Tokens.BuiltTokenSurvivesInitiation | includes/asio/bind_cancellation_slot.hpp:497-543 | Every token that constructors can build over a settled one, overwritten executors included, reaches the initiation unchanged |
| Tokens.RebuildIsIdentity | includes/asio/bind_executor.hpp:563-570 | Peeling and re-wrapping is the identity exactly on settled tokens |
| Tokens.LookupOutcomes | includes/asio/associated_executor.hpp:46-91 | Executor, allocator and slot binders answer their own lookup and pass on the others, references pass on all, handlers answer with their own or the candidate |
| Tokens.AssociatedIsOutermost | includes/asio/associated_executor.hpp:46-91 | Each lookup yields the outermost layer of its kind, looking through references, else the handler's own, else the candidate |
| Tokens.BindAssociates | includes/asio/bind_executor.hpp:633-663 | Binding a value answers for its kind and leaves the other two lookups as they were |
| Tokens.BuiltAssociates | includes/asio/bind_allocator.hpp:565-595 | The associations of a stack built over anything are the outermost of the values bound, then those of what is below, whatever was overwritten; the handler called stays the same |
| Tokens.SwapKeepsAssociations | includes/asio/bind_cancellation_slot.hpp:578-612 | Swapping adjacent layers of different kinds changes no association and not the handler called, over any leaf, even where executor binders meet or part |
| CompletionSignatures.AnyMeansSome | includes/asio/async_result.hpp:206-261 | The recursive tests over the signature list find an lvalue or rvalue signature exactly when there is one |
| CompletionSignatures.SimplifiedAll | includes/asio/async_result.hpp:263-304 | Simplification keeps results and arguments and leaves no ref-qualifier |
| CompletionSignatures.BaseReached | includes/asio/async_result.hpp:419-444 | The base is reached in at most two steps, the second exactly when some signature is rvalue- and none lvalue-qualified, with all argument lists preserved |

## Left out

- BasicStreambuf.Streambuf.Consume: asks for a representable pointer sum and for a count dropped that fits an `int`, because a pointer outside the array has no meaning afterwards; `ConsumeAsDocumented` covers every address and every count on positions alone.
- BasicStreambuf.Streambuf.Commit: asks for a count moved that fits an `int`, because `pbump` takes one; `CastToIntExact` says when it does.
- BasicStreambuf.RunOps: a run holds no refused `prepare`, whose effect on the input depends on the positions and is stated exactly by `Prepare`, and it commits only bytes that were written after the last `prepare`, as the documentation of `commit` demands.
- SocketStreambuf.RunOps: a run holds puts, syncs, `setbuf` calls and reads; moves and `close` have their own contracts, under which a move drops output that was pending.
- AlignedStorage.Memory.Allocate: the underlying allocator always answers; its own exceptions pass through before anything is stored. A request whose length wraps around only with the tag is not run, because the tag would be stored outside the block; `RequestSuffices` covers it.
- Tokens.BuiltTokenSurvivesInitiation: tokens are non-const rvalues; const tokens and the overloads chosen for lvalues are not modelled.
- Allocation failure inside the vectors of the stream buffers, put-back of characters, and seeking.
- Name resolution in the other form of `connect`.
- The system calls, the resolver and the clock themselves: they are the script.
- Clocks with another period than nanoseconds.
- Executor, allocator and slot lookups on an `any_completion_handler`, which go through its table pointer; after a call that pointer stays while the target is gone.
- The cancellation state inside a type-erased handler, and destructors of handlers that use wrappers.
- The partial binders' function call operators, whose arguments are in another order than the constructors expect.
- Legacy `async_completion`, the type traits for result and argument types, and Windows branches.
- Sockets, files, pipes, timers, signal sets and acceptors, and the server's entry point.
