# A verified model of the stream utilities

This project models the rate limiting, copying, measuring and adapting code of the library and proves what it is for.

* **Rate limiting.** Limiters form a chain; a session is a chain of per-limiter remainders. `RateChain` gives one poll of
  a session's `until_ready` as a function on values and proves that the nested remainders are a representation of a
  flat bank: one independent counter per limiter, charged when it is empty, all of them paying the least counter when a
  call completes. From that, `RateRuns` proves conservation over every run (with weights changing and calls dropped
  anywhere), exact charging, lazy acquisition, and which values are returned; `RateSharing` proves that drops change
  nothing under fixed limits and bounds many sessions under one limiter. `SpeedLimiters` holds the classes that update
  the remainders in place, proved equal to the value-level poll.
* **Limited streams.** `LimitPolls` is one poll of `LimitRead` or `LimitWrite` and whole runs of polls; the throttle bound
  is proved end to end, from the bytes moved to every limiter of the chain. `LimitStreams` holds the classes, and
  `LimitSharing` lifts the bound to many streams under one limiter.
* **Limited datagrams.** `DatagramRuns` does the same for runs of calls that send or receive datagrams, which are never
  cut. `DatagramPolls` proves that runs of polls and drops of these calls refine runs of calls, so that the bounds hold at
  every await, and `LimitDatagrams` holds the classes.
* **Bidirectional copy.** `CopyFlows` states a protocol on the trace of what a reader, a writer and a waker did, and proves
  what the protocol implies. `CopyBidirectional` is the copy loop, the transfer machine and the poll function with the
  idle timer; readers, writers and wakers are arbitrary. `CopyRuns` is about whole runs, given the inputs of both peers:
  every run follows the protocol, ends within its budget in each poll, never loses a wake-up, and never spins, since
  each self wake-up is paid for by a whole budget of steps that moving the bytes allows.
* **Speed statistics.** `SpeedHistory` says how many bytes belong to each second, with no buckets and no pruning.
  `SpeedStates` is the bucket list, with its segment loop and its pruning, proved to report exactly what the history
  says, for a clock that may move backwards.
* **Adapters.** `Bufs`, `AdapterRuns` and `SimpleAsyncIo` are the owned buffer and the adapters that poll a reader or writer
  which takes ownership of it.

How the source's surroundings appear: the token bucket of a limiter is a readiness flag in each poll; the clock is a
parameter of each operation; what an inner stream, socket, reader or writer does in a poll is a parameter of the poll or
a nondeterministic choice limited only by the poll contracts; a future is the value that says where a suspended call
stands. Bytes are values from 0 to 255; a piece size is a non-zero 32-bit number; totals are unbounded.

Files follow the source: for most components one file gives the meaning on values and of whole runs (`...Runs`,
`...Chain`, `...Polls`, `...Sharing`, `...History`, `...Flow`), and another holds the classes that are updated in place.

## What the code does that its callers may not expect

* A datagram exactly as long as its grant keeps the grant open with nothing left of it, so the next datagram, of any
  length, passes uncharged; that happens exactly then (`DatagramRuns.UnchargedIffExactFit`, and a run of two datagrams in
  `DatagramRuns.ExactFitLetsOneThrough`). Every other used-up grant is exceeded by less than one datagram.
* The read adapter reports an end of file that is none exactly if the caller made a poll with an empty buffer, was told
  to wait, has been told to wait ever since, and now has room (`AdapterRuns.FalseEofIff`, and a run of two polls in
  `AdapterRuns.FalseEofHappens`). A caller that never polls with an empty buffer is safe
  (`AdapterRuns.NoFalseEofWithRoom`).
* The write adapter panics exactly if a poll of one kind (write, flush, shutdown) follows one of another kind that was
  told to wait; its lock is poisoned from then on, and every later poll panics too
  (`AdapterRuns.PanicsIffOtherKindInFlight`, and a run in `AdapterRuns.PanicHappens`).
* A pending write of the adapter is about the bytes of its first poll. The count it reports is a count of the last poll's
  bytes exactly if the first poll's bytes, cut to the largest buffer size, are a prefix of them
  (`AdapterRuns.WriteTakesPrefixIff`, and a run that misreports in `AdapterRuns.WriteMisreports`).
* `set_limit` on a limiter that was created with a burst of its own sets the burst to the rate
  (`SpeedLimiters.SpeedLimiter.SetLimit`).
* Reading the end of file does not reset the idle timer of a copy; the flush and the shutdown that follow do.

## Model

| member | source | states |
|---|---|---|
| RateChain.PollRefinesBank | src/speed_limiter.rs:111-135 | for a chain of any depth, one poll of the nested sessions is one step of a flat bank: completed, every empty counter has taken a piece and all pay the least counter, which is returned; suspended, exactly the empty counters above the awaited limiter have taken one |
| RateChain.SettledHasEmptyCounter | src/speed_limiter.rs:121-131 | between polls at least one limiter of the chain has nothing left |
| RateChain.SplitRefinesBank | src/speed_limiter.rs:121-131 | handing out the smaller remainder is the payment of the least counter by all counters |
| RateChain.PollCompletesIff | src/speed_limiter.rs:79-135 | a call completes exactly if every limiter with an empty counter admits it: its token bucket is ready, or it has none and the pending call has not begun to wait for it; otherwise the call waits at the first limiter that does not |
| RateChain.OfferIsShownOrCaptured | src/speed_limiter.rs:79-90 | the piece each limiter of the chain may give is the weight it has now, except that the limiter a pending call waits for gives the weight it had when the wait began |
| RateChain.SuspendedWaitsForOffer | src/speed_limiter.rs:79-90 | a call that stays pending waits for a piece of the size offered in this poll, which is the one captured from then on |
| RateRuns.RunsAreSound | src/speed_limiter.rs:111-135 | over every run of polls, weight changes and drops: for each limiter, pieces taken equal bytes returned plus what is left, and what is left fits in its last piece, at every await |
| RateRuns.PiecesAreTakenLazily | src/speed_limiter.rs:113-119 | an event takes at most one piece from a limiter, and only if everything taken there before has been returned at the bottom |
| RateRuns.PiecesAreWaitedFor | src/speed_limiter.rs:79-90 | over any run, a session takes a piece from a limiter only in a poll in which its token bucket is ready or it has none, and the piece is its weight in this poll, or in the poll that began to wait for it |
| RateRuns.PollCounters | src/speed_limiter.rs:111-135 | per poll and limiter: the counter is untouched, or charged lazily and less the value returned, and stays balanced |
| RateRuns.PiecesAreWeight | src/speed_limiter.rs:79-90 | while a limiter keeps its weight, every piece taken from it, also one captured by a suspended wait, is that weight |
| RateRuns.ChargeBounds | src/speed_limiter.rs:111-135 | with constant weight `w`, at every moment `p * w - w <= total <= p * w` for the `p` pieces taken |
| RateRuns.ExactCharge | src/speed_limiter.rs:111-135 | right after a completed call the pieces taken from each limiter number exactly the ceiling of the returned total over its weight |
| RateRuns.CompletedLeavesRoom | src/speed_limiter.rs:121-131 | after a completed call, with weights changing or not, strictly less than the last piece is left at each limiter |
| RateRuns.ReturnsReachNextBoundary | src/speed_limiter.rs:121-131 | with fixed weights a completed call returns exactly up to the next multiple of any weight of the chain |
| RateRuns.CallsReachBoundaries | src/speed_limiter.rs:111-135 | with fixed weights the `k`-th completed call returns exactly up to the `k`-th positive multiple of any of the weights |
| RateRuns.CallsAgree | src/speed_limiter.rs:111-135 | two sessions whose chains have the same set of weights, in any order, at any depths and with any waits and drops, have returned the same total after equal numbers of completed calls |
| RateRuns.CallsUseUpPieces | src/speed_limiter.rs:121-131 | a session has completed at most as many calls as it has used up pieces of all its limiters together |
| RateSharing.RestartIsResume | src/speed_limiter.rs:113-119 | under fixed limits, dropping a pending call and calling again is the same as polling the pending call |
| RateSharing.DropsAreInvisible | src/speed_limiter.rs:111-135 | under fixed limits a run with drops anywhere leaves the same session and total as the run without them |
| RateSharing.FleetIsIndependent | src/speed_limiter.rs:69-77 | in any interleaving each session is where its own events alone would have brought it |
| RateSharing.SharedLimiterBounds | src/speed_limiter.rs:69-77 | under a shared limiter of weight `w`, at any depth of each of `n` sessions, all totals together are between `w * pieces - n * w` and `w * pieces` |
| RateSharing.SharedLimiterStrands | src/speed_limiter.rs:56-77 | the same for weights changed at any time: all totals together are at most the bytes of all pieces, and at least those less the last piece of each session |
| SpeedLimiters.SpeedLimiter.constructor | src/speed_limiter.rs:17-34 | default weight 64 KiB; no rate or the largest rate means no bucket, any other a bucket of that rate and burst |
| SpeedLimiters.SpeedLimiter.WithBurst | src/speed_limiter.rs:36-54 | the same, with a burst of its own if one is given |
| SpeedLimiters.SpeedLimiter.SetLimit | src/speed_limiter.rs:56-67 | replaces weight and bucket, with the burst equal to the rate, and nothing else |
| SpeedLimiters.SpeedLimiter.NewLimitSession | src/speed_limiter.rs:69-77 | a fresh session chain as deep as the chain of limiters, with all remainders zero |
| SpeedLimiters.SpeedLimiter.PollUntilReady | src/speed_limiter.rs:79-90 | a new wait ends at once with the current weight if there is no bucket or it is ready, and otherwise waits with that weight captured; a begun wait ends exactly when the bucket is ready, with the captured weight |
| SpeedLimiters.SpeedLimitSession.constructor | src/speed_limiter.rs:101-108 | a session without remainders on top of its upper session |
| SpeedLimiters.SpeedLimitSession.GatesAreShown | src/speed_limiter.rs:69-90 | a session of a chain sees at each level the weight, the kind and the token bucket of the limiter of that level; limiters of neighbouring levels are the upper and the lower one |
| SpeedLimiters.SpeedLimitSession.PollUntilReady | src/speed_limiter.rs:111-139 | the in-place recursion over the chain has exactly the result and the new remainders of the value-level poll |
| SpeedLimiters.SpeedLimitSession.PollAndSplit | src/speed_limiter.rs:117-131 | fills an empty local remainder and hands out the smaller one, as in the value-level poll |
| LimitPolls.PollStep | src/limit_stream.rs:262-386 | one poll from a well-stored state: stays well stored, passes at most one poll to the session, conserves granted bytes, and is transparent |
| LimitPolls.ReplyIsPassedOn | src/limit_stream.rs:187-208 | a poll that gives the inner stream a slice waits, fails, or moves bytes exactly if the inner stream does; without an error nothing is forfeited |
| LimitPolls.MeterFollowsSession | src/limit_stream.rs:262-386 | over any run, the session inside runs as one on its own, the stored state is never an empty or impossible one, and moved, forfeited and unspent bytes add up to those granted |
| LimitPolls.PollsAreTransparent | src/limit_stream.rs:96-229 | in every reachable state no panic and no made-up end of file: the inner stream gets the caller's buffer cut to the unspent grant, empty only if the caller's buffer is; errors and counts are passed on unchanged |
| LimitPolls.GrantFitsLastPiece | src/limit_stream.rs:262-386 | what is left at a limiter and what is unspent of the grant fit together in that limiter's last piece |
| LimitPolls.NothingForfeitedWithoutErrors | src/limit_stream.rs:278-281 | grants are forfeited by errors of the inner stream only |
| LimitPolls.ThrottleBound | src/limit_stream.rs:262-386 | end to end, at every poll boundary and for each limiter of constant weight: moved plus forfeited bytes are between `(p - 1) * w` and `p * w`; moved bytes alone are in a run without errors |
| LimitPolls.ThrottleUnderSetLimit | src/limit_stream.rs:96-229 | the same for weights changed at any time: between the pieces less the last one and the pieces |
| LimitSharing.StreamsAreIndependent | src/speed_limiter.rs:69-77 | in any interleaving each limited stream is where its own polls alone would have brought it |
| LimitSharing.SharedThrottle | src/limit_stream.rs:96-386 | for any number of limited streams under one limiter at any depths, polled in any interleaving and under any weight changes, all bytes moved and forfeited lie between the pieces less one last piece for each stream and the pieces |
| LimitStreams.Throttle.constructor | src/limit_stream.rs:241-247 | an idle poll state over the given session |
| LimitStreams.Throttle.OfferSlice | src/limit_stream.rs:99-114 | the first half of a poll, as on values: session polled or not, state stored, slice offered |
| LimitStreams.Throttle.PollGrant | src/limit_stream.rs:142-178 | a pending call is polled, and either stays pending or leaves its grant stored and offered, as on values |
| LimitStreams.Throttle.OfferGrant | src/limit_stream.rs:179-186 | the slice is the unspent part of the grant cut to the caller's buffer |
| LimitStreams.Throttle.Settle | src/limit_stream.rs:187-208 | the second half: bytes are counted, a used-up grant is dropped, an error forfeits the rest |
| LimitStreams.LimitRead.PollRead | src/limit_stream.rs:96-229 | the poll is the value-level one; the caller's buffer gains exactly the bytes the inner reader gave into the slice, in order; the caller gets an error exactly if the inner reader is polled and broken, and waits without loss if it has nothing yet; a well-stored state stays so and never panics |
| LimitStreams.LimitWrite.PollWrite | src/limit_stream.rs:262-386 | the poll is the value-level one; the inner writer accepts exactly a prefix of the caller's bytes of the reported length; the caller gets an error exactly if the inner writer is polled and fails, and waits without loss if it is not ready |
| DatagramRuns.AwaitIsSound | src/limit_datagram.rs:152 | a wait for a grant, dropped or not, keeps the session sound; the grant is covered by the last piece of every limiter and uses up a piece of some limiter |
| DatagramRuns.BooksHold | src/limit_datagram.rs:149-196 | over any run of calls with datagrams of at most `m` bytes: granted bytes are covered by bytes passed, forfeited and remaining, which exceed them by at most `m` for each used-up grant kept open by an exact fit and by at most `m - 1` for each other one |
| DatagramRuns.DatagramThrottle | src/limit_datagram.rs:149-196 | end to end, for each limiter: bytes passed are at least the pieces less the last one and the forfeited grants, and at most the pieces and that excess; used-up grants are at most the used-up pieces of all limiters |
| DatagramRuns.DatagramThrottleIfAllPass | src/limit_datagram.rs:149-196 | without failures and drops nothing is forfeited, and the bytes passed alone are at least the pieces less the last one |
| DatagramRuns.UsedUpGrantCovers | src/limit_datagram.rs:154-168 | a used-up grant covered at least itself and at most itself and the last datagram, and that much exactly if nothing of it was left before |
| DatagramRuns.EmptyGrantKeptIffExactFit | src/limit_datagram.rs:149-196 | over any run, a grant is open with nothing left of it exactly if the last datagram that passed took a new grant of exactly its length |
| DatagramRuns.UnchargedIffExactFit | src/limit_datagram.rs:160-168 | over any run, a datagram passes with nothing left of any grant and no new one taken exactly in that case, whatever its length |
| DatagramRuns.ExactFitLetsOneThrough | src/limit_datagram.rs:149-171 | a run in which a limiter of weight 5 lets 1005 bytes pass for one grant of 5 |
| DatagramPolls.SocketRefinesCalls | src/limit_datagram.rs:149-196 | any run of polls and drops, with limits changed between any two polls and a drop at any await, leaves the account that its calls leave |
| DatagramPolls.SocketThrottle | src/limit_datagram.rs:149-196 | the datagram throttle at every await, with a grant held by the pending call counted as lost |
| DatagramPolls.ReplyIsPassedOn | src/limit_datagram.rs:149-196 | the inner call is polled at once if a grant is open or already taken, otherwise as soon as the session gives one; then the call waits with its grant kept, fails with it lost, or reports exactly the bytes passed |
| LimitDatagrams.Quota.PollTransfer | src/limit_datagram.rs:149-196 | one poll of a pending call, or the first of a new one, as on values: waits for a grant, then for the inner call, and then charges the datagram |
| LimitDatagrams.Quota.Drop | src/limit_datagram.rs:152-153 | a dropped call leaves the state as it was, and a grant it has just taken is lost |
| LimitDatagrams.LimitDatagram.PollSend | src/limit_datagram.rs:149-171 | one poll of a send, which keeps the buffer it was begun with: on success the inner socket has sent that whole datagram, whose length is charged and reported, whatever count the inner socket tells; it fails exactly if the inner call is polled and fails, and waits otherwise |
| LimitDatagrams.LimitDatagram.PollRecv | src/limit_datagram.rs:173-196 | one poll of a receive: on success the datagram is at the front of the caller's buffer, the rest of which is unchanged, and its length is charged and reported; it fails exactly if the inner call is polled and fails, and waits otherwise |
| CopyFlows.LawfulIsConsistent | src/copy_bidirectional.rs:87-156 | in every trace that follows the protocol, in which the writer is always offered all that was read and not written yet, bytes sent are a prefix of those received, at most one buffer is held back, and idle flushes are fewer than writes |
| CopyFlows.ShutMeansDelivered | src/copy_bidirectional.rs:206-225 | after the shutdown everything up to the end of file was sent and flushed, and nothing but a wake-up may follow |
| CopyFlows.ProgressIsPaidFor | src/copy_bidirectional.rs:106-116 | steps that reset the idle timer are at most bytes received plus twice the bytes sent plus two |
| CopyFlows.SpentIsPaidFor | src/copy_bidirectional.rs:100-140 | steps that consume the budget are at most bytes received plus twice the bytes sent plus one |
| CopyFlows.FullWritesFollowReads | src/copy_bidirectional.rs:68-70 | against a writer that takes all it is offered there are at most as many writes as reads, and fewer while something is held back |
| CopyHelds.FillTracks | src/copy_bidirectional.rs:47-52 | reading behind `cap` keeps the buffer equal to what was received and not sent; no new byte means the end of file |
| CopyHelds.PutTracks | src/copy_bidirectional.rs:136-138 | advancing `pos` and `amt` after a write keeps the buffer equal to what was received and not sent |
| CopyHelds.FlushTracks | src/copy_bidirectional.rs:107-115 | a flush happens with the buffer drained; the idle one is charged, the final one delivers everything |
| CopyBidirectional.ConsumeCopyBudget | src/copy_bidirectional.rs:179-189 | takes one operation and wakes the copy exactly when none is left |
| CopyBidirectional.CopyBuffer.constructor | src/copy_bidirectional.rs:23-32 | an empty buffer of the given size that has neither read nor written |
| CopyBidirectional.CopyBuffer.PollFillBuf | src/copy_bidirectional.rs:34-54 | the reader is offered all the room behind what is held, which is untouched, and exactly the bytes read are there afterwards; none means the end of file, and progress was made exactly if some came; nothing else changes |
| CopyBidirectional.FillAccounts | src/copy_bidirectional.rs:46-53 | whatever a read answers, the buffer still holds what was received and not sent, and the read is accounted for |
| CopyBidirectional.CopyBuffer.PollWriteBuf | src/copy_bidirectional.rs:56-85 | the writer is offered exactly the held bytes, and a successful write takes a prefix of them; while the writer is not ready a read ahead is made exactly if there is room and the end of file was not read, and is charged to the budget |
| CopyBidirectional.CopyBuffer.FillOrIdle | src/copy_bidirectional.rs:100-119 | reads exactly if there is room and the end of file was not read, and does nothing otherwise; goes on uncharged only with bytes to write, a full buffer or the end of file; waits only for the writer, out of budget, or for the reader with everything written and flushed |
| CopyBidirectional.CopyBuffer.FlushIdle | src/copy_bidirectional.rs:107-115 | waits for the reader only after what was written has been flushed |
| CopyBidirectional.CopyBuffer.WriteOut | src/copy_bidirectional.rs:121-140 | drains the buffer in order, charging each write, or waits or fails |
| CopyBidirectional.CopyBuffer.WriteStep | src/copy_bidirectional.rs:122-139 | one write is counted and charged, and a write of no bytes is an error |
| CopyBidirectional.CopyBuffer.EndIteration | src/copy_bidirectional.rs:147-154 | resetting the positions drops no byte; after the end of file the copy ends with a flush |
| CopyBidirectional.CopyBuffer.PollCopy | src/copy_bidirectional.rs:87-156 | ends against any reader and writer; keeps to the protocol; success means the reported count is everything up to the end of file, sent and flushed; waiting leaves a wake source; the copy wakes itself exactly if the budget is used up |
| CopyBidirectional.Direction.TransferOneDirection | src/copy_bidirectional.rs:191-226 | the state only moves from running through shutting down to done, with the count kept; done is reported again without another step |
| CopyBidirectional.TransferBoth | src/copy_bidirectional.rs:280-286 | each direction has its own budget and its own wake source; after a failure of the first the second is not polled; progress is that of both |
| CopyBidirectional.CopyTask.constructor | src/copy_bidirectional.rs:270-273 | both directions running and the deadline one timeout after the start |
| CopyBidirectional.CopyTask.Poll | src/copy_bidirectional.rs:275-297 | times out exactly if the deadline has passed; copied means both directions delivered and shut down with exact counts; waiting leaves every unfinished direction a wake source; the deadline moves exactly if there was progress; at most 128 counted steps a direction, and a self wake-up exactly at 128 |
| CopyRuns.DriveTask | src/copy_bidirectional.rs:275-298 | every poll of a run before the answer came before the time of the start or last progress plus the timeout, and ended in waiting with wake sources; the answer is what the last poll makes it, and a timeout comes at or after that time |
| CopyRuns.ResetsAreBounded | src/copy_bidirectional.rs:288-290 | the polls of a run that reset the timer are at most as many as its progress steps |
| CopyRuns.AnswersEarn | src/copy_bidirectional.rs:179-189 | over a whole run 128 times the self wake-ups of a direction are at most its counted steps |
| CopyRuns.CopyBidirectionalWithTimeoutAndSizes | src/copy_bidirectional.rs:252-299 | whole runs, given the inputs of both peers, with the flows after each poll: zero timeout and zero sizes are refused first; otherwise both traces follow the protocol, all polls were on time and all but the last ended in waiting with wake sources, what was sent is always a prefix of the input, copied means that both inputs were sent to their ends and shut down, with their lengths as counts, a timeout comes exactly when the start or last progress is a timeout ago, and polls that reset the timer and self wake-ups are bounded by the bytes moved |
| Arithmetic.ScaleIsRoundedProportion | src/stat_stream.rs:98 | the share by recursion, which keeps the proofs about it linear, is the product over the duration, rounded down |
| Arithmetic.QuotientIsDivision | src/stat_stream.rs:138 | the quotient by recursion is the division |
| SpeedHistory.OverlapsCover | src/stat_stream.rs:90-118 | the parts of the interval in its seconds add up to all of it |
| SpeedHistory.SampleLoss | src/stat_stream.rs:89-119 | one sample loses at most one byte for each of its segments but one, also when the clock is on a second boundary |
| SpeedHistory.RoundingLoss | src/stat_stream.rs:66-121 | over any run, all seconds of the history hold at most the bytes reported, and the loss is at most one byte for each second the interval from the start to the last time touches, but one |
| SpeedStates.RetainedItems | src/stat_stream.rs:123-127 | pruning removes exactly the seconds `s` with `s + window < now` and changes no other |
| SpeedStates.CreditedAt | src/stat_stream.rs:72-87 | merging or pushing adds the bytes to their second and to no other |
| SpeedStates.SegmentShare | src/stat_stream.rs:93-98 | the weight of a segment is the part of the interval in its second, and what the loop credits is the proportional share, rounded down |
| SpeedStates.WeightsAddUp | src/stat_stream.rs:90-118 | there is one segment for each second the interval touches, and their weights add up to the duration |
| SpeedStates.SampleAdded | src/stat_stream.rs:66-121 | a sample keeps the run invariant; the bytes put into buckets for it are at most its size and miss at most its segments less one; all bytes ever put in are those of the history |
| SpeedStates.WindowSumBySeconds | src/stat_stream.rs:129-138 | the sum over the pruned list is the sum of the history over the seconds of the window, those with `s < now <= s + window` |
| SpeedStates.StaleRunIsSlow | src/stat_stream.rs:129-138 | a history that ended before the window leaves no byte in it |
| SpeedStates.WindowStaysExact | src/stat_stream.rs:66-121 | stale seconds pushed again behind a pruned list never reach the window |
| SpeedStates.SpeedState.constructor | src/stat_stream.rs:56-64 | an empty list, starting at the clock |
| SpeedStates.SpeedState.ClearInvalidItem | src/stat_stream.rs:123-127 | keeps exactly the items of the window, in order: none that is left is older than the window |
| SpeedStates.SpeedState.AddData | src/stat_stream.rs:66-121 | each second gains its share of the sample; buckets stay one for a second, in order and not ahead of the clock, and exist for exactly the retained and the touched seconds; the bytes put into buckets miss at most the segments less one |
| SpeedStates.SpeedState.Spread | src/stat_stream.rs:88-119 | the segment loop puts the shares of all seconds from the last time to now in place; its weights are the parts of the interval, one for each second it touches, and add up to the duration |
| SpeedStates.SpeedState.GetSpeed | src/stat_stream.rs:129-139 | the bytes of the history in the whole seconds `s` with `s < now <= s + speedDuration`, over the length of the window; zero if the history ended before the window |
| SpeedStates.SpeedState.GetSumSize | src/stat_stream.rs:141-143 | the sum of all sizes reported, which exceeds all bytes ever put into buckets by at most one byte for each second from that of the start to that of the last time, but one |
| SpeedStates.Track | src/stat_stream.rs:56-143 | pruning is invisible over any run, with a clock that may move backwards: speed and total are those of the unpruned history, the speed is zero once the history is older than the window, and the total exceeds all bytes ever put into buckets by at most one byte for each second touched, but one |
| Bufs.Buf.CopyTo | src/buf.rs:43-54 | moves as many bytes as fit from the front of the buffer to the end of the destination |
| Bufs.Buf.CopyFrom | src/buf.rs:56-63 | the empty buffer takes the bytes up to the limit |
| Bufs.Buf.EndRead | src/buf.rs:102-129 | holds the bytes read, or none after an error, and starts at position zero |
| Bufs.Buf.EndWrite | src/buf.rs:140-145 | holds nothing after a write |
| Bufs.Buf.DiscardRead | src/buf.rs:149-154 | drops what is held and returns minus its length |
| Bufs.Buf.CopyFromBufs | src/buf.rs:156-171 | gathers exactly the first bytes of all slices in order, up to the limit |
| AdapterRuns.ReaderIsFifo | src/simple_async_io.rs:66-110 | over any run, bytes delivered followed by bytes buffered are the bytes the inner reader produced |
| AdapterRuns.ReaderAnswers | src/simple_async_io.rs:66-110 | over any run, a poll delivers what is produced and not delivered, as far as there is room; with nothing of that it waits, fails or gives bytes exactly as the inner reader does, which is asked for at most 2 MiB and for the room of the poll that began to wait |
| AdapterRuns.ReadInFlightIffToldToWait | src/simple_async_io.rs:83-91 | over any run, a read is in flight exactly if the caller was last told to wait, and it is for the room of the first of the polls told so in a row |
| AdapterRuns.FalseEofIff | src/simple_async_io.rs:66-110 | over any run, a caller with room is told of zero bytes, although there are some, exactly if a poll without room began to wait and all polls since were told to wait |
| AdapterRuns.EofIff | src/simple_async_io.rs:66-110 | over any run, a caller with room is told of zero bytes exactly if everything is delivered and the inner reader gives none, or gives some to a read begun by a poll without room |
| AdapterRuns.NoFalseEofWithRoom | src/simple_async_io.rs:66-110 | a caller that never polls with an empty buffer is told of zero bytes only if there are none |
| AdapterRuns.FalseEofHappens | src/simple_async_io.rs:66-110 | a run of two polls in which it happens |
| AdapterRuns.InnerPresentIffIdle | src/simple_async_io.rs:147-226 | over any run at most one call is in flight, and the inner writer is at its place exactly if none is |
| AdapterRuns.InFlightIffLastWaits | src/simple_async_io.rs:152-226 | unless the lock is poisoned, a call is in flight exactly if the last poll was of its kind and was told to wait |
| AdapterRuns.PoisonedIffOverlap | src/simple_async_io.rs:152-226 | the lock is poisoned exactly if some poll followed one of another kind that was told to wait |
| AdapterRuns.PanicsIffOtherKindInFlight | src/simple_async_io.rs:147-226 | a poll panics exactly if it, or an earlier poll, followed one of another kind that was told to wait |
| AdapterRuns.PanicHappens | src/simple_async_io.rs:186-187 | a run that panics: a flush polled while a write waits |
| AdapterRuns.WriteTakesPrefixIff | src/simple_async_io.rs:147-179 | over any run, a write reports the length of a prefix of the caller's bytes that went through, whatever the inner writer answers, exactly if no write is pending, or the bytes of its first poll are a prefix of those of this one, or the poll panics |
| AdapterRuns.WriteTakesPrefix | src/simple_async_io.rs:147-179 | it does for a caller that goes on with the same bytes until the write is done |
| AdapterRuns.WriteInFlightIsPending | src/simple_async_io.rs:155-168 | the bytes in flight are those of the first of the write polls that were told to wait in a row, up to the largest buffer size |
| AdapterRuns.WriterAnswers | src/simple_async_io.rs:147-226 | over any run, a poll that does not panic waits exactly if the inner writer does, fails exactly if that does, and otherwise reports how many of the bytes offered, at most 2 MiB, were accepted |
| AdapterRuns.WriteMisreports | src/simple_async_io.rs:147-179 | a run that reports two bytes of a buffer of one, none of which went through |
| SimpleAsyncIo.SimpleAsyncReadHolder.PollRead | src/simple_async_io.rs:66-110 | the poll is the value-level one; the caller's buffer gains exactly the next bytes; the buffer is always found empty or consumed from its front |
| SimpleAsyncIo.SimpleAsyncWriteHolder.PollWrite | src/simple_async_io.rs:147-179 | the poll is the value-level one; the buffer it starts with is empty |
| SimpleAsyncIo.SimpleAsyncWriteHolder.PollFlush | src/simple_async_io.rs:181-204 | the poll is the value-level one |
| SimpleAsyncIo.SimpleAsyncWriteHolder.PollShutdown | src/simple_async_io.rs:206-226 | the poll is the value-level one |

## Left out

- The local, blocking and process modules (`src/limit_stream_local.rs`, `src/limit_datagram_local.rs`, `src/blocking.rs`, `src/qa_process.rs`): the first two repeat the modelled machines without `Send`, the others wrap calls of the runtime.
- How a token bucket of a given rate and burst fills, timers, wakers and join handles themselves: in a poll they are readiness flags, clock readings and trace events here.
- Rates in bytes per second: the bounds count pieces; how fast pieces come is up to the token bucket.
- Whether a timer that was reset still wakes the copy: a property of the runtime's timer.
- Overflow of 64-bit totals, times and counts: totals are unbounded numbers.
- The split halves `LimitDatagramSend` and `LimitDatagramRecv`: they repeat `LimitDatagram`.
- Forwarding of flush and shutdown by limited streams, `StatStream` and its halves, and `SfoSpeedStat`: delegation.
- Repeating an interrupted read inside `read_from_async`, and the synchronous `read_from` and `write_to`: the reply of a read is the one after the interruptions.
- Pinning, transmuted lifetimes, uninitialised memory and locking: one owner updates plain fields; only the poisoning of the write adapter's lock is modelled.
- Panics inside an inner stream, reader or writer: inner calls are assumed to return.
- Kinds of I/O errors: an error is a failure, a refused argument or a timeout.
- LimitStreams.Throttle.OfferSlice: the three source branches repeat the code that takes the grant, offers the slice and settles the answer; here these parts are methods shared by reading and writing.
- CopyBidirectional.CopyBuffer.PollCopy: the body of the loop is cut into methods, one for each of its parts.
