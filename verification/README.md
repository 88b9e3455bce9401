# KizunaLink verification

A Dafny model of the parts of KizunaLink, a Lavalink-compatible audio server for Discord, where correctness is
hard to see: concurrent code, streaming code that must not depend on how its input is cut up, and codec
arithmetic. Pure computations are functions; objects and loops that the source updates in place are classes and
methods, each proved to be a specification function or property that the lemmas are about.

| file | models |
|---|---|
| `Common.dfy`, `Indexing.dfy` | shared types, sequences and integer arithmetic |
| `HttpRange.dfy` | `Content-Range` validation and chunk downloads |
| `Segmented.dfy` | the reader and the download workers of a segmented remote file, in every interleaving |
| `TimeFrequency.dfy`, `SignalShape.dfy` | the time-frequency transform around a band in the bundled Opus (CELT) code, and what it does to a signal |
| `AngleCoding.dfy` | the resolution and entropy coding of split angles (section 4.3.4.4 of RFC 6716) |
| `BitBudget.dfy` | the recursive band split and its bit accounting |
| `Dave.dfy` | the end-to-end encryption handler, with the MLS library as an arbitrary function of the calls made to it |
| `SessionResume.dfy` | WebSocket sessions that close, resume and expire, in every interleaving |
| `EventQueue.dfy` | the bounded queue of events for a paused session |
| `Resampling.dfy`, `Timescale.dfy`, `Interpolation.dfy` | the streaming resamplers, the speed filter, and their kernels |
| `FlowControl.dfy`, `Mixing.dfy` | cutting decoded audio into frames, and mixing tracks |
| `RingBuffer.dfy` | the byte ring and the mix layer on top of it |
| `RateLimit.dfy` | the per-client token bucket |
| `SponsorBlock.dfy` | filtering segments and skipping over them |
| `Calendar.dfy` | the dates and the cleanup of daily log files |

Concurrent parts are state machines over atomic steps: one critical section, map access or atomic access is one
step, and theorems quantify over all sequences of steps. Times, sample positions and the Haar factor are exact
numbers (`2 * c * c == 1`). Clocks, network responses, coded angles and library answers are parameters.

Where the code differs from its documentation or from what one might expect, the model follows the code:

- The comment on `quant_partition` speaks of 8 parts; the code allows 2^(LM+1), and rich bands reach that:
  `SplitsAreBounded` and `BoundIsReached`.
- `quant_band` restores the band for every length. No divisibility of the length by 2^recombine is needed, because
  the butterfly regions nest.
- The queue of a paused session is the longest suffix that fits even for a queue size of zero.
- A chunk can be downloaded again, even while it is in flight, if eviction dropped it and the reader seeks back to it.
  `SeekRepeatsIffForgotten` gives the exact condition, and `OneDownloadPerChunk` holds for all seeks at or above the
  eviction floor, which includes all forward seeks.
- The Hermite resampler emits the right number of frames, but outputs between frames that lack a right neighbour
  depend on the chunking; `HermiteSettledIff` and `HermiteChunksIff` give the exact conditions.
- All resamplers drop a partial frame at the end of every chunk, so a chunk boundary inside a frame loses samples;
  `FramesSurviveIff` gives the exact condition.
- Handshake messages stay buffered after the sender is known if draining a proposal failed.
- The branches of `handle_session_close` for replaced connections and for leftovers of the same id are never taken
  when session ids are fresh.

## Model

| member | source | states |
|---|---|---|
| `HttpRange.ParseInvertsWrite` | kizunalink/kizuna-voice/engine/source/range.rs:27-41 | every way to write a range that fits 64 bits, with an optional plus sign and leading zeros in each number, parses to that range |
| `HttpRange.ParseU64Iff` | kizunalink/kizuna-voice/engine/source/range.rs:33-40 | a text parses to a number if and only if it is a numeral of that number: an optional plus sign, zeros, then the usual digits, below 2^64 |
| `HttpRange.ParseContentRangeIff` | kizunalink/kizuna-voice/engine/source/range.rs:27-41 | a header parses to a range if and only if it is a way to write that range |
| `HttpRange.SplitOnceAt` | kizunalink/kizuna-voice/engine/source/range.rs:27-32 | splitting at the first separator recovers both sides |
| `HttpRange.ValidatesExactly` | kizunalink/kizuna-voice/engine/source/range.rs:8-56 | every response is accepted if and only if it is a 206 whose header writes a range that starts at the requested offset, ends below the total when one is given, and agrees with the requested length and the content length |
| `HttpRange.ValidCount` | kizunalink/kizuna-voice/engine/source/range.rs:42-55 | an accepted response covers exactly the requested bytes |
| `HttpRange.ReadBody` | kizunalink/kizuna-voice/engine/source/segmented.rs:223-275 | the body loop returns the concatenated pieces if and only if the stream ended and they have exactly the requested size |
| `HttpRange.FetchChunk` | kizunalink/kizuna-voice/engine/source/segmented.rs:223-275 | a fetch succeeds exactly on a valid, complete response of the requested size, and then yields its body |
| `HttpRange.FetchedIsRemote` | kizunalink/kizuna-voice/engine/source/segmented.rs:246-274 | what is fetched from a server whose bodies match their headers is the requested slice of the remote file |
| `HttpRange.PartOfIsFetched` | kizunalink/kizuna-voice/engine/source/segmented.rs:246-274 | such a server has a response for every slice, and it is fetched |
| `HttpRange.ProbeFindsLength` | kizunalink/kizuna-voice/engine/source/segmented.rs:61-70 | a probe that such a server answers gives the length of the file, at least one |
| `HttpRange.ProbeOpensIff` | kizunalink/kizuna-voice/engine/source/segmented.rs:61-70 | a source opens with length n if and only if the probe is answered by a 206 whose header writes the range of the first byte of n, and that declares no other length |
| `Segmented.ReadLoopDelivers` | kizunalink/kizuna-voice/engine/source/segmented.rs:133-176 | in every reachable state one pass of the read loop fails only after a fatal fetch, waits only for a chunk that is not there, and otherwise delivers the remote bytes at the cursor; the exhausted-chunk branch is never taken |
| `Segmented.ReadStepDelivers` | kizunalink/kizuna-voice/engine/source/segmented.rs:124-176 | the same for a fresh read call and for a reader that wakes up |
| `Segmented.ClaimTargetWindow` | kizunalink/kizuna-voice/engine/source/segmented.rs:293-317 | a worker claims only chunks inside the file and the prefetch window, with the retry count the map holds |
| `Segmented.ClaimsFirst` | kizunalink/kizuna-voice/engine/source/segmented.rs:293-317 | a worker takes the first chunk it may take, of the prefetch window or of the next two while the one at the cursor is missing, and none only if there is none |
| `Segmented.StepKeeps` | kizunalink/kizuna-voice/engine/source/segmented.rs:123-417 | every read, seek, claim, completed or failed fetch and termination keeps the invariant: ready chunks hold remote bytes, and a chunk marked as downloading has a downloader or the source has failed |
| `Segmented.RunKeeps` | kizunalink/kizuna-voice/engine/source/segmented.rs:123-417 | so does every interleaving of any length |
| `Segmented.DroppedIsFinal` | kizunalink/kizuna-voice/engine/source/segmented.rs:286-291 | after a source is dropped nothing is read, sought or claimed any more, in any run |
| `Segmented.NetworkRefines` | kizunalink/kizuna-voice/engine/source/segmented.rs:336-379 | a response that the range check accepts brings exactly the remote chunk; any other response is a failed fetch |
| `Segmented.NetworkCompletes` | kizunalink/kizuna-voice/engine/source/segmented.rs:336-370 | conversely, every completed fetch has a response behind it |
| `Segmented.NetRunUnfolds` | kizunalink/kizuna-voice/engine/source/segmented.rs:123-417 | every run over the wire, in which an answered request stores what the range check lets through or fails, for arbitrary responses of an honest server, unfolds into a run of the model that ends in the same state, so all theorems about runs hold of it |
| `Segmented.EveryReadIsRemote` | kizunalink/kizuna-voice/engine/source/segmented.rs:49-197 | from the probe on, over any responses of an honest server and in every interleaving, what a read returns is exactly the remote bytes at its position, and it is empty if and only if the buffer is empty or the end is reached; an error means a fetch failed for good |
| `Segmented.DeliveredIsContiguous` | kizunalink/kizuna-voice/engine/source/segmented.rs:123-197 | in every interleaving, everything delivered since the last seek is the unbroken stretch of the file from the seek target to the cursor |
| `Segmented.SeekLands` | kizunalink/kizuna-voice/engine/source/segmented.rs:180-187 | for every length below 2^64 a seek lands there, in spite of the saturating arithmetic |
| `Segmented.DeliveredSinceSeek` | kizunalink/kizuna-voice/engine/source/segmented.rs:123-197 | after a seek and until the next one, in every interleaving, what is delivered is the file from where the seek landed to the cursor |
| `Segmented.TailIsDelivered` | kizunalink/kizuna-voice/engine/source/segmented.rs:123-197 | seeking to k bytes before the end and reading to the end gives the last k bytes |
| `Segmented.SeekingInPlace` | kizunalink/kizuna-voice/engine/source/segmented.rs:180-196 | seeking by 0 from the cursor changes nothing |
| `Segmented.WaitingReaderIsServed` | kizunalink/kizuna-voice/engine/source/segmented.rs:164-173 | a waiting reader is never forgotten: its chunk is ready, or in flight, or is exactly what the next idle worker claims |
| `Segmented.StepKeepsAccount` | kizunalink/kizuna-voice/engine/source/segmented.rs:123-417 | every step keeps the account of attempts, downloads and downloaders of every chunk, except claiming a chunk the map has forgotten |
| `Segmented.OnceUnlessReclaimed` | kizunalink/kizuna-voice/engine/source/segmented.rs:123-417 | in every run, whatever the seeks: as long as a chunk is not claimed while forgotten it has at most one downloader at a time, at most MAX_FETCH_RETRIES + 1 attempts and at most one completed download |
| `Segmented.StepKeepsAccounts` | kizunalink/kizuna-voice/engine/source/segmented.rs:286-417 | every step whose seek stays above the eviction floor keeps all accounts, and only chunks below the floor are forgotten |
| `Segmented.OneDownloadPerChunk` | kizunalink/kizuna-voice/engine/source/segmented.rs:286-417 | in every run whose seeks stay above the eviction floor, as all forward seeks do, every chunk has one downloader at a time, at most MAX_FETCH_RETRIES + 1 attempts and one completed download |
| `Segmented.SeekRepeatsIffForgotten` | kizunalink/kizuna-voice/engine/source/segmented.rs:157-326 | a seek to a chunk can give it a second downloader, a second completed download or too many attempts if and only if the chunk was claimed before and eviction has dropped it from the map |
| `Segmented.ForgottenIsRepeated` | kizunalink/kizuna-voice/engine/source/segmented.rs:286-417 | how: a forgotten chunk still in flight gets a second downloader, one already downloaded is downloaded again, and otherwise its retries start anew |
| `Segmented.ForgottenIsReachable` | kizunalink/kizuna-voice/engine/source/segmented.rs:157-159 | runs from the start that lead there, with the chunk still in flight and with the chunk downloaded |
| `Segmented.ForwardRunIsFrugal` | kizunalink/kizuna-voice/engine/source/segmented.rs:157-326 | a run without backward seeks downloads each chunk once, and after a successful read beyond chunk 1 the map holds at most PREFETCH_CHUNKS + 1 chunks, all around the reader |
| `Segmented.ReadLeavesFewChunks` | kizunalink/kizuna-voice/engine/source/segmented.rs:157-159 | the memory bound of one read |
| `Segmented.SegmentedSource.RunReadLoop` | kizunalink/kizuna-voice/engine/source/segmented.rs:133-176 | the loop over the shared state is the read step of the model |
| `Segmented.SegmentedSource.Deliver` | kizunalink/kizuna-voice/engine/source/segmented.rs:152-161 | copying out of a chunk, advancing and evicting |
| `Segmented.SegmentedSource.Read` | kizunalink/kizuna-voice/engine/source/segmented.rs:124-176 | a read call is the read step, with the shortcut at the end of the file |
| `Segmented.SegmentedSource.Seek` | kizunalink/kizuna-voice/engine/source/segmented.rs:180-196 | a seek goes to the position asked for, counted from the start, the cursor or the end, or to the nearest one inside the file, and moves both positions |
| `Segmented.SegmentedSource.ClaimChunk` | kizunalink/kizuna-voice/engine/source/segmented.rs:286-326 | the claiming critical section of a worker is the claim step |
| `Segmented.SegmentedSource.TryClaimChunk` | kizunalink/kizuna-voice/engine/source/segmented.rs:384-393 | which chunks can be claimed, with which retry count |
| `Segmented.SegmentedSource.HandleResponse` | kizunalink/kizuna-voice/engine/source/segmented.rs:336-379 | a worker completes its chunk or requeues it, as the response deserves |
| `Segmented.SegmentedSource.FinishFetch` | kizunalink/kizuna-voice/engine/source/segmented.rs:363-369 | a completed fetch makes the chunk ready |
| `Segmented.SegmentedSource.RequeueOrFatal` | kizunalink/kizuna-voice/engine/source/segmented.rs:396-417 | a failed fetch is requeued with one more retry or becomes fatal |
| `TimeFrequency.HaarInvolution` | kizunalink/native/opus/celt/bands.c:632-645 | in exact arithmetic the Haar butterfly undoes itself, for every length and stride |
| `TimeFrequency.HaarCommutes` | kizunalink/native/opus/celt/bands.c:632-645 | butterflies at nested strides commute, in either order |
| `TimeFrequency.OrderyIsPermutation` | kizunalink/native/opus/celt/bands.c:572-581 | every row of the reordering table is a permutation, with its inverse |
| `TimeFrequency.InterleaveInverse` | kizunalink/native/opus/celt/bands.c:583-630 | interleaving and deinterleaving undo each other, for every block length, stride and reordering |
| `TimeFrequency.LevelsCommute` | kizunalink/native/opus/celt/bands.c:1149-1159 | any two recombination levels commute |
| `TimeFrequency.RecombineInvolution` | kizunalink/native/opus/celt/bands.c:1208-1216 | undoing the recombination in the same order it was applied restores the band |
| `TimeFrequency.TimeJoinInverse` | kizunalink/native/opus/celt/bands.c:1164-1206 | joining inverts time division and time division inverts joining |
| `TimeFrequency.LayoutFits` | kizunalink/native/opus/celt/bands.c:1131-1177 | the block layout never reaches outside the band and always selects a row of the table |
| `TimeFrequency.ResynthesisInvertsAnalysis` | kizunalink/native/opus/celt/bands.c:1149-1217 | if quantisation changes nothing, resynthesis restores every sample of the band, and conversely, for every length and block count and every time-frequency change except, for a single block, one below -4, for which the reordering has no table row; no divisibility is needed |
| `SignalShape.LayoutIsRight` | kizunalink/native/opus/celt/bands.c:1127-1180 | the layout from the arguments: max(tf, 0) recombinations, b shifted right by that many, and the largest number of time divisions that is at most -tf and whose power of two divides the block length |
| `SignalShape.DivisionGathersRows` | kizunalink/native/opus/celt/bands.c:1163-1176 | t time divisions of a band of equal rows leave every 2^t-th row, scaled by (2c)^t, and silence in between |
| `SignalShape.RecombiningDivides` | kizunalink/native/opus/celt/bands.c:1148-1161 | recombining is time division of blocks of one sample, for every length |
| `SignalShape.RecombiningGathers` | kizunalink/native/opus/celt/bands.c:1148-1161 | r recombinations take a constant band of value v to (2c)^r * v at every 2^r-th index and 0 elsewhere |
| `SignalShape.AnalysisGathersAll` | kizunalink/native/opus/celt/bands.c:1139-1188 | the whole analysis of a constant band with at most 2^tf blocks |
| `SignalShape.AnalysisGathersBlocks` | kizunalink/native/opus/celt/bands.c:1139-1188 | the whole analysis of a constant band with more blocks: each group of 2^tf blocks is gathered into its first one, and the blocks come out one after the other |
| `SignalShape.AnalysisGathersTime` | kizunalink/native/opus/celt/bands.c:1139-1188 | the whole analysis of a band of equal rows for a negative change: everything is gathered into the first blocks, which come out in the order of the table |
| `TimeFrequency.Haar1` | kizunalink/native/opus/celt/bands.c:632-645 | the in-place loop computes the butterfly |
| `TimeFrequency.DeinterleaveHadamard` | kizunalink/native/opus/celt/bands.c:583-607 | the in-place loop computes the deinterleaving |
| `TimeFrequency.InterleaveHadamard` | kizunalink/native/opus/celt/bands.c:609-630 | the in-place loop computes the interleaving |
| `TimeFrequency.RecombineInPlace` | kizunalink/native/opus/celt/bands.c:1149-1159 | the recombination loop |
| `TimeFrequency.DivideInPlace` | kizunalink/native/opus/celt/bands.c:1164-1175 | the time-division loop, with the block count and length it ends on |
| `TimeFrequency.JoinInPlace` | kizunalink/native/opus/celt/bands.c:1200-1206 | the loop that joins the time divisions again |
| `TimeFrequency.AnalyseBand` | kizunalink/native/opus/celt/bands.c:1129-1186 | the forward half of the band transform, in place, with the layout of `LayoutIsRight` |
| `TimeFrequency.ResynthesiseBand` | kizunalink/native/opus/celt/bands.c:1191-1216 | the backward half, in place |
| `AngleCoding.ResolutionIsSane` | kizunalink/native/opus/celt/bands.c:647-671 | the resolution is 1 or an even number from 2 to 256, and never falls when the bits grow |
| `AngleCoding.AngleIsCodedIff` | kizunalink/native/opus/celt/bands.c:647-668 | an angle is coded if and only if b >= pulse_cap + 36 and b + N2 * offset >= 4 * N2 |
| `AngleCoding.ResolutionFollowsBits` | kizunalink/native/opus/celt/bands.c:647-670 | the resolution is at least 2^e if both limits leave e bits, and at most 2^e if one of them leaves no more |
| `AngleCoding.ReserveBoundsResolution` | kizunalink/native/opus/celt/bands.c:657-670 | it is never finer than the bits beyond the pulses and four bits in reserve allow |
| `AngleCoding.WholeBits` | kizunalink/native/opus/celt/bands.c:664-669 | at e whole bits the resolution is 2^e |
| `AngleCoding.TableIsExponential` | kizunalink/native/opus/celt/bands.c:649-650 | the table holds the eighths of an octave, rounded down |
| `AngleCoding.QnOfBitsMonotone` | kizunalink/native/opus/celt/bands.c:663-668 | the exponential table is monotone across octaves |
| `AngleCoding.QuantiseRoundTrip` | kizunalink/native/opus/celt/bands.c:747-749 | quantising an angle stays in range and within half a step, and requantising a decoded angle gives the index back; the extremes are reached only by the extreme indices |
| `AngleCoding.BiasedIsNear` | kizunalink/native/opus/celt/bands.c:764-773 | the biased rounding down or up stays in range and within one step and the bias, is biased towards 0 up to the middle and towards the other end beyond it, and takes the end angles to the end indices |
| `AngleCoding.Isqrt32` | kizunalink/native/opus/celt/mathops.c:43-66 | the digit-by-digit loop computes the floor of the square root of every positive 32-bit number |
| `AngleCoding.TriRoot` | kizunalink/native/opus/celt/bands.c:821-833 | the square root finds the triangular number below a value |
| `AngleCoding.IntervalsTile` | kizunalink/native/opus/celt/bands.c:777-814 | the step and the triangular intervals are nonempty and follow each other without gap or overlap from 0 to the total |
| `AngleCoding.DecodeFindsInterval` | kizunalink/native/opus/celt/bands.c:787-836 | decoding any value below the total finds the index whose interval holds it |
| `AngleCoding.DecodeInvertsEncode` | kizunalink/native/opus/celt/bands.c:777-837 | from any value in the encoded interval the decoder recovers the index and the same interval |
| `BitBudget.WithinBudget` | kizunalink/native/opus/celt/bands.c:943-1049 | for every call tree, the budget at exit is at least min(entry, 0) less the bits spent on angles inside the call |
| `BitBudget.SplitIsFair` | kizunalink/native/opus/celt/bands.c:1000-1035 | a split hands out exactly its share, the first half gets no less than the second, and rebalancing grants the second exactly what the first left beyond the slack, unless the angle forbids it |
| `BitBudget.SplitFollowsAngle` | kizunalink/native/opus/celt/bands.c:1010-1035 | side gets as many more bits than mid as the corrected delta asks for, up to one for rounding and as far as the share goes; the larger half goes first, and its own end angle keeps the other from getting what it leaves |
| `BitBudget.AdjustIsGentle` | kizunalink/native/opus/celt/bands.c:1000-1009 | the correction applies to short blocks and inner angles: past the middle it takes off at most half of a positive delta, up to the middle it moves a negative one towards 0 and never past it |
| `BitBudget.SplitsWhenPulsesRunOut` | kizunalink/native/opus/celt/bands.c:968-970 | on a sorted row a band is split if and only if it is long enough, may be, and every pulse count leaves more than 11 eighths of a bit unused |
| `BitBudget.SplitsAreBounded` | kizunalink/native/opus/celt/bands.c:969-986 | LM bounds the recursion: at most 2^(LM+1) - 1 angles are coded |
| `BitBudget.BoundIsReached` | kizunalink/native/opus/celt/bands.c:969-1035 | on any tables and whatever an angle costs, a band that is long and rich enough has a call tree with exactly that many angles, all of them the middle one |
| `BitBudget.ShedNeverBusts` | kizunalink/native/opus/celt/bands.c:1038-1049 | giving up pulses returns exactly their bits, gives up no more than necessary, and ends overdrawn only with no pulse left |
| `BitBudget.PickIsNearest` | kizunalink/native/opus/celt/rate.h:53-87 | on a sorted row the search finds the pulse count whose cost is nearest to the budget, the cheaper one on a tie |
| `BitBudget.BisectBrackets` | kizunalink/native/opus/celt/rate.h:62-73 | the bisection ends on neighbours that bracket the target |
| `BitBudget.BandCtx.QuantPartition` | kizunalink/native/opus/celt/bands.c:943-1049 | the recursive call over the shared budget unfolds into a call tree of the model and charges exactly what that tree spends; it terminates on LM |
| `BitBudget.BandCtx.QuantHalves` | kizunalink/native/opus/celt/bands.c:1017-1035 | the two recursive calls with the rebalancing between them |
| `BitBudget.BandCtx.QuantLeaf` | kizunalink/native/opus/celt/bands.c:1037-1049 | the pulse loop of a call that does not split |
| `Dave.ApplyKeeps` | kizunalink/kizuna-voice/discord/crypto/dave.rs:58-462 | every operation keeps the handler invariant: both buffers hold at most 64 messages of valid size, the proposal buffer is empty once the sender is known, and a session, its prepared version and its sender go together |
| `Dave.RunKeeps` | kizunalink/kizuna-voice/discord/crypto/dave.rs:58-462 | so does every sequence of operations, whatever the MLS library answers |
| `Dave.RunExists` | kizunalink/kizuna-voice/discord/crypto/dave.rs:58-462 | every sequence of operations has such a run |
| `Dave.SortedIdsUnique` | kizunalink/kizuna-voice/discord/crypto/dave.rs:95-100 | the user cache is determined by the set of users |
| `Dave.ApplyIsSticky` | kizunalink/kizuna-voice/discord/crypto/dave.rs:110-462 | one operation lifts the encryption requirement only by negotiating version 0 or executing a transition staged as 0, stages 0 only by announcing it, and never bypasses encryption while it is required |
| `Dave.ZeroWasStaged` | kizunalink/kizuna-voice/discord/crypto/dave.rs:174-188 | in every run a transition is staged as 0 only if `prepare_transition` announced it, never by a handshake |
| `Dave.EncryptionIsSticky` | kizunalink/kizuna-voice/discord/crypto/dave.rs:110-225 | in every run, from a request for a nonzero version, even one whose setup fails, until version 0 is negotiated or a transition staged as 0 at that moment is executed, a packet leaves as exactly what the library of a ready session made of it, or not at all |
| `Dave.SendingIsSafe` | kizunalink/kizuna-voice/discord/crypto/dave.rs:437-462 | a packet leaves as it is if and only if encryption is not required; otherwise it goes to the library if and only if the session is ready, and the bytes of the answer are sent |
| `Dave.VersionHasACause` | kizunalink/kizuna-voice/discord/crypto/dave.rs:110-382 | the active version changes only by executing a transition staged with it, by an accepted or waiting handshake message, which activates the prepared one, or by the end of the session |
| `Dave.OpeningCalls` | kizunalink/kizuna-voice/discord/crypto/dave.rs:124-159 | which call opens a session, by whether there is one and at which version, and that a key package is asked for and handed out exactly if it succeeds |
| `Dave.OpenedSession` | kizunalink/kizuna-voice/discord/crypto/dave.rs:143-148 | an opened session has empty buffers and keeps a sender only if it is reused; what is active and staged stays |
| `Dave.SettingUp` | kizunalink/kizuna-voice/discord/crypto/dave.rs:110-122 | version 0 ends the session and lifts the requirement, any other one requires encryption whatever becomes of the setup |
| `Dave.ResetForgets` | kizunalink/kizuna-voice/discord/crypto/dave.rs:161-172 | a reset handler is a new one but for the users, the requirement and the calls made |
| `Dave.Staging` | kizunalink/kizuna-voice/discord/crypto/dave.rs:174-188 | an unsupported version is ignored, id 0 is executed at once, any other id is staged and acknowledged |
| `Dave.ExecutingCalls` | kizunalink/kizuna-voice/discord/crypto/dave.rs:190-213 | executing makes the staged version active, requires encryption exactly if it is not 0, and has the session take it up or discard it accordingly |
| `Dave.Announcing` | kizunalink/kizuna-voice/discord/crypto/dave.rs:227-258 | which epochs are ignored, set up a session or only prepare a version |
| `Dave.TidBytes` | kizunalink/kizuna-voice/discord/crypto/dave.rs:342-343 | the transition id is the first two bytes, high byte first |
| `Dave.HandshakeCalls` | kizunalink/kizuna-voice/discord/crypto/dave.rs:342-382 | which call a handshake message makes, and which version it activates or stages |
| `Dave.ProposalCalls` | kizunalink/kizuna-voice/discord/crypto/dave.rs:411-435 | which call proposals make: their operation byte, the rest, and all users in order |
| `Dave.DrainingStops` | kizunalink/kizuna-voice/discord/crypto/dave.rs:293-301 | draining asks for the messages one by one until one is refused |
| `Dave.UsersFollow` | kizunalink/kizuna-voice/discord/crypto/dave.rs:80-100 | who is a user after adding and removing, and that nothing else changes |
| `Dave.EarlyMessagesAreBuffered` | kizunalink/kizuna-voice/discord/crypto/dave.rs:314-409 | before the sender is known, proposals and handshake messages of any interleaving are only put aside, the first 64 of each, with the right answers |
| `Dave.DrainIsDelivery` | kizunalink/kizuna-voice/discord/crypto/dave.rs:279-291 | draining buffered proposals is delivering them one by one |
| `Dave.DrainMessagesIsDelivery` | kizunalink/kizuna-voice/discord/crypto/dave.rs:293-301 | draining buffered handshake messages is delivering them one by one |
| `Dave.SenderDrainsLikeDelivery` | kizunalink/kizuna-voice/discord/crypto/dave.rs:260-304 | a sender that arrives on full buffers does what an early sender followed by the messages does, and returns their commits |
| `Dave.BufferingIsTransparent` | kizunalink/kizuna-voice/discord/crypto/dave.rs:260-434 | early messages in any interleaving lead to exactly the state and the library calls of the orderly delivery if and only if there are at most 64 of each kind; handshake messages get the answers of that delivery, and the commits come with the sender |
| `Dave.MessagesSurviveFailedDrain` | kizunalink/kizuna-voice/discord/crypto/dave.rs:274-303 | an accepted sender empties the proposal buffer, and buffered handshake messages survive it if and only if draining a proposal failed |
| `Dave.MessagesGetStuck` | kizunalink/kizuna-voice/discord/crypto/dave.rs:274-352 | for every library that refuses nothing there is a run that ends with the sender known and a handshake message still buffered |
| `Dave.ExternalSenderEffect` | kizunalink/kizuna-voice/discord/crypto/dave.rs:260-304 | what processing a sender can change |
| `Dave.InsertSorted` | kizunalink/kizuna-voice/discord/crypto/dave.rs:95-100 | inserting into the sorted cache keeps it sorted |
| `Dave.DaveHandler.AddUsers` | kizunalink/kizuna-voice/discord/crypto/dave.rs:80-86 | adding users keeps the cache the sorted list of the set |
| `Dave.DaveHandler.RemoveUser` | kizunalink/kizuna-voice/discord/crypto/dave.rs:88-93 | removing a user, likewise |
| `Dave.DaveHandler.UpdateUserCache` | kizunalink/kizuna-voice/discord/crypto/dave.rs:95-100 | the cache becomes the sorted list of the users |
| `Dave.DaveHandler.ResetAll` | kizunalink/kizuna-voice/discord/crypto/dave.rs:161-172 | a reset clears the session and its buffers and keeps the requirement |
| `Dave.DaveHandler.Setup` | kizunalink/kizuna-voice/discord/crypto/dave.rs:110-122 | setting up a session is the setup step |
| `Dave.DaveHandler.Open` | kizunalink/kizuna-voice/discord/crypto/dave.rs:124-159 | opening or reusing the MLS session is the open step |
| `Dave.DaveHandler.Stage` | kizunalink/kizuna-voice/discord/crypto/dave.rs:174-188 | staging a transition |
| `Dave.DaveHandler.Execute` | kizunalink/kizuna-voice/discord/crypto/dave.rs:190-225 | executing a transition |
| `Dave.DaveHandler.NewEpoch` | kizunalink/kizuna-voice/discord/crypto/dave.rs:227-258 | preparing an epoch |
| `Dave.DaveHandler.ProcessSender` | kizunalink/kizuna-voice/discord/crypto/dave.rs:260-304 | processing the external sender and draining both buffers |
| `Dave.DaveHandler.DrainProposalsNow` | kizunalink/kizuna-voice/discord/crypto/dave.rs:279-291 | the loop over the buffered proposals |
| `Dave.DaveHandler.DrainHandshakesNow` | kizunalink/kizuna-voice/discord/crypto/dave.rs:293-301 | the loop over the buffered handshake messages |
| `Dave.DaveHandler.HandshakeNow` | kizunalink/kizuna-voice/discord/crypto/dave.rs:342-382 | processing one welcome or commit |
| `Dave.DaveHandler.ProcessMessage` | kizunalink/kizuna-voice/discord/crypto/dave.rs:314-340 | a handshake message is processed or put aside |
| `Dave.DaveHandler.ProposalsNow` | kizunalink/kizuna-voice/discord/crypto/dave.rs:411-435 | processing one batch of proposals |
| `Dave.DaveHandler.Propose` | kizunalink/kizuna-voice/discord/crypto/dave.rs:384-409 | proposals are processed or put aside |
| `Dave.DaveHandler.Send` | kizunalink/kizuna-voice/discord/crypto/dave.rs:443-462 | a packet is encrypted, refused or passed on as `SendingIsSafe` says |
| `SessionResume.StepKeeps` | kizuna-server/src/api/ws/handler.rs:202-342 | every step of every handler and timer keeps the invariant tying owners, maps, generations and timers together |
| `SessionResume.RunKeeps` | kizuna-server/src/api/ws/handler.rs:202-342 | so does every interleaving |
| `SessionResume.OneOwnerOneMapOneShutdown` | kizuna-server/src/api/ws/handler.rs:202-342 | in every interleaving a session has at most one owning connection, is in at most one map, and is shut down at most once, after which nothing owns or lists it |
| `SessionResume.TimerEndsItsOwnWindow` | kizuna-server/src/api/ws/handler.rs:324-337 | a pending timer expires a session if and only if the session is parked in the very window the timer was armed for |
| `SessionResume.FiringIsExact` | kizuna-server/src/api/ws/handler.rs:324-337 | a timer that fires is gone and only it; if it ends a window that session is unparked and shut down, and otherwise nothing happens |
| `SessionResume.WindowsAreDistinct` | kizuna-server/src/api/ws/handler.rs:308-314 | a new window has a generation above every earlier one and carried by no timer |
| `SessionResume.DefensiveBranchesAreDead` | kizuna-server/src/api/ws/handler.rs:284-306 | the branches for a replaced connection and for a parked session of the same id are never taken |
| `SessionResume.AppState.ResolveSession` | kizuna-server/src/api/ws/handler.rs:202-232 | a connection resumes the parked session it names, under a new generation, or gets a new one; all other sessions and connections stay as they are |
| `SessionResume.AppState.HandleSessionClose` | kizuna-server/src/api/ws/handler.rs:277-342 | closing parks a resumable session with a timer for its new generation and shuts any other session down; all other sessions and connections stay as they are |
| `SessionResume.AppState.FireTimer` | kizuna-server/src/api/ws/handler.rs:326-336 | a timer removes and shuts down the session only in its own window |
| `SessionResume.AppState.AdvanceOnce` | kizuna-server/src/api/ws/handler.rs:211-342 | each atomic piece of the handlers is one step |
| `EventQueue.LongestFitUnique` | kizuna-server/src/server/session.rs:148-171 | the longest suffix that meets both caps is unique |
| `EventQueue.BudgetPerEvent` | kizuna-server/src/server/session.rs:75-78 | the byte cap is 64 KiB for each event the queue may hold, for at least one and at most 1024 |
| `EventQueue.LongestFitCaps` | kizuna-server/src/server/session.rs:148-171 | the queue holds no more events and bytes than allowed, and one event more would be too many of one |
| `EventQueue.AppendKeepsLongest` | kizuna-server/src/server/session.rs:150-171 | dropping from the front just until the new event fits keeps the queue the longest suffix that fits |
| `EventQueue.Session.constructor` | kizuna-server/src/server/session.rs:58-86 | a session starts unpaused with an empty queue and the clamped byte budget |
| `EventQueue.Session.SendJson` | kizuna-server/src/server/session.rs:131-189 | sending while paused appends every event that is not oversized to the history the queue is a suffix of; sending while connected bypasses the queue |
| `EventQueue.Session.Enqueue` | kizuna-server/src/server/session.rs:148-171 | after queueing, the queue is the longest suffix that fits and the byte count is the sum of its lengths |
| `EventQueue.Session.MakeRoom` | kizuna-server/src/server/session.rs:150-168 | the two eviction loops drop the fewest oldest events, and no subtraction goes below zero |
| `EventQueue.Session.TakeEventQueue` | kizuna-server/src/server/session.rs:192-196 | taking the queue hands over all of it in order and resets the accounting |
| `EventQueue.RunPaused` | kizuna-server/src/server/session.rs:131-196 | after any sequence of sends and takes the queue is the longest suffix, under both caps, of the events accepted since the last take, also for a queue size of zero |
| `Resampling.CountIff` | kizunalink/kizuna-voice/engine/resample/linear.rs:23-56 | frame k is due if and only if k * source < N * target: the count is ceil(N * target / source) |
| `Resampling.LinearOutStable` | kizunalink/kizuna-voice/engine/resample/linear.rs:30-44 | an interpolated frame does not change when more input arrives |
| `Resampling.LinearRunExtends` | kizunalink/kizuna-voice/engine/resample/linear.rs:23-56 | the output of a longer input extends that of a shorter one |
| `Resampling.LinearResampler.Process` | kizunalink/kizuna-voice/engine/resample/linear.rs:23-56 | a chunk emits exactly the frames that became due, interpolated as in the whole stream |
| `Resampling.FramesSurviveIff` | kizunalink/kizuna-voice/engine/resample/linear.rs:23-24 | each chunk loses a partial frame at its end: for all samples the frames of the chunks are those of the concatenated samples if and only if every chunk ends on a frame boundary or behind the last whole frame |
| `Resampling.LinearStream` | kizunalink/kizuna-voice/engine/resample/linear.rs:23-56 | for any chunking of that kind the output is the batch output on the concatenated samples, ceil(N * target / source) frames; in general it is that of the whole frames of each chunk |
| `Resampling.TornFramesAreLost` | kizunalink/kizuna-voice/engine/resample/linear.rs:23-24 | two chunkings of the same samples, one of them inside a frame, give different output, at all rates |
| `Resampling.HermiteResampler.Process` | kizunalink/kizuna-voice/engine/resample/hermite.rs:32-78 | a chunk emits exactly the frames that became due, from neighbours clamped to the chunk |
| `Resampling.HermiteSettledIff` | kizunalink/kizuna-voice/engine/resample/hermite.rs:36-69 | an output computed when n frames are known stays right, for all samples, if and only if nothing follows, both right neighbours are known, or the position is exactly on a frame |
| `Resampling.HermiteChunksIff` | kizunalink/kizuna-voice/engine/resample/hermite.rs:32-78 | cutting a stream into any list of chunks goes unnoticed, for all samples, if and only if every output was of that kind when its chunk ended, or nothing followed that chunk |
| `Resampling.HermiteStream` | kizunalink/kizuna-voice/engine/resample/hermite.rs:32-78 | a stream of chunks gives exactly the chunked output of that theorem; under its condition this is the batch output, and with boundaries between frames the batch output of the concatenated samples |
| `Resampling.SincResampler.PushFrame` | kizunalink/kizuna-voice/engine/resample/sinc.rs:54-77 | one input frame emits exactly the frames it makes due |
| `Resampling.SincResampler.Process` | kizunalink/kizuna-voice/engine/resample/sinc.rs:54-77 | the output so far followed by this chunk is the batch output on all frames received |
| `Resampling.SincStream` | kizunalink/kizuna-voice/engine/resample/sinc.rs:54-77 | for any chunking between frames the output is the batch output on the concatenated samples |
| `Resampling.SincOutStable` | kizunalink/kizuna-voice/engine/resample/sinc.rs:60-74 | a filtered frame does not change when more input arrives |
| `Resampling.SincRunExtends` | kizunalink/kizuna-voice/engine/resample/sinc.rs:54-77 | the output of a longer input extends that of a shorter one |
| `Interpolation.LerpIsBetween` | kizunalink/kizuna-voice/engine/resample/linear.rs:26-43 | the left sample at fraction 0, the right one at 1, rounded towards zero in between and never outside |
| `Interpolation.LerpGrows` | kizunalink/kizuna-voice/engine/resample/linear.rs:26-43 | towards the right sample as the fraction grows |
| `Interpolation.LinearDelays` | kizunalink/kizuna-voice/engine/resample/linear.rs:23-46 | at equal rates linear interpolation delays the stream by one frame |
| `Interpolation.LinearFollowsLines` | kizunalink/kizuna-voice/engine/resample/linear.rs:23-46 | it reproduces straight lines, one frame late |
| `Interpolation.KernelsAgree` | kizunalink/kizuna-voice/engine/resample/hermite.rs:24-30 | the Hermite resampler and the speed filter code the same kernel, by Horner and expanded |
| `Interpolation.CubicInterpolates` | kizunalink/kizuna-voice/engine/filters/timescale.rs:6-14 | the kernel goes through its two middle samples and reads the same in both directions |
| `Interpolation.CubicIsExactOnParabolas` | kizunalink/kizuna-voice/engine/filters/timescale.rs:6-14 | it is exact on parabolas |
| `Interpolation.HermiteIsIdentity` | kizunalink/kizuna-voice/engine/resample/hermite.rs:32-78 | at equal rates the Hermite resampler gives the stream itself |
| `Interpolation.HermiteFollowsLines` | kizunalink/kizuna-voice/engine/resample/hermite.rs:36-69 | it reproduces straight lines |
| `Interpolation.TimescaleFollowsLines` | kizunalink/kizuna-voice/engine/filters/timescale.rs:64-86 | so does the speed filter, up to its scaling |
| `Interpolation.TimescaleOnFrames` | kizunalink/kizuna-voice/engine/filters/timescale.rs:74-86 | on an input frame the speed filter gives its samples one step closer to zero |
| `Interpolation.ToI16IsNearest` | kizunalink/kizuna-voice/engine/resample/sinc.rs:63-69 | values in range are rounded towards zero, others go to the nearest end |
| `Interpolation.SincImpulse` | kizunalink/kizuna-voice/engine/resample/sinc.rs:56-75 | the response of the sinc resampler to a click is its table, last tap first |
| `Timescale.TimescaleFilter.ProcessResample` | kizunalink/kizuna-voice/engine/filters/timescale.rs:42-103 | once four frames have arrived, exactly the frames k with floor(k * rate) + 2 < total have been emitted, each from its four neighbours in the whole stream; at rate 1 samples pass through |
| `Timescale.TimescaleFilter.Resample` | kizunalink/kizuna-voice/engine/filters/timescale.rs:63-89 | the loop emits every frame that is due and stops at the first that is not |
| `Timescale.TimescaleFilter.EmitOne` | kizunalink/kizuna-voice/engine/filters/timescale.rs:64-86 | a frame computed from the buffer is the frame computed from the stream |
| `Timescale.TimescaleFilter.DropConsumed` | kizunalink/kizuna-voice/engine/filters/timescale.rs:91-100 | dropping consumed frames keeps buffer and position aligned with the stream, with at most one frame left of the position unless it is past the end |
| `Timescale.FramesOutStable` | kizunalink/kizuna-voice/engine/filters/timescale.rs:63-89 | emitted frames stay right when more input arrives |
| `Timescale.StillWaiting` | kizunalink/kizuna-voice/engine/filters/timescale.rs:53-58 | too few buffered frames means that nothing is due |
| `Timescale.TimescaleStream` | kizunalink/kizuna-voice/engine/filters/timescale.rs:42-103 | for any chunking the output is exactly the due frames of the concatenated input, in order, and the input itself at rate 1 |
| `FlowControl.FramesBySegment` | kizunalink/kizuna-voice/engine/flow/controller.rs:68-138 | each segment between seeks of L samples gives exactly its floor(L / 1920) whole frames in order; a seek drops only the remainder |
| `FlowControl.RunToEnd` | kizunalink/kizuna-voice/engine/flow/controller.rs:68-102 | push mode produces those frames |
| `FlowControl.FlowController.TryPopFrame` | kizunalink/kizuna-voice/engine/flow/controller.rs:104-138 | at every poll, what has been popped is a prefix of those frames; it reports the end, or nothing yet, only when none is missing |
| `FlowControl.FlowController.Receive` | kizunalink/kizuna-voice/engine/flow/controller.rs:105-125 | the receive loop stops with a frame, an empty channel or the end |
| `FlowControl.PullToEnd` | kizunalink/kizuna-voice/engine/flow/controller.rs:104-138 | whenever messages arrive and whenever it is polled, pull mode polled to the end produces the same frames as push mode |
| `Mixing.MixerTrack.DrainPending` | kizunalink/kizuna-voice/engine/mix/mixer.rs:290-307 | leftovers are mixed first, in order |
| `Mixing.MixerTrack.PullFrames` | kizunalink/kizuna-voice/engine/mix/mixer.rs:309-332 | frames are pulled until the buffer is full or nothing is pending and the flow has nothing to give; the track is finished if and only if the flow has ended; what has arrived stays as it is |
| `Mixing.MixerTrack.MixInto` | kizunalink/kizuna-voice/engine/mix/mixer.rs:288-366 | for any buffer length, the track adds the next samples of its stream, a full buffer unless it is exhausted; mixed and pending samples are always exactly the popped frames; with even lengths the position is half the samples mixed; the buffering flag is cleared by output and set when an unfinished stream gave none; the state afterwards follows from the end of the stream and of the tape ramp |
| `Mixing.StoppedHasPlayedAll` | kizunalink/kizuna-voice/engine/mix/mixer.rs:344-348 | a track that a call stops has played every whole frame that its decoder sent |
| `Mixing.EndStates` | kizunalink/kizuna-voice/engine/mix/mixer.rs:344-366 | a track stops by finishing only while its tape rests, a completed ramp ends its own state and no other, and otherwise a state lasts |
| `Mixing.Mixer.Mix` | kizunalink/kizuna-voice/engine/mix/mixer.rs:249-366 | stopped tracks are dropped; the output is the sum of the parts the others contribute: nothing for a track found paused, otherwise the next samples of what its decoder sent, as many as asked for unless it is exhausted, with its position, buffering flag and state updated; audio is reported if and only if some part is nonempty |
| `Mixing.Mixer.KeepUnstopped` | kizunalink/kizuna-voice/engine/mix/mixer.rs:257-258 | exactly the stopped tracks leave the list |
| `Mixing.Mixer.MixTracks` | kizunalink/kizuna-voice/engine/mix/mixer.rs:262-366 | the same for the loop over the tracks |
| `Mixing.RunTrack` | kizunalink/kizuna-voice/engine/mix/mixer.rs:288-366 | whenever messages arrive and whatever lengths are asked for, the flow has received exactly what was sent, and all output so far is what the track has mixed, at half that position if all lengths are even |
| `Mixing.PlayToEnd` | kizunalink/kizuna-voice/engine/mix/mixer.rs:288-366 | a track that is asked until it stops has played exactly the whole frames of everything its decoder sent, whenever it arrived and whatever lengths were asked for |
| `Mixing.WholeFrames` | kizunalink/kizuna-voice/engine/mix/mixer.rs:310-338 | a stream of whole frames has an even number of samples |
| `RingBuffers.WriteKeepsNewest` | kizunalink/kizuna-voice/engine/buffer/ring.rs:56-75 | in every wrap-around and overwrite case a short write leaves the newest bytes |
| `RingBuffers.RingBuffer.Write` | kizunalink/kizuna-voice/engine/buffer/ring.rs:42-75 | the contents become the last `size` bytes of the old contents and the chunk |
| `RingBuffers.RingBuffer.Append` | kizunalink/kizuna-voice/engine/buffer/ring.rs:56-75 | the same for a chunk shorter than the ring |
| `RingBuffers.RingBuffer.Replace` | kizunalink/kizuna-voice/engine/buffer/ring.rs:47-54 | the same for a chunk at least as long as the ring |
| `RingBuffers.RingBuffer.Peek` | kizunalink/kizuna-voice/engine/buffer/ring.rs:86-110 | peeking returns the oldest bytes and changes nothing |
| `RingBuffers.RingBuffer.Read` | kizunalink/kizuna-voice/engine/buffer/ring.rs:78-83 | reading returns and removes the oldest bytes |
| `RingBuffers.RingBuffer.Skip` | kizunalink/kizuna-voice/engine/buffer/ring.rs:112-121 | skipping removes the oldest bytes |
| `RingBuffers.RingBuffer.Clear` | kizunalink/kizuna-voice/engine/buffer/ring.rs:123-127 | clearing leaves nothing |
| `RingBuffers.SampleRoundTrip` | kizunalink/kizuna-voice/engine/mix/layer.rs:50-52 | a sample survives its two bytes |
| `RingBuffers.LastNEncode` | kizunalink/kizuna-voice/engine/mix/layer.rs:27-39 | truncating the bytes truncates whole samples: none is torn |
| `RingBuffers.MixLayer.Fill` | kizunalink/kizuna-voice/engine/mix/layer.rs:27-39 | the layer holds the newest whole samples of everything received |
| `RingBuffers.MixLayer.Accumulate` | kizunalink/kizuna-voice/engine/mix/layer.rs:45-56 | the oldest samples are scaled, added in order and removed |
| `RingBuffers.ScaledIsNearest` | kizunalink/kizuna-voice/engine/mix/layer.rs:53-53 | scaling rounds to the nearest whole sample, halves away from zero |
| `RateLimit.RateLimiter.Check` | kizuna-server/src/api/rate_limit.rs:60-84 | a check updates one client's bucket and answers as the bucket step does; other clients are untouched |
| `RateLimit.RateLimiter.Cleanup` | kizuna-server/src/api/rate_limit.rs:87-90 | cleanup removes exactly the buckets idle for longer than the time-to-live |
| `RateLimit.StepPays` | kizuna-server/src/api/rate_limit.rs:60-90 | a step takes one token from the client it admits and changes no other client's tokens |
| `RateLimit.CleaningIsExact` | kizuna-server/src/api/rate_limit.rs:87-90 | a sweep forgets exactly the clients idle for longer than the time-to-live |
| `RateLimit.AdmissionsPaid` | kizuna-server/src/api/rate_limit.rs:60-84 | in any run of requests and sweeps, in which only the times of this client and of the sweeps need to be ordered, the admissions of a client are paid for by its tokens at the start and the refill until the end |
| `RateLimit.WindowBound` | kizuna-server/src/api/rate_limit.rs:60-84 | in any stretch of any run that lasts t seconds for this client at most L + L * t / 60 of its requests are admitted |
| `RateLimit.WaitingGuaranteesAdmission` | kizuna-server/src/api/rate_limit.rs:77-83 | a client that waits the returned time, at least a second, and sends nothing meanwhile is admitted, whatever other clients and sweeps do in between |
| `RateLimit.WaitingLessIsNotEnough` | kizuna-server/src/api/rate_limit.rs:77-83 | nothing shorter than the returned time would do, unless that is the minimum of one second |
| `RateLimit.NewClientBurst` | kizuna-server/src/api/rate_limit.rs:60-84 | a client that was never seen has exactly the limit of requests admitted at once |
| `RateLimit.ZeroIsUnlimited` | kizuna-server/src/api/rate_limit.rs:60-63 | a limit of 0 means no limit |
| `RateLimit.SweepingIsInvisible` | kizuna-server/src/api/rate_limit.rs:87-90 | sweeping with a time-to-live of at least a minute changes no answer to any client in any run |
| `RateLimit.ShorterSweepsShow` | kizuna-server/src/api/rate_limit.rs:87-90 | a minute is exact: for every shorter time-to-live there is a run whose answers change |
| `SponsorBlock.SortIsStable` | kizunalink/kizuna-voice/lavalink/sponsorblock.rs:72-73 | the sort orders by start and keeps the order of segments that start together |
| `SponsorBlock.FilterIsExact` | kizunalink/kizuna-voice/lavalink/sponsorblock.rs:61-74 | what is left is sorted and is exactly the kept segments, each as often as given |
| `SponsorBlock.FilterKeepsWanted` | kizunalink/kizuna-voice/lavalink/sponsorblock.rs:61-74 | what is left is wanted, not empty and starts before the track ends, and everything of that kind is left |
| `SponsorBlock.ToMsIsNearest` | kizunalink/kizuna-voice/lavalink/sponsorblock.rs:46-53 | times are off by at most half a millisecond |
| `SponsorBlock.SkipPosition` | kizunalink/kizuna-voice/lavalink/sponsorblock.rs:94-108 | the nested loops compute the merged end of the first segment that holds the position |
| `SponsorBlock.MergeStops` | kizunalink/kizuna-voice/lavalink/sponsorblock.rs:97-104 | on sorted segments one pass is enough: none that reaches the end goes past it |
| `SponsorBlock.SkipIsFirstFree` | kizunalink/kizuna-voice/lavalink/sponsorblock.rs:94-108 | on sorted segments there is a skip if and only if the position is covered, it goes to the first free millisecond, and no second skip follows |
| `SponsorBlock.FilteredSkipIsExact` | kizunalink/kizuna-voice/lavalink/sponsorblock.rs:61-108 | for every segment list, the skip over the filtered segments happens if and only if a kept segment covers the position, and goes to the least later millisecond that no kept segment covers |
| `SponsorBlock.SkipIgnoresOrder` | kizunalink/kizuna-voice/lavalink/sponsorblock.rs:61-108 | the answer does not depend on the order or repetition of the given segments |
| `SponsorBlock.UnsortedNeedsSecondSkip` | kizunalink/kizuna-voice/lavalink/sponsorblock.rs:72-104 | without the sort, one pass can stop at a covered millisecond |
| `Calendar.ConversionIsCalendar` | kizunalink/kizuna-voice/common/logger/writer.rs:27-42 | every day number converts to the date reached by counting on from 1970-01-01: a valid Gregorian date, and consecutive numbers give consecutive dates |
| `Calendar.ConversionInvertsCount` | kizunalink/kizuna-voice/common/logger/writer.rs:27-42 | the conversion and the ordinary day count by years and months undo each other, in both directions |
| `Calendar.YearOfEra` | kizunalink/kizuna-voice/common/logger/writer.rs:31-35 | the year of the era is recovered from the day of the era |
| `Calendar.MonthOfYear` | kizunalink/kizuna-voice/common/logger/writer.rs:36-38 | the month and day are recovered from the day of the March-based year |
| `Calendar.NamesSortByDay` | kizunalink/kizuna-voice/common/logger/writer.rs:24-59 | up to the year 9999 log names sort exactly as their days do |
| `Calendar.NamesSortUntil9999` | kizunalink/kizuna-voice/common/logger/writer.rs:191-192 | the names of all days up to n sort by day if and only if day n is in the year 9999 or earlier |
| `Calendar.CleanupOldFiles` | kizunalink/kizuna-voice/common/logger/writer.rs:163-203 | the cleanup deletes all but `max_files` names and every deleted day is no later than any kept one |

## Left out

- Resampling.HermiteResampler.Process: does not state independence of the chunking, which is false; the exact condition is in `HermiteChunksIff`.
- AngleCoding: the uniform split of `compute_theta` is a plain range-coder integer and has no intervals of its own; the encoder's noise-avoidance choice replaces an index by an end index.
- TimeFrequency: fixed-point and single-precision rounding of the butterflies; collapse masks, the folded lower band and the scaled output copy.
- BitBudget: the pulse vectors, gains and noise filling; the angle's own computation is a parameter.
- Segmented: the 64-bit overflow of chunk offsets, wake-up timeouts (waking may happen at any time), and cancelling workers on drop.
- Dave: MLS and cipher internals, log messages, the privacy code; identifiers are unbounded numbers.
- SessionResume: the wrap-around of the 64-bit generation, the replay of queued events and player states after a resume, ping and statistics timers.
- EventQueue: the WebSocket channel itself; sending while connected is recorded as sent. The 64-bit saturation of the byte budget is above its clamp.
- Resampling, Timescale: floating-point positions and rounding; positions are exact fractions of the two rates. Resetting a resampler.
- Timescale.TimescaleFilter.ProcessResample: the branch for a rate of zero or less is not modelled; the constructor clamps its three factors to at least 0.1, so it is never taken.
- FlowControl: effects applied to a frame (`process_frame`), the Opus passthrough packet, errors other than the end of the stream.
- Mixing: volume, the tape curve (whether it is active and whether its ramp completed are inputs), soft clipping and passthrough; audio that arrives during one `mix` call counts as arriving before it. 32-bit accumulator overflow.
- Mixing.Mixer.Mix: does not include the sound-effect layers, which are mixed in after the tracks and also make the call report audio (mixer.rs:375-378).
- RingBuffers: samples are little-endian; returning buffers to the pool.
- RateLimit: floating-point rounding of tokens, the `Retry-After` header, and the copy of the same bucket arithmetic for WebSocket messages.
- SponsorBlock: the API request, the cache, and event delivery.
- Calendar: the 32-bit overflow of the day number, some eleven million years away; directory listing and file deletion, which is a list of names here.
- Sockets, HTTP routing, configuration, lyrics and source plugins, the route planner, the buffer pool, equalizer and other DSP filters, and the rest of the Opus code are not part of this model: they are I/O, plain data or floating-point curves.
