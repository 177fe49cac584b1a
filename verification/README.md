# A verified model of libfgw's multipath transport

libfgw carries many byte streams (sessions) over several unreliable links at
once. Each segment goes out on up to two links; the far side removes duplicates
and restores the order. This project models that transport in Dafny, proves that
the model's methods compute what its specification functions say, and proves the
properties that the transport is for.

The central result is `EndToEnd.PrefixSafety`: whatever is lost, duplicated,
reordered across links or cut into pieces, and whichever links fail, directly or
through a transit, the bytes that a session's handler is given are a prefix of
the bytes that the application passed to `sendSessionData`. Its complement is
`Delivery.EverythingArrives`: once every number that the sender used has been
accepted, they are all of those bytes. `CleanLink.SessionArrives` is the plain case,
a session that is opened, written to and closed over a link that loses nothing, told
from method to method.

| file | content |
|---|---|
| `Words.dfy` | bytes, 16- and 32-bit words with wrap-around, big-endian packing, concatenation |
| `Crc32.dfy` | the bit-by-bit CRC, the table that speeds it up, and why bursts are noticed |
| `Segment.dfy` | the frame codec: three header widths, encoding in place, the three-loop check |
| `Framing.dfy` | cutting link streams into frames |
| `Reassembly.dfy` | one session's window, buffer and in-order delivery |
| `Race.dfy`, `Feedback.dfy` | the arrival-race arbiter and its epoch-stamped feedback |
| `StreamSpec.dfy`, `Runs.dfy` | what a DataStream does as functions on its state, and what every run keeps |
| `Lifecycle.dfy` | which callbacks of a handler are called, and when |
| `Isolation.dfy`, `Erasing.dfy`, `Eviction.dfy` | sessions do not disturb each other; what erasing the others changes; the bounded duplicate memory, what it keeps and what it forgets |
| `Arbiter.dfy` | races and feedback within runs |
| `Sending.dfy`, `Stream.dfy` | what is sent, and the DataStream as a class |
| `Selector.dfy`, `Channel.dfy` | the choice of links, and the liveness that it reads |
| `TransitSpec.dfy`, `TransitRuns.dfy`, `Transit.dfy` | the middle hop: specification, runs, class |
| `Socks.dfy`, `RelaySession.dfy` | the SOCKS5 session at the Outport: specification and class |
| `CleanLink.dfy`, `Crossing.dfy` | a whole session over a link that loses nothing, and its way through a transit |
| `EndToEnd.dfy`, `Delivery.dfy` | sender, links, transit and receiver together: that nothing wrong arrives, and when everything does |

## How to read the model

Components whose source updates fields are classes (`DataStream`,
`TransitService`, `FgwRelaySession`, `LinkSelector`, `IFgwChannel`,
`Crc32Table`). Where there is more than one field a function `State()` gives the
state as a value, and each method ensures that the new state, the events and the frames sent are those
of a specification function. What the source promises is then proved about those
functions: for single calls, for all runs, and for all interleavings.

A `Config` fixes what the code gets from outside: local ids, sizes, whether a
session unknown so far gets a handler, how a handler reacts (it may re-enter
`closeSession` on its own session in any callback), and how the payloads of hello
and feedback segments decode. Calls return the frames they send together with the
chosen links; the links that are live, their quality and the outcome of
connection attempts are parameters. `Session.delivered` and the fields
`consumed`, `toPeer`, `toTarget` and `farewells` of a relay record what has been
handed over, and how often the stream and the Outport were told of its close.

In `EndToEnd` a link direction is the list of frames written to it and the number
of bytes read so far. Bytes that are never read are lost; new links are new
identities; reads are of any size and in any order across links. Any node may
write any frame at any time and any number of times, except that in the forward
direction a frame with data of the watched session must carry the payload that
the sender gave that number, which `CallFramesGenuine` shows of the sender's own
frames. The way back, with the data that the receiver sends on the same session,
is unrestricted: that the transit keeps the two directions apart is proved.

## Assumptions

- Each link is an exact FIFO byte stream (src/zfgw_channel.h:67-71).
- Link identities are never reused; `scratch_` is keyed by link and never erased.
- Buffer allocation succeeds, a DataStream has a manager, and mutexes can be
  re-entered by the thread that holds them.
- The end-to-end claim is for sessions that use fewer than 2^32 sequence numbers;
  exact reassembly, isolation and the ring refinement are for fewer than
  2^32 - window. At the wrap data in order is still delivered
  (`Reassembly.InOrderDelivers`), and data that overtakes across it stalls for good
  (`Reassembly.OvertakingAtTheWrapStalls`); `Reassembly.DrainCompleteIff` says
  exactly when.
- The bound on wins holds exactly while no race overruns a 32-bit counter
  (`Race.BoundedThroughoutIff`), and an unbeaten link decides exactly while no
  counted link exceeds that bound (`Race.UnbeatenLinkSetsTheRateIff`).
  `Race.OverrunMisleads` is a run that does; at most 2^31 races of each link between
  two heartbeats are few enough.
- A manager serves one DataStream, as far as the adopted primary link is concerned:
  the selector is the manager's, and another stream's feedback would set it as well.
- A handler's reaction in a callback is a function of its session's key, the callback
  and the bytes given before. That of a relay also depends on whether its dial starts
  (src/zfgw_outport.cpp:274-285), so the model takes the outcome of a dial to be fixed
  by its target, within a run and in the two runs that an isolation claim compares.
- The end-to-end claim is for each incarnation of a session at the receiver, with
  one incarnation at the sender. Nothing is claimed to arrive before a FIN, which
  closes at once even with gaps.
- The isolation claims are for segments of the kinds that a DataStream sends: an
  opening, a closing, or data with a payload; and a closing that carries data. The
  other kinds have the duplicate key of one of these but another effect: an opening
  that closes or carries data, and a segment without flags or payload.
  `Isolation.SecondOfAKeyIsDropped` and `Isolation.EmptyDataPoisons` show what they
  can do.
- A later incarnation of a session is covered if none of its keys but FINs is
  remembered when it begins. `Eviction.SecondIncarnationIsDeaf` shows what happens
  otherwise. Claims that name no state begin at the start of a run.
- Whether erasing other sessions leaves a session open has the exact condition
  `Erasing.ErasedStaysOpenIff`. A caller can rely on it up to 4096 duplicate keys of
  the session, and beyond without FIN if its onSessionOpen does not close it, which
  those of this repository never do (src/zfgw_outport.cpp:65-67).

Where code and comments disagree the model follows the code: headers are also 24
bytes wide although two comments speak of 16 and 20 (src/zfgw_segment.h:77-86);
an unknown SOCKS5 address type is refused with reply 07, as an unsupported command
is, although RFC 1928 has reply 08 for it (src/zfgw_outport.cpp:235-260).

## Model

| member | source | states |
|---|---|---|
| Crc32.Crc32Table.constructor | src/zfgw_segment.cpp:16-29 | the 256-entry table built by the two nested loops holds, for each byte, that byte shifted eight times through the reflected polynomial 0xEDB88320 |
| Crc32.Crc32Table.EightRounds | src/zfgw_segment.cpp:20-24 | the inner loop is eight steps of the reflected shift register |
| Crc32.TableStep | src/zfgw_segment.cpp:54 | one table step equals feeding the byte bit by bit, least significant bit first (section 8 of RFC 1952), for every register and byte |
| Crc32.Crc32Table.Update | src/zfgw_segment.cpp:54 | the step that every checksum loop takes is the bit-by-bit one |
| Crc32.Crc32Table.Checksum | src/zfgw_segment.cpp:68-74 | the table-driven checksum equals the bit-by-bit CRC of the same bytes and seed, on every input |
| Crc32.FeedByteInjective | src/zfgw_segment.cpp:54 | different registers stay different when the same byte is fed |
| Crc32.FeedByteInjectiveInByte | src/zfgw_segment.cpp:54 | different bytes lead from one register to different registers |
| Crc32.FeedInjective | src/zfgw_segment.cpp:68-74 | different registers stay different under any common continuation |
| Crc32.FeedFourInjective | src/zfgw_segment.cpp:68-74 | from one register, two different strings of four bytes lead to different registers |
| Crc32.FeedAppend | src/zfgw_segment.cpp:49-64 | feeding can be split anywhere, which the three-loop check relies on |
| Crc32.BurstChangesCrc | src/zfgw_segment.cpp:68-74 | any change confined to four consecutive bytes changes the CRC |
| Crc32.CheckValue | src/zfgw_segment.cpp:68-74 | the checksum of the nine digits 123456789 is 0xCBF43926, the check value of CRC-32, which fixes polynomial, order of bits, start and end |
| Words.Pack16 | src/zfgw_segment.cpp:31-34 | big-endian packing of 16 bits is undone by the unpacking of lines 41-43 |
| Words.Pack32 | src/zfgw_segment.cpp:35-40 | big-endian packing of 32 bits is undone by the unpacking of lines 44-47 |
| Words.Pack32Be32 | src/zfgw_segment.cpp:44-47 | and packing undoes unpacking |
| Segment.PeekExtends | src/zfgw_segment.cpp:117-151 | once a header is read or refused, bytes that follow change neither |
| Segment.PeekReads | src/zfgw_segment.cpp:117-151 | the reader in numbers: when it needs more bytes, refuses (magic byte, more than 65519 bytes of payload), and otherwise each field from its place, with the widths 24, 20 and 16 by the flags 0x40 and 0x80 |
| Segment.PeekFrame | src/zfgw_segment.cpp:117-151 | peek after encode recovers every field (flags with FLAG_HDR_EXT added, outport 0 unless routed, the stored CRC) and the width 20 or 24, whatever follows the frame |
| Segment.FrameIntact | src/zfgw_segment.cpp:153-160 | every encoded frame is whole and passes the CRC check |
| Segment.WireLayout | src/zfgw_segment.h:20-34 | each field of an encoded frame byte by byte: magic 0xF6, flags, big-endian length, session, number, ingress id, outport id if routed, the checksum of the frame with a zeroed checksum, the payload |
| Segment.Reencodes | src/zfgw_segment.cpp:76-115 | re-encoding the header and payload read from a CRC-valid frame with FLAG_HDR_EXT gives back its bytes |
| Segment.ReencodeIff | src/zfgw_segment.cpp:76-115 | a whole frame is its own re-encoding if and only if it has FLAG_HDR_EXT and a valid CRC |
| Segment.BurstRejected | src/zfgw_segment.cpp:49-64 | a change confined to four consecutive covered bytes, or to the CRC field, that leaves width and payload length alone makes verification fail |
| Segment.PutHead | src/zfgw_segment.cpp:90-106 | the header fields are written in place, each at its offset, nothing else is touched |
| Segment.PutBody | src/zfgw_segment.cpp:100-113 | payload behind a zeroed CRC field, then the CRC over both is stored in that field |
| Segment.Encode | src/zfgw_segment.cpp:76-115 | in place: the buffer starts with exactly the frame and is unchanged behind it; null buffer and short buffer give the memory error, an oversized payload the segment error, and then nothing is written |
| Segment.CrcInParts | src/zfgw_segment.cpp:52-62 | the CRC in three loops, with four zero bytes in the middle, equals one pass over the frame with a zeroed CRC field |
| Segment.Matches | src/zfgw_segment.cpp:49-64 | the three-loop check accepts exactly if the stored CRC is that of the frame with a zeroed CRC field |
| Segment.VerifyCrc | src/zfgw_segment.cpp:153-160 | accepts exactly the three widths 16, 20 and 24 with a matching CRC |
| Segment.PeekHeader | src/zfgw_segment.cpp:117-151 | the field-by-field reader returns the parsed header and its width, asks for more, or refuses, as the specification does |
| Framing.NextFrame | src/zfgw_datastream.cpp:142-157 | one round of either framing loop: more bytes needed, bad segment, or a whole frame and its size |
| Framing.FrameFound | src/zfgw_datastream.cpp:143-159 | a round of the framing loop takes a whole frame of at least 16 bytes, so the loop ends |
| Framing.FindPartial | src/zfgw_datastream.cpp:144-157 | a proper prefix of a frame is neither taken for a frame nor for garbage |
| Framing.FramingRound | src/zfgw_datastream.cpp:141-157 | what one round of the loop at a position does to the parse of the whole buffer |
| Framing.ParseWellFormed | src/zfgw_datastream.cpp:156-159 | every frame that the loop takes is whole |
| Framing.ParseAppend | src/zfgw_datastream.cpp:136-139 | parsing bytes as they come equals parsing all at once: only the kept remainder matters |
| Framing.ParseBad | src/zfgw_datastream.cpp:148-152 | after a bad header no later byte changes the outcome of the buffer |
| Framing.ParseKeeps | src/zfgw_datastream.cpp:339-341 | frames taken and remainder make up exactly the bytes received |
| Framing.ParseFlat | src/zfgw_datastream.cpp:141-157 | a concatenation of whole frames and a partial one is cut into exactly those frames and that remainder |
| Framing.YieldPerLink | src/zfgw_datastream.cpp:138-157 | whatever the cuts and the interleaving of links, each link yields the frames of its own stream and keeps its own remainder |
| Framing.FragmentationIndependence | src/zfgw_datastream.cpp:136-168 | for whole frames followed by a partial one, any run that carries them yields exactly those frames on that link and holds back the partial one |
| Reassembly.DrainDelivers | src/zfgw_datastream.cpp:353-364 | the bytes handed over in one drain are the concatenation of the blocks that it takes |
| Reassembly.DrainCompleteIff | src/zfgw_datastream.cpp:353-359 | the drain leaves nothing deliverable behind if and only if no buffered number is numerically below the expected one when that one is there |
| Reassembly.WrapStalls | src/zfgw_datastream.cpp:354-355 | a state within the window, across the wrap at 2^32, in which the expected segment is buffered and never delivered |
| Reassembly.InOrderDelivers | src/zfgw_datastream.cpp:253-271 | data that arrives in order is delivered at once and in full, however much of it, also across the wrap at 2^32 |
| Reassembly.OvertakingAtTheWrapStalls | src/zfgw_datastream.cpp:344-359 | a run that leads to the stall: if the first segment after the wrap overtakes the last one before it, no segment that follows is ever delivered |
| Reassembly.DrainInWindow | src/zfgw_datastream.cpp:344-359 | draining keeps every buffered number within the window of the new expected one, modulo 2^32 |
| Reassembly.BufferBounded | src/zfgw_datastream.cpp:250-252 | numbers within the window are at most as many as the window is wide |
| Reassembly.ExactReassembly | src/zfgw_datastream.cpp:253-271 | for segments in any order and multiplicity below 2^32 - window: expected is the least number not accepted, the buffer holds exactly the accepted ones above it, delivered is the in-order concatenation below it |
| Race.PickPrimary | src/zfgw_datastream.cpp:367-383 | the scan returns the lexicographic maximum of (win rate, participations, smaller id) over exact rationals, or 0 if no link counts |
| Race.PickIs | src/zfgw_datastream.cpp:385-388 | that maximum is unique |
| Race.PickMeans | src/zfgw_datastream.cpp:367-383 | the recommended link in whole numbers: no counted link wins a greater part of its races, among equals none has more races, and among those none has a smaller id |
| Race.WinsBoundedIff | src/zfgw_datastream.cpp:237-278 | a win, loss, tick or reset keeps wins within participations if and only if it does not wrap the link's participation counter past its wins |
| Race.BoundedThroughoutIff | src/zfgw_datastream.cpp:237-242 | through races, halving and resets no link ever has more wins than participations, if and only if no race of the run overruns a 32-bit counter |
| Race.WinsStayBounded | src/zfgw_datastream.cpp:397-398 | given at most 2^31 races of a link between two ticks, the halving keeps every counter below 2^32 |
| Race.PacedNeverOverruns | src/zfgw_datastream.cpp:397-398 | so that pace is enough for no race to overrun a counter |
| Race.UnbeatenLinkSetsTheRateIff | src/zfgw_datastream.cpp:367-383 | if a counted link has never lost since the last reset, the recommended link has win rate 1 if and only if no counted link has more wins than participations |
| Race.UnbeatenLinkSetsTheRate | src/zfgw_datastream.cpp:367-383 | so it has in every run in which no race overruns a counter |
| Race.OverrunMisleads | src/zfgw_datastream.cpp:237-242 | a run from the start that overruns: two wins and 2^32 - 1 losses leave a link with two wins in one race, recommended at win rate 2 before a link that won all its races |
| Race.NobodyRaces | src/zfgw_datastream.cpp:237-242 | through all races and ticks no counter is kept for a link without a peer id |
| Race.FeedbackQuiesces | src/zfgw_datastream.cpp:390-404 | without races, of n ticks exactly min(n, bit length of the largest participation count) emit |
| Race.QuietAfter32 | src/zfgw_datastream.cpp:390-404 | so at most 32 ticks emit |
| Feedback.EpochsIncrease | src/zfgw_datastream.cpp:400-401 | any two emitted epochs strictly increase, until the counter wraps |
| Feedback.EpochsIncreaseIff | src/zfgw_datastream.cpp:400-401 | they do exactly as long as the counter does not wrap |
| Feedback.EmittedConsistent | src/zfgw_datastream.cpp:400-401 | so until then an emitter never gives one epoch to two recommendations, nor recommends link 0 |
| Feedback.AdoptCases | src/zfgw_datastream.cpp:212-227 | an epoch not newer than the applied one has no effect; a newer one is applied, and sets the primary unless it recommends link 0 |
| Feedback.AdoptAllJoins | src/zfgw_datastream.cpp:212-227 | adopting messages leaves the maximum epoch and that message's recommendation, or the old state |
| Feedback.OrderIndependent | src/zfgw_datastream.cpp:212-227 | any reordering and duplication of one emitter's messages gives the same epoch and primary |
| Feedback.NewGenerationRestarts | src/zfgw_datastream.cpp:187-195 | after a hello of a new generation the newest message of that generation is adopted, however high the old epoch |
| Arbiter.RaceIsTally | src/zfgw_datastream.cpp:186-195 | in every reachable state the race counters are the tally of the run's wins, losses, ticks and resets |
| Arbiter.HelloNames | src/zfgw_datastream.cpp:173-203 | a hello of version 2 names its link, and resets counters and applied epoch exactly if it is of another generation that is not 0 |
| Arbiter.OtherHello | src/zfgw_datastream.cpp:173-183 | a hello that cannot be decoded or is of another version has no effect |
| Arbiter.FirstCopyWins | src/zfgw_datastream.cpp:231-278 | of two copies of a segment the first wins the race for its link and the second loses it for its own, by the ids that the links' hellos gave |
| Arbiter.RecommendsAWinnerIff | src/zfgw_datastream.cpp:367-383 | in every reachable state with a counted link that has not lost since the last reset, the recommended link has win rate 1 if and only if no counted link has more wins than participations |
| Arbiter.RecommendsAWinner | src/zfgw_datastream.cpp:367-383 | so it has in every reachable state whose run overran no counter |
| Arbiter.StepEmits | src/zfgw_datastream.cpp:390-404 | of all events heartbeats alone number recommendations and send one, and exactly if the arbiter recommends a link |
| Arbiter.SentIsEmitted | src/zfgw_datastream.cpp:390-430 | what any run sends is the messages of the counters at its heartbeats, numbered consecutively from the epoch before it |
| Arbiter.QuietRunStops | src/zfgw_datastream.cpp:390-404 | from every reachable state, a run without races sends min(number of heartbeats, bit length of the largest participation count) recommendations, so at most 32 |
| Arbiter.OnlyFeedbackMoves | src/zfgw_datastream.cpp:173-227 | within one generation nothing but feedback messages moves the adopted epoch and primary |
| Arbiter.FeedbackIsAJoin | src/zfgw_datastream.cpp:212-227 | two runs of one generation with the same feedback messages, in any order, number and company, end with the same epoch and primary |
| Arbiter.LoopConverges | src/zfgw_datastream.cpp:212-227 | the whole loop: what a receiver of one generation ends with depends only on which of the emitter's messages reached it, not on order, repetition or other events |
| Arbiter.LastMessageDecides | src/zfgw_datastream.cpp:385-430 | and once the emitter's last message is there the receiver has its epoch and its link as primary, unless it had applied a newer epoch before |
| StreamSpec.SessionIff | src/zfgw_datastream.cpp:173-227 | session traffic is what has none of the flags 0x08, 0x10 and 0x20 |
| Runs.OnFrameIsStep | src/zfgw_datastream.cpp:160-227 | every frame amounts to one event of a run, or to none |
| Runs.CorruptLeavesNoTrace | src/zfgw_datastream.cpp:160-167 | with verification on, a frame that is not intact changes no state and causes no event |
| Runs.SessionFrameReceived | src/zfgw_datastream.cpp:160-229 | an intact session frame, or any with verification off, is received as its segment |
| Runs.BurstLeavesNoTrace | src/zfgw_datastream.cpp:160-167 | so a burst error of at most four bytes in the covered bytes or in the checksum leaves no trace at a receiver that verifies |
| Runs.RunExtends | src/zfgw_datastream.cpp:136-342 | one call of onChannelBytes continues a run by the events of its frames, so that what holds on every run holds after every call |
| Runs.ProcessFrame | src/zfgw_datastream.cpp:280-335 | an accepted segment touches no session but its own, also if handlers close their sessions |
| Runs.ReceiveCases | src/zfgw_datastream.cpp:229-337 | what a segment can make of its session: nothing, a fresh one, the delivery of its payload, or none |
| Runs.CallDataGives | src/zfgw_datastream.cpp:346-364 | a handler gets all blocks of one in-order run, also if it closes its session half-way |
| Runs.ReceiveGives | src/zfgw_datastream.cpp:344-365 | what the handler is given by a segment is the in-order run that its payload completes, and is what the session records as delivered |
| Runs.WindowAlways | src/zfgw_datastream.cpp:245-265 | in every reachable state every buffered number lies within the window modulo 2^32, and no buffer exceeds it, whatever a peer sends |
| Runs.MemoryAlways | src/zfgw_datastream.cpp:266-271 | map and queue always hold the same distinct keys, at most 4096 |
| Eviction.HoldsExactly4096 | src/zfgw_datastream.cpp:266-271 | the memory holds 4096 keys and no more: that many opens are all remembered, and one more pushes out the first |
| Runs.RejectedLeaveNoTrace | src/zfgw_datastream.cpp:160-167 | deleting every frame refused by CRC or window from a run changes neither the state (sessions, memory, counters, feedback) nor the events |
| Runs.NotRemembered | src/zfgw_datastream.cpp:245-265 | a segment that only ever came outside the window is not in the duplicate memory |
| Runs.LaterCopyAccepted | src/zfgw_datastream.cpp:245-252 | so its first copy inside the window is accepted and delivered as if it were the first |
| Lifecycle.SynCallsOpen | src/zfgw_datastream.cpp:282-296 | an accepted SYN calls onSessionOpen exactly once and nothing else, if there is a handler, and the session is there afterwards unless that closed it |
| Lifecycle.FinCallsClose | src/zfgw_datastream.cpp:297-311 | an accepted FIN of an open session calls onSessionClose exactly once and nothing else, if there is a handler, and the session is gone afterwards |
| Lifecycle.WhatIsCalled | src/zfgw_datastream.cpp:280-335 | any segment calls onSessionOpen at most once and only if it is a SYN, then onSessionClose at most once and only if it is a FIN, and otherwise only hands over data, no piece of it empty |
| Lifecycle.OthersAreNotCalled | src/zfgw_datastream.cpp:229-337 | no segment calls the handler of another session, and a duplicate or one outside the window calls nobody |
| Isolation.SecondOfAKeyIsDropped | src/zfgw_datastream.cpp:231-243 | of two segments with one duplicate key the second has no effect on sessions, whatever it carries; so mixed kinds are outside the claims below |
| Isolation.EmptyDataPoisons | src/zfgw_datastream.cpp:232-271 | a concrete failure outside the claims below: a data segment without payload makes the real one of that number a duplicate |
| Isolation.TakeAbsorbs | src/zfgw_datastream.cpp:253-265 | a number already taken is absorbed by the window test or by the insertion that does not overwrite |
| Isolation.IncarnationIsSolo | src/zfgw_datastream.cpp:229-337 | an incarnation of a session that begins with none of its keys but FINs remembered equals, while it stays open, a session that remembers no duplicate and sees only its own segments |
| Isolation.OpenSessionIsSolo | src/zfgw_datastream.cpp:229-337 | in particular a session that stays open from the start |
| Isolation.IncarnationReassembles | src/zfgw_datastream.cpp:312-365 | exact reassembly for every such incarnation with a handler, after every event of every run from its beginning on, ring and evictions included |
| Eviction.SecondIncarnationIsDeaf | src/zfgw_datastream.cpp:187-195 | why an incarnation has to be fresh: after data 0 and a FIN, data 0 of the next incarnation is dropped as a duplicate and makes no session, also behind a hello of a new generation, which forgets no duplicate |
| Isolation.RunReassembles | src/zfgw_datastream.cpp:312-365 | in particular for a session with a handler that stays open from the start of a run |
| Isolation.BoundedRefinesUnbounded | src/zfgw_datastream.cpp:231-271 | the 4096-entry ring refines a memory that never forgets: the session stays open there too, with the same bytes, buffer and position |
| Isolation.IncarnationsAreIsolated | src/zfgw_datastream.cpp:229-337 | two such incarnations with the same own events get the same bytes, buffer and position, whatever was before and whatever else their runs carry |
| Isolation.SessionsAreIsolated | src/zfgw_datastream.cpp:229-337 | in particular the sessions of two runs from the start |
| Isolation.UndisturbedStaysOpen | src/zfgw_datastream.cpp:297-311 | a session without FIN, close or reaction of its handler stays open, whatever happens to others |
| Erasing.ErasedStaysOpenIff | src/zfgw_datastream.cpp:232-311 | erasing all events of other sessions from a run in which a session stays open leaves it open if and only if, in the erased run, each FIN and each SYN whose open callback closes finds its key remembered; for any handler, and from any two states in which the session is fresh |
| Erasing.ErasedIsSame | src/zfgw_datastream.cpp:229-337 | and then bytes, buffer and position are the same |
| Erasing.ErasingFromFewChangesNothing | src/zfgw_datastream.cpp:266-271 | so it always is, FINs and closing callbacks included, for a session whose own segments have at most 4096 different duplicate keys |
| Erasing.ErasingOthersChangesNothing | src/zfgw_datastream.cpp:229-337 | and for any session that gets no FIN and whose onSessionOpen does not close it |
| Eviction.ErasingCanCloseAfterFin | src/zfgw_datastream.cpp:266-271 | 4096 is exact: a session with 4097 keys that stays open in its run, and that a FIN closes once the other session's segments are erased |
| Sending.SegmentReads | src/zfgw_datastream.cpp:94-117 | the receiver reads a sent segment as the key, number, kind and payload that it was sent with, and its CRC is valid |
| Sending.SegmentRoutes | src/zfgw_datastream.cpp:94-110 | a sent segment names the configured outport and the session's ingress id, and has the route flag if and only if an outport is configured |
| Sending.ChunksAreData | src/zfgw_datastream.cpp:82-90 | the chunks of a call are its data, cut into pieces that are neither empty nor longer than the segment size |
| Sending.ChunksAreFull | src/zfgw_datastream.cpp:82-90 | all chunks but the last are of the segment size, so there are as few as possible |
| Sending.SentPieces | src/zfgw_datastream.cpp:83-91 | what goes out are the first chunks, numbered consecutively modulo 2^32; the call fails at the first one that finds no live link, having used one number more than it sent |
| Sending.PiecesRead | src/zfgw_datastream.cpp:80-91 | the frames of a call are read as data segments with the numbers and payloads of its pieces, in order |
| Sending.FinReads | src/zfgw_datastream.cpp:57-70 | each FIN that a handler causes is read as a close of its session with its number |
| Sending.FeedbackReads | src/zfgw_datastream.cpp:406-425 | the peer reads a feedback frame as feedback with its payload, and it is no session traffic |
| Sending.LiveIdsAre | src/zfgw_datastream.cpp:420-427 | feedback goes to exactly the live links |
| Stream.DataStream.constructor | src/zfgw_datastream.cpp:16-32 | an unusable segment size becomes 1200 and window 0 becomes 1024; everything of the stream starts empty, and the manager's primary link is left as it is |
| Stream.DataStream.SendSegment | src/zfgw_datastream.cpp:94-134 | encodes the frame of the segment, routed if an outport is configured, and hands it to the links that the selector chooses; fails if no link is live |
| Stream.DataStream.OpenSession | src/zfgw_datastream.cpp:40-55 | busy if the session is there; otherwise it is entered and a SYN with number 0 goes out |
| Stream.DataStream.CloseSession | src/zfgw_datastream.cpp:57-70 | a FIN with the next number goes out and the entry is erased; nothing happens without an entry |
| Stream.DataStream.SendSessionData | src/zfgw_datastream.cpp:72-92 | sends exactly the frames of the pieces, uses exactly the numbers of the call, and reports the size or the failure |
| Stream.DataStream.CallHandler | src/zfgw_datastream.cpp:293-305 | one callback, which may re-enter closeSession on its own session |
| Stream.DataStream.CollectReady | src/zfgw_datastream.cpp:352-359 | the loop takes the in-order run out of the buffer in place: the drained session and its blocks |
| Stream.DataStream.DeliverInOrder | src/zfgw_datastream.cpp:344-365 | collects first, calls the handler afterwards; nothing without a handler |
| Stream.DataStream.HandleSyn | src/zfgw_datastream.cpp:282-296 | as specified for a SYN: the entry is made if missing, and an existing handler is told |
| Stream.DataStream.HandleFin | src/zfgw_datastream.cpp:297-311 | as specified for a FIN: the handler is told and the entry is gone, also if the handler erased it |
| Stream.DataStream.HandleData | src/zfgw_datastream.cpp:312-335 | as specified for a payload: entry, insertion that does not overwrite, in-order delivery |
| Stream.DataStream.NoteKey | src/zfgw_datastream.cpp:266-271 | a new key pushes out the oldest of 4096, in map and queue |
| Stream.DataStream.NoteWin | src/zfgw_datastream.cpp:275-278 | the link's win and participation, if its peer id is known |
| Stream.DataStream.NoteLoss | src/zfgw_datastream.cpp:237-242 | a duplicate's link only participates |
| Stream.DataStream.ReceiveSegment | src/zfgw_datastream.cpp:229-337 | duplicate test, then window test, then memory, race and processing, equal to the specification in state and events |
| Stream.DataStream.ApplyHello | src/zfgw_datastream.cpp:173-203 | peer identity, and the reset at a new generation |
| Stream.DataStream.ApplyFeedback | src/zfgw_datastream.cpp:212-227 | a newer epoch is applied, and its primary set if not 0 |
| Stream.DataStream.HandleFrame | src/zfgw_datastream.cpp:159-337 | CRC check, then hello, heartbeat, feedback or session segment, in this order |
| Stream.DataStream.HandleBuffer | src/zfgw_datastream.cpp:141-341 | the framing loop equals parsing the buffer and handling its frames one by one |
| Stream.DataStream.OnChannelBytes | src/zfgw_datastream.cpp:136-342 | new state, events and kept remainder are those of the frames of old remainder and new bytes; a bad header drops the buffer |
| Stream.DataStream.RecommendedPrimary | src/zfgw_datastream.cpp:385-388 | the arbiter's unique maximum |
| Stream.DataStream.EmitFeedback | src/zfgw_datastream.cpp:390-430 | recommendation, decay of all counters, the next epoch, and the frame to every live link |
| Selector.BetterWeighsMore | src/zfgw_channel_manager.cpp:151-157 | a link that is no worse in priority, round trip and loss, and better in one of them, weighs more; an unknown round trip counts as 50 ms and loss is clamped to 0 to 0.99 |
| Selector.WeightExchange | src/zfgw_channel_manager.cpp:157 | the weight is proportional to the priority, and twice the round trip costs as much as half the priority and as ten per cent of loss |
| Selector.WeightedChoice | src/zfgw_channel_manager.cpp:162-192 | one or two distinct live links: first the fed-back primary if live, otherwise one of greatest weight, and a second whenever there is one; for any order of ties |
| Selector.FirstIsUndominated | src/zfgw_channel_manager.cpp:162-181 | without a live fed-back primary no live link is better than the first one in that sense |
| Selector.BestChoice | src/zfgw_channel_manager.cpp:163-165 | BEST sends one copy, on a link of greatest weight, which no live link dominates |
| Selector.AllChoice | src/zfgw_channel_manager.cpp:166-168 | ALL sends on exactly the live links, once each |
| Selector.ChoosesIff | src/zfgw_channel_manager.cpp:138-166 | nothing is chosen exactly if no link is live, in every mode |
| Selector.ProbeCoverage | src/zfgw_channel_manager.cpp:184-190 | n - 1 consecutive tickets probe each of the other links exactly once |
| Selector.CoverageIff | src/zfgw_channel_manager.cpp:186 | with the 64-bit counter's own wrap: exactly if the round does not cross it, or n - 1 divides 2^64 |
| Selector.CoverageUnderInterleaving | src/zfgw_channel_manager.h:85-87 | for any n - 1 consecutive tickets of any interleaving of concurrent callers, once those calls have finished: each other link is probed exactly once if and only if the round does not cross the counter's wrap, or n - 1 divides 2^64 |
| Selector.LinkSelector.Sort | src/zfgw_channel_manager.cpp:159-160 | descending weights, a permutation of the entries |
| Selector.LinkSelector.Rank | src/zfgw_channel_manager.cpp:149-160 | the live links of the pool with their weights, ranked |
| Selector.LinkSelector.Select | src/zfgw_channel_manager.cpp:138-200 | the choice of the mode for the ranking, primary and ticket; only a weighted choice with an alternative draws a ticket |
| Channel.CheckedIff | src/zfgw_channel.h:61-63 | on every run in time order a check finds a link stalled exactly if its silence modulo 2^32 exceeds the timeout |
| Channel.VerdictRightIff | src/zfgw_channel.h:55-63 | the verdict is right if and only if the silence is within the timeout or still exceeds it modulo 2^32 |
| Channel.WrapLooksFresh | src/zfgw_channel.h:58-60 | a concrete wrong verdict: a link silent for 2^32 ticks looks fresh |
| Channel.RecoversOnTraffic | src/zfgw_channel.h:179-208 | received bytes clear a stall, reconnecting alone does not |
| Channel.ConnectedIff | src/zfgw_channel.h:179-189 | a link is connected if and only if its last connect was not followed by a drop |
| Channel.LiveIff | src/zfgw_channel.h:118 | right after a check a link is used if and only if it is connected in that sense and its silence modulo 2^32 is within the timeout |
| Channel.IFgwChannel.EvaluateStall | src/zfgw_channel.h:132-137 | the heartbeat check, in place |
| Channel.IFgwChannel.AddRecvBytes | src/zfgw_channel.h:198-208 | receive clock and recovery, in place |
| Channel.IFgwChannel.MarkConnected | src/zfgw_channel.h:179-189 | connecting starts the receive clock, dropping leaves it |
| TransitRuns.TablesSoundAndHealing | src/zfgw_transit.cpp:75-151 | in every state before stop each routed link is registered and of the right direction, no link whose close task has run is left anywhere, and every configured outport has an unfailed link, a pending close task or a pending redial |
| TransitRuns.SweepHeals | src/zfgw_transit.cpp:229-256 | the close task of a routed link schedules the redial of exactly its outport, that of another link none, and no route loses its pending repair |
| TransitRuns.Transparent | src/zfgw_transit.cpp:192-201 | over any run with the route in place, the frames sent to the outport's link that came from an inbound link are exactly its frames that are not hop-local and name the outport, in order and byte for byte |
| TransitRuns.NextHopSees | src/zfgw_transit.cpp:195-198 | a framer at the far end of any link cuts the stream into the very frames sent there |
| TransitRuns.InboundIsLatest | src/zfgw_transit.cpp:182-194 | the inbound table holds, for each ingress id, the latest link that announced or carried it and was not swept since |
| TransitRuns.ReverseGoesToLatest | src/zfgw_transit.cpp:202-210 | frames from an outport go, in order and byte for byte, to that latest link |
| TransitRuns.RequestIsRouted | src/zfgw_transit.cpp:192-201 | a session frame from an Inport goes to the link of the outport that it names, and on no other |
| TransitRuns.ReplyReturns | src/zfgw_transit.cpp:182-210 | once an Inport link has carried a session frame, a session frame with that ingress id from an Outport is sent on that link and on no other, whatever happens in between, until another Inport link carries or announces the id or that link is swept |
| TransitRuns.ControlStops | src/zfgw_transit.cpp:179-191 | hello, heartbeat and feedback frames are not forwarded |
| TransitRuns.OnBytesCrosses | src/zfgw_transit.cpp:192-210 | every forwarded frame goes from an inbound link to an outbound one or the other way round, never back to the same side |
| Transit.TransitService.DialOutports | src/zfgw_transit.cpp:69-73 | one dial for each configured channel |
| Transit.TransitService.DialOneOutport | src/zfgw_transit.cpp:75-104 | a fresh link replaces the outport's old one; a failed connect schedules a redial |
| Transit.TransitService.RunRedial | src/zfgw_transit.cpp:106-124 | the timer dials the outport again |
| Transit.TransitService.MakeInboundChannel | src/zfgw_transit.cpp:126-141 | an accepted link is registered as inbound, with an empty buffer |
| Transit.TransitService.RouteFrame | src/zfgw_transit.cpp:179-210 | hello learnt or ignored, heartbeat and feedback consumed, other frames forwarded by outport id or ingress id |
| Transit.TransitService.RouteBuffer | src/zfgw_transit.cpp:160-217 | the framing loop equals routing the parsed frames one by one |
| Transit.TransitService.OnLinkBytes | src/zfgw_transit.cpp:153-218 | new state and sent frames as specified; bytes of an unknown link are ignored |
| Transit.TransitService.OnLinkClosed | src/zfgw_transit.cpp:220-225 | only a task is scheduled |
| Transit.TransitService.Erase | src/zfgw_transit.cpp:236-250 | every entry of the link is erased and the last outport id found is the greatest |
| Transit.TransitService.RunCloseTask | src/zfgw_transit.cpp:226-257 | the link leaves all tables, and an outbound one that was routed gets a redial |
| Socks.ParseExtends | src/zfgw_outport.cpp:193-237 | a request once read or refused does not depend on bytes that follow |
| Socks.ParseInverts | src/zfgw_outport.cpp:206-234 | parsing inverts the encoder of a CONNECT request (section 4 of RFC 1928) for all three address types |
| Socks.EncoderBytes | src/zfgw_outport.cpp:173-237 | the encoder that is inverted writes the bytes of sections 3 and 4 of RFC 1928 |
| Socks.TargetNamesAddress | src/zfgw_outport.cpp:210-233 | the recorded target text determines the port and, among addresses of one type, the address |
| Socks.DecimalReads | src/zfgw_outport.cpp:210-216 | numbers are written in decimal digits without a leading zero and read back as themselves |
| Socks.TextReads | src/zfgw_outport.cpp:217-224 | a domain name is recorded as it came, byte by byte |
| Socks.ColonsText | src/zfgw_outport.cpp:225-232 | an IPv6 address is written as 39 characters, eight groups of four hexadecimal digits of its bytes in order with colons in between |
| Socks.DottedExample | src/zfgw_outport.cpp:210-216 | an example: 192.168.0.10:8080 |
| Socks.FeedAppend | src/zfgw_outport.cpp:132-171 | feeding two pieces equals feeding them at once, from every state: replies, target, phase, relayed bytes and buffer |
| Socks.AnySplit | src/zfgw_outport.cpp:132-171 | and so for any split into any number of pieces |
| Socks.HandshakeInverts | src/zfgw_outport.cpp:173-290 | greeting and request of RFC 1928, followed by anything: no-authentication reply, the request's target dialed, the rest kept; a failed dial gives reply 04 and closes |
| Socks.Refusals | src/zfgw_outport.cpp:199-260 | another command or an unknown address type is refused with reply 07 and another version without a reply, and no target is contacted |
| Socks.Unreachable | src/zfgw_outport.cpp:274-290 | a target that cannot be dialed gives reply 04 and closes |
| Socks.Conservation | src/zfgw_outport.cpp:78-100 | on every run the consumed handshake, the bytes written to the target and the buffer make up the bytes fed until the session closes, and a prefix of them afterwards |
| Socks.TargetGetsThePayload | src/zfgw_outport.cpp:85-99 | once relaying, the target has been written exactly what the client sent after its handshake, however cut and whenever the target answered |
| Socks.ClientGets | src/zfgw_outport.cpp:78-109 | the client of a relaying session has been sent the chosen method, the grant, and exactly the bytes of the target in order |
| Socks.FarewellOnce | src/zfgw_outport.cpp:111-130 | on every run a relay closes the stream's session and is removed exactly once if it has closed, however it came to that, and never reopens |
| RelaySession.FgwRelaySession.FeedRx | src/zfgw_outport.cpp:132-171 | the loop of the session equals the specified advance on old buffer and new bytes |
| RelaySession.FgwRelaySession.TryParseMethods | src/zfgw_outport.cpp:173-191 | the greeting step, with its three outcomes |
| RelaySession.FgwRelaySession.FormatV6 | src/zfgw_outport.cpp:225-232 | the loop's text is the address's bytes in pairs, in hexadecimal, with colons in between |
| RelaySession.FgwRelaySession.ReadRequest | src/zfgw_outport.cpp:199-238 | the request's parse, including the IPv6 loop |
| RelaySession.FgwRelaySession.TryParseRequest | src/zfgw_outport.cpp:193-267 | the request step: wait, refuse with or without reply 07, or dial |
| RelaySession.FgwRelaySession.StartConnect | src/zfgw_outport.cpp:274-290 | a connection attempt that cannot start gives reply 04 and closes |
| RelaySession.FgwRelaySession.OnRemoteOpen | src/zfgw_outport.cpp:78-100 | success reply, relaying, and the bytes that came in meanwhile are flushed |
| RelaySession.FgwRelaySession.CloseNow | src/zfgw_outport.cpp:111-130 | the first close, and no later one, drops the target, closes the stream's session and removes the relay |
| EndToEnd.PrefixSafety | src/zfgw_datastream.cpp:72-365 | on every run with loss, duplication, reordering across links, fragmentation and link failure, directly or through a transit, the delivered bytes are a prefix of those passed to sendSessionData |
| EndToEnd.HandlerSeesPrefix | src/zfgw_datastream.cpp:344-365 | the same for the calls of the handler: what it had before in this incarnation and the new bytes are a prefix of what was written, also if it closes its session meanwhile |
| CleanLink.SessionArrives | src/zfgw_datastream.cpp:40-365 | a whole session over a link that loses nothing: the frames of opening it, sending data and closing it make the other side call onSessionOpen, hand over exactly the data in pieces of the segment size, and call onSessionClose, and nothing else |
| Crossing.TransferCrosses | src/zfgw_transit.cpp:192-201 | all frames of a session's life, however cut and whatever else comes in, are sent in order and byte for byte on the link of the outport that their stream is configured for, while the route is in place |
| Crossing.AnswerReturns | src/zfgw_transit.cpp:182-210 | and a data frame of the session sent back by the other stream returns on the link that the session's frames came from, unless the route is disputed |
| Delivery.ReceiverRuns | src/zfgw_datastream.cpp:136-342 | within the end-to-end run the receiver makes a run of its own events, so that what holds of runs holds there |
| Delivery.EverythingArrives | src/zfgw_datastream.cpp:72-365 | the complement of prefix safety: an open session with a handler waits for the least number it has not accepted and has been given exactly what was written below it; it stands at the sender's next number if and only if every number used was accepted, and has then been given all of the written bytes |
| EndToEnd.StopsAtGap | src/zfgw_datastream.cpp:83-89 | a failed send uses up a number that the receiver never passes, buffers or delivers |
| EndToEnd.CallFramesGenuine | src/zfgw_datastream.cpp:72-134 | the frames of a call are ones that the end-to-end claim allows on any link, any number of times and at any later time, and pass the CRC |
| EndToEnd.ControlGenuine | src/zfgw_datastream.cpp:53-66 | so are the SYN and FIN of any session |
| EndToEnd.HubReadOk | src/zfgw_transit.cpp:153-218 | the transit's forwarding keeps the end-to-end invariant |
| EndToEnd.HubSends | src/zfgw_transit.cpp:160-210 | what the transit sends on is what it has read, and data in the forward direction stays genuine although reverse data of the same session passes the same tables |
| EndToEnd.ReadOk | src/zfgw_datastream.cpp:136-342 | the receiver's reading of any number of bytes on any link keeps it |
| EndToEnd.AskKeepsNumber | src/zfgw_datastream.cpp:80-91 | nothing but sending moves a session's next number |

## Left out

- Sockets, reactor, timers, acceptors, connectors, libutp, configuration files, remote calls and logging: input and output only; what they may do is a step of the environment.
- The ZDS encoding of hello and feedback payloads: generated code over primitives that are not part of this model; payloads decode to abstract records.
- Locks and callback threads: each public call is one atomic step, except the shared probe ticket, whose interleavings are modelled.
- Floating-point rounding: win rates and link weights are exact rationals, and links of equal weight may come in any order.
- `Session.opened`, `closed` and `wire_ingress_id`: an entry is erased in the call that would set `closed`, and the wire id equals the key's.
- The results of `sendBytes`, and `sendSegment`'s positive return value: no caller uses more than its sign.
- Sends of a handler inside its callbacks, other than the FIN of closing its own session: modelled as calls that come after the callback.
- A SYN that also carries data or FIN, whose open callback closes the session: the source goes on with an iterator to an erased entry; the model stops there.
- The ingress id 0xFFFFFFFF as a peer's id: it is the marker for the local one, so a handler of such a session would close another; callbacks close their own key here.
- Resynchronisation after a bad magic byte: the whole buffer is dropped, so the outcome depends on the cuts; framing claims are for well-formed streams.
- Isolation.BoundedRefinesUnbounded: for segments of the kinds that are sent and while the session stays open; after a close an evicted key can let an old segment reopen the session, as the source does.
- EndToEnd.PrefixSafety: one transit; a chain of transits forwards whole frames in the same way.
- Transit.TransitService.RunCloseTask: `stop()` and the transit's own heartbeats are not modelled; heartbeats are frames that any node may write.
- Selector.LinkSelector.Sort: an insertion sort stands for the library's sort.
- Segment.Encode: a null payload with a positive length, which leaves the payload bytes as they were, is not modelled.
- The reconnect policy of the ChannelManager, status reports, byte counters, the Inport's SOCKS5 listener and virtual machine bring-up: no claim beyond their own bodies.
