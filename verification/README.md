# A verified model of the Link firmware

This project models, in Dafny, an Ableton Link node: the C firmware of the discovery,
measurement, session, audio and HTTP parts, and the Migen gateware for MIDI and beat
pulses. Code that changes state in place is a class or a method over arrays, proved equal to
a function on values; the theorems are about those functions and about whole runs of them.
Packet loss, delay and reordering, the other nodes, and every clock reading are inputs of
the runs, so a theorem about all runs is a theorem about all of them.

| file | what it models |
|---|---|
| `Bytes.dfy`, `SeqTools.dfy` | big-endian accessors, byte-wise id order, C division; counting and searching |
| `Tlv.dfy`, `AddressWalk.dfy`, `WireFormat.dfy` | TLV printer and parser (`tlv.c`); the parser on 32-bit addresses; the bytes of keys, headers and messages |
| `Median.dfy` | in-place quickselect (`median.c`) |
| `Measurement.dfy`, `PongParsing.dfy`, `OffsetAccuracy.dfy`, `StaleEchoes.dfy` | ping/pong state machine and responder; which datagrams they take; accuracy over a lossy network; where that ends |
| `Link.dfy`, `Discovery.dfy`, `PeerHistory.dfy`, `Broadcast.dfy`, `TempoEdits.dfy` | discovery codec, peer table, schedule, timeline edits (`link.c`) |
| `Session.dfy`, `Adoption.dfy`, `TwoNodes.dfy`, `Cluster.dfy` | session election (`session.c`): one node, what it adopts and when it measures, two nodes, any number |
| `AudioPacket.dfy`, `JitterRing.dfy`, `AudioStream.dfy`, `Catalog.dfy` | `link_audio.c` |
| `Midi.dfy`, `MidiStream.dfy`, `MidiLoopback.dfy`, `MidiData.dfy`, `MidiRealTime.dfy` | `midi.py`, cycle by cycle |
| `BeatPulse.dfy` | `beat_pulse.py` and `beat_pulse.c` |
| `Http.dfy` | request accumulation (`http_server.c`) |

## Where the code does not do what one might expect

- **Zero stamps.** A ping the timer re-sends before any PONG carries `_pgt` = 0, and the receiver tests that the
  entry is present, not that it is non-zero (`firmware/measurement.c:144`). The repository's written protocol asks
  for a non-zero one, and averages against the previous host time where the code takes this ping's; the model
  follows the code. Each run started can add four such samples to the network, and echoes that arrive in a later
  run count there: a second run can hold eight (`StaleEchoes.EightInOneRun`). So "at most four per completed run"
  fails, and so, after twelve runs that time out, does the error bound: the thirteenth start can complete with 51
  zero stamps among 102 samples, off by a quarter of the offset (`StaleEchoes.ThirteenthRun`). The bound holds for
  all histories of up to n starts if and only if n is at most 12 (`StaleEchoes.SafeIff`).
- **TLV sizes.** `vp + size > end` is computed in 32 bits on the target, so a size that carries the address past
  2^32 passes the test. A header with an unknown key and size 2^32 - 8 leads back to itself, and `tlv_walk`
  does not return (`AddressWalk.FixedPoint`, `DiscoveryDoesNotReturn`). Up to such headers the code and the
  unbounded walk agree (`AddressWalk.WalkAgreesIff`).
- **The 51st PONG.** A run whose PONGs all beat the timer completes at the 51st, unless the host clock read 0 when the
  second ping left (`Measurement.FiftyOnePongs`).
- **Election.** With measurement error e, two founders can exchange sessions exactly when the ghost time of the higher id
  leads by more than 500 ms - e and less than 500 ms + e (`TwoNodes.SwapReachableIff`).
- **MIDI receiver.** The first wait of 1.5 bits is stored in a register sized for one bit. When it does not fit, as
  with the divider 1600 of a 50 MHz build, every byte arrives as twice its value modulo 256; with 2400 (75 MHz)
  it fits (`MidiLoopback.ReproducesIff`, `SlippedDoubles`, `DefaultClocks`).
- **Audio.** The first packet after a subscription begins at a 64-sample boundary, so it may hold samples captured before
  the subscription (`AudioStream.StartIsAligned`).
- **HTTP.** When nothing but white space stands between `Content-Length:` and the end of the headers, `atoi` reads
  on into the body, and the result depends on how much of the body has come in (`Http.CutIndependentIff`).
- **Pulses.** With a pulse width of 0, or one not below the period, the output rises once and stays high
  (`BeatPulse.NoPulses`).

## Model

| member | source | states |
|---|---|---|
| `Bytes.Put32` | firmware/tlv.h:50-52 | four bytes, most significant first, from which `be32` recovers the value |
| `Bytes.Put64` | firmware/tlv.h:53-56 | eight bytes from which `be64` recovers the value |
| `Bytes.ToU64` | firmware/tlv.h:53-56 | two's complement: the cast back gives the signed value again |
| `Bytes.CDiv` | firmware/measurement.c:141-145 | division that truncates toward zero |
| `Bytes.MemLessTotal` | firmware/session.c:92-93 | `memcmp` orders distinct ids of one length in exactly one way |
| `Bytes.MemLessTransitive` | firmware/session.c:92-93 | the byte order of ids is transitive |
| `Tlv.EmitHeader` | firmware/tlv.c:3-8 | appends key and size behind what the buffer holds |
| `Tlv.EmitBytes` | firmware/tlv.c:27-32 | appends one printed entry |
| `Tlv.EmitU64` | firmware/tlv.c:21-25 | appends one printed entry with a 64-bit value |
| `Tlv.TlvWalk` | firmware/tlv.c:34-46 | the loop computes `Walk`, the recursive parse, for any callback and context, sizes being added without a bound |
| `Tlv.WalkFeedsPrinted` | firmware/tlv.c:34-46 | walking printed entries and a tail that holds no entry feeds exactly those entries in order until one is refused; it succeeds if all were taken and the tail is empty |
| `Tlv.EveryBufferDecomposes` | firmware/tlv.c:34-46 | every buffer is a list of printed entries and a truncated or overlong rest |
| `Tlv.ScanPrinted` | firmware/tlv.c:34-46 | that list is unique |
| `Tlv.WalkGrammar` | firmware/tlv.c:34-46 | for every buffer and callback, while no address wraps: what is visited, and success if and only if all entries are taken and nothing is left over |
| `Tlv.AcceptingWalk` | firmware/tlv.c:34-46 | with an accepting callback, while no address wraps, the walk returns 0 exactly on concatenations of printed entries |
| `Tlv.FeedSkipsUnknown` | firmware/link.c:219-222 | entries the callback does not know can be left out |
| `Tlv.WalkKeeps` | firmware/tlv.c:34-46 | what the callback keeps, the walk keeps, on any buffer |
| `AddressWalk.WalkAgreesIff` | firmware/tlv.c:34-46 | on 32-bit addresses the code makes the calls of `Walk` and returns its result if and only if no header it reaches has address + 8 + size of 2^32 or more |
| `AddressWalk.FixedPoint` | firmware/tlv.c:37-44 | at a header of size 2^32 - 8 that the callback takes the loop makes no progress in any number of rounds |
| `AddressWalk.DiscoveryDoesNotReturn` | firmware/link.c:177-223 | eight bytes at the end of a discovery message on which the walk does not return, where `Walk` gives -1 |
| `AddressWalk.SizeTestIff` | firmware/link_audio.c:265-330 | exactly when a size test on a 32-bit sum or product decides as on the exact number |
| `WireFormat.BigEndian` | firmware/tlv.h:47-56 | words are written most significant byte first |
| `WireFormat.KeysAreLetters` | firmware/tlv.h:21-33 | the keys are the four letters of their names |
| `WireFormat.DiscoveryHeaders` | firmware/link.c:73-81 | the twenty header bytes of state messages and goodbyes |
| `WireFormat.StateLayout` | firmware/link.c:85-126 | the rest of a state message, field by field |
| `WireFormat.PingLayout` | firmware/measurement.c:44-52 | the bytes of a ping |
| `WireFormat.AudioHeaders` | firmware/link_audio.c:96-104 | the twenty header bytes of audio messages |
| `WireFormat.AudioDatagramHeader` | firmware/link_audio.c:386-391 | audio is type 6 with no time to live |
| `Median.Partition` | firmware/median.c:14-22 | rearranges lo..hi around a pivot position, smaller before it, not smaller behind it, nothing else touched |
| `Median.NthElement` | firmware/median.c:24-31 | terminates, rearranges only lo..hi, and leaves at k an element with nothing greater before and nothing smaller behind it there |
| `Median.MedianInPlace` | firmware/median.c:33-44 | for every n the middle of the sorted input, for even n the mean of the two middle elements truncated toward zero although the second pass reorders again; the array is a permutation of the input |
| `Median.SortSorts` | firmware/median.c:24-31 | the reference sort that defines the median sorts and permutes |
| `Median.SortedIsUnique` | firmware/median.c:24-31 | a multiset has one sorted order |
| `Median.SelectedIsOrderStatistic` | firmware/median.c:24-31 | a selected position holds the element of that rank |
| `Median.MedianIsMiddle` | firmware/median.c:33-44 | of the sorted samples, for odd n the middle element, for even n the mean of the two middle ones with half a unit dropped toward zero |
| `Median.MedianIgnoresMinority` | firmware/median.c:33-44 | when fewer than half the samples lie outside an interval the median lies inside it |
| `Measurement.EncodePing` | firmware/measurement.c:44-52 | the buffer holds header, `__ht` and, when given, `_pgt` |
| `Measurement.ResponderHandleRx` | firmware/measurement_responder.c:23-45 | answers well-headed PINGs that fit with session, stamp and the payload echoed, nothing else |
| `Measurement.PongRoundTrip` | firmware/measurement_responder.c:29-44 | every ping is answered, and the PONG parses to that ping's stamps, the responder's session and ghost time, for all 64-bit values |
| `PongParsing.ParsePongIff` | firmware/measurement.c:98-128 | over all payloads: a usable PONG exactly when it is a list of entries, the known ones of eight bytes, with host time, ghost time and session, read from the last of each |
| `PongParsing.OthersAreNotPongs` | firmware/measurement.c:122-124 | no datagram without the nine bytes of the head is one |
| `PongParsing.RespondIff` | firmware/measurement_responder.c:25-44 | over all datagrams: answered exactly when headed as a PING and of at most 480 bytes, with session, stamp and the payload to the byte |
| `PongParsing.PongsAreNotAnswered` | firmware/measurement_responder.c:25-27 | no answer is answered |
| `Measurement.Machine.Start` | firmware/measurement.c:65-76 | a busy machine refuses; an idle one is reset and sends its first ping, without `_pgt` |
| `Measurement.Machine.SendPing` | firmware/measurement.c:54-63 | the ping sent and the new stamps, count and deadline |
| `Measurement.Machine.Tick` | firmware/measurement.c:78-89 | waits, fails after the fifth ping, or re-sends |
| `Measurement.Machine.Parse` | firmware/measurement.c:122-128 | which datagrams are PONGs, and what they say |
| `Measurement.Machine.TakeSamples` | firmware/measurement.c:137-147 | the one or two samples a PONG adds |
| `Measurement.Machine.HandleRx` | firmware/measurement.c:118-158 | ignores strays, fails on a foreign session, otherwise samples and either completes with the median or pings again |
| `Measurement.AcceptProgress` | firmware/measurement.c:137-158 | every accepted PONG adds one or two samples, lowers the measure, and completes exactly when the run ends; success has 101 or 102 samples |
| `Measurement.TickProgress` | firmware/measurement.c:78-89 | a timer that fires lowers the measure, and fails the run exactly when no ping is left |
| `Measurement.UnansweredRunFails` | firmware/measurement.c:54-89 | a run nobody answers fails, not before 250 ms, and by the fifth of ticks 50 ms apart, over every schedule of ticks |
| `Measurement.SwitchedTargetFails` | firmware/measurement.c:130-135 | the PONG of a node that has changed session ends the run in failure |
| `Measurement.FiftyOnePongs` | firmware/measurement.c:137-158 | over every schedule of PONGs that beat the timer: 2k - 1 samples after k, success at exactly the 51st with the median of 101 samples, and the clock reading on which it is not |
| `OffsetAccuracy.RunKeepsInv` | firmware/measurement.c:54-158 | over every run of starts, ticks, answers, losses and deliveries in any order: samples are genuine or zero-stamped, and zero stamps in flight or taken are at most four per run started |
| `OffsetAccuracy.StraysAreIgnored` | firmware/measurement.c:118-124 | any datagram from another address or port, or not headed as a PONG, at any time: no sample, ping or completion; such datagrams are events of every run below |
| `OffsetAccuracy.RunsAreFinite` | firmware/measurement.c:65-89 | at most four timer pings, at most 100 samples while active, one completion per start |
| `OffsetAccuracy.SampleError` | firmware/measurement.c:139-142 | a first sample is within half of send-to-receive of the true offset, up to half a microsecond of truncation |
| `OffsetAccuracy.StampError` | firmware/measurement.c:143-146 | a second sample is within half of the interval between the stamps it averages |
| `OffsetAccuracy.MedianIsAccurate` | firmware/measurement.c:137-154 | every successful run in every reachable state: 101 or 102 samples, at most 4 zero-stamp ones per run started, all others within their bracket, and an intercept within half the widest bracket plus half a microsecond while zero stamps are a minority, as they are for twelve runs |
| `StaleEchoes.ZeroStampsReachable` | firmware/measurement.c:54-89 | four zero stamps per run started is attained: the n-th run can hold any number up to 4n and 50 |
| `StaleEchoes.EightInOneRun` | firmware/measurement.c:137-145 | a second run with eight zero stamps is reachable |
| `StaleEchoes.ThirteenthRun` | firmware/measurement.c:137-152 | a legal history of 13 starts whose success is off by at least a quarter of the offset |
| `StaleEchoes.SafeIff` | firmware/measurement.c:137-154 | every success of every history with at most n starts is within half its widest bracket plus half a microsecond if and only if n <= 12 |
| `Link.PutTimeline` | firmware/link.c:85-89 | 24 bytes that read back as the same timeline |
| `Link.PutStartStop` | firmware/link.c:94-98 | 17 bytes that read back as the same start/stop state |
| `Link.EncodeMsg` | firmware/link.c:73-130 | the message with state is header and seven entries, 173 bytes, under the 512 of its buffer |
| `Link.EncodeBye` | firmware/link.c:150-162 | the goodbye is the twenty bytes of its header |
| `Link.Node.FindOrAllocPeer` | firmware/link.c:225-239 | the peer's slot, else the first free one cleared and claimed, else none |
| `Link.Node.EvictPeer` | firmware/link.c:241-249 | clears the first slot of that id |
| `Link.Node.HandleRx` | firmware/link.c:251-288 | table, observed slot and whether to respond, for every datagram |
| `Link.Node.Tick` | firmware/link.c:294-317 | new schedule, whether an ALIVE is sent, and the pruned table |
| `Link.Node.SetLocalTempo` | firmware/link.c:323-337 | re-anchors the timeline at the present beat |
| `Link.Node.SetPlay` | firmware/link.c:339-351 | pins start/stop to the beat the current timeline gives at that instant |
| `Discovery.SlotOfSender` | firmware/link.c:225-239 | a sender gets its own slot or a free one exactly when the table can hold it |
| `Discovery.StateRoundTrip` | firmware/link.c:177-288 | handling an encoded ALIVE or RESPONSE leaves in the sender's slot exactly its timeline, session, start/stop and endpoints, for all 64-bit values, every other slot as it was, and a response due to an ALIVE only |
| `Discovery.FeedAssembles` | firmware/link.c:177-223 | a well-sized payload means the last value of each known key |
| `Discovery.WrongSizeRefused` | firmware/link.c:180-215 | a known key with the wrong size is refused and changes nothing |
| `Discovery.OrderAndUnknownKeysIrrelevant` | firmware/link.c:177-223 | permuting distinct known entries and inserting or removing unknown ones changes nothing |
| `PeerHistory.TableKeeps` | firmware/link.c:225-316 | over every history with a monotone clock: ids distinct, present only if heard and not gone since, and present if so when the table was never full |
| `PeerHistory.ByeEvicts` | firmware/link.c:241-271 | hearing another node's goodbye leaves its id absent and every other entry as it was |
| `PeerHistory.OwnMessagesIgnored` | firmware/link.c:264-265 | a datagram with the node's own id changes nothing |
| `PeerHistory.OthersIgnored` | firmware/link.c:253-272 | nor does one of another protocol, group or type, or cut short |
| `PeerHistory.PruneLeavesRest` | firmware/link.c:308-316 | a tick clears what is a second past its expiry and leaves the rest exactly |
| `PeerHistory.HeardIsSaid` | firmware/link.c:251-288 | on encoded messages, what the table counts as heard is what other nodes sent |
| `PeerHistory.TableAgreesWithHistory` | firmware/link.c:251-316 | after a tick an id is in the table only if last heard at most 6 s ago with no BYEBYE since, and, if the table was never full for a new id, exactly then |
| `PeerHistory.TableAgreesWithMessages` | firmware/link.c:150-316 | the same over every exchange of encoded ALIVEs, RESPONSEs and BYEBYEs, a node's own included |
| `Broadcast.AlivesAreSpaced` | firmware/link.c:132-142 | over every run with ticks at most δ apart: consecutive ALIVEs 50 ms to 250 ms + δ apart, and none overdue |
| `Broadcast.ChangeIsBroadcast` | firmware/link.c:294-306 | with a change pending a tick sends if and only if 50 ms have passed since the last ALIVE |
| `Broadcast.QuietTicks` | firmware/link.c:132-306 | with nothing pending a tick sends if and only if 250 ms have passed since the last ALIVE |
| `TempoEdits.EditKeepsPhase` | firmware/link.c:323-337 | the new timeline gives at the edit the beat the old one gave |
| `TempoEdits.DriftIsBounded` | firmware/link.c:323-337 | after k edits the beat origin is at most the exact integral of tempo, and less than k micro-beats below it |
| `TempoEdits.TempoIsNearest` | firmware/link.c:324 | the tempo is the whole number of microseconds nearest to a minute over bpm |
| `TempoEdits.BeatsBeforeOrigin` | firmware/link.c:330-331 | before the origin beats are truncated toward it |
| `Session.FounderSlot` | firmware/session.c:33-49 | the slot of the founder if it is known, else of the first peer in the session, else none |
| `Session.Best` | firmware/session.c:112-124 | the first slot of the session with the latest time origin, none without a peer in it |
| `Session.Supervisor.FindFounder` | firmware/session.c:33-49 | the two search loops return that slot |
| `Session.Supervisor.KnownInLocalView` | firmware/session.c:51-60 | own session, or one a present peer was measured for |
| `Session.Supervisor.ObservePeer` | firmware/session.c:62-77 | whether to measure whom; the target is overwritten even when the busy machine refuses |
| `Session.Supervisor.OnMeasureDone` | firmware/session.c:79-136 | marks the session measured, and switches, adopts and marks an ALIVE due if and only if the rule says so |
| `Session.Supervisor.AdoptBest` | firmware/session.c:112-130 | adopts timeline and start/stop of the best peer |
| `Session.Supervisor.RemeasureTick` | firmware/session.c:141-157 | when a joined node measures its session again |
| `Adoption.SwitchAdopts` | firmware/session.c:86-131 | on a switch timeline and start/stop are both those of a member of the joined session with the latest origin, unchanged if there is none; without a switch session, intercept, timeline and start/stop stay |
| `Adoption.SuccessIsRemembered` | firmware/session.c:79-106 | success marks exactly the members of the measured session with the result; failure changes nothing |
| `Adoption.LaunchIff` | firmware/session.c:51-77 | when hearing a peer launches a measurement, against whom, and of what |
| `Adoption.MeasuredOnce` | firmware/session.c:51-77 | a session measured is not measured again on hearing its marked members |
| `Adoption.RemeasureIff` | firmware/session.c:143-157 | a joined node measures again at exactly the ticks more than 30 s after the last time, if the session is in the table; a founder never |
| `TwoNodes.RuleSelectsExactlyOne` | firmware/session.c:86-95 | outside the error band of ±500 ms, of two founders' decisions exactly one is to switch, whatever the errors |
| `TwoNodes.RunKeepsInv` | firmware/session.c:62-157 | over every interleaving: a running measurement is against the target, both never hold each other's session, a switch is final |
| `TwoNodes.NeverSwap` | firmware/session.c:79-157 | in every interleaving outside the swap band the two never exchange sessions, and once they share one they share it for ever |
| `TwoNodes.NoLateSuccess` | firmware/measurement.c:130-135 | once a node has switched, a measurement against it for which it had stamped no PONG before succeeds in no continuation |
| `TwoNodes.SwapReachableIff` | firmware/session.c:86-95 | an exchange, on PONGs stamped before either switch, is reachable if and only if the lead of the higher id is within e of 500 ms |
| `Cluster.SwitchLowers` | firmware/session.c:86-110 | with differences below 500 ms a node that switches moves to a strictly lower session id, its own target |
| `Cluster.RanksOfDistinct` | firmware/session.c:92-94 | n founders have ranks 0 to n - 1, which is where the bound comes from |
| `Cluster.ElectionTerminates` | firmware/session.c:62-157 | n founders switch at most n(n-1)/2 times in any run, with no assumption on busy refusals |
| `Cluster.LowestFounderStays` | firmware/session.c:86-110 | the founder of the lowest id never leaves its session |
| `JitterRing.PushRefines` | firmware/link_audio.c:470-474 | a push appends and keeps the newest 1024, also across the wrap of the 32-bit indices |
| `JitterRing.DrainRefines` | firmware/link_audio.c:559-563 | a drain takes the oldest sample, or nothing from an empty ring |
| `JitterRing.RunRefines` | firmware/link_audio.c:468-475 | any interleaving of pushes and drains does to the ring what it does to a drop-oldest FIFO, and yields the same samples |
| `JitterRing.Jitter.PushSample` | firmware/link_audio.c:470-474 | the ring in place, as the function and as the FIFO |
| `JitterRing.Jitter.DrainSample` | firmware/link_audio.c:559-563 | the ring in place, as the function and as the FIFO |
| `AudioPacket.EncodeAudio` | firmware/link_audio.c:386-406 | the datagram of one packet of 64 samples |
| `AudioPacket.Subscription.CountFrames` | firmware/link_audio.c:435-443 | the sum of the chunks' frame counts modulo 2^16 |
| `AudioPacket.Subscription.PushFrames` | firmware/link_audio.c:468-475 | plane 0 of the interleaved samples enters the ring, oldest dropped |
| `AudioPacket.Subscription.HandleAudioBuffer` | firmware/link_audio.c:427-477 | a body is taken if and only if it parses, is of the own session and the subscribed channel; then its samples enter the ring, else nothing changes |
| `AudioPacket.AudioRoundTrip` | firmware/link_audio.c:390-476 | an encoded body parses to its channel, session and samples |
| `AudioPacket.PacketFields` | firmware/link_audio.c:390-405 | number, frames, beats, tempo, codec, rate, channels and byte count stand where the protocol has them |
| `AudioPacket.PacketBeatsMean` | firmware/link_audio.c:378-384 | a packet's beats are those of its first sample, 1333 microseconds before |
| `AudioPacket.AudioBodyIff` | firmware/link_audio.c:485-522 | which datagrams are audio of another node |
| `AudioPacket.ParseBodyIff` | firmware/link_audio.c:428-454 | the exact condition on a body's bytes for it to be accepted |
| `AudioPacket.TotalIsSum` | firmware/link_audio.c:435-443 | the frames announced are the sum over all chunks modulo 2^16 |
| `AudioPacket.FirstChannelPlayed` | firmware/link_audio.c:463-470 | of any number of interleaved channels, sample 0 of every frame is taken |
| `AudioPacket.DatagramTaken` | firmware/link_audio.c:483-525 | a receiver takes exactly the samples of a datagram of its session and channel, and none of another's |
| `AudioPacket.Packetiser.OnFrame` | firmware/link_audio.c:535-552 | collects 64 samples, sends them numbered if anyone subscribes, and starts over |
| `AudioStream.PushAllSplits` | firmware/link_audio.c:468-475 | pushing samples loses the oldest ones beyond 1024 and no others |
| `AudioStream.StreamConserved` | firmware/link_audio.c:375-565 | over every run, overflow included: samples gone from the ring, ringed, on the link and pending are, in order, what was captured from the start of the first packet, less exactly one aligned 64-sample block per lost packet; what was played is what is gone less what overflowed |
| `AudioStream.PacketIsNumbered` | firmware/link_audio.c:394 | packets carry the number of packets sent before them, lost or not |
| `AudioStream.LosslessPrefix` | firmware/link_audio.c:375-565 | without loss or overflow the receiver's slot carries a prefix of what was captured from there |
| `AudioStream.StartIsAligned` | firmware/link_audio.c:537-551 | the first packet begins at the last multiple of 64 captured samples before the subscription, so at the subscription if and only if 64 divides that count |
| `AudioStream.PlaysOnlyNewSamplesIff` | firmware/link_audio.c:537-565 | the samples played begin with the one captured there, so all are younger than the subscription if and only if 64 divides the count |
| `AudioStream.OlderThanSubscription` | firmware/link_audio.c:537-551 | a subscription after one captured sample, whose first packet begins with that sample |
| `Catalog.Stored` | firmware/link_audio.c:331-334 | at most 31 characters and NULs up to 32 |
| `Catalog.UpsertSpec` | firmware/link_audio.c:339-362 | on the catalog as a map: the id maps to its new name and endpoint if it was known or a slot is free, nothing else changes, ids stay unique |
| `Catalog.UpsertRecords` | firmware/link_audio.c:352-362 | a refreshed entry keeps the peer it came from, a new one takes the announcer's, and both the time |
| `Catalog.UpsertAllSpec` | firmware/link_audio.c:327-363 | with room for the new ids, a list of channels updates exactly its ids, the last mention counting |
| `Catalog.AnnouncementRoundTrip` | firmware/link_audio.c:110-369 | hearing an encoded announcement updates the catalog by exactly its channels, and yields its name and ping |
| `Catalog.ByeForgets` | firmware/link_audio.c:259-286 | a bye makes the catalog forget exactly the ids it lists |
| `Catalog.MisfitsRefused` | firmware/link_audio.c:304-325 | entries of the wrong size are refused and change nothing |
| `Catalog.AcceptedIff` | firmware/link_audio.c:259-369 | which entries of announcements and byes are accepted, and that refused byes change nothing |
| `Catalog.TakenIffFits` | firmware/link_audio.c:324-364 | a vector is taken whole exactly when it holds the channels it counts |
| `Catalog.RemoteCatalog.HandleByes` | firmware/link_audio.c:259-286 | the two loops drop the listed ids |
| `Catalog.IdsStayUnique` | firmware/link_audio.c:259-369 | over every run of announcements and byes, well formed or not, channel ids stay unique |
| `Catalog.RemoteCatalog.UpsertChannel` | firmware/link_audio.c:339-362 | the search loop updates or claims the slot the function says |
| `Catalog.RemoteCatalog.TakeVector` | firmware/link_audio.c:327-364 | the channel loop over the vector, kept up to the item that does not fit |
| `Catalog.RemoteCatalog.HandleEntry` | firmware/link_audio.c:301-369 | every key of the callback, and which sizes it refuses |
| `Catalog.RemoteCatalog.HandleAnnouncement` | firmware/link_audio.c:499-507 | the walk over the body with the callback |
| `Catalog.MeasureVector` | firmware/link_audio.c:130-135 | the loop's total is the number of bytes the second loop writes |
| `Catalog.EmitVector` | firmware/link_audio.c:138-145 | the channels in use, in slot order |
| `Catalog.EncodeAnnouncement` | firmware/link_audio.c:110-153 | header and session, name, channel and ping entries |
| `Midi.IsRtMeans` | litex_soc/midi.py:88-90 | the classifier is true exactly of 0xF8 to 0xFF |
| `Midi.Transmitter.StepShifter` | litex_soc/midi.py:194-232 | one cycle of the shift machine, all registers read before any changes |
| `Midi.Transmitter.StepArbiter` | litex_soc/midi.py:179-192 | one cycle of the real-time slot, the shift machine's clear winning |
| `Midi.Transmitter.Step` | litex_soc/midi.py:158-239 | one cycle of the transmitter and the level of its wire |
| `Midi.Receiver.StepSampler` | litex_soc/midi.py:246-287 | one cycle of the sampler, first wait truncated to its register |
| `Midi.Receiver.StepSlot` | litex_soc/midi.py:309-335 | one cycle of the real-time event slot |
| `Midi.Receiver.Step` | litex_soc/midi.py:241-342 | one cycle of sampler, slot and FIFO |
| `MidiStream.TxBits` | litex_soc/midi.py:201-239 | a loaded frame holds the wire for ten bit times and no longer |
| `MidiStream.RxFrame` | litex_soc/midi.py:256-287 | from a falling edge the machine strobes once, with the eight levels at its sample times |
| `MidiStream.OneFrame` | litex_soc/midi.py:256-287 | if the samples fall in the right bits a byte on the wire is one strobe with that byte |
| `MidiLoopback.SeesWhenClose` | litex_soc/midi.py:263-272 | the inequalities on two dividers under which every sample falls inside its bit |
| `MidiLoopback.StreamRoundTrip` | litex_soc/midi.py:201-287 | for such dividers, any inputs and any length, the receiver strobes exactly the bytes sent, in order, once each |
| `MidiLoopback.SameDividerStream` | litex_soc/midi.py:201-287 | for every divider at both ends: the bytes sent, or, if the first wait does not fit its register, each one slipped by a bit |
| `MidiLoopback.SlippedDoubles` | litex_soc/midi.py:249-268 | a slipped byte is twice the byte modulo 256 |
| `MidiLoopback.ReproducesIff` | litex_soc/midi.py:249-268 | a divider reproduces every stream if and only if d + d/2 is at most the register's modulus |
| `MidiLoopback.DefaultClocks` | litex_soc/midi.py:249-268 | 1600 does not, 2400 does |
| `MidiData.TxConserves` | litex_soc/midi.py:201-235 | data loaded and data queued are all data pushed, in order, whatever real-time bytes come between |
| `MidiData.RtLoadsAreRt` | litex_soc/midi.py:179-218 | injected bytes are real-time bytes, so removing those leaves the data |
| `MidiData.RxConserves` | litex_soc/midi.py:309-342 | popped, queued and just struck bytes are all non-real-time bytes received |
| `MidiData.FullFifoDrops` | litex_soc/midi.py:158-163 | a FIFO takes a byte while it holds fewer than 64 |
| `MidiData.DataRoundTrip` | litex_soc/midi.py:158-342 | end to end without FIFO overflow the receiving CPU gets the non-real-time data pushed, complete and in order, under any interleaving of real-time bytes |
| `MidiRealTime.RtLoadsAreAsked` | litex_soc/midi.py:166-218 | over every run: each real-time byte sent is that of the latest pulse since the slot was last taken, 0xFA for start, 0xFC for stop, 0xF8 for clock, in this order of precedence |
| `MidiRealTime.RtRoundTrip` | litex_soc/midi.py:166-287 | and so is the byte the receiver strikes for it |
| `MidiRealTime.RealTimeGoesFirst` | litex_soc/midi.py:205-218 | while a real-time byte waits no data byte is loaded |
| `MidiRealTime.ResetAndDisable` | litex_soc/midi.py:179-204 | soft reset empties the slot and frees the wire, a disabled transmitter holds its frame |
| `MidiRealTime.ReceiverResetAndDisable` | litex_soc/midi.py:256-286 | soft reset drops the byte being received, a disabled receiver holds it, neither strikes one |
| `MidiRealTime.SlotKeepsFirst` | litex_soc/midi.py:309-321 | until acknowledged the event slot keeps its byte, or takes the first real-time byte struck |
| `MidiRealTime.AckEmptiesSlot` | litex_soc/midi.py:310-334 | an acknowledgement or a reset empties it |
| `BeatPulse.Generator.Step` | litex_soc/beat_pulse.py:80-103 | one cycle of counter, pulse and width, from the old values |
| `BeatPulse.RunIsClosed` | litex_soc/beat_pulse.py:80-103 | after any cycles from reset the registers are a closed form of the number of ticks |
| `BeatPulse.PulseTrain` | litex_soc/beat_pulse.py:89-101 | for 0 < W < P it rises exactly at ticks 0, P, 2P, ... and is high exactly the W ticks from each |
| `BeatPulse.NoPulses` | litex_soc/beat_pulse.py:89-101 | for other widths it never falls |
| `BeatPulse.BeatPulseDriver.LoadTimeline` | firmware/beat_pulse.c:13-33 | the registers written, and the run flag |
| `BeatPulse.BeatPulseDriver.SetBeatsPerBar` | firmware/beat_pulse.c:47-50 | at least one |
| `BeatPulse.SubdivisionLead` | firmware/beat_pulse.c:17-24 | the 24m-th subdivision pulse leads the m-th beat pulse by exactly m (tempo mod 24) microseconds |
| `BeatPulse.PeriodsMean` | firmware/beat_pulse.c:17-24 | every period register is its part of the beat to the microsecond below, the bar its beats; half a second without a tempo |
| `Http.HeaderEnd` | firmware/http_server.c:93-97 | the first blank line with no NUL before it |
| `Http.LengthField` | firmware/http_server.c:102-110 | the first place in the headers with either spelling of the field |
| `Http.Connection.ParseHeadersInPlace` | firmware/http_server.c:92-112 | nothing without a blank line; else body offset and length |
| `Http.Connection.ScanLength` | firmware/http_server.c:101-111 | the scan yields the number behind the field's colon, 0 if that is not in the headers |
| `Http.AtoiReadsDecimal` | firmware/http_server.c:107 | white space, an optional sign and a decimal number are read as that number |
| `Http.LengthIsRead` | firmware/http_server.c:99-111 | the length is what follows the field's colon in the headers, 0 without |
| `Http.Connection.RequestComplete` | firmware/http_server.c:114-118 | when a request is complete, with the unsigned wrap of a negative length |
| `Http.CompleteIff` | firmware/http_server.c:114-118 | complete with length 0, or when the bytes it counts are in; never with a length that reaches back before the start |
| `Http.Connection.ReadWord` | firmware/http_server.c:125-140 | the word is cut at a space, a NUL or its limit |
| `Http.Connection.DispatchRequest` | firmware/http_server.c:120-159 | 400, 404 or the first route of that method and path, with path, body and length |
| `Http.ReplyMeans` | firmware/http_server.c:120-159 | a method of up to 7 and a path of up to 63 characters call the first route of exactly these, with path, body and length, else 404 |
| `Http.LongMethod` | firmware/http_server.c:125-134 | a longer method is answered 400 |
| `Http.LongPath` | firmware/http_server.c:136-140 | a longer path is matched by its first 63 characters |
| `Http.TooLargeIff` | firmware/http_server.c:172-181 | 413 for exactly the segments that do not fit 4096 bytes |
| `Http.Connection.OnRecv` | firmware/http_server.c:161-196 | refuse, wait or answer, and the connection in between |
| `Http.ContentLengthOfPrefix` | firmware/http_server.c:99-111 | once the headers are in, the length does not depend on what else is, unless its value is blank |
| `Http.SegmentationIndependence` | firmware/http_server.c:161-196 | every cut of a request of at most 4095 bytes is dispatched exactly once, on its last segment, as if it had come in one |
| `Http.BlankLengthLosesBody` | firmware/http_server.c:105-108 | with a blank length and a body, the cut behind the headers dispatches without the body |
| `Http.CutIndependentIff` | firmware/http_server.c:92-196 | cuts are invisible if and only if the body is empty or the length is not blank |
| `Http.BlankLengthExample` | firmware/http_server.c:105-108 | such a request, 24 bytes long, and the two different calls |

## Left out

- lwIP, drivers and address configuration (`firmware/net.c`, `firmware/netif_litex.c`): a send is a value the model returns.
- `firmware/webui.c`, `firmware/main.c`, `firmware/eurorack.c`, `firmware/midi.c`, `firmware/tdm.c`, `firmware/ghost_time.c`: register wrappers and user interface; host and ghost time are inputs.
- The TDM serialiser: it outputs a slot's top bit twice, so samples do not round-trip through it.
- Random ids, the peer name's default and the parts of `link_init` and `link_audio_init` that only clear memory.
- Adding and removing subscribers, channel requests, the re-request timer, announcements' timing, the audio PONG: table housekeeping of the kind the catalog already has.
- The loops over 16 TDM slots and over the subscription table: one lane and one subscription are modelled. Dropping subscriptions on a bye is not.
- Signed overflow: sums of clocks, stamps and beats are taken to stay in 64 bits. Host clocks are below 2^63 and do not run backwards.
- Floating point: beats and tempos are exact rationals, truncated where the code truncates.
- 32-bit wrap in `name_len + 8`, `4 + len`, `count * 8` and `chunk_count * 26`: `AddressWalk.SizeTestIff` says when these tests decide otherwise than here; what the code then reads is outside the entry and not modelled.
- Tlv.TlvWalk: adds sizes without a bound; `AddressWalk.WalkAgreesIff` says exactly when the 32-bit code does the same.
- Tlv.WalkGrammar: as `Tlv.TlvWalk`.
- Tlv.AcceptingWalk: as `Tlv.TlvWalk`.
- AddressWalk.WalkAgreesIff: the buffer ends at least eight bytes below the top of the address space.
- AudioPacket.Subscription.HandleAudioBuffer: `chunk_count * 26` is unbounded.
- Catalog.RemoteCatalog.TakeVector: `name_len + 8` is unbounded.
- Catalog.RemoteCatalog.HandleEntry: `4 + len` is unbounded.
- Catalog.RemoteCatalog.HandleAnnouncement: as `Tlv.TlvWalk` and the two above.
- MIDI timestamps and the period meter, which read the previous latch; the number of clock bytes per pulse; the synchroniser's delay and metastability. Migen is not part of this model: FIFOs are first-in first-out queues that drop a push when full.
- The pulse generator's reset bit is an input of its runs. In the firmware the bit is set and not cleared in the files modelled.
- The start and stop one-shots of `litex_soc/beat_pulse.py`, and the LEDs.
- `session_tick`'s peer LED, and the pulse periods that adopting a timeline reloads.
- That re-measurement follows small drift: it does not move the intercept when the session is the node's own and the difference is small.
- That a peer's measured flag belongs to its present session: a session entry replaces the session and keeps the flag.
- OffsetAccuracy.MedianIsAccurate: the responder's offset is constant and PONGs are not duplicated; after more than twelve starts the bound is conditional on zero stamps being a minority of the samples, and `StaleEchoes.SafeIff` shows that it has to be.
- TwoNodes.NeverSwap: ghost times differ by a constant, the bound on the measurement error is a parameter, and every peer entry is about the other node.
- Cluster.ElectionTerminates: assumes every measured difference stays below 500 ms; beyond it the preference is not transitive.
- PeerHistory.TableAgreesWithHistory: the "if" half needs a table that never turned a new id away.
- AudioStream.StreamConserved: the link is in order, and there is one subscription over the run.
- Catalog.EncodeAnnouncement: stated for announcements that fit the 1200 bytes of the buffer, which the code does not check.
- Catalog.AnnouncementRoundTrip: names are byte strings without NUL of at most 31 characters. What a shorter second `__pi` entry leaves behind the NUL of the peer name is not modelled.
- MidiLoopback.StreamRoundTrip: soft reset low and enable high throughout, the wire read from idle to idle.
- MidiData.DataRoundTrip: neither FIFO is pushed when full.
- Link.Node.SetPlay: excludes a timeline with a beat length of 0, as `Link.Node.SetLocalTempo`.
- AudioPacket.Packetiser.OnFrame: excludes a timeline with a beat length of 0, as `Link.Node.SetLocalTempo`.
- Link.Node.SetLocalTempo: a beat length of 0 in the old timeline or a bpm of 0 divides by zero, and results out of 64 bits are undefined; all three are excluded.
- Http.Connection.ParseHeadersInPlace: a buffer filled to its 4096 bytes has no room for the terminator, and is excluded.
- Http.Connection.OnRecv: a segment that fills the 4096 bytes exactly while the headers are incomplete leaves no room for the terminator, and is excluded. Closing on a TCP error is not modelled.
- Http.Atoi: values an `int` cannot hold.
- Http.Connection.DispatchRequest: handlers and responses are not modelled, only which handler is called with what.
