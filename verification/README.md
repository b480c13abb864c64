# sendspin-cli: models and proofs

A Dafny model of the parts of sendspin-cli, a command-line synchronised-audio player, whose
correctness spans threads, processes or long runs. `dafny verify dfyconfig.toml` checks all of it.

- **The PCM path.** `Volume` is Q32 gain and its ramp; `PcmRing` the ring buffer as an object,
  `RingThreads` the same ring as two threads' atomic steps and `StreamRing` as the sinks share it;
  `SinkWrite` the ALSA write loop and the staging shared by the push-model sinks; `PipeWireSink` and
  `PortAudioSink` the two ring-fed sinks as monitors whose write() parks with the mutex released;
  `Recovery` the attempt budget.
- **Discovery.** `Mdns` is the candidate machine as values, `MdnsRuns` its whole runs, `MdnsListing`
  and `MdnsStory` what it lists against what dns_sd has said, `MdnsService` the class that works
  this way in place, `MdnsRules` the pure rules beside it.
- **The control channel.** `ControlLock` is the lock, unlink, bind protocol as processes over a
  shared file system; `ControlLine`, `ControlCodec` and `Decimal` the text protocol both ways;
  `ControlPump` the bounded connection pump.
- **Pacing and sequencing.** `Outbound` paces dials, `Hooks` sequences event hooks, `LineSense` is
  the capture side's hysteresis and timestamps.

Where the source changes state in place the model is a class; a value-level function specifies
each of its methods, and the theorems are about those functions over any run. `Machine` and `Arith`
hold shared helpers.

## What the proofs found

- **A parked write can leave a new stream off its gain.** src/pipewire_sink.cpp:798-801 snaps a new
  stream to its target, but a write() parked since before the configure() then runs
  src/pipewire_sink.cpp:508-511 and commits its own ramp. `PipeWireSink.PlayAcrossConfigure` gives
  the exact condition, with the target in force at the configure() as a parameter;
  `PlayReachesTarget` bounds it from both sides over every schedule that leaves the volume alone;
  `OffTargetRun` and `SteadyGainOffTarget` are runs that fail it. poll() cannot do the same: no
  rescan is owed while a stream is alive. `PortAudioSink` is free of it: only its callback moves
  the gain.
- **One read can hand out two generations.** The callback holds no lock, so a clear() and a write()
  can fall between its flag test and its load (`StreamRing.OneReadOfTwoGenerations`; `MixedReadIff`
  says exactly when, and `ClearIsLateIff` when a clear() comes too late for the read in progress).
  What holds is that after clear() and that read nothing older is ever handed out
  (`NothingOlderThanSettled`).
- **clear() on a failed stream may empty the ring under a read.** src/pipewire_sink.cpp:533-536 takes
  no live stream to mean no consumer, but a callback that had begun may still be in its read; the
  position it then stores makes the ring read as holding bytes nobody wrote, unless it stores 0
  (`PcmRing.DropUnderRead`). Opening a stream resets the ring, and so ends it.
- **A server can be dropped while still announced.** src/mdns_dnssd.cpp:541-546 means to drop one only
  when its last interface has gone, but an interface on which its resolve was refused is not counted
  (`MdnsListing.LostWhileCarried`; `ListedAsCarriedIff` says exactly when that cannot happen).
- **A refused stream's audio is not always discarded.** src/player_listener.cpp:73-84 says so, but a
  device that cannot be resolved leaves the stream before it open, and the audio goes there at the
  wrong format (`PortAudioSink.RefusedYetFed`; `WriteAfterRefusal` says exactly when).
- **A deferred clear also drops what was written after it**, up to the level the clearing read loads
  (`RingThreads.ClearDropsToItsLevel`, `LaterByteIsDropped`).
- **advertise() and browse() must not be called over a live one**: each then leaks the ref, and only
  then (`MdnsRuns.AdvertiseLeaksIffLive`, `BrowseLeaksIffLive`; `SecondCallLeaks` reaches both).
- **Both halves of the lock-file rule are needed.** Removing the lock file on closing, as the
  pidfile does, breaks exclusion; releasing the lock before unlinking takes a live player's name
  (`ControlLock.ExclusionIffLockFileStays`, `NamedIffUnlockedLast`).
- **Successive line-sense reports may agree**, exactly when an even number of transitions was
  published between them (`LineSense.ReportsAgreeIff`, `ReportedPresentTwice`).

## Assumptions about the outside

Ring steps are sequentially consistent, and the ring is sized while no thread uses it. A driver
takes no more than it is offered. A callback has finished when an abort, disconnect or close
returns; PortAudio's runs only on an active stream, and PipeWire starts none on a failed one, though
one it was in goes on. dns_sd calls back only through refs not yet deallocated, while processing
that ref, and hands out only numbers it has not used before. flock is exclusive per file, and a
crash closes descriptors and nothing else. What an address literal is, what a block of samples
measures, and what a clock reads are inputs.

## Model

| member | source | states |
|---|---|---|
| `PipeWireSink.Session` | src/pipewire_sink.cpp:428-744 | Over any run of writes, reconfigurations, clears, stops, polls, stream deaths and single atomic steps of the callback's read, a read under way when the stream fails included, interleaved wherever no lock forbids it, no byte handed to the graph is older than the generation whose clear() or opening was through when that read tested the flag; only what a read takes after a clear() has emptied a failed stream's ring under it is not answered for |
| `PipeWireSink.Sink.Play` | src/pipewire_sink.cpp:455-512 | Whatever interrupts it, write() pushes exactly the bytes it counts, whole frames, all under the generation it captured, as one ramp from the gain on entry; it stops short only for shutdown, for a stream that is gone, or out of time with the ring full; uninterrupted before its first look it lands at least all that fits; no poll() reopens under it; the gain it leaves is the ramp of the frames that landed at the step the sink then has |
| `PipeWireSink.Sink.Write` | src/pipewire_sink.cpp:428-512 | It plays if and only if the stream was alive or its one reopen is granted, the format can be opened, opening succeeds and no stop came meanwhile; what lands is one ramp under one generation, from the gain on entry or, on a stream just opened, at its target, and at least all that fits there; it stops short only for the reasons of Play; otherwise the audio is swallowed in whole frames, nothing is pushed, and the budget has what the attempt came to |
| `PipeWireSink.Sink.Feed` | src/pipewire_sink.cpp:475-506 | The loop lands a whole-frame prefix under one generation, at least what fits on entry if its first look is undisturbed, all of it unless shutdown, the stream's going or a full ring ends it, and exactly what fits if a configure() then opens a new stream while it is parked |
| `PipeWireSink.Sink.Pass` | src/pipewire_sink.cpp:476-505 | One pass lands exactly what fits, or parks; it goes on only at the same generation, and gives up only for shutdown, a stream that is gone or a ring still full |
| `PipeWireSink.Sink.OpenStream` | src/pipewire_sink.cpp:772-917 | A stream that opens has a new generation, an empty ring and its gain at the target |
| `PipeWireSink.Sink.RunConfigure` | src/pipewire_sink.cpp:405-427 | Opens at the new format with a full recovery budget, or refuses during shutdown without touching anything |
| `PipeWireSink.Sink.RunClear` | src/pipewire_sink.cpp:515-538 | Ends the generation, then asks the live callback for the drain, whose read may take steps in between; with the stream failed it empties the ring at once, and marks it if a read was still under way, and then only |
| `PipeWireSink.Sink.RunStop` | src/pipewire_sink.cpp:540-560 | Latches, forgets the format and closes the stream |
| `PipeWireSink.Sink.RunPoll` | src/pipewire_sink.cpp:603-645 | Reconnects only when a rescan is granted, reports exactly that outcome to the budget, and does nothing while none is owed; a granted one leaves a stream open, at its format and its target gain, if and only if it opened and no stop arrived meanwhile |
| `PipeWireSink.Sink.ReopenInPlace` | src/pipewire_sink.cpp:947-978 | It succeeds if and only if it is not shut down, has a format that can be opened and a reopen in hand, opening succeeds and no stop came meanwhile; then the stream is at that format and its target gain with an empty ring of the size asked for; what the budget becomes is stated in each case |
| `PipeWireSink.RingFrames` | src/pipewire_sink.cpp:284-287 | At least the time asked for, to a millisecond's frames, and never under 1024 frames |
| `PortAudioSink.PaSession` | src/portaudio_sink.cpp:469-712 | Over any run, callback steps falling anywhere, no byte reaches the device older than the generation whose clear() or start was through when that read began, and an open stream's output is what the callbacks alone made of the gain it started at; with an unmoved target the gain has never been off it |
| `PortAudioSink.PortSink.Write` | src/portaudio_sink.cpp:523-601 | It plays if and only if the stream was alive or a reopen is tried and succeeds; exactly the bytes counted landed, unscaled, under one generation, at least all that fits on entry or in the new ring if nothing comes first, and all of them unless shutdown, the stream's going or a full ring ends it |
| `PortAudioSink.PortSink.RunCallback` | src/portaudio_sink.cpp:971-998 | One step of the callback; the last step of its read appends one whole buffer, what was taken and zeros, at the target then read, and nothing else moves the gain |
| `PortAudioSink.OneTargetOneRamp` | src/portaudio_sink.cpp:980-998 | However callbacks cut it up, underruns included, one target is one uninterrupted ramp over everything handed out |
| `PortAudioSink.SteadyFromTheStart` | src/portaudio_sink.cpp:762-767 | A stream whose target never moved has never been off its target |
| `PortAudioSink.PortSink.RestartStream` | src/portaudio_sink.cpp:849-875 | The reuse path is a new generation with an empty ring and the gain snapped, or leaves the stream to be reopened |
| `PortAudioSink.PortSink.RunConfigure` | src/portaudio_sink.cpp:469-521 | It succeeds if and only if the device is resolved and either the stream of that format on it restarts or a new one starts; success is a live stream at its target gain with the budget refilled, and a refusal leaves a stream open exactly if the device was not resolved and one was, and then untouched |
| `PortAudioSink.WriteAfterRefusal` | src/player_listener.cpp:73-84 | After a refused configure() a write reaches the stream that was open before if and only if the device was not resolved and that stream was alive |
| `PortAudioSink.RefusedYetFed` | src/portaudio_sink.cpp:491-495 | A run from construction in which audio at 44.1 kHz, refused, is taken by the stream still open at 48 kHz |
| `PortAudioSink.PortSink.RunPoll` | src/portaudio_sink.cpp:647-712 | One granted rescan closes and reopens once and is always reported as recovered; it leaves a stream open, at its format and target gain, if and only if PortAudio came back, the stream started and no stop arrived meanwhile; with none owed nothing is done |
| `PortAudioSink.PortSink.ReopenInPlace` | src/portaudio_sink.cpp:877-927 | Tried only for a stream that was running, a known format, no shutdown and a reopen in hand; it succeeds if and only if the stream then starts and no stop came meanwhile; what the budget becomes is stated in each case |
| `PipeWireSink.Sink.RunCallback` | src/pipewire_sink.cpp:677-704 | One atomic step of the callback's read on a live stream; on one that has failed a read under way goes on and none begins |
| `PipeWireSink.Sink.Park` | src/pipewire_sink.cpp:493-504 | Whatever runs while write() is parked moves the generation if it touches the stream; with no rescan owed, as while a stream is alive, only a configure() or stop() changes the stream under it |
| `PipeWireSink.PlayAcrossConfigure` | src/pipewire_sink.cpp:493-511 | With the volume set to any gain while write() is parked on the ring it has filled, and a configure() then opening a new stream, that stream ends at its target if and only if the target in force at the configure() is where the write's own ramp arrives over the frames that fitted on entry, at the new step; all of it is known before the call |
| `PipeWireSink.PlayReachesTarget` | src/pipewire_sink.cpp:475-511 | Under every schedule with an undisturbed first look and the volume left alone -- draining, further passes and any configure()s included -- the gain ends at its target if the frames that fitted on entry cover the distance at the step the sink ends with, and only if those of the whole buffer do |
| `PipeWireSink.OffTargetRun` | src/pipewire_sink.cpp:493-511 | A run from construction that ends on an open stream off its target gain |
| `PipeWireSink.SteadyGainOffTarget` | src/pipewire_sink.cpp:493-511 | And one whose write began at its target: the volume moves while it is parked, and the new stream stays at the old gain |
| `StreamRing.RingThreadsIsThisRing` | src/pcm_ring.cpp:22-118 | Every step of the ring taken apart into loads, copies and stores is the step of the sinks' ring that it is named for, and hands out the same bytes |
| `StreamRing.ReadStepKeepsOk` | src/pcm_ring.cpp:47-83 | Every atomic step of a read keeps whole frames, generation order, and that bytes taken are no older than the read's floor |
| `StreamRing.ClearIsLateIff` | src/pipewire_sink.cpp:515-532 | A read in progress when clear() lands still hands out bytes from before it if and only if it is past its flag test with something to take; once clear() is through, what it settles is the new generation |
| `StreamRing.NothingOlderThanSettled` | src/pcm_ring.cpp:47-83 | Once a clear() is through and the read it found under way has ended, nothing from before it is ever handed out, whatever steps of reads, writes and further clears follow in any order |
| `StreamRing.OneReadOfTwoGenerations` | src/pcm_ring.cpp:53-76 | One read can hand out bytes of two generations: a clear() and a write() fall between its flag test and its load |
| `StreamRing.MixedReadIff` | src/pcm_ring.cpp:53-76 | With all buffered bytes of one generation, a clear() and a write() that land together on a read give it bytes of two if and only if they fall between its flag test and its load, with something in the ring but less than it wants |
| `PcmRing.DropUnderRead` | src/pcm_ring.cpp:105-109 | A read that drop() falls under stores its position last, and the emptied ring then reads as holding bytes unless that position is 0 |
| `RingThreads.ClearDropsToItsLevel` | src/pcm_ring.cpp:53-62 | A deferred clear drops exactly what had been accepted when the consumer loaded the write position for it, bytes accepted after the request included, and nothing accepted later |
| `RingThreads.LaterByteIsDropped` | src/pcm_ring.cpp:53-62 | A run in which a byte written after request_clear() is lost to it |
| `Volume.Unpacked24Bits` | src/pcm_volume.cpp:74-74 | On 32-bit words the shifts and ors that unpack a sample are that sum |
| `Volume.Extended24Bits` | src/pcm_volume.cpp:75-77 | On 32-bit words the mask tests the sign and the or subtracts 2^24 |
| `Volume.Repacked24Bits` | src/pcm_volume.cpp:80-82 | On 32-bit words the shifts and masks that repack are those remainders |
| `LineSense.ReportsAgreeIff` | src/alsa_source.cpp:43-52 | Two successive reports of poll() agree if and only if an even number of transitions was published between them |
| `LineSense.ReportedPresentTwice` | src/alsa_source.cpp:43-52 | A run in which poll() reports present twice in a row |
| `LineSense.AlsaSource.Poll` | src/alsa_source.cpp:43-52 | Passes on the newest unreported side, absence first of all, and nothing without line sense |
| `Hooks.FlushRunsAtMostOneBeside` | src/hooks.cpp:159-172 | After a flush at most two have not |
| `MdnsRules.PreferredIsUnique` | src/mdns_common.cpp:93-118 | There is only one address the preference rule can pick |
| `SinkWrite.SplittingIsInvisible` | src/alsa_sink.cpp:576-656 | Over any sequence of partial writes, zero-frame ones included, what the device hears is one uninterrupted ramp over the bytes that landed |
| `SinkWrite.PrefixOnly` | src/pipewire_sink.cpp:465-473 | Only the landed prefix of a scaled buffer decides what is heard of it |
| `SinkWrite.CallbacksAreOneRamp` | src/portaudio_sink.cpp:980-998 | A run of callback buffers at one target is one ramp over all of them |
| `SinkWrite.AlsaSink.Write` | src/alsa_sink.cpp:537-678 | Whatever the driver answers on each pass, exactly the returned bytes reach the device as one ramp from the gain on entry, committed by those frames alone, and they are exactly the frames the passes land until one ends the loop |
| `SinkWrite.LandsAllThatIsTaken` | src/alsa_sink.cpp:601-648 | While no pass ends it, a write goes on until all has landed that the driver would take |
| `SinkWrite.NothingLandsAfterTheEnd` | src/alsa_sink.cpp:601-648 | From the pass on that ends it nothing lands |
| `SinkWrite.AlsaSink.Configure` | src/alsa_sink.cpp:500-535 | The gain is snapped to its target whatever becomes of the device |
| `SinkWrite.AlsaSink.Clear` | src/alsa_sink.cpp:680-706 | The gain is snapped to its target; the device's own drop and prepare are not part of this model |
| `SinkWrite.SteadyUnity` | src/alsa_sink.cpp:576-606 | At a steady unity the general ramp is the identity, so skipping it changes nothing |
| `SinkWrite.SteadySilence` | src/alsa_sink.cpp:576-606 | At a steady zero the general ramp writes zero bytes, so the memset changes nothing |
| `SinkWrite.StagePulse` | src/pulse_sink.cpp:956-978 | Staging is the ramp followed by the 8-bit sign flip, with the bare copy only where both are the identity |
| `SinkWrite.FlipKeepsSample` | src/pulse_sink.cpp:966-976 | The flip is the offset-binary form of the same sample and undoes itself |
| `Volume.RampScaledSplit` | src/pcm_volume.cpp:134-160 | Scaling a whole-frame prefix, committing its gain and scaling the rest is one pass over both |
| `Volume.RampScaledFrame` | src/pcm_volume.cpp:134-160 | Every channel of a frame is scaled by exactly the gain one step past the frames before it; a trailing partial frame is untouched |
| `Volume.ZeroFrameCommit` | src/pcm_volume.cpp:115-118 | Committing zero frames changes nothing if and only if there is a step or no distance, and never changes what is heard |
| `Volume.ApplyVolumeRamp` | src/pcm_volume.cpp:134-160 | The two-pass loop in place is the frame-by-frame ramp, and the gain returned is the one after the last whole frame |
| `Volume.ApplyVolume` | src/pcm_volume.cpp:49-98 | Every whole sample in place, in int64 arithmetic that never leaves its type, is the rounded product; nothing else is touched |
| `Volume.RampedGain` | src/pcm_volume.cpp:115-132 | In 64 bits and without overflow, a move of min(distance, frames * step) |
| `Volume.RampComposes` | src/pcm_volume.cpp:115-132 | a frames and then b frames is a + b frames |
| `Volume.RampMonotone` | src/pcm_volume.cpp:115-132 | More frames are never further from the target |
| `Volume.RampFinishesInWindow` | src/pcm_volume.cpp:100-113 | Any change within [0, 2^32] completes within floor(rate * 20 / 1000) frames when that is not zero |
| `Volume.NoSmallerStepFinishes` | src/pcm_volume.cpp:100-113 | No smaller step takes the whole scale within the window, so the ramp is no steeper than it must be |
| `Volume.ScaleBounds` | src/pcm_volume.cpp:49-98 | For gains to 2^32 no int64 step overflows, -2^63 included, and the output lies between 0 and the input |
| `Volume.GainAboveUnityOverflows` | src/pcm_volume.cpp:49-98 | One count above unity the widest sample does overflow |
| `Volume.ScaledSampleExact` | src/pcm_volume.cpp:49-98 | At every width a scaled sample reads back as the rounded product, never wrapped, never past its input |
| `Volume.Packed24` | src/pcm_volume.cpp:70-84 | Unpacked by sums with bit 23 as the sign and repacked by remainders, packed 24-bit samples are two's complement little-endian |
| `Volume.SignedEncode` | src/pcm_volume.cpp:49-98 | Storing a value that fits and reading it back is the identity |
| `Volume.UnityIsIdentity` | src/pcm_volume.cpp:49-98 | Unity gain leaves every byte as it is |
| `Volume.SilenceIsZeros` | src/pcm_volume.cpp:49-98 | Zero gain writes zero bytes |
| `RingThreads.CopiesAreDisjoint` | src/pcm_ring.cpp:22-83 | In every interleaving of loads, copies and stores the two threads' copies never touch the same byte |
| `RingThreads.BytesAreConserved` | src/pcm_ring.cpp:22-83 | Accepted bytes are delivered, dropped by clears, or still in the ring, and the delivered ones keep their order |
| `RingThreads.RefinesFifo` | src/pcm_ring.cpp:22-83 | Each atomic step is one step of a FIFO queue or none |
| `RingThreads.ClearIsNeverLost` | src/pcm_ring.cpp:47-62 | A read that begins after request_clear() returns no byte accepted before it, wherever in the consumer's steps the request lands |
| `RingThreads.FreeSpaceIsLowerBound` | src/pcm_ring.cpp:94-99 | A producer's free_space() stays a lower bound until its own next publish |
| `RingThreads.RunKeepsInv` | src/pcm_ring.cpp:22-118 | The ring invariant holds after every step of every interleaving |
| `PcmRing.PcmRingBuffer.Write` | src/pcm_ring.cpp:22-45 | Appends as much as fits, around the seam, in place |
| `PcmRing.PcmRingBuffer.Read` | src/pcm_ring.cpp:47-83 | Takes from the front and zero-fills the rest, or carries out a pending clear |
| `PcmRing.PcmRingBuffer.Available` | src/pcm_ring.cpp:85-92 | The length of the contents |
| `PcmRing.PcmRingBuffer.FreeSpace` | src/pcm_ring.cpp:94-99 | One less than the capacity, less the contents |
| `PcmRing.PcmRingBuffer.RequestClear` | src/pcm_ring.cpp:101-103 | Only asks; nothing moves |
| `PcmRing.PcmRingBuffer.Drop` | src/pcm_ring.cpp:105-109 | Empties the ring and forgets a pending clear |
| `PcmRing.PcmRingBuffer.Reset` | src/pcm_ring.cpp:111-118 | A fresh empty ring of the new capacity |
| `MdnsRuns.RunKeepsQuiet` | src/mdns_dnssd.cpp:294-343 | Over any run of advertise, browse, poll and stop under a steady clock, advertise and browse called only over nothing live, with any callbacks in any order and several per processing call, ownership, candidate and ordering invariants hold after every call |
| `MdnsRuns.ExactlyOnePlace` | src/mdns_dnssd.cpp:345-400 | Every ref dns_sd has out is in exactly one of the register slot, browse slot, a candidate's slots or the retired list, and none of these holds one it has not |
| `MdnsRuns.FreedStaysFreed` | src/mdns_dnssd.cpp:380-385 | A deallocated ref number is never again among those in use, over any run, given that dns_sd never hands one out twice: nothing in the program brings one back |
| `MdnsRuns.ContextOutlivesRef` | src/mdns_dnssd.cpp:454-477 | The context a live ref would call back with is the one its candidate still owns |
| `MdnsRuns.CallbacksFreeNothing` | src/mdns_dnssd.cpp:591-680 | No callback deallocates anything, so several replies from one processing call all find their ref and context |
| `MdnsRuns.ProcessedIsOurs` | src/mdns_dnssd.cpp:366-378 | is_live() admits exactly the allocated refs that have not been retired |
| `MdnsRuns.PumpKeepsInv` | src/mdns_dnssd.cpp:312-338 | Every point of the pump keeps the invariants, a failure tearing everything down included |
| `MdnsRuns.StopFreesEverything` | src/mdns_dnssd.cpp:795-800 | After stop() no ref is left allocated |
| `MdnsRuns.AdvertiseLeaksIffLive` | src/mdns_dnssd.cpp:745-753 | advertise() keeps ownership if and only if nothing is registered when it is called |
| `MdnsRuns.BrowseLeaksIffLive` | src/mdns_dnssd.cpp:755-758 | browse() keeps ownership if and only if no browse is running when it is called |
| `MdnsRuns.SecondCallLeaks` | src/mdns_dnssd.cpp:745-758 | From start-up, calling either of them twice with dns_sd answering does leak the first call's ref |
| `MdnsRuns.PollKeepsExactlyTheCarried` | src/mdns_dnssd.cpp:387-400 | A poll ends with a candidate if and only if it is usable and on some interface when the callbacks are done, and otherwise unchanged but for its place |
| `MdnsRuns.FlapKeepsCandidate` | src/mdns_dnssd.cpp:387-400 | Lost on any interface and found again within a tick, a usable candidate keeps its refs and addresses |
| `MdnsListing.ListedExactlyIfKept` | src/mdns_dnssd.cpp:541-589 | After any run from start-up, an interface is listed for a name if and only if the browse found the name there, with no refusal of its resolve then, and has neither lost it there nor seen a candidate of that name dropped as unusable since |
| `MdnsListing.ListedAsCarriedIff` | src/mdns_dnssd.cpp:541-563 | The interfaces listed for a name are exactly those the browse still has it on if and only if no such interface has had every standing Add either refused its resolve or followed by the dropping of an unusable candidate |
| `MdnsListing.NothingOverlookedIfNeverRefused` | src/mdns_dnssd.cpp:541-589 | No interface is missed for a name whose resolve was never refused and whose candidate was never dropped as unusable since the browse began |
| `MdnsListing.ListedIsCarried` | src/mdns_dnssd.cpp:543-563 | After any allowed run a candidate is usable, on some interface, and on none the browse has lost it on |
| `MdnsListing.LostWhileCarried` | src/mdns_dnssd.cpp:578-589 | A run that drops a server the browse still has on an interface: its resolve was refused when it was found there |
| `MdnsStory.MadeOfWhatWasTold` | src/mdns_dnssd.cpp:402-500 | After any allowed run a name has a candidate if and only if one was found and not let go since; its details are those of the first error-free resolve since, with an address query of each family running if dns_sd took it; its addresses those added and not withdrawn, in order; its settle window starts at the clock of the first; and it has settled if and only if at the end of some poll it was dialable and that window was over |
| `MdnsStory.StandsIff` | src/mdns_dnssd.cpp:484-500 | An address is among them if and only if some reply since added it and none later withdrew it |
| `MdnsStory.NobodyGoesWithoutReason` | src/mdns_dnssd.cpp:387-400 | Over any allowed run a candidate is dropped as unusable only if a resolve failed or dns_sd took neither address query, leaves otherwise only when carried on no interface, and no poll ends with one of either kind |
| `MdnsStory.OfferedAsTold` | src/mdns_dnssd.cpp:764-793 | Whether servers() offers a name, and as what, is decided by the replies alone |
| `MdnsService.ServersAfter` | src/mdns_dnssd.cpp:755-793 | From construction through a browse() and any polls under a steady clock, servers() lists exactly the names the replies settle and make dialable, each as it was told |
| `MdnsRuns.PurgeIsExact` | src/mdns_dnssd.cpp:387-400 | The purge drops exactly the unusable candidates and those on no interface, whatever the order of the list |
| `MdnsRuns.RetryIsNeverFarOff` | src/mdns_dnssd.cpp:258-271 | Over any such run the retry owed is at most 30 s away and the attempt counter stops at 5 |
| `MdnsRuns.RestartRecovers` | src/mdns_dnssd.cpp:279-310 | A due restart that dns_sd accepts leaves nothing wanted missing |
| `MdnsRuns.MissingIsOwed` | src/mdns_dnssd.cpp:294-310 | Once a poll has begun, what is wanted and missing is owed a retry within 30 s, or dns_sd has just refused one |
| `MdnsRuns.RestartsAreSpaced` | src/mdns_dnssd.cpp:258-310 | Over any run, two restarts are at least a second apart |
| `MdnsRuns.RetryDoubles` | src/mdns_dnssd.cpp:265-271 | A retry scheduled again waits twice as long, up to 30 s |
| `MdnsRuns.BackoffStartsOver` | src/mdns_dnssd.cpp:185-271 | Once dns_sd has taken a browse again or confirmed the registration, and nothing has failed since, the next loss is retried after a second |
| `MdnsRuns.WantedAsAsked` | src/mdns_dnssd.cpp:745-800 | Whatever dns_sd does, what was last asked for stays wanted until stop() |
| `Mdns.ResolveKeepsOwnership` | src/mdns_dnssd.cpp:591-652 | A resolve reply retires its ref once, however many replies arrive, and hands over to the two queries without leaking either |
| `Mdns.TeardownKeepsOwnership` | src/mdns_dnssd.cpp:231-247 | Teardown leaves no ref allocated and nothing dangling |
| `MdnsService.Impl.PollOnce` | src/mdns_dnssd.cpp:294-343 | The imperative poll is the specified step for some visiting order of the candidates, deallocating nothing twice on the way; the settle pass visits every candidate, in any order, and leaves none that is due a place without one |
| `MdnsService.Impl.Servers` | src/mdns_dnssd.cpp:764-793 | Lists exactly the settled candidates dialable now, in strictly increasing settle order, which is also order in time, each at least 250 ms after its first address |
| `MdnsService.Impl.TeardownAll` | src/mdns_dnssd.cpp:231-247 | Each ref is released once and its context is still there at the time |
| `MdnsService.Impl.ResolveCallback` | src/mdns_dnssd.cpp:591-652 | The callback is the specified step: error first, then the already-retired guard, then hand-over |
| `MdnsService.Impl.BrowseCallback` | src/mdns_dnssd.cpp:525-589 | The callback is the specified step, the failed resolve that leaves no context behind included |
| `MdnsService.AddAddress` | src/mdns_dnssd.cpp:484-500 | Adds once, erases the first occurrence, stamps the first address once |
| `MdnsRules.DiscoveredServerUrl` | src/mdns_common.cpp:77-123 | A URL exists if and only if path, port and a routable address allow one, and it is built from the first IPv4 address or, without any, the first IPv6 one |
| `MdnsRules.UrlTellsWhere` | src/mdns_common.cpp:93-123 | Two servers have one URL only if they have address, family, port and path in common, which is what the brackets around an IPv6 address are for |
| `MdnsRules.SelectServer` | src/mdns_common.cpp:125-151 | The remembered server wins wherever it stands, else the first that passes the filter; none only if none passes |
| `MdnsRules.TruncateUtf8` | src/mdns_common.cpp:153-163 | The cut is a character boundary with nothing but continuation bytes between it and the limit |
| `MdnsRules.CutKeepsWholeCharacters` | src/mdns_common.cpp:153-163 | Such a cut keeps whole characters, and one more would not fit |
| `ControlLock.ExclusionIffLockFileStays` | src/control_socket.cpp:360-387 | Over any processes opening, failing, closing, probing and crashing at any step, at most one holds the lock in every reachable state if and only if closing leaves the lock file behind; ~PidFile (src/daemon.cpp:66-77) does not |
| `ControlLock.NamedIffUnlockedLast` | src/control_socket.cpp:360-387 | No serving process ever loses its name if and only if the lock is released after the name is unlinked |
| `ControlLock.ServingKeepsItsName` | src/control_socket.cpp:124-218 | A process that completed open() keeps the path naming its own socket until its own close() or death, whatever the others do |
| `ControlLock.OnlyOwnOrStaleNamesGo` | src/control_socket.cpp:124-218 | The only call that takes a listening process's name away is that process's own failing open() |
| `ControlLock.BindFindsNoName` | src/control_socket.cpp:124-218 | bind() never meets an existing name |
| `ControlLock.OpenRecovers` | src/control_socket.cpp:124-218 | Whatever a crash left behind, an undisturbed open() in which no call fails, with nobody holding the lock, ends up serving under the path |
| `ControlLock.ControlLockIsExclusive` | src/daemon.cpp:36-64 | At most one process holds the control lock |
| `ControlLock.StepKeepsInv` | src/control_socket.cpp:99-218 | Every system call of every process, probes and crashes included, keeps the ownership invariant |
| `ControlCodec.RequestArrives` | src/control_common.cpp:388-427 | Every well-formed request, seek-rel -2147483648 included, printed, cut into any chunks, ended by a newline or by end of input, assembled, split and parsed, is the same request |
| `ControlCodec.EncodedParses` | src/control_common.cpp:284-404 | Parsing undoes printing for every well-formed request |
| `ControlCodec.ParseControlRequest` | src/control_common.cpp:284-386 | Whatever is accepted is well-formed: its command's one field, within its bounds |
| `ControlCodec.AcceptedIff` | src/control_common.cpp:284-386 | A request is accepted if and only if the words are its command's name and its one argument spelled out, within bounds, and is then exactly that request; everything else is refused |
| `ControlCodec.NamesAreAsTyped` | src/control_common.cpp:202-241 | Each command answers to the name in the table |
| `ControlCodec.Find` | src/control_common.cpp:234-241 | The linear search finds the command with that name, which is unique |
| `ControlCodec.SplitControlLine` | src/control_common.cpp:406-427 | The loop yields the line's words |
| `ControlCodec.FirstWordOf` | src/control_common.cpp:406-427 | A word ends at the first blank, and nothing after it matters to it |
| `ControlCodec.ReplyArrives` | src/control_common.cpp:659-718 | Splitting an encoded reply at its first newline and decoding gives back the status, the reason with line breaks as spaces and the payload byte for byte; NoDaemon would arrive as a failure |
| `ControlCodec.FirstLineOf` | src/control_client.cpp:48-57 | A first line without newlines and its payload are separated exactly |
| `ControlCodec.ErrorLineDecodes` | src/control_common.cpp:685-718 | Any token without a colon decodes, an unknown one as a plain failure, with its reason intact |
| `ControlCodec.RefusedLine` | src/control_common.cpp:685-718 | A reply line is refused if and only if it is neither ok nor the error prefix, a token without a colon, a colon and the rest |
| `Decimal.PrintedInt32Parses` | src/control_common.cpp:83-98 | Printing then parsing is the identity on all of int32, and everything outside it is refused |
| `Decimal.PrintedUnsignedParses` | src/control_common.cpp:68-80 | A printed number parses back if and only if it is within the bound and 64 bits |
| `Decimal.UnsignedAcceptedIff` | src/control_common.cpp:68-80 | A text is read as a number if and only if it is that number printed, zeros in front allowed, within the bound and 64 bits |
| `Decimal.Int32AcceptedIff` | src/control_common.cpp:83-98 | The same for int32, with one sign in front |
| `ControlLine.ChunkingIsInvisible` | src/control_common.cpp:720-746 | For arbitrary bytes the verdict, the line and what is left buffered do not depend on how reads cut them |
| `ControlLine.VerdictIsDecidedByFirstSpecial` | src/control_common.cpp:720-746 | Ready, Invalid, TooLong and Incomplete are each decided exactly by where the first newline or NUL stands against 256 bytes |
| `ControlLine.LineAssembler.FeedBytes` | src/control_common.cpp:720-746 | The loop computes the specified verdict and state |
| `ControlLine.LineAssembler.FinishInput` | src/control_common.cpp:748-761 | End of input makes a line of a non-empty buffer, less a trailing CR |
| `ControlPump.PollKeepsInv` | src/control_socket.cpp:220-358 | After every poll at most 8 connections are held, each unfinished, under 5000 ms old and at most 256 bytes; every accepted one is held or closed exactly once; the handler ran at most once for each |
| `ControlPump.RoundsKeepInv` | src/control_socket.cpp:220-358 | The same over any number of polls |
| `ControlPump.AlwaysBounded` | src/control_socket.cpp:220-358 | So from start-up the bounds hold after every poll, whatever the peers do |
| `ControlPump.HandledExactlyIfWhole` | src/control_socket.cpp:270-358 | From start-up and over any polls, the handler has had a connection's line if and only if all its peer sent, over however many reads and polls, is a whole line, and it had exactly that line; and the connection is still held if and only if what was sent may yet become one, the peer is still there and its deadline has not passed |
| `ControlPump.TakenWhileThereIsRoom` | src/control_socket.cpp:225-263 | A connection waiting is taken if and only if it can be made non-blocking and fewer than 8 are held by then, first come first served |
| `ControlPump.ReadFromIsVerdict` | src/control_socket.cpp:277-305 | What one visit concludes is the verdict on everything sent before and what the reads offer now, up to the first that offers no more |
| `ControlPump.ControlSocket.Poll` | src/control_socket.cpp:220-358 | The loops are the specified poll |
| `ControlPump.ControlSocket.Close` | src/control_socket.cpp:360-364 | Everything still held is closed, nothing twice |
| `ControlPump.CloseKeepsInv` | src/control_socket.cpp:360-364 | After close() every connection ever accepted has been closed exactly once |
| `Recovery.BudgetHolds` | src/sink_recovery.cpp:19-116 | Between resets, in whatever order it is called, at most one reopen and five rescans are granted, and a caller that never reports gets one rescan |
| `Recovery.RescanWaits` | src/sink_recovery.cpp:40-62 | Every granted rescan fires no sooner than min(2000 * 2^k, 30000) ms after the tick that stamped it, k attempts already made |
| `Recovery.AfterInv` | src/sink_recovery.cpp:19-116 | A rescan is never owed while one is in flight or once the budget is spent |
| `Recovery.RescanOwedIff` | src/sink_recovery.cpp:19-116 | After any sequence of calls a rescan is owed if and only if the cheap attempt has failed or was asked for again since the last reset and no rescan has been tried, or the last one tried was reported failed and fewer than five have been |
| `Recovery.OwedIsGrantedInTime` | src/sink_recovery.cpp:40-62 | What is owed is given: of two ticks a delay apart, under a steady clock and with no reset between, one from the first to the second is granted |
| `Recovery.RescansAreSpacedAcrossStreams` | src/sink_recovery.cpp:40-96 | Resets included, two rescans are at least 2000 ms apart under a steady clock |
| `Recovery.SinkRecovery.ReopenDue` | src/sink_recovery.cpp:19-29 | Grants once, then escalates |
| `Recovery.SinkRecovery.RescanDue` | src/sink_recovery.cpp:40-62 | Stamps, waits, then grants and counts |
| `Recovery.SinkRecovery.RescanDone` | src/sink_recovery.cpp:64-83 | Ends the attempt: spent on success or at the last one, owed again otherwise |
| `Outbound.RunIsWellPaced` | src/main.cpp:265-303 | Over any run of ticks the k-th wait since the last reset is at least min(1000 * 2^(k-1), 30000) ms, the counter never passes 6 and no dial happens while connected |
| `Outbound.DialsExactlyWhenDue` | src/outbound.cpp:52-61 | Over any run the last tick dials what there is to dial if and only if it sees no connection and either nothing has been dialled or lost yet, or the wait since the last dial or loss is over |
| `Outbound.FirstNewPeerIsRemembered` | src/main.cpp:355-367 | The first peer a connection names other than the one remembered is remembered, and no other of that connection |
| `Outbound.NobodyNewNobodyRemembered` | src/main.cpp:355-367 | While a connection names nobody new, what is remembered stays |
| `Outbound.LossIsNotRedialledAtOnce` | src/outbound.cpp:33-50 | The tick that sees a loss does not dial, and the next dial waits from it |
| `Outbound.ExportedUrlIsTheLiveDials` | src/outbound.cpp:73-88 | The exported URL is the last dial's, only while no connection has been lost since, and only for the server it named, if any |
| `Outbound.NextRetryDelay` | src/outbound.cpp:21-32 | min(1000 * 2^attempt, 30000) in 32 bits, without overflow for any attempt |
| `Outbound.OutboundMode.TickNow` | src/main.cpp:265-303 | The tick is the specified step; a discovered dial is to the selected server's preferred address under its own id, and a due tick dials nobody only if no selected server is dialable |
| `Outbound.Choose` | src/main.cpp:323-349 | Dials the selected server, and gives up only when none is selected or it is not dialable |
| `Hooks.RunStaysInOrder` | src/hooks.cpp:95-172 | Over any events, polls, exits and flushes, spawn attempts are a subsequence of the events in order, a pending hook waits for a child that is really there, and the newest event is the last planned |
| `Hooks.OneHookAtATime` | src/hooks.cpp:95-157 | Before any flush at most one forked child has not been reported gone |
| `Hooks.RunningAreTheChildren` | src/hooks.cpp:95-157 | After any run the hooks the runner notes are exactly the children whose fork succeeded and whom waitpid() has not reported gone, in fork order |
| `Hooks.EachChildForItself` | src/hooks.cpp:111-145 | Whether a child goes depends on its own pid alone, and those left keep their order |
| `Hooks.LastEventWins` | src/hooks.cpp:147-172 | With nothing pending, the last spawn attempted is the last event submitted |
| `Hooks.DrainedMeansNothingPending` | src/hooks.cpp:147-172 | A poll that finds every child gone, or a flush, leaves nothing pending |
| `Hooks.HookRunner.PollChildren` | src/hooks.cpp:111-157 | The erasing loop keeps exactly the hooks still running, in order, and then gives the slot its turn |
| `LineSense.FlipNeedsWholeWindow` | src/alsa_source.cpp:66-91 | The published side changes only at a block where every block since the stamp measured the new side and the window has passed |
| `LineSense.WholeWindowFlips` | src/alsa_source.cpp:66-91 | And a stretch that lasts the window is never missed |
| `LineSense.StampIsStretchStart` | src/alsa_source.cpp:66-91 | The stamp is the clock of the unbroken stretch's first block; one block back and there is none |
| `LineSense.TransitionsAlternate` | src/alsa_source.cpp:66-91 | Published transitions strictly alternate, starting with present |
| `LineSense.AlsaSource.SetSignal` | src/alsa_source.cpp:57-91 | The -1/0/1 encoding is the specified hysteresis and mailbox |
| `LineSense.StampIsSampleTime` | src/alsa_source.cpp:139-215 | A chunk's timestamp depends on the clock of its stretch's first chunk and on sample counts alone |

## Left out

- The device, server and system calls themselves: each is an input limited to its documented results.
- `q32_gain_for` and its floating-point curve: gains are any value from 0 to 2^32.
- RMS and dBFS measurement of captured blocks: a block arrives already measured.
- Weak memory ordering in the ring: atomics are steps of one sequence.
- The PulseAudio write loop and monitor: only its staging is modelled. It parks and commits the way the PipeWire one does (src/pulse_sink.cpp:480-559), and nothing is proved about whether its gain can be left off target.
- The ALSA device-recovery calls: the driver's answers are inputs.
- SinkWrite.AlsaSink.Clear: the drop and prepare of the device are not modelled, only the gain.
- PipeWireSink.Session: a read still under way on a failed stream when a clear() empties the ring under it ends there in the model; the bytes it would go on to take, between positions loaded before and after, are not answered for.
- Timeouts of a parked write(): giving up early is a schedule that ends, so nothing is claimed about how long a write takes.
- Timing feedback (`finish_us`, DAC offsets): foreign clocks and floating point.
- `pipewire_quantum_fit` and the warnings it feeds: a table of thresholds.
- `PidFile` exclusion: its destructor removes the lock file, and the race that opens is the one `ControlLock.ExclusionIffLockFileStays` proves.
- Reply writing in `ControlSocket::poll` and the wording of refusals and errors: they do not change what is held, closed or handled.
- `classify_address` parsing: each address carries its kind.
- `protocol_command`, `control_refusal` and `status` formatting: table lookups and printing.
- The instance, path and port an advertisement carries, apart from the UTF-8 truncation rule.
- Candidates are values in a map rather than heap objects: each has one owner, so nothing is lost but the pointers.
- Flag parsing, help text, listings, configuration, logging, daemonizing, signals and the state store.
