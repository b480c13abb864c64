/** The pull-model sink as a monitor: src/pipewire_sink.cpp.

    write() parks with the mutex released, so anything that takes the mutex may
    run to completion meanwhile, and the audio callback runs whenever it likes.
    Every method that can be interrupted takes the interruptions as a schedule;
    what it ensures, it ensures for all of them.

    The ring is `StreamRing`: the callback's read() is atomic steps, and anything may
    happen between them.
 */
module PipeWireSink {
  import opened Arith
  import opened Machine
  import opened Recovery
  import opened SinkWrite
  import opened StreamRing
  import opened Volume

  const MIN_RING_FRAMES := 1024

  type Rate = r: u64 | r < 0x1_0000_0000

  datatype Format = Format(rate: Rate, channels: nat, bits: nat)

  const NO_FORMAT := Format(0, 0, 0)

  /** The fields open_stream_() derives from the format, and close_stream_() zeroes. */
  datatype StreamFormat = StreamFormat(rate: Rate, channels: nat, bits: nat, bytesPerFrame: nat, rampStep: u64)

  const CLOSED := StreamFormat(0, 0, 0, 0, 0)

  predicate FormatOk(f: StreamFormat) {
    f.bytesPerFrame > 0 ==>
      && SampleWidth(f.bits / 8) && f.channels > 0 && f.bytesPerFrame == f.channels * (f.bits / 8)
      && f.rampStep == VolumeRampStep(f.rate)
  }

  /** How far open_stream_() got. */
  datatype OpenOutcome = NoLoop | NoStream | NotAccepted | Opened

  /** What other threads do. The first four need no lock. `during` are callback steps that
      fall inside clear(), between the new generation and the request. */
  datatype Event =
    | Callback(frames: nat)   // one atomic step of the process callback's read
    | StreamDied
    | SetTarget(gain: u64)
    | StopLatch
    | Configure(format: Format, outcome: OpenOutcome)
    | Clear(during: seq<nat>)
    | Stop
    | Poll(now: int, outcome: OpenOutcome, latched: bool)

  predicate LockFree(e: Event) {
    e.Callback? || e.StreamDied? || e.SetTarget? || e.StopLatch?
  }

  predicate EventOk(e: Event) {
    && (e.SetTarget? ==> e.gain as int <= Q32_ONE)
    && (e.Poll? ==> ClockRange(e.now))
  }

  /** Interruptions of one pass of the write loop: before the ring is looked at,
      between looking and writing, and while parked. */
  datatype Slot = Slot(before: seq<Event>, between: seq<Event>, parked: seq<Event>)

  ghost predicate SlotOk(s: Slot) {
    && (forall e :: e in s.before ==> EventOk(e) && LockFree(e))
    && (forall e :: e in s.between ==> EventOk(e) && LockFree(e))
    && (forall e :: e in s.parked ==> EventOk(e))
  }

  /** One pass that parks at once and is then met by a change of target and a configure() that
      opens a new stream, and by nothing else. */
  predicate ReopensWhileParked(s: Slot) {
    && s.before == [] && |s.parked| == 2 && s.parked[0].SetTarget?
    && s.parked[1].Configure? && s.parked[1].outcome.Opened? && Playable(s.parked[1].format)
  }

  predicate Playable(f: Format) {
    f.bits in {8, 16, 24, 32} && f.channels > 0 && f.rate > 0
  }

  function Derived(f: Format): (d: StreamFormat)
    requires Playable(f)
    ensures FormatOk(d) && d.bytesPerFrame > 0
  {
    FramePositive(f.bits / 8, f.channels);
    StreamFormat(f.rate, f.channels, f.bits, f.channels * (f.bits / 8), VolumeRampStep(f.rate))
  }

  const QUIET := Slot([], [], [])

  /** A schedule whose first pass is not interrupted before it looks at the ring. */
  predicate StartsQuiet(schedule: seq<Slot>) {
    schedule == [] || schedule[0].before == []
  }

  /** Nothing happens but that, when write() first parks: at once if the ring is full on entry,
      else once what fits has been pushed. */
  predicate ReopensOnceParked(schedule: seq<Slot>, full: bool) {
    if full then |schedule| > 0 && ReopensWhileParked(schedule[0])
    else |schedule| > 1 && schedule[0] == QUIET && ReopensWhileParked(schedule[1])
  }

  /** While parked, the only events are ones that leave the stream's format alone. */
  predicate NothingReconfigured(schedule: seq<Slot>) {
    forall i :: 0 <= i < |schedule| ==>
      forall e :: e in schedule[i].parked ==> !e.Configure? && !e.Stop?
  }

  function First(schedule: seq<Slot>): Slot {
    if schedule == [] then QUIET else schedule[0]
  }

  function Rest(schedule: seq<Slot>): seq<Slot> {
    if schedule == [] then [] else schedule[1..]
  }

  lemma FirstAndRest(schedule: seq<Slot>, full: bool)
    requires forall i :: 0 <= i < |schedule| ==> SlotOk(schedule[i])
    ensures var first, rest := First(schedule), Rest(schedule);
            && SlotOk(first) && (forall i :: 0 <= i < |rest| ==> SlotOk(rest[i]))
            && (StartsQuiet(schedule) ==> first.before == [])
            && (NothingReconfigured(schedule) ==>
                  NothingReconfigured(rest) && forall e :: e in first.parked ==> !e.Configure? && !e.Stop?)
            && (ReopensOnceParked(schedule, full) ==>
                  if full then first == ReopenSlot(schedule, full)
                  else first == QUIET && rest != [] && rest[0] == ReopenSlot(schedule, full))
            && (TargetUnmoved(schedule) ==> LeavesTarget(first) && TargetUnmoved(rest))
            && (ReopensOnceParked(schedule, full) ==> first.before == [])
  {
    hide Playable;
  }

  function ReopenSlot(schedule: seq<Slot>, full: bool): (s: Slot)
    requires ReopensOnceParked(schedule, full)
    ensures ReopensWhileParked(s)
  {
    schedule[if full then 0 else 1]
  }

  /** Nobody moves the volume. */
  predicate LeavesTarget(s: Slot) {
    && (forall e :: e in s.before ==> !e.SetTarget?)
    && (forall e :: e in s.between ==> !e.SetTarget?)
    && (forall e :: e in s.parked ==> !e.SetTarget?)
  }

  predicate TargetUnmoved(schedule: seq<Slot>) {
    forall i :: 0 <= i < |schedule| ==> LeavesTarget(schedule[i])
  }

  /** pipewire_ring_frames(): the time asked for, but never under 1024 frames. */
  function RingFrames(rate: nat, bufferMs: nat): (frames: nat)
    ensures frames >= MIN_RING_FRAMES
    ensures frames * 1000 > rate * bufferMs - 1000
  {
    Max(rate * bufferMs / 1000, MIN_RING_FRAMES)
  }

  /** What `data` is as one ramp between two gains, in a stream of this format. */
  ghost function Ramped(data: seq<byte>, f: StreamFormat, start: u64, target: u64): seq<byte> {
    RampScaled(data, f.bits / 8, f.bytesPerFrame, start as int, target as int, f.rampStep as int)
  }

  class Sink {
    const bufferMs: nat
    var open: bool
    var streamFailed: bool
    var fmt: StreamFormat
    var generation: nat
    var stopping: bool
    var failed: bool
    var lastFormat: Format
    var recovery: Recovery
    var currentMultiplier: u64
    var targetMultiplier: u64
    var ring: Ring

    /** The ring is in order for the current format and generation, nothing reads it without a
        stream, and no drop() has fallen under a read of a live one. */
    ghost predicate Core()
      reads this
    {
      && FormatOk(fmt)
      && RingOk(ring, fmt.bytesPerFrame, generation)
      && currentMultiplier as int <= Q32_ONE && targetMultiplier as int <= Q32_ONE
      && (open ==> fmt.bytesPerFrame > 0 && ring.capacity > 0)
      && (!open ==> ring.reader.Waiting?)
      && (Alive() ==> !ring.tainted)
    }

    /** A rescan is owed only to a stream that is not alive. */
    ghost predicate Valid()
      reads this
    {
      Core() && (recovery.rescanOwed ==> recovery.reopenSpent && !Alive())
    }

    /** All another thread can do to a parked write(): anything it does to the
        stream moves the generation; otherwise the ring can only have drained. */
    twostate predicate Interfered()
      reads this
    {
      && old(generation) <= generation
      && ring.pushed == old(ring.pushed)
      && old(ring.heard) <= ring.heard
      && (old(stopping) ==> stopping)
      && (generation == old(generation) ==>
            && open == old(open) && fmt == old(fmt) && ring.capacity == old(ring.capacity)
            && currentMultiplier == old(currentMultiplier)
            && |ring.items| <= |old(ring.items)| && ring.tainted == old(ring.tainted))
    }

    /** The slot's new stream is open, at its format and its target. */
    twostate predicate ReopenedBy(slot: Slot)
      requires ReopensWhileParked(slot)
      reads this
    {
      && Alive() && !stopping && generation > old(generation)
      && targetMultiplier == slot.parked[0].gain && fmt == Derived(slot.parked[1].format)
    }

    predicate Full()
      reads this
    {
      Room(ring) < fmt.bytesPerFrame
    }

    constructor (bufferMs: nat)
      ensures Valid() && !open && this.bufferMs == bufferMs
      ensures currentMultiplier as int == targetMultiplier as int == Q32_ONE && !stopping
    {
      this.bufferMs := bufferMs;
      open, streamFailed, fmt, generation, stopping, failed := false, false, CLOSED, 0, false, false;
      lastFormat, recovery := NO_FORMAT, FRESH;
      currentMultiplier, targetMultiplier := 0x1_0000_0000, 0x1_0000_0000;
      ring := NO_RING;
    }

    predicate Alive()
      reads this
    {
      open && fmt.bytesPerFrame != 0 && !streamFailed
    }

    // ------------------------------------------------- lock-free callbacks

    /** One atomic step of the process callback's read of `frames` frames. A stream that has
        failed is given no new callback, but one it was in goes on. */
    method RunCallback(frames: nat)
      requires Valid()
      modifies this`ring
      ensures Valid() && Interfered()
      ensures if Alive() || old(ring).reader.Reading? then
                InBounds(old(ring)) && ring == ReadStep(old(ring), BytesOf(frames, fmt.bytesPerFrame))
              else ring == old(ring)
    {
      hide VolumeRampStep, Span, RingOk, ReadStep, BytesOf, FormatOk;
      if !open || (ring.reader.Waiting? && !Alive()) {
        return;
      }
      var want := BytesOf(frames, fmt.bytesPerFrame);
      BytesOfIsWhole(frames, fmt.bytesPerFrame);
      RingInBounds(ring, fmt.bytesPerFrame, generation);
      ReadStepKeepsOk(ring, want, fmt.bytesPerFrame, generation);
      ReadStepOnlyDrains(ring, want);
      ring := ReadStep(ring, want);
    }

    /** Disconnecting waits for the callback. */
    method FinishCallback()
      requires Core()
      modifies this`ring
      ensures Core() && Interfered() && ring.reader.Waiting?
    {
      hide VolumeRampStep, Span, RingOk, FinishRead;
      RingInBounds(ring, fmt.bytesPerFrame, generation);
      FinishKeepsOk(ring, fmt.bytesPerFrame, generation);
      FinishOnlyDrains(ring);
      ring := FinishRead(ring);
    }

    method RunLockFree(e: Event)
      requires Valid() && EventOk(e) && LockFree(e)
      modifies this`ring, this`streamFailed, this`targetMultiplier, this`stopping
      ensures Valid() && Interfered()
      ensures targetMultiplier == if e.SetTarget? then e.gain else old(targetMultiplier)
      ensures streamFailed == (e.StreamDied? || old(streamFailed)) && stopping == (e.StopLatch? || old(stopping))
      ensures ring == if e.Callback? && (old(Alive()) || old(ring).reader.Reading?) then
                        ReadStep(old(ring), BytesOf(e.frames, fmt.bytesPerFrame))
                      else old(ring)
    {
      hide VolumeRampStep, Span, RingOk;
      match e {
        case Callback(frames) => RunCallback(frames);
        case StreamDied => streamFailed := true;
        case SetTarget(gain) => targetMultiplier := gain;
        case StopLatch => stopping := true;
      }
    }

    // --------------------------------------------------- under the mutex

    method CloseStream()
      requires Core()
      modifies this
      ensures Core() && Interfered() && !open && generation == old(generation) + 1 && fmt == CLOSED
      ensures stopping == old(stopping) && lastFormat == old(lastFormat) && recovery == old(recovery)
              && failed == old(failed)
      ensures currentMultiplier == old(currentMultiplier) && targetMultiplier == old(targetMultiplier)
      ensures ring.items == [] && ring.settled == generation
    {
      hide VolumeRampStep, Span;
      FinishCallback();
      EmptiedIsOk(ring, 0, 0, generation + 1);
      hide RingOk;
      open := false;
      generation := generation + 1;
      fmt := CLOSED;
      ring := Emptied(ring, 0, generation);
      streamFailed := false;
    }

    /** open_stream_(): a stream that opens starts at its target gain with an empty ring. */
    method OpenStream(f: Format, outcome: OpenOutcome) returns (ok: bool)
      requires Core() && !open
      modifies this
      ensures Core() && Interfered() && open == ok
      ensures ok <==> Playable(f) && outcome.Opened?
      ensures ok ==>
                && currentMultiplier == targetMultiplier && ring.items == [] && ring.settled == generation
                && Alive() && !failed
      ensures ok ==> fmt == Derived(f) && generation > old(generation)
      ensures ok ==> ring.capacity == RingFrames(f.rate as nat, bufferMs) * fmt.bytesPerFrame + 1
      ensures targetMultiplier == old(targetMultiplier) && stopping == old(stopping) && lastFormat == old(lastFormat)
      ensures recovery == old(recovery)
    {
      hide VolumeRampStep, Span, RingFrames;
      ok := false;
      if !Playable(f) || outcome.NoLoop? {
        return;
      }
      PrepareStream(f);
      hide RingOk;
      if outcome.NoStream? {
        return;
      }
      open := true;
      if outcome.NotAccepted? {
        CloseStream();
        return;
      }
      failed := false;
      ok := true;
    }

    /** Everything the callback will read, set before there is a stream to call it. */
    method PrepareStream(f: Format)
      requires Core() && !open && Playable(f)
      modifies this`generation, this`fmt, this`currentMultiplier, this`ring, this`streamFailed
      ensures Core() && Interfered() && generation == old(generation) + 1 && fmt == Derived(f) && !streamFailed
      ensures currentMultiplier == targetMultiplier && ring.items == [] && ring.settled == generation
              && ring.reader.Waiting?
      ensures ring.capacity == RingFrames(f.rate as nat, bufferMs) * fmt.bytesPerFrame + 1 && ring.capacity > 0
      ensures !ring.tainted
    {
      hide VolumeRampStep, Span, RingFrames, Playable, Derived;
      generation := generation + 1;
      fmt := Derived(f);
      currentMultiplier := targetMultiplier;
      var frames := RingFrames(f.rate as nat, bufferMs);
      MulMono(1, frames, fmt.bytesPerFrame);
      EmptiedIsOk(ring, frames * fmt.bytesPerFrame + 1, fmt.bytesPerFrame, generation);
      hide RingOk;
      ring := Emptied(ring, frames * fmt.bytesPerFrame + 1, generation);
      streamFailed := false;
    }

    method RunConfigure(f: Format, outcome: OpenOutcome) returns (ok: bool)
      requires Valid()
      modifies this
      ensures Valid() && Interfered() && stopping == old(stopping)
      ensures recovery.rescanOwed ==> old(recovery.rescanOwed)
      ensures stopping ==> !ok && generation == old(generation) && open == old(open)
      ensures !stopping ==> lastFormat == f && open == ok && generation > old(generation)
      ensures !stopping ==> (ok <==> Playable(f) && outcome.Opened?)
      ensures ok ==> Alive() && recovery == FRESH && currentMultiplier == targetMultiplier && fmt == Derived(f)
      ensures !ok ==> recovery == old(recovery)
      ensures ok ==> ring.items == [] && ring.settled == generation
      ensures ok ==> ring.capacity == RingFrames(f.rate as nat, bufferMs) * fmt.bytesPerFrame + 1
      ensures targetMultiplier == old(targetMultiplier)
    {
      hide VolumeRampStep, Span, RingOk, RingFrames;
      if stopping {
        return false;
      }
      lastFormat := f;
      CloseStream();
      ok := OpenStream(f, outcome);
      if !ok {
        failed := true;
        return;
      }
      recovery := FRESH;
    }

    /** clear(): ends the generation; with a live stream the drain is the callback's, which may
        be anywhere in a read, and may go on reading until the request is made. On a stream that
        has failed the ring is dropped, and a read still under way is left with nothing to go by. */
    method RunClear(during: seq<nat>)
      requires Valid()
      modifies this`generation, this`ring
      ensures Valid() && Interfered() && generation == old(generation) + 1 && ring.settled == generation
      ensures targetMultiplier == old(targetMultiplier) && open == old(open)
      ensures if Alive() then ring.clear else !ring.clear && ring.items == []
      ensures ring.tainted <==> !Alive() && old(ring).reader.Reading?
      ensures Alive() && during == [] ==> ring == AskClear(old(ring), generation)
    {
      hide VolumeRampStep, Span;
      NewGenerationKeepsOk(ring, fmt.bytesPerFrame, generation, generation + 1);
      generation := generation + 1;
      if !Alive() {
        DroppedIsOk(ring, fmt.bytesPerFrame, generation);
        ring := Dropped(ring, generation);
        return;
      }
      hide RingOk;
      for i := 0 to |during|
        invariant Valid() && Interfered() && generation == old(generation) + 1 && Alive()
        invariant i == 0 ==> ring == old(ring)
      {
        RunCallback(during[i]);
      }
      AskKeepsOk(ring, fmt.bytesPerFrame, generation);
      ring := AskClear(ring, generation);
    }

    method RunStop()
      requires Valid()
      modifies this
      ensures Valid() && Interfered() && stopping && !open && lastFormat == NO_FORMAT && ring.items == []
      ensures recovery == old(recovery) && targetMultiplier == old(targetMultiplier)
    {
      hide VolumeRampStep, Span, RingOk;
      stopping := true;
      lastFormat := NO_FORMAT;
      CloseStream();
    }

    /** A rescan is granted to this poll. */
    predicate Rescans(now: int)
      reads this
    {
      !stopping && lastFormat.rate != 0 && Grants(recovery, RescanDue(now))
    }

    /** poll(): the delayed half of recovery. `latched` is a stop() arriving during the
        reconnect. The outcome is reported to the budget, and with nothing owed -- as it is
        while a stream is alive, and while a write() that found it alive is parked -- nothing
        at all is done. */
    method RunPoll(now: int, outcome: OpenOutcome, latched: bool)
      requires Valid() && ClockRange(now)
      modifies this
      ensures Valid() && Interfered()
      ensures targetMultiplier == old(targetMultiplier) && lastFormat == old(lastFormat)
      ensures stopping && !old(stopping) ==> !open
      ensures old(Rescans(now)) ==>
                && open == (Playable(lastFormat) && outcome.Opened? && !latched)
                && (open ==> Alive() && Opens(lastFormat))
                && (stopping <==> Playable(lastFormat) && outcome.Opened? && latched)
      ensures !old(recovery.rescanOwed) || old(stopping) || old(lastFormat.rate) == 0 ==>
                generation == old(generation) && stopping == old(stopping) && recovery == old(recovery)
      ensures old(recovery.rescanOwed) && !old(stopping) && old(lastFormat.rate) != 0 ==>
                if Grants(old(recovery), RescanDue(now)) then
                  && generation > old(generation)
                  && recovery == Apply(Apply(old(recovery), RescanDue(now)),
                                       RescanDone(Playable(old(lastFormat)) && outcome.Opened?))
                else
                  && generation == old(generation) && stopping == old(stopping)
                  && recovery == Apply(old(recovery), RescanDue(now))
    {
      hide VolumeRampStep, Span, RingOk, RingFrames;
      if !recovery.rescanOwed || stopping {
        return;
      }
      if lastFormat.rate == 0 {
        return;
      }
      var due := Grants(recovery, RescanDue(now));
      recovery := Apply(recovery, RescanDue(now));
      if !due {
        return;
      }
      CloseStream();
      var ok := OpenStream(lastFormat, outcome);
      recovery := Apply(recovery, RescanDone(ok));
      if ok && latched {
        stopping := true;
        CloseStream();
      }
    }

    method RunEvent(e: Event)
      requires Valid() && EventOk(e)
      modifies this
      ensures Valid() && Interfered()
      ensures recovery.rescanOwed ==> old(recovery.rescanOwed)
      ensures e.Configure? && e.outcome.Opened? && Playable(e.format) && !old(stopping) ==>
                Alive() && !stopping && generation > old(generation) && fmt == Derived(e.format)
      ensures targetMultiplier == if e.SetTarget? then e.gain else old(targetMultiplier)
      ensures e.SetTarget? ==> stopping == old(stopping)
      ensures e.StopLatch? || e.Stop? ==> stopping && (e.Stop? ==> !open)
      ensures e.StreamDied? ==> streamFailed && !Alive()
      ensures e.Clear? ==> generation == old(generation) + 1 && (Alive() ==> ring.clear) && open == old(open)
      ensures e.Poll? && old(Rescans(e.now)) ==> open == (Playable(old(lastFormat)) && e.outcome.Opened? && !e.latched)
      ensures !e.Configure? && !e.Stop? && !old(recovery.rescanOwed) ==>
                open == old(open) && fmt == old(fmt) && currentMultiplier == old(currentMultiplier)
    {
      hide VolumeRampStep, Span, RingOk;
      match e {
        case Configure(f, outcome) => var _ := RunConfigure(f, outcome);
        case Clear(during) => RunClear(during);
        case Stop => RunStop();
        case Poll(now, outcome, latched) => RunPoll(now, outcome, latched);
        case _ => RunLockFree(e);
      }
    }

    /** Interruptions while the mutex is held. */
    method RunFree(events: seq<Event>)
      requires Valid() && forall e :: e in events ==> EventOk(e) && LockFree(e)
      modifies this`ring, this`streamFailed, this`targetMultiplier, this`stopping
      ensures Valid() && Interfered()
      ensures events == [] ==>
                && ring == old(ring) && stopping == old(stopping)
                && targetMultiplier == old(targetMultiplier)
      ensures (forall e :: e in events ==> !e.SetTarget?) ==> targetMultiplier == old(targetMultiplier)
    {
      hide Valid;
      var i := 0;
      while i < |events|
        invariant 0 <= i <= |events|
        invariant Valid() && Interfered()
        invariant (forall e :: e in events ==> !e.SetTarget?) ==> targetMultiplier == old(targetMultiplier)
        invariant i == 0 ==> ring == old(ring) && stopping == old(stopping) && targetMultiplier == old(targetMultiplier)
      {
        RunLockFree(events[i]);
        i := i + 1;
      }
    }

    /** The wait: the mutex is free, and anything at all may run. Of all of it, with no rescan
        owed, only a configure() puts a new stream under the parked write. */
    method Park(events: seq<Event>)
      requires Valid() && forall e :: e in events ==> EventOk(e)
      modifies this
      ensures Valid() && Interfered()
      ensures events == [] ==>
                && ring == old(ring) && stopping == old(stopping) && open == old(open)
                && generation == old(generation)
      ensures ReopensWhileParked(Slot([], [], events)) && !old(stopping) ==> ReopenedBy(Slot([], [], events))
      ensures (forall e :: e in events ==> !e.SetTarget?) ==> targetMultiplier == old(targetMultiplier)
      ensures recovery.rescanOwed ==> old(recovery.rescanOwed)
      ensures !old(recovery.rescanOwed) && (forall e :: e in events ==> !e.Configure? && !e.Stop?) ==>
                open == old(open) && fmt == old(fmt) && currentMultiplier == old(currentMultiplier)
    {
      hide Valid, Derived;
      var i := 0;
      while i < |events|
        invariant 0 <= i <= |events|
        invariant Valid() && Interfered() && (recovery.rescanOwed ==> old(recovery.rescanOwed))
        invariant i == 0 ==>
                    && ring == old(ring) && stopping == old(stopping) && open == old(open)
                    && generation == old(generation)
        invariant (forall e :: e in events ==> !e.SetTarget?) ==> targetMultiplier == old(targetMultiplier)
        invariant i == 1 && ReopensWhileParked(Slot([], [], events)) ==>
                    targetMultiplier == events[0].gain && stopping == old(stopping)
        invariant i == 2 && ReopensWhileParked(Slot([], [], events)) && !old(stopping) ==>
                    ReopenedBy(Slot([], [], events))
        invariant !old(recovery.rescanOwed) && (forall e :: e in events ==> !e.Configure? && !e.Stop?) ==>
                    open == old(open) && fmt == old(fmt) && currentMultiplier == old(currentMultiplier)
      {
        RunEvent(events[i]);
        i := i + 1;
      }
    }

    // ----------------------------------------------------------- write()

    /** A cheap reopen is tried: not during shutdown, with a format to open, and one in hand. */
    predicate TriesReopen()
      reads this
    {
      !stopping && lastFormat.rate != 0 && Grants(recovery, ReopenDue)
    }

    /** reopen_in_place_(): the one cheap attempt a dead stream gets. */
    method ReopenInPlace(outcome: OpenOutcome, latched: bool) returns (ok: bool)
      requires Valid() && !Alive()
      modifies this
      ensures Valid() && Interfered() && lastFormat == old(lastFormat) && targetMultiplier == old(targetMultiplier)
      ensures ok <==> old(TriesReopen()) && Playable(old(lastFormat)) && outcome.Opened? && !latched
      ensures ok ==> Alive() && !stopping && Opens(old(lastFormat)) && generation > old(generation)
      ensures stopping <==>
              old(stopping) || (old(TriesReopen()) && Playable(old(lastFormat)) && outcome.Opened? && latched)
      ensures old(TriesReopen()) ==> open == ok && generation > old(generation)
      ensures !old(TriesReopen()) ==> generation == old(generation) && open == old(open)
      ensures recovery ==
              if old(stopping) || old(lastFormat.rate) == 0 then old(recovery)
              else if old(TriesReopen()) then
                Apply(Apply(old(recovery), ReopenDue), ReopenDone(Playable(old(lastFormat)) && outcome.Opened?))
              else Apply(old(recovery), ReopenDue)
    {
      hide VolumeRampStep, Span, RingOk, RingFrames;
      ok := false;
      if stopping || lastFormat.rate == 0 {
        return;
      }
      var due := Grants(recovery, ReopenDue);
      recovery := Apply(recovery, ReopenDue);
      if !due {
        return;
      }
      CloseStream();
      var opened_ := OpenStream(lastFormat, outcome);
      recovery := Apply(recovery, ReopenDone(opened_));
      if !opened_ {
        return;
      }
      if latched {
        stopping := true;
        CloseStream();
        return;
      }
      ok := true;
    }

    /** As open_stream_() leaves it: at the format, at the target gain, with an empty ring of the
        size asked for. */
    ghost predicate Opens(f: Format)
      reads this
    {
      && Playable(f) && open && fmt == Derived(f) && currentMultiplier == targetMultiplier && ring.items == []
      && ring.capacity == RingFrames(f.rate as nat, bufferMs) * fmt.bytesPerFrame + 1
    }

    /** stage_(): the caller's bytes as they are at a steady unity, a ramped copy otherwise. */
    method Stage(data: seq<byte>, start: u64, target: u64) returns (src: seq<byte>)
      requires Valid() && open && start as int <= Q32_ONE && target as int <= Q32_ONE
      ensures src == RampScaled(data, fmt.bits / 8, fmt.bytesPerFrame, start as int, target as int, fmt.rampStep as int)
    {
      hide RingOk;
      if start == target && target == 0x1_0000_0000 {
        SteadyUnity(data, fmt.bits / 8, fmt.channels, fmt.rampStep as int);
        return data;
      }
      src := StageRamp(data, fmt.bits / 8, fmt.channels, start, target, fmt.rampStep);
    }

    lemma OnEntry(remaining: nat)
      requires Valid() && open && remaining > 0 && Span(remaining, fmt.bytesPerFrame) == remaining
      ensures fmt.bytesPerFrame > 0 && Room(ring) >= 0
      ensures Fits(ring, remaining, fmt.bytesPerFrame) == 0 <==> Full()
      ensures Room(ring) < remaining ==> Room(ring) - Fits(ring, remaining, fmt.bytesPerFrame) < fmt.bytesPerFrame
    {
      RoomHere(ring, fmt.bytesPerFrame, generation);
      FitsIsZero(ring, remaining, fmt.bytesPerFrame);
    }

    /** ring_.write() of bytes known to fit, under whatever generation is current. */
    method Push(bs: seq<byte>)
      requires Valid() && open && !ring.tainted && Span(|bs|, fmt.bytesPerFrame) == |bs| && |bs| <= Room(ring)
      modifies this`ring
      ensures Valid() && ring == Pushed(old(ring), bs, generation)
    {
      hide VolumeRampStep, Span, FormatOk;
      PushKeepsOk(ring, bs, fmt.bytesPerFrame, generation);
      ring := Pushed(ring, bs, generation);
    }

    /** The half of a pass under the mutex: push what fits, if anything does. Anything that
        needs no lock may happen between the measuring and the push. */
    method PushFitting(src: seq<byte>, done: nat, between: seq<Event>) returns (done': nat)
      requires Valid() && open && !ring.tainted && done < |src|
      requires Span(|src|, fmt.bytesPerFrame) == |src| && Span(done, fmt.bytesPerFrame) == done
      requires forall e :: e in between ==> EventOk(e) && LockFree(e)
      modifies this`ring, this`streamFailed, this`targetMultiplier, this`stopping
      ensures Valid() && old(ring.heard) <= ring.heard
      ensures done <= done' <= |src| && Span(done', fmt.bytesPerFrame) == done'
      ensures ring.pushed == old(ring.pushed) + Tagged(src[done..done'], generation)
      ensures Room(old(ring)) >= 0 && done' == done + Fits(old(ring), |src| - done, fmt.bytesPerFrame)
      ensures done' == done <==> old(Full())
      ensures done' == done || between == [] ==> stopping == old(stopping) && targetMultiplier == old(targetMultiplier)
      ensures done' == done ==> ring == old(ring)
      ensures !ring.tainted
      ensures (forall e :: e in between ==> !e.SetTarget?) ==> targetMultiplier == old(targetMultiplier)
      ensures between == [] && Room(old(ring)) < |src| - done ==> Full()
    {
      hide VolumeRampStep, Tagged, FormatOk, Valid, Fits, Span;
      NothingTagged(src, done, generation);
      SpanLess(|src|, done, fmt.bytesPerFrame);
      OnEntry(|src| - done);
      var n := Fitting(ring, |src| - done, fmt.bytesPerFrame);
      if n == 0 {
        return done;
      }
      RunFree(between);
      SpanAdds(done, n, fmt.bytesPerFrame);
      Push(src[done..done + n]);
      return done + n;
    }

    /** One pass of the push loop: write what fits, or park. `more` says the
        stream this buffer is for is still there. */
    method Pass(src: seq<byte>, done: nat, slot: Slot) returns (done': nat, more: bool)
      requires Valid() && open && !ring.tainted && SlotOk(slot) && done < |src|
      requires Span(|src|, fmt.bytesPerFrame) == |src| && Span(done, fmt.bytesPerFrame) == done
      modifies this
      ensures Valid() && old(generation) <= generation && old(ring.heard) <= ring.heard
      ensures done <= done' <= |src| && Span(done', old(fmt.bytesPerFrame)) == done'
      ensures ring.pushed == old(ring.pushed) + Tagged(src[done..done'], old(generation))
      ensures more ==> generation == old(generation)
      ensures !more ==> stopping || generation != old(generation) || Full()
      ensures generation == old(generation) ==> open && fmt == old(fmt) && !ring.tainted
      ensures more && slot == QUIET ==> done' > done
      ensures slot.before == [] && !old(stopping) ==>
                Room(old(ring)) >= 0 && done' == done + Fits(old(ring), |src| - done, old(fmt.bytesPerFrame))
      ensures slot == QUIET && !old(stopping) && !old(Full()) ==>
                && more && !stopping && targetMultiplier == old(targetMultiplier)
                && (Room(old(ring)) < |src| - done ==> Full())
      ensures recovery.rescanOwed ==> old(recovery.rescanOwed)
      ensures !old(recovery.rescanOwed) && (forall e :: e in slot.parked ==> !e.Configure? && !e.Stop?) ==>
                open && fmt == old(fmt)
      ensures LeavesTarget(slot) ==> targetMultiplier == old(targetMultiplier)
      ensures old(Full()) && !old(stopping) && ReopensWhileParked(slot) ==> done' == done && !more && ReopenedBy(slot)
    {
      hide VolumeRampStep, Tagged, FormatOk, RingOk, Span;
      var bpf, g := fmt.bytesPerFrame, generation;
      done', more := done, false;
      NothingTagged(src, done, generation);
      RunFree(slot.before);
      if stopping {
        return;
      }
      done' := PushFitting(src, done, slot.between);
      if done' > done {
        return done', true;
      }
      Park(slot.parked);
      if !(Room(ring) >= bpf || stopping || !open || generation != g) {
        return;
      }
      more := open && generation == g;
    }

    /** The push loop from `from` on: lands whole frames, all of them under the generation current
        on entry, whatever interrupts it. */
    method FeedOn(src: seq<byte>, from: nat, schedule: seq<Slot>) returns (done: nat)
      requires Valid() && open && !ring.tainted && Span(|src|, fmt.bytesPerFrame) == |src|
      requires from <= |src| && Span(from, fmt.bytesPerFrame) == from
      requires forall i :: 0 <= i < |schedule| ==> SlotOk(schedule[i])
      modifies this
      ensures Valid() && old(generation) <= generation && old(ring.heard) <= ring.heard
      ensures from <= done <= |src| && Span(done, old(fmt.bytesPerFrame)) == done
      ensures ring.pushed == old(ring.pushed) + Tagged(src[from..done], old(generation))
      ensures done == |src| || stopping || generation != old(generation) || Full()
      ensures generation == old(generation) ==> fmt == old(fmt) && open && !ring.tainted
      ensures recovery.rescanOwed ==> old(recovery.rescanOwed)
      ensures !old(recovery.rescanOwed) && NothingReconfigured(schedule) ==> open && fmt == old(fmt)
      ensures from < |src| && schedule != [] && old(Full()) && !old(stopping) && ReopensWhileParked(schedule[0]) ==>
                done == from && ReopenedBy(schedule[0])
      ensures TargetUnmoved(schedule) ==> targetMultiplier == old(targetMultiplier)
    {
      hide Valid, Tagged, VolumeRampStep, Fits, Span, Derived, Playable;
      ghost var g, bpf, was := generation, fmt.bytesPerFrame, ring.pushed;
      done := from;
      var i, more := 0, true;
      NothingTagged(src, from, g);
      while done < |src| && more
        invariant 0 <= i <= |schedule| && from <= done <= |src| && Span(done, bpf) == done
        invariant Valid() && g <= generation && old(ring.heard) <= ring.heard
        invariant if more then generation == g else stopping || generation != g || Full()
        invariant generation == g ==> open && fmt == old(fmt) && !ring.tainted
        invariant ring.pushed == old(ring.pushed) + Tagged(src[from..done], g)
        invariant recovery.rescanOwed ==> old(recovery.rescanOwed)
        invariant !old(recovery.rescanOwed) && NothingReconfigured(schedule) ==> open && fmt == old(fmt)
        invariant i == 0 && schedule != [] ==>
                    done == from && more && ring == old(ring) && stopping == old(stopping)
                        && targetMultiplier == old(targetMultiplier)
        invariant schedule != [] && old(Full()) && !old(stopping) && ReopensWhileParked(schedule[0]) ==>
                    i == 0 || (done == from && !more && ReopenedBy(schedule[0]))
        invariant TargetUnmoved(schedule) ==> targetMultiplier == old(targetMultiplier)
        decreases |src| - done, more, |schedule| - i
      {
        var slot := if i < |schedule| then schedule[i] else QUIET;
        ghost var before := done;
        done, more := Pass(src, done, slot);
        TaggedOn(was, src, from, before, done, g);
        i := Min(i + 1, |schedule|);
      }
    }

    /** The push loop of write(). The first pass stands apart so that it can be said what it
        lands: all that fits on entry, if nothing has interrupted it. */
    method Feed(src: seq<byte>, schedule: seq<Slot>) returns (done: nat)
      requires Valid() && open && !ring.tainted && src != [] && Span(|src|, fmt.bytesPerFrame) == |src|
      requires forall i :: 0 <= i < |schedule| ==> SlotOk(schedule[i])
      modifies this
      ensures Valid() && old(generation) <= generation && old(ring.heard) <= ring.heard
      ensures done <= |src| && Span(done, old(fmt.bytesPerFrame)) == done
      ensures ring.pushed == old(ring.pushed) + Tagged(src[..done], old(generation))
      ensures done == |src| || stopping || generation != old(generation) || Full()
      ensures generation == old(generation) ==> fmt == old(fmt) && open && !ring.tainted
      ensures !old(recovery.rescanOwed) && NothingReconfigured(schedule) ==> open && fmt == old(fmt)
      ensures Room(old(ring)) >= 0
      ensures !old(stopping) && StartsQuiet(schedule) ==> done >= Fits(old(ring), |src|, old(fmt.bytesPerFrame))
      ensures !old(stopping) && ReopensOnceParked(schedule, old(Full())) && Room(old(ring)) < |src| ==>
                && done == Fits(old(ring), |src|, old(fmt.bytesPerFrame))
                && ReopenedBy(ReopenSlot(schedule, old(Full())))
      ensures TargetUnmoved(schedule) ==> targetMultiplier == old(targetMultiplier)
    {
      hide Valid, Tagged, VolumeRampStep, Fits, Span, Derived, Playable;
      OnEntry(|src|);
      FirstAndRest(schedule, Full());
      hide SlotOk, NothingReconfigured, ReopensOnceParked, ReopenSlot, StartsQuiet, LeavesTarget, TargetUnmoved;
      ghost var g, was := generation, ring.pushed;
      var first, more := Pass(src, 0, First(schedule));
      done := first;
      if more {
        done := FeedOn(src, first, Rest(schedule));
        TaggedOn(was, src, 0, first, done, g);
      }
      assert src[0..done] == src[..done];
    }

    /** The last line of write(): the ramp committed by what landed, at whatever
        step the sink holds by then. */
    method Commit(start: u64, target: u64, n: nat, bpf: nat)
      requires Valid() && start as int <= Q32_ONE && target as int <= Q32_ONE
      requires 0 < bpf && n < TWO_64
      modifies this`currentMultiplier
      ensures Valid() && currentMultiplier as int ==
              RampTo(start as int, target as int, fmt.rampStep as int, Groups(n, bpf))
    {
      GroupsIsDivision(n, bpf);
      GroupsAtMost(n, bpf);
      currentMultiplier := RampedGain(start, target, fmt.rampStep, (n / bpf) as u64);
    }

    /** write() on a live stream. It stops short only for shutdown, for a stream that is gone, or
        out of time with the ring full. The count returned is exactly the bytes that landed; all of
        them were pushed under the generation current on entry, as one ramp from the gain held
        on entry; and whatever fits on entry lands unless something comes first. A poll() never
        reopens under it: only a configure() can. */
    method Play(data: seq<byte>, schedule: seq<Slot>) returns (n: nat)
      requires Valid() && open && !ring.tainted && |data| < TWO_64
      requires forall i :: 0 <= i < |schedule| ==> SlotOk(schedule[i])
      modifies this
      ensures Valid() && old(generation) <= generation && old(ring.heard) <= ring.heard
      ensures n <= |data| && Span(n, old(fmt.bytesPerFrame)) == n
      ensures ring.pushed == old(ring.pushed) +
                Tagged(Ramped(data[..n], old(fmt), old(currentMultiplier), old(targetMultiplier)), old(generation))
      ensures n == Span(|data|, old(fmt.bytesPerFrame)) || stopping || generation != old(generation) || Full()
      ensures |data| >= old(fmt.bytesPerFrame) ==>
                currentMultiplier as int ==
                RampTo(old(currentMultiplier) as int, old(targetMultiplier) as int, fmt.rampStep as int,
                       Groups(n, old(fmt.bytesPerFrame)))
      ensures generation == old(generation) ==> open && fmt.rampStep == old(fmt.rampStep)
      ensures old(Alive()) && NothingReconfigured(schedule) ==> open && fmt == old(fmt)
      ensures Room(old(ring)) >= 0
      ensures !old(stopping) && StartsQuiet(schedule) ==>
                n >= Fits(old(ring), Span(|data|, old(fmt.bytesPerFrame)), old(fmt.bytesPerFrame))
      ensures !old(stopping) && ReopensOnceParked(schedule, old(Full()))
              && Room(old(ring)) < Span(|data|, old(fmt.bytesPerFrame)) ==>
                && n == Fits(old(ring), Span(|data|, old(fmt.bytesPerFrame)), old(fmt.bytesPerFrame))
                && ReopenedBy(ReopenSlot(schedule, old(Full())))
      ensures TargetUnmoved(schedule) ==> targetMultiplier == old(targetMultiplier)
    {
      hide RampTo, RampScaled, Scaled, RingOk, Fits;
      var bpf := fmt.bytesPerFrame;
      RoomHere(ring, bpf, generation);
      var usable := WholeSpan(|data|, bpf);
      SpanOfSpan(|data|, bpf);
      var start, target := currentMultiplier, targetMultiplier;
      n := 0;
      if usable == 0 {
        RampScaledShort([], fmt.bits / 8, bpf, start as int, target as int, fmt.rampStep as int);
        assert data[..0] == [];
        return;
      }
      var src := Stage(data[..usable], start, target);
      ghost var step, w := fmt.rampStep as int, fmt.bits / 8;
      n := Feed(src, schedule);
      PrefixOnly(data[..n], data[n..usable], w, bpf, start as int, target as int, step);
      assert data[..n] + data[n..usable] == data[..usable];
      Commit(start, target, n, bpf);
    }

    lemma FitsAfresh(f: Format, len: nat)
      requires Valid() && Opens(f)
      ensures Room(ring) >= 0
      ensures Fits(ring, Span(len, fmt.bytesPerFrame), fmt.bytesPerFrame)
              == Min(Span(len, fmt.bytesPerFrame), RingFrames(f.rate as nat, bufferMs) * fmt.bytesPerFrame)
    {
      hide VolumeRampStep, RingFrames;
      RoomHere(ring, fmt.bytesPerFrame, generation);
      GroupsOfMultiple(RingFrames(f.rate as nat, bufferMs), fmt.bytesPerFrame);
    }

    /** write(). A dead stream gets its one reopen, and is then played to from its target gain; with
        no stream to be had the audio is swallowed in whole frames and nothing is pushed. */
    method Write(data: seq<byte>, reopen: OpenOutcome, latched: bool, schedule: seq<Slot>)
      returns (n: nat, ghost playing: bool, ghost g: nat)
      requires Valid() && |data| < TWO_64
      requires forall i :: 0 <= i < |schedule| ==> SlotOk(schedule[i])
      modifies this
      ensures Valid() && n <= |data| && old(ring.heard) <= ring.heard
      ensures old(generation) <= g <= generation
      ensures old(ring.pushed) <= ring.pushed
      ensures !playing ==> ring.pushed == old(ring.pushed)
      ensures !playing ==> n == if data == [] then 0 else DiscardCount(|data|, fmt.bytesPerFrame, lastFormat)
      ensures data != [] ==>
                (playing <==> old(Alive())
                              || (old(TriesReopen()) && Playable(old(lastFormat)) && reopen.Opened? && !latched))
      ensures playing && old(Alive()) ==>
                && g == old(generation)
                && ring.pushed == old(ring.pushed) +
                     Tagged(Ramped(data[..n], old(fmt), old(currentMultiplier), old(targetMultiplier)), g)
      ensures playing && !old(Alive()) ==>
                && g > old(generation) && Playable(old(lastFormat))
                && ring.pushed == old(ring.pushed) +
                     Tagged(Ramped(data[..n], Derived(old(lastFormat)),
                                   old(targetMultiplier), old(targetMultiplier)), g)
      ensures old(Alive()) && data != [] && !old(stopping) && StartsQuiet(schedule) ==>
                && Room(old(ring)) >= 0
                && n >= Fits(old(ring), Span(|data|, old(fmt.bytesPerFrame)), old(fmt.bytesPerFrame))
      ensures playing && !old(Alive()) && StartsQuiet(schedule) ==>
                var bpf := Derived(old(lastFormat)).bytesPerFrame;
                n >= Min(Span(|data|, bpf), RingFrames(old(lastFormat).rate as nat, bufferMs) * bpf)
      ensures playing ==>
                || stopping || generation != g || Full()
                || n == Span(|data|, if old(Alive()) then old(fmt.bytesPerFrame)
                                     else Derived(old(lastFormat)).bytesPerFrame)
      ensures !playing && data != [] ==>
                recovery ==
                  if old(stopping) || old(lastFormat.rate) == 0 then old(recovery)
                  else if old(TriesReopen()) then
                    Apply(Apply(old(recovery), ReopenDue), ReopenDone(Playable(old(lastFormat)) && reopen.Opened?))
                  else Apply(old(recovery), ReopenDue)
    {
      hide Valid, RampTo, Ramped, Grants, Fits, Tagged, Derived, Playable, RingFrames, Span, TriesReopen, Apply;
      n, playing, g := 0, false, generation;
      if data == [] {
        return;
      }
      var alive, afresh := Alive(), false;
      if !alive {
        afresh := ReopenInPlace(reopen, latched);
      }
      g := generation;
      if !alive && !afresh {
        MarkFailed();
        n := Discard(|data|, fmt.bytesPerFrame, lastFormat);
        return;
      }
      playing := true;
      AliveIsClean();
      if afresh {
        n := PlayAfresh(data, lastFormat, schedule);
      } else {
        n := Play(data, schedule);
      }
    }

    /** The same on a stream just opened: it starts at its target, in an empty ring. */
    method PlayAfresh(data: seq<byte>, ghost f: Format, schedule: seq<Slot>) returns (n: nat)
      requires Valid() && Alive() && Opens(f) && !stopping && |data| < TWO_64
      requires forall i :: 0 <= i < |schedule| ==> SlotOk(schedule[i])
      modifies this
      ensures Valid() && old(generation) <= generation && old(ring.heard) <= ring.heard && n <= |data|
      ensures ring.pushed == old(ring.pushed) +
                Tagged(Ramped(data[..n], Derived(f), old(targetMultiplier), old(targetMultiplier)), old(generation))
      ensures n == Span(|data|, Derived(f).bytesPerFrame) || stopping || generation != old(generation) || Full()
      ensures StartsQuiet(schedule) ==>
                n >= Min(Span(|data|, Derived(f).bytesPerFrame),
                         RingFrames(f.rate as nat, bufferMs) * Derived(f).bytesPerFrame)
    {
      AliveIsClean();
      FitsAfresh(f, |data|);
      hide Valid, Ramped, Fits, Tagged, Derived, RingFrames, Span, RampTo;
      n := Play(data, schedule);
    }

    lemma AliveIsClean()
      requires Valid() && Alive()
      ensures open && !ring.tainted
    {
    }

    method MarkFailed()
      requires Valid()
      modifies this`failed
      ensures Valid()
    {
      failed := true;
    }
  }

  /** Audio with no stream to go to: whole frames wherever the frame size is still known. */
  method Discard(len: nat, bpf: nat, f: Format) returns (n: nat)
    ensures n == DiscardCount(len, bpf, f) && n <= len
  {
    var frame := if bpf != 0 then bpf else FrameBytes(f);
    if frame == 0 {
      return len;
    }
    n := WholeSpan(len, frame);
  }

  function FrameBytes(f: Format): nat {
    MulMono(0, f.channels, f.bits / 8);
    f.channels * (f.bits / 8)
  }

  function DiscardCount(len: nat, bpf: nat, f: Format): nat {
    var frame := if bpf != 0 then bpf else FrameBytes(f);
    if frame == 0 then len else Span(len, frame)
  }

  // ------------------------------------------------------------ whole runs

  /** One call from outside: an event, or a write with its own interruptions. */
  datatype Action =
    | Event(event: Event)
    | Write(data: seq<byte>, reopen: OpenOutcome, latched: bool, schedule: seq<Slot>)

  ghost predicate ActionOk(a: Action) {
    match a
    case Event(e) => EventOk(e)
    case Write(data, _, _, schedule) => |data| < TWO_64 && forall i :: 0 <= i < |schedule| ==> SlotOk(schedule[i])
  }

  /** Over any run of the sink, callback steps falling anywhere, no byte the graph is handed is
      older than the generation whose clear() or opening was through when that read began. Only a
      read of a failed stream that a clear()'s drop() falls under is not answered for. */
  method Session(bufferMs: nat, actions: seq<Action>) returns (sink: Sink)
    requires forall i :: 0 <= i < |actions| ==> ActionOk(actions[i])
    ensures sink.Valid()
    ensures forall k :: 0 <= k < |sink.ring.heard| ==> sink.ring.heard[k].item.generation >= sink.ring.heard[k].floor
  {
    sink := new Sink(bufferMs);
    for i := 0 to |actions|
      invariant sink.Valid() && fresh(sink)
    {
      match actions[i] {
        case Event(e) => sink.RunEvent(e);
        case Write(data, reopen, latched, schedule) =>
          var n, playing, g := sink.Write(data, reopen, latched, schedule);
      }
    }
  }

  // ----------------------------------- the gain across a reconfigured stream

  function Distance(a: int, b: int): nat {
    if a <= b then b - a else a - b
  }

  lemma CommitReachesTarget(start: nat, target: nat, step: nat, frames: nat)
    ensures RampTo(start, target, step, frames) == target <==> step == 0 || Distance(start, target) <= frames * step
  {
  }

  /** Where a ramp of `moved` counts from `start` toward `target` ends. */
  function Arrival(start: nat, target: nat, moved: nat): nat {
    if Distance(start, target) <= moved then target
    else if start <= target then start + moved
    else start - moved
  }

  lemma RampArrives(start: nat, target: nat, step: nat, frames: nat)
    requires step > 0
    ensures RampTo(start, target, step, frames) == Arrival(start, target, frames * step)
  {
  }

  /** A stream is documented to open at its target gain, and open_stream_() snaps it there. But a
      write() parked across that configure() commits its own ramp on waking, over the snap. With
      `now` the target when the configure() opens the stream, and what fitted on entry landed
      by then, the new stream ends at its target exactly if the write was ramping there and its
      landed frames cover the distance at the new step (a rate too low to ramp covers any), or
      its ramp happens to stand at `now`. All of it is known before the call. */
  method PlayAcrossConfigure(sink: Sink, data: seq<byte>, f: Format, now: u64) returns (n: nat)
    requires sink.Valid() && sink.open && !sink.ring.tainted && !sink.stopping
    requires |data| < TWO_64 && Playable(f) && now as int <= Q32_ONE
    requires Room(sink.ring) < Span(|data|, sink.fmt.bytesPerFrame)
    modifies sink
    ensures sink.Valid() && sink.Alive() && !sink.stopping && sink.generation > old(sink.generation)
    ensures sink.fmt == Derived(f) && sink.targetMultiplier == now && Room(old(sink.ring)) >= 0
    ensures var target := old(sink.targetMultiplier) as int;
            var step := VolumeRampStep(f.rate) as int;
            sink.currentMultiplier == sink.targetMultiplier <==>
              now as int == if step == 0 then target
                            else Arrival(old(sink.currentMultiplier) as int, target,
                                         Groups(Room(old(sink.ring)), old(sink.fmt.bytesPerFrame)) * step)
  {
    hide RampTo, VolumeRampStep, RingOk, RampScaled, Arrival;
    var start, target := sink.currentMultiplier as int, sink.targetMultiplier as int;
    var step := VolumeRampStep(f.rate) as int;
    RoomHere(sink.ring, sink.fmt.bytesPerFrame, sink.generation);
    SpanOfSpan(Room(sink.ring), sink.fmt.bytesPerFrame);
    if step == 0 {
      CommitReachesTarget(start, target, step, Groups(Room(sink.ring), sink.fmt.bytesPerFrame));
    } else {
      RampArrives(start, target, step, Groups(Room(sink.ring), sink.fmt.bytesPerFrame));
    }
    var parked := Slot([], [], [SetTarget(now), Configure(f, Opened)]);
    n := sink.Play(data, if sink.Full() then [parked] else [QUIET, parked]);
  }

  /** Whatever interrupts it -- callbacks that drain the ring, further passes, any number of
      configure()s -- a write() whose first look is undisturbed and during which nobody moves the
      volume leaves the gain at its target if the frames that fitted on entry cover the distance
      at the step the sink ends with, and only if the whole buffer's would. */
  method PlayReachesTarget(sink: Sink, data: seq<byte>, schedule: seq<Slot>) returns (n: nat)
    requires sink.Valid() && sink.open && !sink.ring.tainted && !sink.stopping && |data| < TWO_64
    requires |data| >= sink.fmt.bytesPerFrame && StartsQuiet(schedule) && TargetUnmoved(schedule)
    requires forall i :: 0 <= i < |schedule| ==> SlotOk(schedule[i])
    modifies sink
    ensures sink.Valid() && sink.targetMultiplier == old(sink.targetMultiplier) && Room(old(sink.ring)) >= 0
    ensures var bpf, step := old(sink.fmt.bytesPerFrame), sink.fmt.rampStep as int;
            var distance := Distance(old(sink.currentMultiplier) as int, old(sink.targetMultiplier) as int);
            && (step == 0 || distance <= Groups(Fits(old(sink.ring), Span(|data|, bpf), bpf), bpf) * step ==>
                  sink.currentMultiplier == sink.targetMultiplier)
            && (sink.currentMultiplier == sink.targetMultiplier ==>
                  step == 0 || distance <= Groups(|data|, bpf) * step)
  {
    hide RampTo, VolumeRampStep, RingOk, RampScaled, Fits;
    ghost var start, target := sink.currentMultiplier as int, sink.targetMultiplier as int;
    ghost var bpf, q := sink.fmt.bytesPerFrame, sink.ring;
    n := sink.Play(data, schedule);
    ghost var step := sink.fmt.rampStep as int;
    CommitReachesTarget(start, target, step, Groups(n, bpf));
    GroupsMono(Fits(q, Span(|data|, bpf), bpf), n, bpf);
    GroupsMono(n, |data|, bpf);
    MulMono(Groups(Fits(q, Span(|data|, bpf), bpf), bpf), Groups(n, bpf), step);
    MulMono(Groups(n, bpf), Groups(|data|, bpf), step);
  }

  lemma {:induction false} GroupsMono(a: nat, b: nat, d: nat)
    requires d > 0 && a <= b
    ensures Groups(a, d) <= Groups(b, d)
    decreases a
  {
    if a >= d {
      GroupsMono(a - d, b - d, d);
    }
  }

  lemma QuarterOfTheWay()
    ensures var step := VolumeRampStep(192000) as int; step > 0 && 1024 * step < Q32_ONE
    ensures RingFrames(192000, 0) == 1024 && Groups(4096, 4) == 1024 && Span(4100, 4) == 4100
  {
    GroupsIsDivision(4096, 4);
    GroupsIsDivision(4100, 4);
  }

  /** A run from the beginning that ends on an open stream off its target: the smallest
      ring at 192 kHz, the volume taken to zero, and a longer write across a configure(). */
  method OffTargetRun() returns (sink: Sink)
    ensures sink.Valid() && sink.Alive() && !sink.stopping && sink.targetMultiplier == 0 && sink.currentMultiplier != 0
  {
    hide VolumeRampStep, RingFrames, Groups, Span, RingOk;
    QuarterOfTheWay();
    var f := Format(192000, 2, 16);
    sink := new Sink(0);
    var ok := sink.RunConfigure(f, Opened);
    sink.RunLockFree(SetTarget(0));
    var n := PlayAcrossConfigure(sink, Zeros(4100), f, 0);
  }

  /** And one in which the write had no distance to cover: at a steady unity it parks on the ring
      it has filled, and the volume goes to zero just before the configure(). */
  method SteadyGainOffTarget() returns (sink: Sink)
    ensures sink.Valid() && sink.Alive() && !sink.stopping
    ensures sink.targetMultiplier == 0 && sink.currentMultiplier as int == Q32_ONE
  {
    hide VolumeRampStep, RingFrames, Groups, Span, RingOk, RampTo, RampScaled, Arrival;
    QuarterOfTheWay();
    var f := Format(192000, 2, 16);
    sink := new Sink(0);
    var ok := sink.RunConfigure(f, Opened);
    ghost var start := sink.currentMultiplier as int;
    var n := sink.Play(Zeros(4100), [QUIET, Slot([], [], [SetTarget(0), Configure(f, Opened)])]);
    CommitReachesTarget(start, start, sink.fmt.rampStep as int, Groups(n, 4));
  }
}
