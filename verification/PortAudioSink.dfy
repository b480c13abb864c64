/** The other ring-fed sink as a monitor: src/portaudio_sink.cpp.

    The same parking write() as PipeWireSink, but what it pushes is unscaled: the
    gain is the callback's to advance, in played time, zero fill included. So a
    write() parked across a reconfigured stream has no gain to commit over it.
    PortAudio is taken at its word: the callback runs only on an active stream and
    has finished when an abort or a close returns.
 */
module PortAudioSink {
  import opened Arith
  import opened Machine
  import opened Recovery
  import opened SinkWrite
  import opened StreamRing
  import opened Volume
  import opened PipeWireSink

  /** How an attempt at a device goes: the spec is not resolved; the stream is refused before
      anything is touched; it does not open; it does not start; or it runs. */
  datatype Attempt = Unresolved | Refused | NotOpened | NotStarted(latencyFrames: nat) | Started(latencyFrames: nat)

  /** What other threads do. The first four need no lock. `during` are callback steps that fall
      inside clear(), between the new generation and the request. `same` says the device is the one
      already open; `reuse` how restarting its stream goes. */
  datatype PaEvent =
    | PaCallback(frames: nat)   // one atomic step of the callback's read
    | DeviceDied
    | Target(gain: u64)
    | Latch
    | PaConfigure(format: Format, attempt: Attempt, same: bool, reuse: Reuse)
    | PaClear(during: seq<nat>)
    | PaStop
    | PaPoll(now: int, reinitialized: bool, attempt: Attempt, latched: bool)

  datatype Reuse = NotAborted | NotRestarted | Restarted

  predicate NeedsNoLock(e: PaEvent) {
    e.PaCallback? || e.DeviceDied? || e.Target? || e.Latch?
  }

  predicate PaEventOk(e: PaEvent) {
    && (e.Target? ==> e.gain as int <= Q32_ONE)
    && (e.PaPoll? ==> ClockRange(e.now))
  }

  datatype PaSlot = PaSlot(before: seq<PaEvent>, between: seq<PaEvent>, parked: seq<PaEvent>)

  ghost predicate PaSlotOk(s: PaSlot) {
    && (forall e :: e in s.before ==> PaEventOk(e) && NeedsNoLock(e))
    && (forall e :: e in s.between ==> PaEventOk(e) && NeedsNoLock(e))
    && (forall e :: e in s.parked ==> PaEventOk(e))
  }

  const PA_QUIET := PaSlot([], [], [])

  predicate PaStartsQuiet(schedule: seq<PaSlot>) {
    schedule == [] || schedule[0].before == []
  }

  // ---------------------------------------------------------- the gain's story

  /** One buffer handed to PortAudio: its bytes before scaling, zero fill included, and the
      target when it was filled. */
  datatype Chunk = Chunk(bytes: seq<byte>, target: u64)

  /** Where the gain stands after the chunks, from the gain the stream started at. */
  function GainAfter(chunks: seq<Chunk>, bpf: nat, gain: nat, step: nat): nat
    decreases |chunks|
  {
    if chunks == [] then gain
    else
      var n := |chunks| - 1;
      RampReached(|chunks[n].bytes|, bpf, GainAfter(chunks[..n], bpf, gain, step), chunks[n].target as nat, step)
  }

  /** What the device is given for them. */
  function Sounded(chunks: seq<Chunk>, w: nat, bpf: nat, gain: nat, step: nat): seq<byte>
    decreases |chunks|
  {
    if chunks == [] then []
    else
      var n := |chunks| - 1;
      Sounded(chunks[..n], w, bpf, gain, step)
      + RampScaled(chunks[n].bytes, w, bpf, GainAfter(chunks[..n], bpf, gain, step), chunks[n].target as nat, step)
  }

  lemma OneMoreChunk(chunks: seq<Chunk>, c: Chunk, w: nat, bpf: nat, gain: nat, step: nat)
    ensures var g := GainAfter(chunks, bpf, gain, step);
            && GainAfter(chunks + [c], bpf, gain, step) == RampReached(|c.bytes|, bpf, g, c.target as nat, step)
            && Sounded(chunks + [c], w, bpf, gain, step) ==
               Sounded(chunks, w, bpf, gain, step) + RampScaled(c.bytes, w, bpf, g, c.target as nat, step)
  {
    assert (chunks + [c])[..|chunks|] == chunks;
  }

  /** A stream whose target has been its opening gain all along has never been off it: nothing
      fades in, and no other thread can have moved it. */
  lemma {:induction false} SteadyFromTheStart(chunks: seq<Chunk>, bpf: nat, gain: nat, step: nat)
    requires forall k :: 0 <= k < |chunks| ==> chunks[k].target as int == gain
    ensures GainAfter(chunks, bpf, gain, step) == gain
    decreases |chunks|
  {
    if chunks != [] {
      SteadyFromTheStart(chunks[..|chunks| - 1], bpf, gain, step);
    }
  }

  function Handed(chunks: seq<Chunk>): seq<byte>
    decreases |chunks|
  {
    if chunks == [] then [] else Handed(chunks[..|chunks| - 1]) + chunks[|chunks| - 1].bytes
  }

  lemma ReachedComposes(a: nat, b: nat, bpf: nat, c: nat, t: nat, step: nat)
    requires bpf > 0 && Span(a, bpf) == a
    ensures RampReached(a + b, bpf, c, t, step) == RampReached(b, bpf, RampReached(a, bpf, c, t, step), t, step)
  {
    hide RampTo;
    SpanAdds(a, b, bpf);
    RampComposes(c, t, step, Groups(a, bpf), Groups(b, bpf));
  }

  predicate AllAt(chunks: seq<Chunk>, t: nat, bpf: nat)
    requires bpf > 0
  {
    forall k :: 0 <= k < |chunks| ==> chunks[k].target as int == t && Span(|chunks[k].bytes|, bpf) == |chunks[k].bytes|
  }

  lemma {:induction false} OneTargetOneGain(chunks: seq<Chunk>, bpf: nat, gain: nat, t: nat, step: nat)
    requires bpf > 0 && AllAt(chunks, t, bpf)
    ensures Span(|Handed(chunks)|, bpf) == |Handed(chunks)|
    ensures GainAfter(chunks, bpf, gain, step) == RampReached(|Handed(chunks)|, bpf, gain, t, step)
    decreases |chunks|
  {
    hide RampTo, RampReached;
    if chunks == [] {
      NothingReached(bpf, gain, t, step);
    } else {
      var n := |chunks| - 1;
      OneTargetOneGain(chunks[..n], bpf, gain, t, step);
      SpanAdds(|Handed(chunks[..n])|, |chunks[n].bytes|, bpf);
      ReachedComposes(|Handed(chunks[..n])|, |chunks[n].bytes|, bpf, gain, t, step);
    }
  }

  /** However the callbacks cut it up, underruns included, one target is one uninterrupted ramp
      over everything handed out since the stream started. */
  lemma {:induction false} OneTargetOneRamp(chunks: seq<Chunk>, w: nat, bpf: nat, gain: nat, t: nat, step: nat)
    requires bpf > 0 && AllAt(chunks, t, bpf)
    ensures GainAfter(chunks, bpf, gain, step) == RampReached(|Handed(chunks)|, bpf, gain, t, step)
    ensures Sounded(chunks, w, bpf, gain, step) == RampScaled(Handed(chunks), w, bpf, gain, t, step)
    decreases |chunks|
  {
    hide RampTo, RampScaled, RampReached, GainAfter, Span;
    OneTargetOneGain(chunks, bpf, gain, t, step);
    if chunks == [] {
      RampScaledShort([], w, bpf, gain, t, step);
    } else {
      var n := |chunks| - 1;
      OneTargetOneRamp(chunks[..n], w, bpf, gain, t, step);
      OneTargetOneGain(chunks[..n], bpf, gain, t, step);
      SplitAtReached(Handed(chunks[..n]), chunks[n].bytes, w, bpf, gain, t, step);
    }
  }

  lemma NothingReached(bpf: nat, c: nat, t: nat, step: nat)
    requires bpf > 0
    ensures RampReached(0, bpf, c, t, step) == c
  {
  }

  lemma SplitAtReached(a: seq<byte>, b: seq<byte>, w: nat, bpf: nat, c: nat, t: nat, step: nat)
    requires bpf > 0 && Span(|a|, bpf) == |a|
    ensures RampScaled(a + b, w, bpf, c, t, step) ==
            RampScaled(a, w, bpf, c, t, step) + RampScaled(b, w, bpf, RampReached(|a|, bpf, c, t, step), t, step)
  {
    hide RampTo, RampScaled;
    RampScaledSplit(a, b, w, bpf, c, t, step);
    if Groups(|a|, bpf) == 0 {
      ZeroFrameCommit(b, w, bpf, c, t, step);
    }
  }

  /** apply_volume_ramp() on PortAudio's own buffer. */
  method CallbackRamp(raw: seq<byte>, w: nat, channels: nat, current: u64, target: u64, step: u64)
    returns (out: seq<byte>, reached: u64)
    requires current as int <= Q32_ONE && target as int <= Q32_ONE
    ensures out == RampScaled(raw, w, channels * w, current as int, target as int, step as int)
    ensures reached as int == RampReached(|raw|, channels * w, current as int, target as int, step as int)
  {
    var buffer := new byte[|raw|](i requires 0 <= i < |raw| => raw[i]);
    assert buffer[..] == raw;
    assert buffer[..|raw|] == raw;
    reached := ApplyVolumeRamp(buffer, |raw|, w, channels, current, target, step);
    out := buffer[..];
    WholeSplice(raw, out);
  }

  predicate SameFormat(fmt: StreamFormat, f: Format) {
    fmt.rate == f.rate && fmt.channels == f.channels && fmt.bits == f.bits
  }

  class PortSink {
    const bufferMs: nat
    var open: bool
    var active: bool             // Pa_IsStreamActive()
    var fmt: StreamFormat
    var generation: nat
    var stopping: bool
    var failed: bool
    var lastFormat: Format
    var recovery: Recovery
    var currentMultiplier: u64
    var targetMultiplier: u64
    var ring: Ring
    /** Since this stream last started: the gain it started at, the buffers, what was made of them. */
    var startGain: u64
    var chunks: seq<Chunk>
    var output: seq<byte>

    /** The ring is in order for the current format and generation, and nothing reads it unless
        the stream is running. */
    ghost predicate Monitor()
      reads this
    {
      && FormatOk(fmt)
      && RingOk(ring, fmt.bytesPerFrame, generation)
      && (open ==> fmt.bytesPerFrame > 0 && ring.capacity > 0)
      && (!Alive() ==> ring.reader.Waiting?)
      && !ring.tainted
    }

    /** The gain is where the buffers handed out have taken it, and nowhere else. */
    ghost predicate Gain()
      reads this
    {
      && currentMultiplier as int <= Q32_ONE && targetMultiplier as int <= Q32_ONE
      && (open ==>
            && fmt.bytesPerFrame > 0
            && currentMultiplier as int == GainAfter(chunks, fmt.bytesPerFrame, startGain as int, fmt.rampStep as int)
            && output == Sounded(chunks, fmt.bits / 8, fmt.bytesPerFrame, startGain as int, fmt.rampStep as int)
            && forall k :: 0 <= k < |chunks| ==> Span(|chunks[k].bytes|, fmt.bytesPerFrame) == |chunks[k].bytes|)
    }

    ghost predicate Valid()
      reads this
    {
      Monitor() && Gain()
    }

    /** All another thread can do to a parked write(): anything it does to the stream moves the
        generation; otherwise the ring can only have drained. */
    twostate predicate Interfered()
      reads this
    {
      && old(generation) <= generation
      && ring.pushed == old(ring.pushed)
      && old(ring.heard) <= ring.heard
      && (old(stopping) ==> stopping)
      && (generation == old(generation) ==>
            && open == old(open) && fmt == old(fmt) && ring.capacity == old(ring.capacity)
            && startGain == old(startGain) && old(chunks) <= chunks
            && |ring.items| <= |old(ring.items)|)
    }

    constructor (bufferMs: nat)
      ensures Valid() && !open && this.bufferMs == bufferMs && !stopping
    {
      this.bufferMs := bufferMs;
      open, active, fmt, generation, stopping, failed := false, false, CLOSED, 0, false, false;
      lastFormat, recovery := NO_FORMAT, FRESH;
      currentMultiplier, targetMultiplier := 0x1_0000_0000, 0x1_0000_0000;
      ring := NO_RING;
      startGain, chunks, output := 0, [], [];
    }

    predicate Alive()
      reads this
    {
      open && active
    }

    // ------------------------------------------------- lock-free callbacks

    /** One atomic step of the callback's read of `frames` frames, and what the read leaves in
        PortAudio's buffer if that was the last of it. */
    method ReadRing(frames: nat) returns (raw: Option<seq<byte>>)
      requires Monitor() && Alive()
      modifies this`ring
      ensures Monitor() && InBounds(old(ring)) && ring == ReadStep(old(ring), BytesOf(frames, fmt.bytesPerFrame))
      ensures ring.pushed == old(ring.pushed) && old(ring.heard) <= ring.heard && ring.capacity == old(ring.capacity)
      ensures |ring.items| <= |old(ring.items)|
      ensures raw.Some? <==> old(ring).reader.Reading? && ring.reader.Waiting?
      ensures raw.Some? ==> Span(|raw.value|, fmt.bytesPerFrame) == |raw.value|
      ensures raw.Some? ==> (old(ring).reader.phase.Taking? ==> old(ring).reader.phase.n <= old(ring).reader.want)
                            && raw.value == GivenBy(old(ring))
    {
      hide VolumeRampStep, Span, RingOk, ReadStep, BytesOf, FormatOk, GivenBy;
      var want := BytesOf(frames, fmt.bytesPerFrame);
      BytesOfIsWhole(frames, fmt.bytesPerFrame);
      GivenIsWhole(ring, fmt.bytesPerFrame, generation);
      ReadStepKeepsOk(ring, want, fmt.bytesPerFrame, generation);
      ReadStepOnlyDrains(ring, want);
      var was := ring;
      ring := ReadStep(ring, want);
      raw := if was.reader.Reading? && ring.reader.Waiting? then Some(GivenBy(was)) else None;
    }

    /** The gain half of one callback: every frame handed over is scaled, silence included,
        unless the gain is steady at unity. */
    method Sound(raw: seq<byte>)
      requires Gain() && FormatOk(fmt) && open && Span(|raw|, fmt.bytesPerFrame) == |raw|
      modifies this`currentMultiplier, this`chunks, this`output
      ensures Gain() && chunks == old(chunks) + [Chunk(raw, targetMultiplier)]
    {
      hide VolumeRampStep, RampTo, RampScaled, RampReached, GainAfter, Sounded, Span;
      var w, current, target := fmt.bits / 8, currentMultiplier, targetMultiplier;
      OneMoreChunk(chunks, Chunk(raw, target), w, fmt.bytesPerFrame, startGain as int, fmt.rampStep as int);
      ReachedInRange(|raw|, fmt.bytesPerFrame, current as int, target as int, fmt.rampStep as int);
      var out, reached := raw, current;
      if current != target || target != 0x1_0000_0000 {
        out, reached := CallbackRamp(raw, w, fmt.channels, current, target, fmt.rampStep);
      } else {
        SteadyUnity(raw, w, fmt.channels, fmt.rampStep as int);
      }
      output := output + out;
      currentMultiplier := reached;
      chunks := chunks + [Chunk(raw, target)];
    }

    /** One step of pa_callback(), which PortAudio runs on an active stream only. Between the
        end of the read and the scaling nothing another thread does bears on either. */
    method RunCallback(frames: nat)
      requires Valid()
      modifies this`ring, this`currentMultiplier, this`chunks, this`output
      ensures Valid() && Interfered() && (!Alive() ==> ring == old(ring))
      ensures Alive() ==> InBounds(old(ring)) && ring == ReadStep(old(ring), BytesOf(frames, fmt.bytesPerFrame))
      ensures !(old(ring).reader.Reading? && ring.reader.Waiting?) ==>
                chunks == old(chunks) && output == old(output) && currentMultiplier == old(currentMultiplier)
      ensures old(ring).reader.Reading? && ring.reader.Waiting? ==>
                && InBounds(old(ring))
                && (old(ring).reader.phase.Taking? ==> old(ring).reader.phase.n <= old(ring).reader.want)
                && chunks == old(chunks) + [Chunk(GivenBy(old(ring)), targetMultiplier)]
    {
      hide VolumeRampStep, Span, GainAfter, Sounded, RingOk, ReadStep, BytesOf, GivenBy, FormatOk;
      if !Alive() {
        return;
      }
      var raw := ReadRing(frames);
      if raw.Some? {
        Sound(raw.value);
      }
    }

    /** The callback has run to its end: PortAudio lets no abort, close or death pass it by. */
    method FinishCallback()
      requires Valid()
      modifies this`ring, this`currentMultiplier, this`chunks, this`output
      ensures Valid() && Interfered() && ring.reader.Waiting?
    {
      hide Gain, Monitor, ReadStep, BytesOf;
      while ring.reader.Reading?
        invariant Valid() && Interfered()
        decreases StepsLeft(ring.reader)
      {
        ReadingMeansAlive();
        ghost var was := ring;
        RunCallback(0);
        StepCounts(was, BytesOf(0, fmt.bytesPerFrame));
      }
    }

    lemma ReadingMeansAlive()
      requires Valid() && ring.reader.Reading?
      ensures Alive()
    {
    }

    method RunNoLock(e: PaEvent)
      requires Valid() && PaEventOk(e) && NeedsNoLock(e)
      modifies this`ring, this`currentMultiplier, this`chunks, this`output,
               this`active, this`targetMultiplier, this`stopping
      ensures Valid() && Interfered()
      ensures targetMultiplier == (if e.Target? then e.gain else old(targetMultiplier))
      ensures active == (!e.DeviceDied? && old(active)) && stopping == (e.Latch? || old(stopping))
      ensures e.PaCallback? && old(Alive()) ==> ring == ReadStep(old(ring), BytesOf(e.frames, fmt.bytesPerFrame))
      ensures e.Target? || e.Latch? ==> ring == old(ring) && chunks == old(chunks)
    {
      hide VolumeRampStep, Span, GainAfter, Sounded, RingOk, FormatOk;
      match e {
        case PaCallback(frames) => RunCallback(frames);
        case DeviceDied =>
          FinishCallback();
          active := false;
        case Target(gain) => targetMultiplier := gain;
        case Latch => stopping := true;
      }
    }

    // --------------------------------------------------- under the mutex

    method CloseStream()
      requires Valid()
      modifies this
      ensures Valid() && Interfered() && !open && generation == old(generation) + 1 && fmt == CLOSED
      ensures stopping == old(stopping) && lastFormat == old(lastFormat) && recovery == old(recovery)
      ensures targetMultiplier == old(targetMultiplier)
    {
      hide VolumeRampStep, Span, GainAfter, Sounded, FormatOk;
      FinishCallback();
      EmptiedIsOk(ring, 0, 0, generation + 1);
      hide RingOk;
      open, active := false, false;
      generation := generation + 1;
      fmt := CLOSED;
      ClosedIsFine();
      ring := Emptied(ring, 0, generation);
    }

    lemma ClosedIsFine()
      ensures FormatOk(CLOSED)
    {
    }

    /** The gain a stream starts at is the one it is meant to be at. */
    method SnapGain()
      requires targetMultiplier as int <= Q32_ONE && (open ==> fmt.bytesPerFrame > 0)
      modifies this`currentMultiplier, this`startGain, this`chunks, this`output
      ensures Gain() && currentMultiplier == startGain == targetMultiplier && chunks == [] && output == []
    {
      currentMultiplier, startGain, chunks, output := targetMultiplier, targetMultiplier, [], [];
    }

    /** Everything the callback will read, set before the stream is started. */
    method PrepareStream(f: Format, latencyFrames: nat)
      requires Valid() && !open && Playable(f)
      modifies this`generation, this`fmt, this`currentMultiplier, this`startGain, this`chunks, this`output, this`ring
      ensures Valid() && Interfered() && !open && fmt == Derived(f) && generation == old(generation) + 1
      ensures currentMultiplier == startGain == targetMultiplier && chunks == [] && output == []
      ensures ring.items == [] && ring.settled == generation && ring.capacity > 0 && ring.reader.Waiting?
      ensures ring.capacity == Capacity(f, latencyFrames)
    {
      hide VolumeRampStep, Span, RingFrames, GainAfter, Sounded, Playable, Derived, FormatOk;
      generation := generation + 1;
      fmt := Derived(f);
      SnapGain();
      hide Gain;
      var capacity := RingCapacity(f.rate as nat, latencyFrames, fmt.bytesPerFrame);
      EmptiedIsOk(ring, capacity, fmt.bytesPerFrame, generation);
      hide RingOk;
      ring := Emptied(ring, capacity, generation);
    }

    ghost function Capacity(f: Format, latencyFrames: nat): int
      requires Playable(f)
    {
      Max(RingFrames(f.rate as nat, bufferMs), latencyFrames) * Derived(f).bytesPerFrame + 1
    }

    /** As open_stream_() leaves it: at the format, at the target gain, with an empty ring of the
        size asked for and nothing handed out. */
    ghost predicate Opens(f: Format, attempt: Attempt)
      reads this
    {
      && Playable(f) && attempt.Started? && Alive() && fmt == Derived(f)
      && currentMultiplier == startGain == targetMultiplier && chunks == [] && ring.items == []
      && ring.capacity == Capacity(f, attempt.latencyFrames)
    }

    /** ring_capacity_(): the time asked for, the device's latency or the minimum, whichever is
        most, and the spare byte. */
    method RingCapacity(rate: nat, latencyFrames: nat, bpf: nat) returns (capacity: nat)
      requires bpf > 0
      ensures capacity == Max(RingFrames(rate, bufferMs), latencyFrames) * bpf + 1 && capacity > bpf
    {
      var frames := Max(RingFrames(rate, bufferMs), latencyFrames);
      MulMono(1, frames, bpf);
      capacity := frames * bpf + 1;
    }

    method OpenStream(f: Format, attempt: Attempt) returns (ok: bool)
      requires Valid() && !open
      modifies this
      ensures Valid() && Interfered() && open == ok
      ensures ok <==> Playable(f) && attempt.Started?
      ensures ok ==> Opens(f, attempt) && generation > old(generation)
      ensures stopping == old(stopping) && lastFormat == old(lastFormat) && recovery == old(recovery)
      ensures targetMultiplier == old(targetMultiplier)
    {
      hide VolumeRampStep, Span, RingFrames, RingOk, FormatOk;
      ok := false;
      if !Playable(f) || attempt.Unresolved? || attempt.Refused? {
        return;
      }
      PrepareStream(f, if attempt.NotOpened? then 0 else attempt.latencyFrames);
      if !attempt.Started? {
        CloseStream();
        return;
      }
      open, active, failed := true, true, false;
      ok := true;
    }

    /** With the callback stopped: a new generation, an empty ring, the gain snapped. */
    method StartAfresh()
      requires Valid() && open
      modifies this`generation, this`ring, this`active, this`currentMultiplier, this`startGain, this`chunks, this`output
      ensures Valid() && Interfered() && generation == old(generation) + 1 && ring.reader.Waiting?
      ensures ring.items == [] && ring.settled == generation && currentMultiplier == startGain == targetMultiplier
              && chunks == []
    {
      hide VolumeRampStep, GainAfter, Sounded, FormatOk;
      FinishCallback();
      active := false;
      generation := generation + 1;
      NewGenerationKeepsOk(ring, fmt.bytesPerFrame, generation - 1, generation);
      DroppedIsOk(ring, fmt.bytesPerFrame, generation);
      hide RingOk;
      ring := Dropped(ring, generation);
      SnapGain();
      hide Gain;
    }

    /** restart_stream_(): the cheap path at a track boundary, from an empty ring. */
    method RestartStream(reuse: Reuse) returns (ok: bool)
      requires Valid() && open
      modifies this
      ensures Valid() && Interfered() && (ok <==> reuse.Restarted?) && open == old(open) && fmt == old(fmt)
      ensures ok ==>
                && generation > old(generation) && Alive() && ring.items == []
                && currentMultiplier == startGain == targetMultiplier && chunks == []
      ensures stopping == old(stopping) && lastFormat == old(lastFormat) && recovery == old(recovery)
      ensures targetMultiplier == old(targetMultiplier)
    {
      hide VolumeRampStep, GainAfter, Sounded, FormatOk, Span, RingOk;
      if reuse.NotAborted? {
        return false;
      }
      StartAfresh();
      ok := reuse.Restarted?;
      active, failed := ok, failed && !ok;
    }

    method RunConfigure(f: Format, attempt: Attempt, same: bool, reuse: Reuse) returns (ok: bool)
      requires Valid()
      modifies this
      ensures Valid() && Interfered() && stopping == old(stopping)
      ensures stopping ==> !ok && generation == old(generation) && open == old(open)
      ensures !stopping ==> lastFormat == f
      ensures !stopping ==>
                (ok <==> !attempt.Unresolved? &&
                         ((Playable(f) && attempt.Started?)
                          || (old(open) && same && reuse.Restarted? && SameFormat(old(fmt), f))))
      ensures ok ==> SameFormat(fmt, f)
      ensures !ok && !stopping ==> recovery == old(recovery) && (open <==> attempt.Unresolved? && old(open))
      ensures !ok && !stopping ==>
                if attempt.Unresolved? then generation == old(generation) else generation > old(generation)
      ensures !ok && !stopping && attempt.Unresolved? ==>
                fmt == old(fmt) && generation == old(generation) && ring == old(ring) && active == old(active)
      ensures ok ==>
                && Alive() && recovery == FRESH && generation > old(generation) && ring.items == []
                && currentMultiplier == startGain == targetMultiplier && chunks == []
    {
      hide VolumeRampStep, Span, GainAfter, Sounded, RingOk, FormatOk;
      if stopping {
        return false;
      }
      lastFormat := f;
      if attempt.Unresolved? {
        failed := true;
        return false;
      }
      if open && same && SameFormat(fmt, f) {
        var restarted := RestartStream(reuse);
        if restarted {
          recovery := FRESH;
          return true;
        }
      }
      CloseStream();
      ok := OpenStream(f, attempt);
      if !ok {
        failed := true;
        return;
      }
      recovery := FRESH;
    }

    /** clear(): ends the generation and leaves the gain alone; with a live stream the drain is
        the callback's, which may be anywhere in a read. */
    method RunClear(during: seq<nat>)
      requires Valid()
      modifies this`generation, this`ring, this`currentMultiplier, this`chunks, this`output
      ensures Valid() && Interfered() && generation == old(generation) + 1 && ring.settled == generation
      ensures open == old(open)
      ensures if Alive() then ring.clear else !ring.clear && ring.items == []
      ensures during == [] ==> currentMultiplier == old(currentMultiplier)
      ensures Alive() && during == [] ==> ring == AskClear(old(ring), generation)
    {
      hide VolumeRampStep, Span, GainAfter, Sounded, FormatOk;
      NewGenerationKeepsOk(ring, fmt.bytesPerFrame, generation, generation + 1);
      generation := generation + 1;
      if !Alive() {
        DroppedIsOk(ring, fmt.bytesPerFrame, generation);
        ring := Dropped(ring, generation);
        return;
      }
      hide RingOk;
      for i := 0 to |during|
        invariant Valid() && Interfered() && generation == old(generation) + 1 && Alive()
        invariant i == 0 ==> ring == old(ring) && currentMultiplier == old(currentMultiplier)
      {
        RunCallback(during[i]);
      }
      AskKeepsOk(ring, fmt.bytesPerFrame, generation);
      ring := AskClear(ring, generation);
    }

    method RunStop()
      requires Valid()
      modifies this
      ensures Valid() && Interfered() && stopping && !open && lastFormat == NO_FORMAT && recovery == old(recovery)
    {
      hide VolumeRampStep, Span, GainAfter, Sounded;
      stopping := true;
      lastFormat := NO_FORMAT;
      if !open {
        return;
      }
      CloseStream();
    }

    /** A rescan is granted to this poll. */
    predicate Rescans(now: int)
      reads this
    {
      !stopping && lastFormat.rate != 0 && Grants(recovery, RescanDue(now))
    }

    /** poll(): PortAudio is restarted and its devices looked at afresh, once; the attempt is
        reported before the work, so that nothing below can drop it. */
    method RunPoll(now: int, reinitialized: bool, attempt: Attempt, latched: bool)
      requires Valid() && ClockRange(now)
      modifies this
      ensures Valid() && Interfered()
      ensures lastFormat == old(lastFormat)
      ensures stopping && !old(stopping) ==> !open
      ensures old(Rescans(now)) ==>
                && open == (reinitialized && Playable(lastFormat) && attempt.Started? && !latched)
                && (open ==> Opens(lastFormat, attempt))
                && (stopping <==> reinitialized && Playable(lastFormat) && attempt.Started? && latched)
      ensures !old(recovery.rescanOwed) || old(stopping) || old(lastFormat.rate) == 0 ==>
                generation == old(generation) && stopping == old(stopping) && recovery == old(recovery)
      ensures old(recovery.rescanOwed) && !old(stopping) && old(lastFormat.rate) != 0 ==>
                if Grants(old(recovery), RescanDue(now)) then
                  && generation > old(generation)
                  && recovery == Apply(Apply(old(recovery), RescanDue(now)), RescanDone(true))
                else
                  && generation == old(generation) && stopping == old(stopping)
                  && recovery == Apply(old(recovery), RescanDue(now))
    {
      hide VolumeRampStep, Span, Apply, GainAfter, Sounded, RingOk, FormatOk;
      if !recovery.rescanOwed || stopping || lastFormat.rate == 0 {
        return;
      }
      var due := Grants(recovery, RescanDue(now));
      recovery := Apply(recovery, RescanDue(now));
      if !due {
        return;
      }
      recovery := Apply(recovery, RescanDone(true));
      CloseStream();
      if !reinitialized {
        return;
      }
      var ok := OpenStream(lastFormat, attempt);
      if ok && latched {
        stopping := true;
        CloseStream();
      }
    }

    method RunEvent(e: PaEvent)
      requires Valid() && PaEventOk(e)
      modifies this
      ensures Valid() && Interfered()
      ensures e.Latch? || e.PaStop? ==> stopping && (e.PaStop? ==> !open)
      ensures e.DeviceDied? ==> !active
      ensures e.Target? ==> targetMultiplier == e.gain
      ensures e.PaClear? ==> generation == old(generation) + 1 && open == old(open)
      ensures e.PaConfigure? && !old(stopping) && e.attempt.Started? && Playable(e.format) ==>
                Alive() && SameFormat(fmt, e.format) && generation > old(generation)
                    && currentMultiplier == targetMultiplier
      ensures e.PaPoll? && old(Rescans(e.now)) ==>
                open == (e.reinitialized && Playable(old(lastFormat)) && e.attempt.Started? && !e.latched)
    {
      hide Monitor, Gain, Capacity;
      match e {
        case PaConfigure(f, attempt, same, reuse) => var _ := RunConfigure(f, attempt, same, reuse);
        case PaClear(during) => RunClear(during);
        case PaStop => RunStop();
        case PaPoll(now, reinitialized, attempt, latched) => RunPoll(now, reinitialized, attempt, latched);
        case _ => RunNoLock(e);
      }
    }

    /** Interruptions while the mutex is held. */
    method RunFree(events: seq<PaEvent>)
      requires Valid() && forall e :: e in events ==> PaEventOk(e) && NeedsNoLock(e)
      modifies this`ring, this`currentMultiplier, this`chunks, this`output,
               this`active, this`targetMultiplier, this`stopping
      ensures Valid() && Interfered()
      ensures events == [] ==>
                && ring == old(ring) && stopping == old(stopping)
                && currentMultiplier == old(currentMultiplier)
    {
      hide Monitor, Gain;
      var i := 0;
      while i < |events|
        invariant 0 <= i <= |events|
        invariant Valid() && Interfered()
        invariant i == 0 ==>
                    && ring == old(ring) && stopping == old(stopping)
                    && currentMultiplier == old(currentMultiplier)
      {
        RunNoLock(events[i]);
        i := i + 1;
      }
    }

    /** The wait: the mutex is free, and anything at all may run. */
    method Park(events: seq<PaEvent>)
      requires Valid() && forall e :: e in events ==> PaEventOk(e)
      modifies this
      ensures Valid() && Interfered()
      ensures events == [] ==>
                && ring == old(ring) && stopping == old(stopping) && open == old(open)
                && generation == old(generation)
      ensures events == [] ==> currentMultiplier == old(currentMultiplier)
    {
      hide Monitor, Gain;
      var i := 0;
      while i < |events|
        invariant 0 <= i <= |events|
        invariant Valid() && Interfered()
        invariant i == 0 ==>
                    && ring == old(ring) && stopping == old(stopping) && open == old(open)
                    && generation == old(generation)
        invariant i == 0 ==> currentMultiplier == old(currentMultiplier)
      {
        RunEvent(events[i]);
        i := i + 1;
      }
    }

    // ----------------------------------------------------------- write()

    /** A cheap reopen is tried: for a stream that had been running, not during shutdown, with a
        format to open, and one in hand. */
    predicate TriesReopen()
      reads this
    {
      open && !stopping && lastFormat.rate != 0 && Grants(recovery, ReopenDue)
    }

    predicate Reopenable(f: Format, attempt: Attempt) {
      Playable(f) && attempt.Started?
    }

    /** reopen_in_place_(): only for a stream that was running and has died. */
    method ReopenInPlace(attempt: Attempt, latched: bool) returns (ok: bool)
      requires Valid()
      modifies this
      ensures Valid() && Interfered() && lastFormat == old(lastFormat)
      ensures ok <==> old(TriesReopen()) && Reopenable(old(lastFormat), attempt) && !latched
      ensures ok ==> Opens(old(lastFormat), attempt) && generation > old(generation) && !stopping
      ensures stopping <==> old(stopping) || (old(TriesReopen()) && Reopenable(old(lastFormat), attempt) && latched)
      ensures old(TriesReopen()) && !attempt.Unresolved? ==> open == ok && generation > old(generation)
      ensures !old(TriesReopen()) || attempt.Unresolved? ==> generation == old(generation) && open == old(open)
      ensures recovery ==
              if !old(open) || old(stopping) || old(lastFormat.rate) == 0 then old(recovery)
              else if old(TriesReopen()) then
                Apply(Apply(old(recovery), ReopenDue), ReopenDone(Reopenable(old(lastFormat), attempt)))
              else Apply(old(recovery), ReopenDue)
    {
      hide VolumeRampStep, Span, Apply, Grants, GainAfter, Sounded;
      ok := false;
      if !open || stopping || lastFormat.rate == 0 {
        return;
      }
      var due := Grants(recovery, ReopenDue);
      recovery := Apply(recovery, ReopenDue);
      if !due {
        return;
      }
      if attempt.Unresolved? {
        recovery := Apply(recovery, ReopenDone(false));
        return;
      }
      CloseStream();
      var opened_ := OpenStream(lastFormat, attempt);
      recovery := Apply(recovery, ReopenDone(opened_));
      if !opened_ {
        return;
      }
      if latched {
        stopping := true;
        CloseStream();
        return;
      }
      ok := true;
    }

    predicate Full()
      reads this
    {
      Room(ring) < fmt.bytesPerFrame
    }

    lemma OnEntry(remaining: nat)
      requires Valid() && open && remaining > 0 && Span(remaining, fmt.bytesPerFrame) == remaining
      ensures fmt.bytesPerFrame > 0 && Room(ring) >= 0
      ensures Fits(ring, remaining, fmt.bytesPerFrame) == 0 <==> Full()
    {
      RoomHere(ring, fmt.bytesPerFrame, generation);
      FitsIsZero(ring, remaining, fmt.bytesPerFrame);
    }

    /** ring_.write() of bytes known to fit, under whatever generation is current. */
    method Push(bs: seq<byte>)
      requires Valid() && open && Span(|bs|, fmt.bytesPerFrame) == |bs| && |bs| <= Room(ring)
      modifies this`ring
      ensures Valid() && ring == Pushed(old(ring), bs, generation)
    {
      hide VolumeRampStep, Span, FormatOk, GainAfter, Sounded;
      PushKeepsOk(ring, bs, fmt.bytesPerFrame, generation);
      ring := Pushed(ring, bs, generation);
    }

    /** The half of a pass under the mutex: push what fits, if anything does. */
    method PushFitting(data: seq<byte>, done: nat, between: seq<PaEvent>) returns (done': nat)
      requires Valid() && open && done < |data| && fmt.bytesPerFrame > 0
      requires Span(|data|, fmt.bytesPerFrame) == |data| && Span(done, fmt.bytesPerFrame) == done
      requires forall e :: e in between ==> PaEventOk(e) && NeedsNoLock(e)
      modifies this`ring, this`currentMultiplier, this`chunks, this`output,
               this`active, this`targetMultiplier, this`stopping
      ensures Valid() && old(ring.heard) <= ring.heard
      ensures done <= done' <= |data| && Span(done', fmt.bytesPerFrame) == done'
      ensures ring.pushed == old(ring.pushed) + Tagged(data[done..done'], generation)
      ensures Room(old(ring)) >= 0 && done' == done + Fits(old(ring), |data| - done, fmt.bytesPerFrame)
      ensures done' == done ==> ring == old(ring) && stopping == old(stopping) && Full()
    {
      hide VolumeRampStep, Tagged, FormatOk, Valid, Fits, Span;
      NothingTagged(data, done, generation);
      SpanLess(|data|, done, fmt.bytesPerFrame);
      OnEntry(|data| - done);
      var n := Fitting(ring, |data| - done, fmt.bytesPerFrame);
      if n == 0 {
        return done;
      }
      RunFree(between);
      SpanAdds(done, n, fmt.bytesPerFrame);
      Push(data[done..done + n]);
      return done + n;
    }

    /** One pass of the push loop: write what fits, or park. `more` says the stream this buffer
        is for is still there. */
    method Pass(data: seq<byte>, done: nat, slot: PaSlot) returns (done': nat, more: bool)
      requires Valid() && open && fmt.bytesPerFrame > 0 && PaSlotOk(slot) && done < |data|
      requires Span(|data|, fmt.bytesPerFrame) == |data| && Span(done, fmt.bytesPerFrame) == done
      modifies this
      ensures Valid() && old(generation) <= generation && old(ring.heard) <= ring.heard
      ensures done <= done' <= |data| && Span(done', old(fmt.bytesPerFrame)) == done'
      ensures ring.pushed == old(ring.pushed) + Tagged(data[done..done'], old(generation))
      ensures more ==> generation == old(generation)
      ensures !more ==> stopping || generation != old(generation) || Full()
      ensures generation == old(generation) ==> open && fmt == old(fmt)
      ensures more && slot == PA_QUIET ==> done' > done
      ensures slot.before == [] && !old(stopping) ==>
                Room(old(ring)) >= 0 && done' == done + Fits(old(ring), |data| - done, old(fmt.bytesPerFrame))
    {
      hide VolumeRampStep, Tagged, FormatOk, Span, Monitor, Gain, Fits;
      var bpf, g := fmt.bytesPerFrame, generation;
      done', more := done, false;
      NothingTagged(data, done, generation);
      RunFree(slot.before);
      if stopping {
        return;
      }
      done' := PushFitting(data, done, slot.between);
      if done' > done {
        return done', true;
      }
      Park(slot.parked);
      if !(Room(ring) >= bpf || stopping || !open || generation != g) {
        return;
      }
      more := open && generation == g;
    }

    /** write(). Exactly the bytes counted landed, all under the generation current when the loop
        began, whatever interrupts it, and all that fits on entry if nothing interrupts before
        it is looked at; with no stream to be had the audio is swallowed in whole frames. */
    method Write(data: seq<byte>, attempt: Attempt, latched: bool, schedule: seq<PaSlot>)
      returns (n: nat, playing: bool, ghost g: nat)
      requires Valid()
      requires forall i :: 0 <= i < |schedule| ==> PaSlotOk(schedule[i])
      modifies this
      ensures Valid() && n <= |data| && old(ring.heard) <= ring.heard
      ensures old(generation) <= g <= generation
      ensures playing ==> ring.pushed == old(ring.pushed) + Tagged(data[..n], g)
      ensures !playing ==> ring.pushed == old(ring.pushed)
      ensures !playing ==> n == if data == [] then 0 else DiscardCount(|data|, fmt.bytesPerFrame, lastFormat)
      ensures data != [] ==>
                (playing <==> old(Alive()) || (old(TriesReopen()) && Reopenable(old(lastFormat), attempt) && !latched))
      ensures playing && old(Alive()) ==>
                g == old(generation) && old(fmt.bytesPerFrame) > 0 && Span(n, old(fmt.bytesPerFrame)) == n
      ensures playing && !old(Alive()) ==> g > old(generation) && Playable(old(lastFormat)) && attempt.Started?
      ensures playing ==>
                || stopping || generation != g || Full()
                || n == Span(|data|, if old(Alive()) then old(fmt.bytesPerFrame)
                                     else Derived(old(lastFormat)).bytesPerFrame)
      ensures old(Alive()) && data != [] && !old(stopping) && PaStartsQuiet(schedule) ==>
                && Room(old(ring)) >= 0
                && n >= Fits(old(ring), Span(|data|, old(fmt.bytesPerFrame)), old(fmt.bytesPerFrame))
      ensures playing && !old(Alive()) && PaStartsQuiet(schedule) ==>
                n >= Min(Span(|data|, Derived(old(lastFormat)).bytesPerFrame),
                         Capacity(old(lastFormat), attempt.latencyFrames) - 1)
      ensures !playing && data != [] ==>
                recovery ==
                  if !old(open) || old(stopping) || old(lastFormat.rate) == 0 then old(recovery)
                  else if old(TriesReopen()) then
                    Apply(Apply(old(recovery), ReopenDue), ReopenDone(Reopenable(old(lastFormat), attempt)))
                  else Apply(old(recovery), ReopenDue)
    {
      hide Monitor, Gain, Tagged, Grants, Fits, Span, Derived, Playable, Capacity, TriesReopen, Apply;
      n, playing, g := 0, false, generation;
      if data == [] {
        return;
      }
      var alive, afresh := Alive(), false;
      if !alive {
        afresh := ReopenInPlace(attempt, latched);
      }
      g := generation;
      if !alive && !afresh {
        MarkFailed();
        n := Discard(|data|, fmt.bytesPerFrame, lastFormat);
        return;
      }
      playing := true;
      OpenHasFrames();
      if afresh {
        n := FeedAfresh(data, lastFormat, attempt, schedule);
      } else {
        n := Feed(data, schedule);
      }
    }

    /** The push loop on a stream just opened, into an empty ring. */
    method FeedAfresh(data: seq<byte>, ghost f: Format, ghost attempt: Attempt, schedule: seq<PaSlot>)
      returns (n: nat)
      requires Valid() && Opens(f, attempt) && !stopping
      requires forall i :: 0 <= i < |schedule| ==> PaSlotOk(schedule[i])
      modifies this
      ensures Valid() && old(generation) <= generation && old(ring.heard) <= ring.heard && n <= |data|
      ensures ring.pushed == old(ring.pushed) + Tagged(data[..n], old(generation))
      ensures n == Span(|data|, Derived(f).bytesPerFrame) || stopping || generation != old(generation) || Full()
      ensures PaStartsQuiet(schedule) ==>
                n >= Min(Span(|data|, Derived(f).bytesPerFrame), Capacity(f, attempt.latencyFrames) - 1)
    {
      OpenHasFrames();
      FitsAfresh(f, attempt, |data|);
      hide Monitor, Gain, Fits, Tagged, Derived, Capacity, Span;
      n := Feed(data, schedule);
    }

    lemma FitsAfresh(f: Format, attempt: Attempt, len: nat)
      requires Valid() && Opens(f, attempt)
      ensures Room(ring) >= 0
      ensures Fits(ring, Span(len, fmt.bytesPerFrame), fmt.bytesPerFrame)
              == Min(Span(len, fmt.bytesPerFrame), Capacity(f, attempt.latencyFrames) - 1)
    {
      hide VolumeRampStep, RingFrames, Gain;
      RoomHere(ring, fmt.bytesPerFrame, generation);
      GroupsOfMultiple(Max(RingFrames(f.rate as nat, bufferMs), attempt.latencyFrames), fmt.bytesPerFrame);
    }

    lemma EmptyHasRoom()
      requires Valid() && open && ring.items == []
      ensures fmt.bytesPerFrame == fmt.channels * (fmt.bits / 8) && Room(ring) >= fmt.bytesPerFrame
    {
    }

    method MarkFailed()
      requires Valid()
      modifies this`failed
      ensures Valid()
    {
      failed := true;
    }

    lemma OpenHasFrames()
      requires Valid()
      ensures open ==> fmt.bytesPerFrame > 0 && Room(ring) >= 0
    {
      if open {
        RoomHere(ring, fmt.bytesPerFrame, generation);
      }
    }

    /** The push loop over the whole frames of `data`. The first pass stands apart so that it can
        be said what it lands. */
    method Feed(data: seq<byte>, schedule: seq<PaSlot>) returns (done: nat)
      requires Valid() && open && fmt.bytesPerFrame > 0 && Room(ring) >= 0
      requires forall i :: 0 <= i < |schedule| ==> PaSlotOk(schedule[i])
      modifies this
      ensures Valid() && old(generation) <= generation && old(ring.heard) <= ring.heard
      ensures done <= |data| && Span(done, old(fmt.bytesPerFrame)) == done
      ensures ring.pushed == old(ring.pushed) + Tagged(data[..done], old(generation))
      ensures done == Span(|data|, old(fmt.bytesPerFrame)) || stopping || generation != old(generation) || Full()
      ensures !old(stopping) && PaStartsQuiet(schedule) ==>
                done >= Fits(old(ring), Span(|data|, old(fmt.bytesPerFrame)), old(fmt.bytesPerFrame))
    {
      hide Valid, Tagged, Fits, PaSlotOk;
      var usable := WholeSpan(|data|, fmt.bytesPerFrame);
      SpanOfSpan(|data|, fmt.bytesPerFrame);
      hide Span;
      NothingTagged(data, 0, generation);
      done := 0;
      if usable == 0 {
        return;
      }
      ghost var g, was := generation, ring.pushed;
      var whole := data[..usable];
      NoEvents();
      var more;
      done, more := Pass(whole, 0, if schedule == [] then PA_QUIET else schedule[0]);
      ghost var first := done;
      if more && done < usable {
        done := FeedOn(whole, done, if schedule == [] then [] else schedule[1..]);
        TaggedOn(was, whole, 0, first, done, g);
      }
      assert whole[0..done] == data[..done];
    }

    method FeedOn(data: seq<byte>, from: nat, schedule: seq<PaSlot>) returns (done: nat)
      requires Valid() && open && fmt.bytesPerFrame > 0 && Span(|data|, fmt.bytesPerFrame) == |data|
      requires from <= |data| && Span(from, fmt.bytesPerFrame) == from
      requires forall i :: 0 <= i < |schedule| ==> PaSlotOk(schedule[i])
      modifies this
      ensures Valid() && old(generation) <= generation && old(ring.heard) <= ring.heard
      ensures from <= done <= |data| && Span(done, old(fmt.bytesPerFrame)) == done
      ensures ring.pushed == old(ring.pushed) + Tagged(data[from..done], old(generation))
      ensures done == |data| || stopping || generation != old(generation) || Full()
    {
      hide Valid, Tagged, Fits, Span, PaSlotOk;
      ghost var g, bpf, was := generation, fmt.bytesPerFrame, ring.pushed;
      done := from;
      var i, more := 0, true;
      NothingTagged(data, from, g);
      while done < |data| && more
        invariant 0 <= i <= |schedule| && from <= done <= |data| && Span(done, bpf) == done
        invariant Valid() && g <= generation && old(ring.heard) <= ring.heard
        invariant if more then generation == g else stopping || generation != g || Full()
        invariant generation == g ==> open && fmt == old(fmt)
        invariant ring.pushed == old(ring.pushed) + Tagged(data[from..done], g)
        decreases |data| - done, more, |schedule| - i
      {
        var slot := if i < |schedule| then schedule[i] else PA_QUIET;
        ghost var before := done;
        NoEvents();
        done, more := Pass(data, done, slot);
        TaggedOn(was, data, from, before, done, g);
        i := Min(i + 1, |schedule|);
      }
    }
  }

  lemma NoEvents()
    ensures PaSlotOk(PA_QUIET)
  {
  }

  lemma ReachedInRange(len: nat, bpf: nat, c: nat, t: nat, step: nat)
    ensures c <= t ==> c <= RampReached(len, bpf, c, t, step) <= t
    ensures t <= c ==> t <= RampReached(len, bpf, c, t, step) <= c
  {
  }

  // ------------------------------------------------------------ whole runs

  datatype PaAction =
    | Happens(event: PaEvent)
    | WriteCall(data: seq<byte>, attempt: Attempt, latched: bool, schedule: seq<PaSlot>)

  ghost predicate PaActionOk(a: PaAction) {
    match a
    case Happens(e) => PaEventOk(e)
    case WriteCall(_, _, _, schedule) => forall i :: 0 <= i < |schedule| ==> PaSlotOk(schedule[i])
  }

  /** Over any run, callback steps falling anywhere: no byte is handed to the device that is older
      than the generation whose clear() or start was through when that read began, and an open
      stream's output is what the callbacks alone have made of the gain it started at. */
  method PaSession(bufferMs: nat, actions: seq<PaAction>) returns (sink: PortSink)
    requires forall i :: 0 <= i < |actions| ==> PaActionOk(actions[i])
    ensures sink.Valid()
    ensures forall k :: 0 <= k < |sink.ring.heard| ==> sink.ring.heard[k].item.generation >= sink.ring.heard[k].floor
    ensures sink.open ==>
              sink.output == Sounded(sink.chunks, sink.fmt.bits / 8, sink.fmt.bytesPerFrame, sink.startGain as int,
                  sink.fmt.rampStep as int)
    ensures sink.open && (forall k :: 0 <= k < |sink.chunks| ==> sink.chunks[k].target == sink.startGain) ==>
              sink.currentMultiplier == sink.startGain
  {
    sink := new PortSink(bufferMs);
    for i := 0 to |actions|
      invariant sink.Valid() && fresh(sink)
    {
      match actions[i] {
        case Happens(e) => sink.RunEvent(e);
        case WriteCall(data, attempt, latched, schedule) =>
          var n, playing, g := sink.Write(data, attempt, latched, schedule);
      }
    }
    if sink.open && forall k :: 0 <= k < |sink.chunks| ==> sink.chunks[k].target == sink.startGain {
      SteadyFromTheStart(sink.chunks, sink.fmt.bytesPerFrame, sink.startGain as int, sink.fmt.rampStep as int);
    }
  }

  // --------------------------------------------------- a refused configure()

  /** The player is told that a refused stream's audio is discarded (src/player_listener.cpp:73-84).
      It is, except when the device could not be resolved while the stream before was still
      running: then, and only then, the new stream's audio goes to the old one. */
  method WriteAfterRefusal(sink: PortSink, f: Format, attempt: Attempt, same: bool, reuse: Reuse,
                           data: seq<byte>, again: Attempt)
    returns (ok: bool, playing: bool, ghost g: nat)
    requires sink.Valid() && !sink.stopping && data != []
    modifies sink
    ensures sink.Valid()
    ensures !ok ==> (playing && g == old(sink.generation) <==> attempt.Unresolved? && old(sink.Alive()))
  {
    hide RampTo, Fits, RingOk, FormatOk, VolumeRampStep;
    ok := sink.RunConfigure(f, attempt, same, reuse);
    playing, g := false, 0;
    if !ok {
      var n;
      n, playing, g := sink.Write(data, again, false, []);
    }
  }

  /** As here: 48 kHz is playing, 44.1 kHz cannot find its device, and is fed to the 48 kHz stream. */
  method RefusedYetFed() returns (sink: PortSink, n: nat, playing: bool, fedTo: Rate, meant: Rate)
    ensures sink.Valid() && playing && n == 4 && fedTo == 48000 && meant == 44100
  {
    hide RampTo, VolumeRampStep, RingFrames, GainAfter, Sounded, RingOk, FormatOk;
    sink := new PortSink(100);
    var ok := sink.RunConfigure(Format(48000, 2, 16), Started(0), false, NotAborted);
    sink.EmptyHasRoom();
    ok := sink.RunConfigure(Format(44100, 2, 16), Unresolved, false, NotAborted);
    fedTo, meant := sink.fmt.rate, sink.lastFormat.rate;
    assert sink.fmt.bytesPerFrame == 2 * (16 / 8) == 4;
    assert Span(4, 4) == 4 && Fits(sink.ring, 4, 4) == 4;
    hide Fits, Span;
    ghost var g;
    n, playing, g := sink.Write(Zeros(4), Unresolved, false, []);
  }
}
