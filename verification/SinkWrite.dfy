/** How the push-model sinks feed a device: src/alsa_sink.cpp and the staging step of src/pulse_sink.cpp.

    A write scales its whole buffer, may land only part of it, and commits the
    gain by what landed; the caller presents the rest again. The session lemmas
    say the listener cannot tell.
 */
module SinkWrite {
  import opened Arith
  import opened Machine
  import opened Volume

  // ------------------------------------------------------ staging a buffer

  /** What a buffer comes to with the ramp applied from its first frame. */
  method StageRamp(data: seq<byte>, bytesPerSample: nat, channels: nat, start: u64, target: u64, step: u64)
    returns (src: seq<byte>)
    requires start as int <= Q32_ONE && target as int <= Q32_ONE
    ensures src == RampScaled(data, bytesPerSample, channels * bytesPerSample, start as int, target as int, step as int)
  {
    var scratch := new byte[|data|](i requires 0 <= i < |data| => data[i]);
    assert scratch[..] == data;
    assert scratch[..|data|] == data;
    var reached := ApplyVolumeRamp(scratch, |data|, bytesPerSample, channels, start, target, step);
    src := scratch[..];
    WholeSplice(data, src);
  }

  lemma WholeSplice(was: seq<byte>, now: seq<byte>)
    requires |now| == |was|
    ensures Spliced(was, 0, now) == now
    ensures forall r: seq<byte> {:trigger Spliced(was, 0, r)} :: |r| == |was| ==> Spliced(was, 0, r) == r
  {
  }

  /** Offset-binary form of a signed 8-bit sample: the sign bit inverted. */
  function SignFlipped(bs: seq<byte>): (r: seq<byte>)
    ensures |r| == |bs|
  {
    seq(|bs|, i requires 0 <= i < |bs| => (bs[i] as int + 128) % 256)
  }

  /** The flip keeps the sound: the unsigned byte less 128 is the signed sample, and flipping twice undoes it. */
  lemma FlipKeepsSample(bs: seq<byte>, i: nat)
    requires i < |bs|
    ensures SignFlipped(bs)[i] as int - 128 == Signed([bs[i]])
    ensures SignFlipped(SignFlipped(bs)) == bs
  {
    var one: seq<byte> := [bs[i]];
    assert Unsigned(one) == bs[i] + 256 * Unsigned(one[1..]);
    Pow256Small();
  }

  /** PulseAudioSink::stage_(): scale when there is anything to scale, then flip 8-bit samples for U8. */
  method StagePulse(data: seq<byte>, bits: nat, channels: nat, start: u64, target: u64, step: u64)
    returns (src: seq<byte>)
    requires start as int <= Q32_ONE && target as int <= Q32_ONE
    requires SampleWidth(bits / 8) && channels > 0
    ensures var ramped := RampScaled(data, bits / 8, channels * (bits / 8), start as int, target as int, step as int);
            src == if bits == 8 then SignFlipped(ramped) else ramped
  {
    var scaling := start != target || target != 0x1_0000_0000;
    src := data;
    if scaling {
      src := StageRamp(data, bits / 8, channels, start, target, step);
    } else {
      SteadyUnity(data, bits / 8, channels, step as int);
    }
    if bits == 8 {
      var i := 0;
      ghost var ramped := src;
      while i < |src|
        invariant |src| == |ramped| && 0 <= i <= |src|
        invariant forall k :: 0 <= k < |src| ==> src[k] == if k < i then (ramped[k] as int + 128) % 256 else ramped[k]
      {
        src := src[i := (src[i] as int + 128) % 256];
        i := i + 1;
      }
    }
  }

  lemma SteadyUnity(data: seq<byte>, w: nat, channels: nat, step: nat)
    requires SampleWidth(w) && channels > 0
    ensures RampScaled(data, w, channels * w, Q32_ONE, Q32_ONE, step) == data
  {
    FramePositive(w, channels);
    SteadyRest([], data, w, channels * w, Q32_ONE, step);
  }

  lemma FramePositive(w: nat, channels: nat)
    requires w > 0 && channels > 0
    ensures channels * w > 0 && Span(channels * w, w) == channels * w
  {
    MulMono(1, channels, w);
    GroupsOfMultiple(channels, w);
  }

  /** Steady silence over whole frames is all zero bytes. */
  lemma SteadySilence(data: seq<byte>, w: nat, channels: nat, step: nat)
    requires SampleWidth(w) && channels > 0 && Span(|data|, channels * w) == |data|
    ensures RampScaled(data, w, channels * w, 0, 0, step) == Zeros(|data|)
  {
    FramePositive(w, channels);
    RampScaledSteady(data, w, channels * w, 0, step);
    SpanNests(|data|, channels * w, w);
    SilenceIsZeros(data, w);
  }

  lemma {:induction false} SpanNests(n: nat, d: nat, w: nat)
    requires d > 0 && w > 0 && Span(n, d) == n && Span(d, w) == d
    ensures Span(n, w) == n
    decreases n
  {
    if n > 0 {
      SpanNests(n - d, d, w);
      SpanAdds(d, n - d, w);
    }
  }

  lemma {:induction false} GroupsAtMost(n: nat, d: nat)
    requires d > 0
    ensures Groups(n, d) <= n
    decreases n
  {
    if n >= d {
      GroupsAtMost(n - d, d);
    }
  }

  lemma {:induction false} SpanAdds(a: nat, b: nat, d: nat)
    requires d > 0 && Span(a, d) == a
    ensures Span(a + b, d) == a + Span(b, d)
    ensures Groups(a + b, d) == Groups(a, d) + Groups(b, d)
    decreases a
  {
    if a > 0 {
      SpanAdds(a - d, b, d);
    }
  }

  // --------------------------------------------- a listener's whole session

  /** One call: the frames that landed, and whatever else the buffer held. */
  datatype Call = Call(landed: seq<byte>, tail: seq<byte>)

  /** What the device hears over a run of calls at one target, each scaling its
      whole buffer from the gain the call before committed. */
  function Heard(calls: seq<Call>, w: nat, bpf: nat, c: nat, t: nat, step: nat): seq<byte>
    requires bpf > 0
  {
    if calls == [] then []
    else
      var call := calls[0];
      RampScaled(call.landed + call.tail, w, bpf, c, t, step)[..|call.landed|]
      + Heard(calls[1..], w, bpf, RampTo(c, t, step, Groups(|call.landed|, bpf)), t, step)
  }

  function Landed(calls: seq<Call>): seq<byte> {
    if calls == [] then [] else calls[0].landed + Landed(calls[1..])
  }

  ghost predicate WholeFrames(calls: seq<Call>, bpf: nat)
    requires bpf > 0
  {
    forall i :: 0 <= i < |calls| ==> Span(|calls[i].landed|, bpf) == |calls[i].landed|
  }

  /** Only the landed prefix of a buffer decides what the device hears of it. */
  lemma PrefixOnly(a: seq<byte>, b: seq<byte>, w: nat, bpf: nat, c: nat, t: nat, step: nat)
    requires bpf > 0 && Span(|a|, bpf) == |a|
    ensures RampScaled(a + b, w, bpf, c, t, step)[..|a|] == RampScaled(a, w, bpf, c, t, step)
  {
    RampScaledSplit(a, b, w, bpf, c, t, step);
  }

  /** Over any sequence of partial writes, zero-frame ones included, the device
      hears exactly one uninterrupted ramp over the bytes that landed. */
  lemma {:induction false} SplittingIsInvisible(calls: seq<Call>, w: nat, bpf: nat, c: nat, t: nat, step: nat)
    requires bpf > 0 && WholeFrames(calls, bpf)
    ensures Heard(calls, w, bpf, c, t, step) == RampScaled(Landed(calls), w, bpf, c, t, step)
    ensures Span(|Landed(calls)|, bpf) == |Landed(calls)|
  {
    hide RampTo, RampScaled;
    if calls == [] {
      RampScaledShort([], w, bpf, c, t, step);
    } else {
      var a, rest := calls[0].landed, calls[1..];
      assert Span(|a|, bpf) == |a|;
      assert WholeFrames(rest, bpf);
      var g := RampTo(c, t, step, Groups(|a|, bpf));
      SplittingIsInvisible(rest, w, bpf, g, t, step);
      PrefixOnly(a, calls[0].tail, w, bpf, c, t, step);
      RampScaledSplit(a, Landed(rest), w, bpf, c, t, step);
      SpanAdds(|a|, |Landed(rest)|, bpf);
    }
  }

  /** What PortAudio's callback makes of a run of output buffers, each the real
      bytes a ring read returned and the zero fill after them: every buffer is
      scaled whole, silence included, and the gain carried on from where it ended. */
  function Callbacks(buffers: seq<seq<byte>>, w: nat, bpf: nat, c: nat, t: nat, step: nat): seq<byte>
    requires bpf > 0
  {
    if buffers == [] then []
    else
      RampScaled(buffers[0], w, bpf, c, t, step)
      + Callbacks(buffers[1..], w, bpf, RampReached(|buffers[0]|, bpf, c, t, step), t, step)
  }

  function Joined(buffers: seq<seq<byte>>): seq<byte> {
    if buffers == [] then [] else buffers[0] + Joined(buffers[1..])
  }

  /** The callback's ramp runs in played time: over any run of callbacks, underruns
      included, the output is one uninterrupted ramp over everything handed out. */
  lemma {:induction false} CallbacksAreOneRamp(buffers: seq<seq<byte>>, w: nat, bpf: nat, c: nat, t: nat, step: nat)
    requires bpf > 0 && forall i :: 0 <= i < |buffers| ==> Span(|buffers[i]|, bpf) == |buffers[i]|
    ensures Callbacks(buffers, w, bpf, c, t, step) == RampScaled(Joined(buffers), w, bpf, c, t, step)
  {
    hide RampTo, RampScaled;
    if buffers == [] {
      RampScaledShort([], w, bpf, c, t, step);
    } else {
      var a, rest := buffers[0], buffers[1..];
      assert Span(|a|, bpf) == |a|;
      CallbacksAreOneRamp(rest, w, bpf, RampReached(|a|, bpf, c, t, step), t, step);
      RampScaledSplit(a, Joined(rest), w, bpf, c, t, step);
      if Groups(|a|, bpf) == 0 {
        ZeroFrameCommit(Joined(rest), w, bpf, c, t, step);
      }
    }
  }

  // ----------------------------------------------------------- the ALSA sink

  /** What the driver answers on one pass of the write loop. */
  datatype Driver =
    | AvailError(recovered: bool)
    | NoRoom(ended: bool)
    | Wrote(avail: nat, took: nat)
    | WriteError(recovered: bool)

  datatype Pass = Pass(stopping: bool, late: bool, driver: Driver)

  /** The frames one pass lands of `left`: no more than are left, fit or are taken. */
  function Taken(d: Driver, left: nat): nat {
    if d.Wrote? then Min(d.took, Min(left, d.avail)) else 0
  }

  /** The driver's answer does not end the loop. */
  predicate Continues(d: Driver) {
    match d
    case AvailError(recovered) => recovered
    case NoRoom(ended) => !ended
    case WriteError(recovered) => recovered
    case Wrote(_, _) => true
  }

  /** The frames that land of `left`, pass after pass, until one ends it. The first pass is made
      whatever the time. */
  function FramesLanded(left: nat, passes: seq<Pass>, first: bool): (n: nat)
    ensures n <= left
    decreases |passes|
  {
    if left == 0 || passes == [] || passes[0].stopping || (!first && passes[0].late) then 0
    else
      var k := Taken(passes[0].driver, left);
      k + if Continues(passes[0].driver) then FramesLanded(left - k, passes[1..], false) else 0
  }

  /** The pass is in time and the driver does not fail it. */
  predicate GoesOn(p: Pass) {
    !p.stopping && !p.late && Continues(p.driver)
  }

  /** What the driver would take in all. */
  function Offered(passes: seq<Pass>): nat {
    if passes == [] then 0 else MostTaken(passes[0].driver) + Offered(passes[1..])
  }

  function MostTaken(d: Driver): nat {
    if d.Wrote? then Min(d.took, d.avail) else 0
  }

  /** While no pass ends it, a write goes on until all has landed that the driver would take. */
  lemma {:induction false} LandsAllThatIsTaken(left: nat, passes: seq<Pass>, first: bool)
    requires forall k :: 0 <= k < |passes| ==> GoesOn(passes[k])
    ensures FramesLanded(left, passes, first) == Min(left, Offered(passes))
    decreases |passes|
  {
    if passes != [] {
      assert GoesOn(passes[0]);
      var k := Taken(passes[0].driver, left);
      LandsAllThatIsTaken(left - k, passes[1..], false);
    }
  }

  /** Nothing lands from the pass on that ends it. */
  lemma {:induction false} NothingLandsAfterTheEnd(left: nat, passes: seq<Pass>, first: bool, k: nat)
    requires k < |passes| && !GoesOn(passes[k]) && (k == 0 && first ==> !passes[0].late)
    ensures FramesLanded(left, passes, first) == FramesLanded(left, passes[..k], first)
    decreases k
  {
    if k > 0 {
      assert passes[..k][0] == passes[0] && passes[..k][1..] == passes[1..][..k - 1];
      var taken := Taken(passes[0].driver, left);
      NothingLandsAfterTheEnd(left - taken, passes[1..], false, k - 1);
    }
  }

  lemma OneMorePass(left: nat, passes: seq<Pass>, k: nat)
    requires k <= |passes|
    ensures left == 0 || k == |passes| || passes[k].stopping || (k > 0 && passes[k].late) ==>
              FramesLanded(left, passes[k..], k == 0) == 0
    ensures left > 0 && k < |passes| && !passes[k].stopping && (k > 0 ==> !passes[k].late) ==>
              FramesLanded(left, passes[k..], k == 0) ==
                var n := Taken(passes[k].driver, left);
                n + if Continues(passes[k].driver) then FramesLanded(left - n, passes[k + 1..], false) else 0
  {
    if k < |passes| {
      assert passes[k..][1..] == passes[k + 1..];
    }
  }

  lemma Appended(was: seq<byte>, src: seq<byte>, a: nat, b: nat)
    requires a <= b <= |src|
    ensures was + src[..a] + src[a..b] == was + src[..b]
  {
    assert src[..a] + src[a..b] == src[..b];
  }

  /** Whole frames further on. */
  lemma FramesOn(len: nat, n: nat, frames: nat, d: nat)
    requires d > 0 && Span(n, d) == n && 0 <= frames * d && n + frames * d <= len
    ensures var n' := n + frames * d;
            && Span(n', d) == n' && Groups(n', d) == Groups(n, d) + frames
            && Groups(len - n', d) == Groups(len - n, d) - frames
  {
    GroupsOfMultiple(frames, d);
    SpanAdds(n, frames * d, d);
    SpanAdds(frames * d, len - (n + frames * d), d);
  }

  class AlsaSink {
    var open: bool
    var rate: u64
    var bits: nat
    var channels: nat
    var bytesPerFrame: nat
    var currentMultiplier: u64
    var targetMultiplier: u64
    var failed: bool
    /** Every byte the device has accepted, oldest first. */
    var played: seq<byte>

    ghost predicate Valid()
      reads this
    {
      && rate < 0x1_0000_0000
      && currentMultiplier as int <= Q32_ONE && targetMultiplier as int <= Q32_ONE
      && (open ==> SampleWidth(bits / 8) && channels > 0)
      && (open ==> bytesPerFrame == channels * (bits / 8) > 0)
    }

    ghost function Step(): nat
      reads this
      requires Valid()
    {
      VolumeRampStep(rate) as int
    }

    /** configure(): the gain is snapped to its target before anything else. */
    method Configure(sampleRate: u64, channels: nat, bits: nat, ready: bool)
      requires Valid() && 0 < sampleRate < 0x1_0000_0000 && channels > 0 && bits in {8, 16, 24, 32}
      modifies this
      ensures Valid() && open == ready && currentMultiplier == targetMultiplier == old(targetMultiplier)
      ensures played == old(played)
      ensures ready ==> rate == sampleRate && this.channels == channels && this.bits == bits
    {
      currentMultiplier := targetMultiplier;
      open := ready;
      if ready {
        FramePositive(bits / 8, channels);
        rate, this.channels, this.bits, bytesPerFrame := sampleRate, channels, bits, channels * (bits / 8);
        failed := false;
      } else {
        rate, this.channels, this.bits, bytesPerFrame := 0, 0, 0, 0;
        failed := true;
      }
    }

    /** clear(): safe to snap here, because write() holds the same lock. */
    method Clear()
      requires Valid()
      modifies this`currentMultiplier
      ensures Valid() && currentMultiplier == targetMultiplier
    {
      currentMultiplier := targetMultiplier;
    }

    /** write(): whatever the driver does on each pass, exactly the returned bytes
        reach the device, scaled as one ramp from the gain held on entry, and the
        gain is committed by those bytes alone. */
    method Write(data: seq<byte>, passes: seq<Pass>) returns (n: nat)
      requires Valid() && |data| < TWO_64
      modifies this`currentMultiplier, this`played, this`failed
      ensures Valid() && n <= |data|
      ensures data == [] ==> n == 0
      ensures !open ==> played == old(played) && currentMultiplier == old(currentMultiplier)
      ensures !open && data != [] && bytesPerFrame == 0 ==> n == |data|
      ensures !open && bytesPerFrame > 0 ==> n == Span(|data|, bytesPerFrame)
      ensures open ==> Span(n, bytesPerFrame) == n
      ensures open ==> played == old(played) + RampScaled(data[..n], bits / 8, bytesPerFrame,
              old(currentMultiplier) as int, targetMultiplier as int, Step())
      ensures open && |data| >= bytesPerFrame ==>
                currentMultiplier as int == RampTo(old(currentMultiplier) as int, targetMultiplier as int, Step(),
                    Groups(n, bytesPerFrame))
      ensures open && |data| < bytesPerFrame ==> currentMultiplier == old(currentMultiplier) && n == 0
      ensures open ==> Groups(n, bytesPerFrame) == FramesLanded(Groups(|data|, bytesPerFrame), passes, true)
    {
      hide RampTo, RampScaled;
      n := 0;
      if data == [] {
        return;
      }
      if !open || bytesPerFrame == 0 {
        failed := true;
        if bytesPerFrame == 0 {
          n := |data|;
        } else {
          n := WholeSpan(|data|, bytesPerFrame);
        }
        return;
      }
      var usable := WholeSpan(|data|, bytesPerFrame);
      SpanOfSpan(|data|, bytesPerFrame);
      if usable == 0 {
        return;
      }
      var src := Stage(data[..usable]);
      n := Feed(src, passes);
      PrefixOnly(data[..n], data[n..usable], bits / 8, bytesPerFrame, currentMultiplier as int,
          targetMultiplier as int, Step());
      assert data[..n] + data[n..usable] == data[..usable];
      GroupsIsDivision(n, bytesPerFrame);
      GroupsAtMost(n, bytesPerFrame);
      currentMultiplier := RampedGain(currentMultiplier, targetMultiplier, VolumeRampStep(rate),
          (n / bytesPerFrame) as u64);
    }

    /** The scaling step with its two fast paths. */
    method Stage(data: seq<byte>) returns (src: seq<byte>)
      requires Valid() && open && Span(|data|, bytesPerFrame) == |data|
      ensures src == RampScaled(data, bits / 8, bytesPerFrame, currentMultiplier as int, targetMultiplier as int,
              Step())
    {
      var step := VolumeRampStep(rate);
      var steady := currentMultiplier == targetMultiplier;
      src := data;
      if !steady || targetMultiplier != 0x1_0000_0000 {
        if steady && targetMultiplier == 0 {
          src := Zeros(|data|);
          SteadySilence(data, bits / 8, channels, step as int);
        } else {
          src := StageRamp(data, bits / 8, channels, currentMultiplier, targetMultiplier, step);
        }
      } else {
        SteadyUnity(data, bits / 8, channels, step as int);
      }
    }

    /** The write loop proper. */
    method Feed(src: seq<byte>, passes: seq<Pass>) returns (n: nat)
      requires Valid() && open && Span(|src|, bytesPerFrame) == |src|
      modifies this`played
      ensures n <= |src| && Span(n, bytesPerFrame) == n
      ensures played == old(played) + src[..n]
      ensures Groups(n, bytesPerFrame) == FramesLanded(Groups(|src|, bytesPerFrame), passes, true)
    {
      n := 0;
      var pass := 0;
      assert src[..0] == [] && passes[0..] == passes;
      hide Span, Groups, Taken, Continues, FramesLanded, Valid;
      ghost var was := played;
      while n < |src| && pass < |passes|
        invariant Valid() && n <= |src| && Span(n, bytesPerFrame) == n && pass <= |passes|
        invariant played == was + src[..n]
        invariant FramesLanded(Groups(|src|, bytesPerFrame), passes, true) == Groups(n, bytesPerFrame) +
                    FramesLanded(Groups(|src| - n, bytesPerFrame), passes[pass..], pass == 0)
      {
        var p := passes[pass];
        OneMorePass(Groups(|src| - n, bytesPerFrame), passes, pass);
        if p.stopping || (pass > 0 && p.late) {
          break;
        }
        pass := pass + 1;
        ghost var before := n;
        var more;
        n, more := OnePass(src, n, p.driver);
        Appended(was, src, before, n);
        if !more {
          return;
        }
      }
      OneMorePass(Groups(|src| - n, bytesPerFrame), passes, pass);
    }

    /** One pass over a loop that is still going: a write, or a wait, or a recovery. */
    method OnePass(src: seq<byte>, n: nat, driver: Driver) returns (n': nat, more: bool)
      requires Valid() && open && n < |src|
      requires Span(|src|, bytesPerFrame) == |src| && Span(n, bytesPerFrame) == n
      modifies this`played
      ensures Valid() && n <= n' <= |src| && Span(n', bytesPerFrame) == n'
      ensures played == old(played) + src[n..n'] && more == Continues(driver)
      ensures var k := Taken(driver, Groups(|src| - n, bytesPerFrame));
              && Groups(n', bytesPerFrame) == Groups(n, bytesPerFrame) + k
              && Groups(|src| - n', bytesPerFrame) == Groups(|src| - n, bytesPerFrame) - k
    {
      hide Span, Groups;
      n', more := n, true;
      match driver {
        case AvailError(recovered) => more := recovered;
        case NoRoom(ended) => more := !ended;
        case WriteError(recovered) => more := recovered;
        case Wrote(avail, took) =>
          var wrote := FramesTaken(|src| - n, avail, took);
          FramesOn(|src|, n, wrote, bytesPerFrame);
          n' := n + wrote * bytesPerFrame;
          played := played + src[n..n'];
      }
    }

    /** Frames one snd_pcm_writei() moves: at most the room, at most what is left. */
    method FramesTaken(left: nat, avail: nat, took: nat) returns (frames: nat)
      requires bytesPerFrame > 0
      ensures 0 <= frames * bytesPerFrame <= left && frames == Min(took, Min(Groups(left, bytesPerFrame), avail))
    {
      GroupsIsDivision(left, bytesPerFrame);
      DivLeMul(left, bytesPerFrame);
      var chunk := Min(left / bytesPerFrame, avail);
      frames := Min(took, chunk);
      MulMono(frames, left / bytesPerFrame, bytesPerFrame);
      MulMono(0, frames, bytesPerFrame);
    }
  }
}
