/** Line-in capture: the signal hysteresis and the timestamp anchor of src/alsa_source.cpp.

    Each block arrives already measured as above or below the threshold, with the
    steady-clock reading taken for it.
 */
module LineSense {
  import opened Machine

  // -------------------------------------------------------------- hysteresis

  datatype Block = Block(present: bool, now: int)

  /** `since` is Some while a transition to the other side is being timed. */
  datatype Sense = Sense(present: bool, since: Option<int>, published: seq<bool>)

  datatype Windows = Windows(attack: nat, release: nat)

  function Required(w: Windows, toPresent: bool): nat {
    if toPresent then w.attack else w.release
  }

  function Feed(s: Sense, w: Windows, b: Block): Sense {
    if b.present == s.present then s.(since := None)
    else if s.since == None then s.(since := Some(b.now))
    else if b.now - s.since.value < Required(w, b.present) then s
    else Sense(b.present, None, s.published + [b.present])
  }

  /** The capture thread measures a block, or the main loop polls. */
  datatype Happening = Heard(block: Block) | Polled

  /** `pending` is the one-place mailbox between the two threads. `reports` is what polls have
      passed on, and `marks` how many transitions had been published at each. */
  datatype Listener = Listener(sense: Sense, pending: Option<bool>, reports: seq<bool>, marks: seq<nat>)

  /** Absence is there to be reported before anything is heard. */
  const LISTENING := Listener(SILENT, Some(false), [], [])

  function Listen(l: Listener, w: Windows, h: Happening): Listener {
    match h
    case Heard(b) =>
      var sense := Feed(l.sense, w, b);
      l.(sense := sense, pending := if sense.published != l.sense.published then Some(b.present) else l.pending)
    case Polled =>
      if l.pending == None then l
      else l.(pending := None, reports := l.reports + [l.pending.value], marks := l.marks + [|l.sense.published|])
  }

  class AlsaSource {
    const windows: Windows
    const lineSense: bool
    var signalPresent: bool
    var candidateSignal: int     // -1 none, 0 absent, 1 present
    var candidateSince: int
    var pendingSignal: int       // -1 nothing new
    ghost var published: seq<bool>
    ghost var reports: seq<bool>
    ghost var marks: seq<nat>

    /** A candidate is always the side opposite to the published one. */
    ghost predicate Valid()
      reads this
    {
      && (candidateSignal == -1 || candidateSignal == if signalPresent then 0 else 1)
      && -1 <= pendingSignal <= 1
    }

    ghost function Value(): Listener
      reads this
    {
      Listener(Sense(signalPresent, if candidateSignal == -1 then None else Some(candidateSince), published),
               if pendingSignal == -1 then None else Some(pendingSignal == 1), reports, marks)
    }

    constructor (w: Windows, lineSense: bool)
      ensures Valid() && windows == w && this.lineSense == lineSense
      ensures Value() == if lineSense then LISTENING else LISTENING.(pending := None)
    {
      windows, this.lineSense := w, lineSense;
      signalPresent, candidateSignal, candidateSince := false, -1, 0;
      pendingSignal := if lineSense then 0 else -1;
      published, reports, marks := [], [], [];
    }

    /** set_signal_from_pcm(), which the capture loop calls only with line sense on. */
    method SetSignal(b: Block)
      requires Valid() && lineSense
      modifies this
      ensures Valid() && Value() == Listen(old(Value()), windows, Heard(b))
    {
      var measured := if b.present then 1 else 0;
      var current := if signalPresent then 1 else 0;
      if measured == current {
        candidateSignal := -1;
        return;
      }
      if candidateSignal != measured {
        candidateSignal := measured;
        candidateSince := b.now;
        return;
      }
      var required := if measured != 0 then windows.attack else windows.release;
      if b.now - candidateSince < required {
        return;
      }
      signalPresent := measured != 0;
      candidateSignal := -1;
      pendingSignal := measured;
      published := published + [b.present];
    }

    /** The main loop's half: takes the newest unreported transition, if any. */
    method Poll() returns (signal: Option<bool>)
      requires Valid()
      modifies this`pendingSignal, this`reports, this`marks
      ensures Valid() && Value() == if lineSense then Listen(old(Value()), windows, Polled) else old(Value())
      ensures signal == if lineSense then old(Value()).pending else None
    {
      if !lineSense || pendingSignal < 0 {
        return None;
      }
      signal := Some(pendingSignal != 0);
      reports, marks := reports + [pendingSignal == 1], marks + [|published|];
      pendingSignal := -1;
    }
  }

  const SILENT := Sense(false, None, [])

  function Run(w: Windows, blocks: seq<Block>): Sense
    decreases |blocks|
  {
    if blocks == [] then SILENT else Feed(Run(w, blocks[..|blocks| - 1]), w, blocks[|blocks| - 1])
  }

  /** From block k to the end every block measured `side`. */
  predicate SteadyFrom(blocks: seq<Block>, k: nat, side: bool) {
    k < |blocks| && forall j :: k <= j < |blocks| ==> blocks[j].present == side
  }

  /** The recording ends with blocks off the stable side, from block k on, and k is stamped. */
  ghost predicate Stretch(w: Windows, blocks: seq<Block>, k: nat, stable: bool, stamp: int) {
    SteadyFrom(blocks, k, !stable) && blocks[k].now == stamp && Run(w, blocks[..k]).since == None
  }

  /** The candidate's stamp is the clock of the first block of the unbroken stretch on the
      other side that the recording ends with, and there is one exactly when such a stretch is
      open: one block back on the old side and the wait starts over. */
  ghost predicate Timing(w: Windows, blocks: seq<Block>) {
    var s := Run(w, blocks);
    && (s.since.Some? ==> exists k: nat :: Stretch(w, blocks, k, s.present, s.since.value))
    && (s.since == None ==> blocks == [] || blocks[|blocks| - 1].present == s.present)
  }

  lemma {:induction false} StampIsStretchStart(w: Windows, blocks: seq<Block>)
    ensures Timing(w, blocks)
    decreases |blocks|
  {
    if blocks != [] {
      var n := |blocks| - 1;
      var before := blocks[..n];
      StampIsStretchStart(w, before);
      var s, s' := Run(w, before), Run(w, blocks);
      if s'.since.Some? {
        if s.since == None {
          assert Stretch(w, blocks, n, s'.present, s'.since.value);
        } else {
          var k: nat :| Stretch(w, before, k, s.present, s.since.value);
          assert before[..k] == blocks[..k];
          assert forall j :: k <= j < n ==> blocks[j] == before[j];
          assert Stretch(w, blocks, k, s'.present, s'.since.value);
        }
      }
    }
  }

  /** The published side changes only at a block where every block since the stamp measured
      the new side and the whole attack or release window has passed since the stamp. */
  lemma FlipNeedsWholeWindow(w: Windows, blocks: seq<Block>) returns (k: nat)
    requires blocks != [] && Run(w, blocks).present != Run(w, blocks[..|blocks| - 1]).present
    ensures SteadyFrom(blocks, k, Run(w, blocks).present) && k < |blocks| - 1
    ensures blocks[|blocks| - 1].now - blocks[k].now >= if Run(w, blocks).present then w.attack else w.release
    ensures Run(w, blocks[..k]).since == None
  {
    var n := |blocks| - 1;
    var before := blocks[..n];
    StampIsStretchStart(w, before);
    var s := Run(w, before);
    k :| Stretch(w, before, k, s.present, s.since.value);
    assert before[..k] == blocks[..k];
    assert forall j :: k <= j < n ==> blocks[j] == before[j];
  }

  /** And it does change there: a stretch on the other side that lasts the window out is never missed. */
  lemma {:induction false} WholeWindowFlips(w: Windows, blocks: seq<Block>, k: nat, side: bool)
    requires SteadyFrom(blocks, k, side) && k < |blocks| - 1
    requires blocks[|blocks| - 1].now - blocks[k].now >= if side then w.attack else w.release
    requires Run(w, blocks[..k]).since == None
    ensures Run(w, blocks).present == side
  {
    StretchIsTimed(w, blocks, k, |blocks| - 1, side);
    assert blocks[..|blocks|] == blocks;
  }

  lemma {:induction false} StretchIsTimed(w: Windows, blocks: seq<Block>, k: nat, n: nat, side: bool)
    requires SteadyFrom(blocks, k, side) && k < n < |blocks|
    requires Run(w, blocks[..k]).since == None
    ensures Run(w, blocks[..n]).present == side
            || (Run(w, blocks[..n]).present != side && Run(w, blocks[..n]).since == Some(blocks[k].now))
    decreases n
  {
    assert blocks[..n][..n - 1] == blocks[..n - 1];
    if n > k + 1 {
      StretchIsTimed(w, blocks, k, n - 1, side);
    }
  }

  /** Published transitions alternate, starting with "present" and ending with where it stands. */
  lemma {:induction false} TransitionsAlternate(w: Windows, blocks: seq<Block>)
    ensures var s := Run(w, blocks);
            && (forall k :: 0 <= k < |s.published| ==> s.published[k] == (k % 2 == 0))
            && s.present == (|s.published| % 2 == 1)
    decreases |blocks|
  {
    if blocks != [] {
      TransitionsAlternate(w, blocks[..|blocks| - 1]);
    }
  }

  // --------------------------------------------------- what polls pass on

  function Listened(w: Windows, happenings: seq<Happening>): Listener
    decreases |happenings|
  {
    if happenings == [] then LISTENING
    else Listen(Listened(w, happenings[..|happenings| - 1]), w, happenings[|happenings| - 1])
  }

  predicate Odd(n: nat) {
    n % 2 == 1
  }

  /** A report says which side an odd or even number of transitions leaves, and no two reports
      are taken at the same number. */
  predicate Accounted(l: Listener) {
    && |l.reports| == |l.marks|
    && l.sense.present == Odd(|l.sense.published|)
    && (l.pending.Some? ==> l.pending.value == Odd(|l.sense.published|))
    && (l.pending == None ==> l.marks != [])
    && (forall i :: 0 <= i < |l.marks| ==> l.reports[i] == Odd(l.marks[i]) && l.marks[i] <= |l.sense.published|)
    && (l.pending.Some? ==> forall i :: 0 <= i < |l.marks| ==> l.marks[i] < |l.sense.published|)
    && (forall i, j :: 0 <= i < j < |l.marks| ==> l.marks[i] < l.marks[j])
  }

  lemma {:induction false} ReportsAreAccounted(w: Windows, happenings: seq<Happening>)
    ensures Accounted(Listened(w, happenings))
    decreases |happenings|
  {
    if happenings != [] {
      ReportsAreAccounted(w, happenings[..|happenings| - 1]);
    }
  }

  /** Successive reports do not always alternate: they agree exactly when an even number of
      transitions was published between them, the slower poll having missed all but the last. */
  lemma ReportsAgreeIff(w: Windows, happenings: seq<Happening>, i: nat)
    requires i + 1 < |Listened(w, happenings).reports|
    ensures var l := Listened(w, happenings);
            && i + 1 < |l.marks| && l.marks[i] < l.marks[i + 1]
            && (l.reports[i] == l.reports[i + 1] <==> !Odd(l.marks[i + 1] - l.marks[i]))
  {
    hide Odd, Listened;
    ReportsAreAccounted(w, happenings);
    var marks := Listened(w, happenings).marks;
    Parity(marks[i], marks[i + 1]);
  }

  lemma Parity(a: nat, b: nat)
    requires a <= b
    ensures Odd(a) == Odd(b) <==> !Odd(b - a)
  {
  }

  /** And they can agree: a signal that goes and comes back between two polls is reported
      present twice. */
  lemma ReportedPresentTwice()
    ensures var on, off := Heard(Block(true, 0)), Heard(Block(false, 0));
            Listened(Windows(0, 0), [Polled, on, on, Polled, off, off, on, on, Polled]).reports == [false, true, true]
  {
    var w, on, off := Windows(0, 0), Heard(Block(true, 0)), Heard(Block(false, 0));
    var hs: seq<Happening>, l := [], LISTENING;
    hs, l := Heeded(w, hs, Polled);
    hs, l := Heeded(w, hs, on);
    hs, l := Heeded(w, hs, on);
    hs, l := Heeded(w, hs, Polled);
    hs, l := Heeded(w, hs, off);
    hs, l := Heeded(w, hs, off);
    hs, l := Heeded(w, hs, on);
    hs, l := Heeded(w, hs, on);
    hs, l := Heeded(w, hs, Polled);
    assert hs == [Polled, on, on, Polled, off, off, on, on, Polled];
  }

  lemma Heeded(w: Windows, before: seq<Happening>, h: Happening) returns (after: seq<Happening>, l: Listener)
    ensures after == before + [h] && l == Listened(w, after) == Listen(Listened(w, before), w, h)
  {
    after := before + [h];
    assert after[..|before|] == before;
    l := Listened(w, after);
  }

  // -------------------------------------------------------- timestamp anchor

  /** What one turn of the capture loop meets. */
  datatype Turn =
    | Overrun                                        // -EPIPE, or any error snd_pcm_recover() got over
    | NotStreaming
    | Chunk(frames: nat, clock: int, accepted: bool) // handed to send_audio()

  datatype Clock = Clock(anchored: bool, active: bool, anchor: int, frames: nat)

  const UNANCHORED := Clock(false, false, 0, 0)

  function Micros(frames: nat, rate: nat): nat
    requires rate > 0
  {
    frames * 1000000 / rate
  }

  lemma NoFramesNoTime(rate: nat)
    requires rate > 0
    ensures Micros(0, rate) == 0
  {
  }

  /** The anchor a chunk is stamped from: a fresh one goes back by the chunk's own length. */
  function Anchored(c: Clock, rate: nat, t: Turn): Clock
    requires t.Chunk? && rate > 0
  {
    if !c.active || !c.anchored then Clock(true, true, t.clock - Micros(t.frames, rate), 0) else c.(active := true)
  }

  function Stamp(c: Clock, rate: nat, t: Turn): int
    requires t.Chunk? && rate > 0
  {
    var a := Anchored(c, rate, t);
    a.anchor + Micros(a.frames, rate)
  }

  function Advance(c: Clock, rate: nat, t: Turn): Clock
    requires rate > 0
  {
    match t
    case Overrun => c.(anchored := false, frames := 0)
    case NotStreaming => c.(anchored := false, frames := 0, active := false)
    case Chunk(frames, _, accepted) =>
      var a := Anchored(c, rate, t);
      if accepted then a.(frames := a.frames + frames) else a.(anchored := false, frames := 0)
  }

  class CaptureClock {
    const rate: nat
    var haveCaptureAnchor: bool
    var streamWasActive: bool
    var captureAnchor: int
    var framesSinceAnchor: nat

    function Value(): Clock
      reads this
    {
      Clock(haveCaptureAnchor, streamWasActive, captureAnchor, framesSinceAnchor)
    }

    constructor (actualRate: nat)
      ensures Value() == UNANCHORED && rate == actualRate
    {
      rate := actualRate;
      haveCaptureAnchor, streamWasActive, captureAnchor, framesSinceAnchor := false, false, 0, 0;
    }

    method OneTurn(t: Turn) returns (stamp: Option<int>)
      requires rate > 0
      modifies this
      ensures Value() == Advance(old(Value()), rate, t)
      ensures stamp == if t.Chunk? then Some(Stamp(old(Value()), rate, t)) else None
    {
      match t
      case Overrun =>
        haveCaptureAnchor := false;
        framesSinceAnchor := 0;
        return None;
      case NotStreaming =>
        haveCaptureAnchor := false;
        framesSinceAnchor := 0;
        streamWasActive := false;
        return None;
      case Chunk(frames, clock, accepted) =>
        if !streamWasActive || !haveCaptureAnchor {
          captureAnchor := clock - Micros(frames, rate);
          framesSinceAnchor := 0;
          haveCaptureAnchor := true;
        }
        streamWasActive := true;
        stamp := Some(captureAnchor + Micros(framesSinceAnchor, rate));
        if accepted {
          framesSinceAnchor := framesSinceAnchor + frames;
        } else {
          haveCaptureAnchor := false;
          framesSinceAnchor := 0;
        }
    }
  }

  function Capture(rate: nat, turns: seq<Turn>): Clock
    requires rate > 0
    decreases |turns|
  {
    if turns == [] then UNANCHORED else Advance(Capture(rate, turns[..|turns| - 1]), rate, turns[|turns| - 1])
  }

  /** Where the unbroken stretch of accepted chunks that the recording ends with begins. */
  function StretchStart(turns: seq<Turn>): (k: nat)
    ensures k <= |turns|
    decreases |turns|
  {
    if turns == [] then 0
    else
      var t := turns[|turns| - 1];
      if t.Chunk? && t.accepted then StretchStart(turns[..|turns| - 1]) else |turns|
  }

  function FramesOf(turns: seq<Turn>): nat {
    if turns == [] then 0
    else FramesOf(turns[..|turns| - 1]) + if turns[|turns| - 1].Chunk? then turns[|turns| - 1].frames else 0
  }

  /** The stamp of a chunk that follows `turns`, read off the recording: the clock at the
      stretch's first chunk, back by that chunk's length, and on by the frames since. */
  function SampleTime(rate: nat, turns: seq<Turn>, t: Turn): int
    requires rate > 0 && t.Chunk?
  {
    var k := StretchStart(turns);
    if k < |turns| && turns[k].Chunk? then
      turns[k].clock - Micros(turns[k].frames, rate) + Micros(FramesOf(turns[k..]), rate)
    else t.clock - Micros(t.frames, rate)
  }

  lemma {:induction false} ClockFollowsStretch(rate: nat, turns: seq<Turn>)
    requires rate > 0
    ensures var c, k := Capture(rate, turns), StretchStart(turns);
            if k == |turns| then !c.anchored || !c.active
            else turns[k].Chunk? && c.anchored && c.active
                 && c.anchor == turns[k].clock - Micros(turns[k].frames, rate) && c.frames == FramesOf(turns[k..])
    decreases |turns|
  {
    hide Micros;
    if turns != [] {
      var n := |turns| - 1;
      var before, t := turns[..n], turns[n];
      ClockFollowsStretch(rate, before);
      var k := StretchStart(before);
      if t.Chunk? && t.accepted {
        assert turns[k..][..n - k] == before[k..];
        if k == n {
          assert before[k..] == [];
        }
      }
    }
  }

  /** Scheduler jitter never reaches the timestamps: however late each read returned, a chunk's
      stamp depends on the clock of its stretch's first chunk and on sample counts alone. */
  lemma StampIsSampleTime(rate: nat, turns: seq<Turn>, t: Turn)
    requires rate > 0 && t.Chunk?
    ensures Stamp(Capture(rate, turns), rate, t) == SampleTime(rate, turns, t)
  {
    hide Micros;
    ClockFollowsStretch(rate, turns);
    NoFramesNoTime(rate);
  }
}
