/** The PCM ring as the ring-fed sinks share it with their callback.

    The reader holds no lock: its read() is the atomic steps of src/pcm_ring.cpp, and
    anything another thread does may fall between them. `Matches` ties every step to
    the ring `RingThreads` takes apart. Each byte carries the stream generation it was
    written under.
 */
module StreamRing {
  import opened Arith
  import opened Machine
  import opened SinkWrite
  import opened Volume
  import RingThreads

  /** A byte and the generation of the stream it was written for. */
  datatype Item = Item(sample: byte, generation: nat)

  /** How far a read() has got: the flag found down or up, then lowered; the write position
      loaded, to skip to or to copy up to. */
  datatype Phase = FoundDown | FoundUp | Lowered | Skipping(n: nat) | Taking(n: nat)

  /** `floor` is what `settled` was when this read tested the flag. */
  datatype Reader = Waiting | Reading(floor: nat, want: nat, phase: Phase)

  /** A byte the callback was given, and the floor of the read that took it. */
  datatype Heard = Heard(item: Item, floor: nat)

  /** `settled` is the newest generation whose clear() or opening had been carried through.
      `tainted`: drop() fell under a read, and until the ring is reset nothing is known of what
      that read gives or of where the positions stand. `pushed` and `heard` are histories. */
  datatype Ring = Ring(
    capacity: nat, items: seq<Item>, clear: bool, reader: Reader, settled: nat, tainted: bool,
    pushed: seq<Item>, heard: seq<Heard>)

  const NO_RING := Ring(0, [], false, Waiting, 0, false, [], [])

  function Tagged(bs: seq<byte>, g: nat): (items: seq<Item>)
    ensures |items| == |bs|
  {
    seq(|bs|, i requires 0 <= i < |bs| => Item(bs[i], g))
  }

  function Samples(items: seq<Item>): (bs: seq<byte>)
    ensures |bs| == |items|
  {
    seq(|items|, i requires 0 <= i < |items| => items[i].sample)
  }

  function HeardAs(items: seq<Item>, floor: nat): (h: seq<Heard>)
    ensures |h| == |items|
  {
    seq(|items|, i requires 0 <= i < |items| => Heard(items[i], floor))
  }

  // -------------------------------------------------------------- operations

  predicate InBounds(q: Ring) {
    !q.tainted && q.reader.Reading? && (q.reader.phase.Skipping? || q.reader.phase.Taking?) ==>
      q.reader.phase.n <= |q.items|
  }

  /** The next atomic step of read(); the first of a read asks for `want` bytes. A read that
      drop() has fallen under just ends, and `heard` does not answer for it. */
  function ReadStep(q: Ring, want: nat): (q': Ring)
    requires InBounds(q)
    ensures InBounds(q') && q.heard <= q'.heard
  {
    match q.reader
    case Waiting =>
      if q.capacity == 0 || q.tainted then q
      else q.(reader := Reading(q.settled, want, if q.clear then FoundUp else FoundDown))
    case Reading(floor, w, phase) =>
      if q.tainted then q.(reader := Waiting)
      else
      match phase
      case FoundUp => q.(clear := false, reader := Reading(floor, w, Lowered))
      case Lowered => q.(reader := Reading(floor, w, Skipping(|q.items|)))
      case Skipping(n) => q.(items := q.items[n..], reader := Waiting)
      case FoundDown =>
        var n := Min(w, |q.items|);
        q.(reader := if n == 0 then Waiting else Reading(floor, w, Taking(n)))
      case Taking(n) => q.(items := q.items[n..], heard := q.heard + HeardAs(q.items[..n], floor), reader := Waiting)
  }

  function BytesOf(frames: nat, bpf: nat): nat {
    MulMono(0, frames, bpf);
    frames * bpf
  }

  lemma BytesOfIsWhole(frames: nat, bpf: nat)
    requires bpf > 0
    ensures Span(BytesOf(frames, bpf), bpf) == BytesOf(frames, bpf)
  {
    GroupsOfMultiple(frames, bpf);
  }

  /** What read() leaves in its buffer if its next step is its last: what it took, and zeros. */
  function GivenBy(q: Ring): (bs: seq<byte>)
    requires InBounds(q) && !q.tainted && q.reader.Reading?
    requires q.reader.phase.Taking? ==> q.reader.phase.n <= q.reader.want
    ensures |bs| == q.reader.want
  {
    if q.reader.phase.Taking? then Samples(q.items[..q.reader.phase.n]) + Zeros(q.reader.want - q.reader.phase.n)
    else Zeros(q.reader.want)
  }

  function StepsLeft(r: Reader): nat {
    match r
    case Waiting => 0
    case Reading(_, _, phase) =>
      match phase
      case FoundUp => 3
      case FoundDown => 2
      case Lowered => 2
      case Skipping(_) => 1
      case Taking(_) => 1
  }

  /** The read in progress, if any, run to its end with nothing in between. */
  function FinishRead(q: Ring): (q': Ring)
    requires InBounds(q)
    ensures q.heard <= q'.heard
    decreases StepsLeft(q.reader)
  {
    if q.reader.Waiting? then q else FinishRead(ReadStep(q, 0))
  }

  /** request_clear(), the last thing clear() does to a ring that is being read. */
  function AskClear(q: Ring, g: nat): Ring {
    q.(clear := true, settled := g)
  }

  /** reset(): nothing may be reading. */
  function Emptied(q: Ring, capacity: nat, g: nat): Ring
    requires q.reader.Waiting?
  {
    q.(capacity := capacity, items := [], clear := false, settled := g, tainted := false)
  }

  /** drop(), which sets both positions whether or not a read is under way. */
  function Dropped(q: Ring, g: nat): Ring {
    q.(items := [], clear := false, settled := g, tainted := q.reader.Reading?)
  }

  /** write() of bytes that fit, under generation `g`. */
  function Pushed(q: Ring, bs: seq<byte>, g: nat): Ring {
    q.(items := q.items + Tagged(bs, g), pushed := q.pushed + Tagged(bs, g))
  }

  function Room(q: Ring): int {
    q.capacity - 1 - |q.items|
  }

  /** How much of `remaining` goes in now: all of it, or the room rounded down to a frame
      boundary so that no remainder byte is ever left in the ring. */
  function Fits(q: Ring, remaining: nat, bpf: nat): (n: nat)
    requires bpf > 0 && Room(q) >= 0
    ensures n <= remaining && n <= Room(q)
  {
    if Room(q) >= remaining then remaining else Span(Room(q), bpf)
  }

  method Fitting(q: Ring, remaining: nat, bpf: nat) returns (n: nat)
    requires bpf > 0 && Room(q) >= 0 && Span(remaining, bpf) == remaining
    ensures n == Fits(q, remaining, bpf) && Span(n, bpf) == n
  {
    var room := q.capacity - 1 - |q.items|;
    if room < remaining {
      SpanOfSpan(room, bpf);
      room := WholeSpan(room, bpf);
    }
    n := Min(remaining, room);
  }

  // --------------------------------------------------------------- invariant

  /** Everything from before `settled` is gone, or on its way: the flag is up, or a read is
      about to skip it. */
  ghost predicate ClearHonoured(q: Ring) {
    || q.clear
    || (q.reader.Reading? && !q.tainted && (q.reader.phase.FoundUp? || q.reader.phase.Lowered?))
    || (forall i :: Skipped(q) <= i < |q.items| ==> q.items[i].generation >= q.settled)
  }

  function Skipped(q: Ring): nat {
    if q.reader.Reading? && !q.tainted && q.reader.phase.Skipping? then q.reader.phase.n else 0
  }

  /** Whole frames, in the order of their generations, none of which is yet to come. */
  ghost predicate ItemsOk(q: Ring, bpf: nat, g: nat) {
    && (q.capacity == 0 ==> q.items == [] && q.reader.Waiting?)
    && (q.tainted ==> q.items == [] && !q.clear)
    && (bpf == 0 ==> q.capacity == 0)
    && (bpf > 0 && q.capacity > 0 ==> q.capacity > bpf && Room(q) >= 0 && Span(|q.items|, bpf) == |q.items|)
    && q.settled <= g
    && (forall i :: 0 <= i < |q.items| ==> q.items[i].generation <= g)
    && (forall i, j :: 0 <= i < j < |q.items| ==> q.items[i].generation <= q.items[j].generation)
  }

  /** What a read past its flag test may take is no older than its floor. */
  ghost predicate ReaderOk(q: Ring, bpf: nat) {
    q.reader.Reading? && !q.tainted ==>
      var r := q.reader;
      && bpf > 0 && r.floor <= q.settled && Span(r.want, bpf) == r.want
      && (r.phase.Skipping? || r.phase.Taking? ==> r.phase.n <= |q.items| && Span(r.phase.n, bpf) == r.phase.n)
      && (r.phase.Taking? ==> r.phase.n <= r.want)
      && (r.phase.FoundDown? || r.phase.Taking? ==> forall i :: 0 <= i < |q.items| ==> q.items[i].generation >= r.floor)
  }

  /** Every byte ever handed out was at least as new as the floor of the read that took it. */
  ghost predicate HeardOk(q: Ring) {
    forall k :: 0 <= k < |q.heard| ==> q.heard[k].item.generation >= q.heard[k].floor
  }

  ghost predicate RingOk(q: Ring, bpf: nat, g: nat) {
    ItemsOk(q, bpf, g) && ReaderOk(q, bpf) && ClearHonoured(q) && HeardOk(q)
  }

  lemma RingInBounds(q: Ring, bpf: nat, g: nat)
    requires RingOk(q, bpf, g)
    ensures InBounds(q)
  {
  }

  lemma {:induction false} SpanLess(n: nat, m: nat, d: nat)
    requires d > 0 && m <= n && Span(n, d) == n && Span(m, d) == m
    ensures Span(n - m, d) == n - m
    decreases m
  {
    if m > 0 {
      SpanLess(n - d, m - d, d);
    }
  }

  lemma {:induction false} LesserSpan(n: nat, m: nat, d: nat)
    requires d > 0 && Span(n, d) == n && Span(m, d) == m
    ensures Span(Min(n, m), d) == Min(n, m)
  {
  }

  lemma RemovedKeepsItems(q: Ring, n: nat, q': Ring, bpf: nat, g: nat)
    requires ItemsOk(q, bpf, g) && n <= |q.items| && bpf > 0 && Span(n, bpf) == n
    requires q'.capacity == q.capacity && q'.items == q.items[n..] && q'.settled == q.settled
    requires q'.reader.Waiting? && !q'.tainted
    ensures ItemsOk(q', bpf, g)
  {
    if q.capacity > 0 {
      SpanLess(|q.items|, n, bpf);
    }
  }

  lemma BeginKeepsOk(q: Ring, want: nat, bpf: nat, g: nat)
    requires RingOk(q, bpf, g) && (q.reader.Waiting? || q.tainted) && (bpf > 0 ==> Span(want, bpf) == want)
    ensures RingOk(ReadStep(q, want), bpf, g)
  {
    hide Span, HeardAs;
  }

  lemma FlagStepKeepsOk(q: Ring, bpf: nat, g: nat)
    requires RingOk(q, bpf, g) && !q.tainted && q.reader.Reading?
    requires q.reader.phase.FoundUp? || q.reader.phase.Lowered? || q.reader.phase.FoundDown?
    ensures RingOk(ReadStep(q, 0), bpf, g)
  {
    WholeItems(q, bpf, g);
    LesserSpan(q.reader.want, |q.items|, bpf);
    hide Span, HeardAs;
  }

  lemma EndKeepsOk(q: Ring, bpf: nat, g: nat)
    requires RingOk(q, bpf, g) && InBounds(q) && !q.tainted && q.reader.Reading?
    requires q.reader.phase.Skipping? || q.reader.phase.Taking?
    ensures RingOk(ReadStep(q, 0), bpf, g)
  {
    hide Span;
    RemovedKeepsItems(q, q.reader.phase.n, ReadStep(q, 0), bpf, g);
    hide ItemsOk;
  }

  /** Each atomic step of a read keeps the ring in order; the want is whole frames. */
  lemma ReadStepKeepsOk(q: Ring, want: nat, bpf: nat, g: nat)
    requires RingOk(q, bpf, g) && InBounds(q) && (bpf > 0 ==> Span(want, bpf) == want)
    ensures RingOk(ReadStep(q, want), bpf, g)
  {
    if q.reader.Waiting? || q.tainted {
      BeginKeepsOk(q, want, bpf, g);
    } else {
      assert ReadStep(q, want) == ReadStep(q, 0);
      hide RingOk, ReadStep;
      if q.reader.phase.Skipping? || q.reader.phase.Taking? {
        EndKeepsOk(q, bpf, g);
      } else {
        FlagStepKeepsOk(q, bpf, g);
      }
    }
  }

  lemma WholeItems(q: Ring, bpf: nat, g: nat)
    requires ItemsOk(q, bpf, g) && q.reader.Reading? && bpf > 0
    ensures Span(|q.items|, bpf) == |q.items|
  {
  }

  /** Only what read() takes or skips leaves the ring; the rest is as it was. */
  lemma ReadStepOnlyDrains(q: Ring, want: nat)
    requires InBounds(q)
    ensures var q' := ReadStep(q, want);
            && q'.capacity == q.capacity && q'.settled == q.settled && q'.pushed == q.pushed && q'.tainted == q.tainted
            && |q'.items| <= |q.items| && q'.items == q.items[|q.items| - |q'.items|..]
            && q.heard <= q'.heard
  {
    hide HeardAs;
    var q' := ReadStep(q, want);
    if q'.items != q.items {
      var n := q.reader.phase.n;
      assert q'.items == q.items[n..];
    } else {
      assert q.items[0..] == q.items;
    }
  }

  lemma PushKeepsItems(q: Ring, bs: seq<byte>, bpf: nat, g: nat)
    requires ItemsOk(q, bpf, g) && bpf > 0 && q.capacity > 0 && !q.tainted
    requires Span(|bs|, bpf) == |bs| && |bs| <= Room(q)
    ensures ItemsOk(Pushed(q, bs, g), bpf, g)
  {
    SpanAdds(|q.items|, |bs|, bpf);
    hide Span;
  }

  lemma PushKeepsOk(q: Ring, bs: seq<byte>, bpf: nat, g: nat)
    requires RingOk(q, bpf, g) && bpf > 0 && q.capacity > 0 && !q.tainted
    requires Span(|bs|, bpf) == |bs| && |bs| <= Room(q)
    ensures RingOk(Pushed(q, bs, g), bpf, g)
  {
    hide Span;
    PushKeepsItems(q, bs, bpf, g);
    var added := Tagged(bs, g);
    assert forall i :: 0 <= i < |added| ==> added[i].generation == g;
    hide Tagged;
  }

  lemma AskKeepsOk(q: Ring, bpf: nat, g: nat)
    requires RingOk(q, bpf, g) && !q.tainted
    ensures RingOk(AskClear(q, g), bpf, g)
  {
    hide Span;
  }

  lemma EmptiedIsOk(q: Ring, capacity: nat, bpf: nat, g: nat)
    requires HeardOk(q) && q.reader.Waiting? && (bpf == 0 ==> capacity == 0) && (capacity > 0 ==> capacity > bpf)
    ensures RingOk(Emptied(q, capacity, g), bpf, g)
  {
  }

  lemma GivenIsWhole(q: Ring, bpf: nat, g: nat)
    requires RingOk(q, bpf, g) && !q.tainted
    ensures InBounds(q)
    ensures q.reader.Reading? ==>
              && bpf > 0 && (q.reader.phase.Taking? ==> q.reader.phase.n <= q.reader.want)
              && Span(|GivenBy(q)|, bpf) == |GivenBy(q)|
  {
  }

  lemma DroppedIsOk(q: Ring, bpf: nat, g: nat)
    requires RingOk(q, bpf, g)
    ensures RingOk(Dropped(q, g), bpf, g)
  {
  }

  lemma RoomHere(q: Ring, bpf: nat, g: nat)
    requires RingOk(q, bpf, g) && bpf > 0 && q.capacity > 0
    ensures Room(q) >= 0 && InBounds(q)
  {
  }

  /** Nothing fits exactly if there is no room for a frame, and less than a frame is left over. */
  lemma FitsIsZero(q: Ring, remaining: nat, bpf: nat)
    requires bpf > 0 && Room(q) >= 0 && remaining > 0 && Span(remaining, bpf) == remaining
    ensures Fits(q, remaining, bpf) == 0 <==> Room(q) < bpf
    ensures Room(q) < remaining ==> Room(q) - Fits(q, remaining, bpf) < bpf
    ensures Span(Fits(q, remaining, bpf), bpf) == Fits(q, remaining, bpf)
  {
    SpanOfSpan(Room(q), bpf);
  }

  lemma NothingTagged(src: seq<byte>, at: nat, g: nat)
    requires at <= |src|
    ensures Tagged(src[at..at], g) == [] && Tagged(src[..0], g) == []
  {
  }

  lemma TaggedOn(items: seq<Item>, src: seq<byte>, a: nat, b: nat, c: nat, g: nat)
    requires a <= b <= c <= |src|
    ensures (items + Tagged(src[a..b], g)) + Tagged(src[b..c], g) == items + Tagged(src[a..c], g)
  {
    assert Tagged(src[a..b], g) + Tagged(src[b..c], g) == Tagged(src[a..c], g);
  }

  /** A new generation by itself changes nothing yet. */
  lemma NewGenerationKeepsOk(q: Ring, bpf: nat, g: nat, g': nat)
    requires RingOk(q, bpf, g) && g <= g'
    ensures RingOk(q, bpf, g')
  {
    hide Span;
  }

  lemma {:induction false} FinishKeepsOk(q: Ring, bpf: nat, g: nat)
    requires RingOk(q, bpf, g) && InBounds(q)
    ensures RingOk(FinishRead(q), bpf, g) && FinishRead(q).reader.Waiting?
    decreases StepsLeft(q.reader)
  {
    hide RingOk, ReadStep;
    if !q.reader.Waiting? {
      NothingWanted(bpf);
      ReadStepKeepsOk(q, 0, bpf, g);
      StepCounts(q, 0);
      FinishKeepsOk(ReadStep(q, 0), bpf, g);
    }
  }

  lemma NothingWanted(bpf: nat)
    ensures bpf > 0 ==> Span(0, bpf) == 0
  {
  }

  lemma StepCounts(q: Ring, want: nat)
    requires InBounds(q) && q.reader.Reading?
    ensures StepsLeft(ReadStep(q, want).reader) < StepsLeft(q.reader)
  {
  }

  lemma {:induction false} FinishOnlyDrains(q: Ring)
    requires InBounds(q)
    ensures var q' := FinishRead(q);
            && q'.capacity == q.capacity && q'.settled == q.settled && q'.pushed == q.pushed && q'.tainted == q.tainted
            && |q'.items| <= |q.items| && q.heard <= q'.heard
    decreases StepsLeft(q.reader)
  {
    hide ReadStep;
    if !q.reader.Waiting? {
      ReadStepOnlyDrains(q, 0);
      StepCounts(q, 0);
      FinishOnlyDrains(ReadStep(q, 0));
    }
  }

  // ------------------------------------------- what a clear() does not promise

  /** A read past its flag test when clear() lands, with something to take, still hands out
      bytes from before the clear; in every other state the next bytes handed out are from
      after it. The condition is on the ring as clear() finds it. */
  lemma ClearIsLateIff(q: Ring, bpf: nat, g: nat)
    requires RingOk(q, bpf, g) && InBounds(q) && !q.tainted
    ensures var late := FinishRead(AskClear(q, g + 1)).heard[|q.heard|..];
            && (late != [] <==> PastTest(q))
            && forall k :: 0 <= k < |late| ==> late[k].item.generation <= g
    ensures FinishRead(AskClear(q, g + 1)).settled == g + 1
  {
    var asked := AskClear(q, g + 1);
    FinishOnlyDrains(asked);
    if q.reader.Reading? && q.reader.phase.FoundDown? {
      var loaded := ReadStep(asked, 0);
      if loaded.reader.Reading? {
        assert FinishRead(loaded) == FinishRead(ReadStep(loaded, 0));
      }
    } else if q.reader.Reading? && !q.reader.phase.Taking? {
      SkippingHearsNothing(asked);
    }
  }

  lemma {:induction false} SkippingHearsNothing(q: Ring)
    requires InBounds(q) && !q.tainted && q.reader.Reading? && !q.reader.phase.FoundDown? && !q.reader.phase.Taking?
    ensures FinishRead(q).heard == q.heard
    decreases StepsLeft(q.reader)
  {
    if !q.reader.phase.Skipping? {
      SkippingHearsNothing(ReadStep(q, 0));
    }
  }

  predicate PastTest(q: Ring) {
    q.reader.Reading? &&
    ((q.reader.phase.FoundDown? && q.reader.want > 0 && q.items != []) || (q.reader.phase.Taking?
        && q.reader.phase.n > 0))
  }

  /** What the threads on a connected stream do to the ring: a step of the callback's read, a
      write(), and the two halves of clear(), the new generation and the request. */
  datatype Act = Read(want: nat) | Write(bytes: seq<byte>) | NewGeneration | Ask

  /** The ring and the current generation. */
  datatype Shared = Shared(ring: Ring, generation: nat)

  predicate Can(s: Shared, a: Act, bpf: nat)
    requires bpf > 0
  {
    match a
    case Read(want) => Span(want, bpf) == want
    case Write(bytes) => Span(|bytes|, bpf) == |bytes| && |bytes| <= Room(s.ring)
    case NewGeneration => true
    case Ask => true
  }

  function Do(s: Shared, a: Act): Shared
    requires InBounds(s.ring)
  {
    match a
    case Read(want) => s.(ring := ReadStep(s.ring, want))
    case Write(bytes) => s.(ring := Pushed(s.ring, bytes, s.generation))
    case NewGeneration => s.(generation := s.generation + 1)
    case Ask => s.(ring := AskClear(s.ring, s.generation))
  }

  ghost predicate CanAll(s: Shared, acts: seq<Act>, bpf: nat)
    requires bpf > 0
    decreases |acts|
  {
    acts == [] || (InBounds(s.ring) && Can(s, acts[0], bpf) && CanAll(Do(s, acts[0]), acts[1..], bpf))
  }

  ghost function DoAll(s: Shared, acts: seq<Act>, bpf: nat): Shared
    requires bpf > 0 && CanAll(s, acts, bpf)
    decreases |acts|
  {
    if acts == [] then s else DoAll(Do(s, acts[0]), acts[1..], bpf)
  }

  /** In order, settled at `g` or later, and whatever is being read or has been handed out since
      the first `from` bytes is no older. */
  ghost predicate Since(s: Shared, bpf: nat, g: nat, from: nat) {
    && RingOk(s.ring, bpf, s.generation) && !s.ring.tainted && s.ring.capacity > 0
    && g <= s.ring.settled
    && (s.ring.reader.Reading? ==> g <= s.ring.reader.floor)
    && from <= |s.ring.heard|
    && (forall k :: from <= k < |s.ring.heard| ==> s.ring.heard[k].item.generation >= g)
  }

  lemma ReadKeepsSince(s: Shared, want: nat, bpf: nat, g: nat, from: nat)
    requires bpf > 0 && Since(s, bpf, g, from) && InBounds(s.ring) && Span(want, bpf) == want
    ensures Since(Do(s, Read(want)), bpf, g, from)
  {
    ReadStepKeepsOk(s.ring, want, bpf, s.generation);
    ReadStepOnlyDrains(s.ring, want);
    var q, q' := s.ring, ReadStep(s.ring, want);
    assert HeardOk(q');
    HeardFloors(q, want);
    hide RingOk, Span;
  }

  /** What a step hands out, it hands out at the floor of the read it ends. */
  lemma HeardFloors(q: Ring, want: nat)
    requires InBounds(q)
    ensures var q' := ReadStep(q, want);
            && q.heard <= q'.heard
            && (q.reader.Waiting? ==> q'.heard == q.heard)
            && (q.reader.Reading? ==> forall k :: |q.heard| <= k < |q'.heard| ==> q'.heard[k].floor == q.reader.floor)
  {
  }

  lemma DoKeepsSince(s: Shared, a: Act, bpf: nat, g: nat, from: nat)
    requires bpf > 0 && Since(s, bpf, g, from) && InBounds(s.ring) && Can(s, a, bpf)
    ensures Since(Do(s, a), bpf, g, from)
  {
    assert s.ring.settled <= s.generation;
    hide Span, RingOk;
    match a
    case Read(want) => ReadKeepsSince(s, want, bpf, g, from);
    case Write(bytes) => PushKeepsOk(s.ring, bytes, bpf, s.generation);
    case NewGeneration => NewGenerationKeepsOk(s.ring, bpf, s.generation, s.generation + 1);
    case Ask => AskKeepsOk(s.ring, bpf, s.generation);
  }

  lemma {:induction false} SinceGoesOn(s: Shared, acts: seq<Act>, bpf: nat, g: nat, from: nat)
    requires bpf > 0 && Since(s, bpf, g, from) && CanAll(s, acts, bpf)
    ensures Since(DoAll(s, acts, bpf), bpf, g, from)
    decreases |acts|
  {
    hide Since, Do, Can;
    if acts != [] {
      DoKeepsSince(s, acts[0], bpf, g, from);
      SinceGoesOn(Do(s, acts[0]), acts[1..], bpf, g, from);
    }
  }

  /** Once clear() has been through, which settles its generation, and the read it found under
      way, if any, has ended, nothing older is ever handed out, whatever reads, writes and clears
      follow in any order. */
  lemma NothingOlderThanSettled(s: Shared, acts: seq<Act>, bpf: nat)
    requires bpf > 0 && RingOk(s.ring, bpf, s.generation) && !s.ring.tainted && s.ring.capacity > 0
    requires s.ring.reader.Waiting? && CanAll(s, acts, bpf)
    ensures var heard := DoAll(s, acts, bpf).ring.heard;
            && |s.ring.heard| <= |heard|
            && forall k :: |s.ring.heard| <= k < |heard| ==> heard[k].item.generation >= s.ring.settled
  {
    SinceGoesOn(s, acts, bpf, s.ring.settled, |s.ring.heard|);
  }

  /** "Each read is of one generation" is false of the code: with a byte in the ring and a read
      past its flag test, a whole clear() and the write() after it give that read a byte of each. */
  lemma OneReadOfTwoGenerations()
    ensures var tested := ReadStep(Pushed(Emptied(NO_RING, 4, 1), [1], 1), 2);
            var written := Pushed(AskClear(tested, 2), [2], 2);
            var done := FinishRead(written);
            done.heard == [Heard(Item(1, 1), 1), Heard(Item(2, 2), 1)] && done.clear
  {
    var tested := ReadStep(Pushed(Emptied(NO_RING, 4, 1), [1], 1), 2);
    var written := Pushed(AskClear(tested, 2), [2], 2);
    assert written.items == [Item(1, 1), Item(2, 2)];
    var taking := ReadStep(written, 0);
    assert taking.reader == Reading(1, 2, Taking(2));
    assert FinishRead(written) == FinishRead(taking);
  }

  /** Some two of the bytes were written under different generations. */
  predicate Mixed(bytes: seq<Heard>) {
    exists i, j :: 0 <= i < j < |bytes| && bytes[i].item.generation != bytes[j].item.generation
  }

  /** When a clear() and a write() land one after the other on a read in progress, that read gives
      bytes of two generations exactly if they find it between its flag test and its load, with
      something in the ring but less than it wants. */
  lemma MixedReadIff(q: Ring, bs: seq<byte>, bpf: nat, g: nat)
    requires RingOk(q, bpf, g) && InBounds(q) && !q.tainted && bs != []
    requires forall i :: 0 <= i < |q.items| ==> q.items[i].generation == g
    ensures var late := FinishRead(Pushed(AskClear(q, g + 1), bs, g + 1)).heard[|q.heard|..];
            Mixed(late) <==> q.reader.Reading? && q.reader.phase.FoundDown? && 0 < |q.items| < q.reader.want
  {
    var written := Pushed(AskClear(q, g + 1), bs, g + 1);
    var late := FinishRead(written).heard[|q.heard|..];
    if q.reader.Reading? && q.reader.phase.FoundDown? {
      LoadsAndTakes(written);
      var n := Min(q.reader.want, |written.items|);
      assert late == HeardAs(written.items[..n], q.reader.floor);
      if 0 < |q.items| < q.reader.want {
        assert late[0].item.generation == g && late[|q.items|].item.generation == g + 1;
      }
    } else if q.reader.Reading? && q.reader.phase.Taking? {
      var done := ReadStep(written, 0);
      assert FinishRead(written) == FinishRead(done) == done;
      assert late == HeardAs(written.items[..q.reader.phase.n], q.reader.floor);
    } else if q.reader.Reading? {
      SkippingHearsNothing(written);
    }
  }

  lemma LoadsAndTakes(q: Ring)
    requires InBounds(q) && !q.tainted && q.reader.Reading? && q.reader.phase.FoundDown?
    ensures FinishRead(q).heard == q.heard + HeardAs(q.items[..Min(q.reader.want, |q.items|)], q.reader.floor)
  {
    var loaded := ReadStep(q, 0);
    if loaded.reader.Reading? {
      var done := ReadStep(loaded, 0);
      assert FinishRead(q) == FinishRead(loaded) == FinishRead(done) == done;
    } else {
      assert q.items[..0] == [] && HeardAs([], q.reader.floor) == [] && q.heard + [] == q.heard;
    }
  }

  // ----------------------------------------------- the ring of RingThreads

  /** The same ring: byte for byte, flag for flag, and the reader at the same step. */
  ghost predicate Matches(s: RingThreads.State, q: Ring) {
    && |s.fate| <= |s.accepted| && !q.tainted
    && q.capacity == s.cap && Samples(q.items) == RingThreads.Queue(s) && q.clear == s.clear
    && match s.consumer
       case Idle => q.reader.Waiting?
       case Tested(_, len) => q.reader.Reading? && q.reader.phase.FoundDown? && q.reader.want == len
       case SawClear(_) => q.reader.Reading? && q.reader.phase.FoundUp?
       case FlagDown(_) => q.reader.Reading? && q.reader.phase.Lowered?
       case HaveWrite(_, _, level) => q.reader.Reading? && q.reader.phase.Skipping?
           && q.reader.phase.n == level - |s.fate|
       case Reading(_, n, _) => q.reader.Reading? && q.reader.phase == Taking(n)
  }

  /** What a step of the two threads is here, under generation `g`. Copying is invisible. */
  ghost function Seen(q: Ring, s: RingThreads.State, step: RingThreads.Step, g: nat): (q': Ring)
    requires InBounds(q) && RingThreads.Enabled(s, step) && Matches(s, q)
    ensures |q.heard| <= |q'.heard|
  {
    match step
    case Publish => Pushed(q, s.producer.data[..s.producer.n], g)
    case RequestClear => AskClear(q, g)
    case Test(len) => ReadStep(q, len)
    case Reset(capacity) => Emptied(q, capacity, g)
    case LowerFlag => ReadStep(q, 0)
    case LoadWrite => ReadStep(q, 0)
    case StoreRead => ReadStep(q, 0)
    case LoadAvailable => ReadStep(q, 0)
    case Release => ReadStep(q, 0)
    case _ => q
  }

  function Out(from: Ring, to: Ring): seq<byte>
    requires |from.heard| <= |to.heard|
  {
    var late := to.heard[|from.heard|..];
    seq(|late|, i requires 0 <= i < |late| => late[i].item.sample)
  }

  lemma PublishMatches(s: RingThreads.State, q: Ring, g: nat)
    requires RingThreads.Inv(s) && RingThreads.Enabled(s, RingThreads.Publish) && Matches(s, q) && InBounds(q)
    ensures var s', q' := RingThreads.Next(s, RingThreads.Publish), Seen(q, s, RingThreads.Publish, g);
            Matches(s', q') && q'.heard == q.heard && s'.delivered == s.delivered
  {
    hide RingThreads.RingInv, RingThreads.ProducerInv, RingThreads.ConsumerInv, RingThreads.ClearHonoured;
    RingThreads.RefinesFifo(s, RingThreads.Publish);
    var bs := s.producer.data[..s.producer.n];
    assert Samples(q.items + Tagged(bs, g)) == Samples(q.items) + bs;
  }

  lemma ReleaseMatches(s: RingThreads.State, q: Ring, g: nat)
    requires RingThreads.Inv(s) && RingThreads.Enabled(s, RingThreads.Release) && Matches(s, q) && InBounds(q)
    ensures var s', q' := RingThreads.Next(s, RingThreads.Release), Seen(q, s, RingThreads.Release, g);
            Matches(s', q') && s'.delivered == s.delivered + Out(q, q')
  {
    hide RingThreads.RingInv, RingThreads.ProducerInv, RingThreads.ClearHonoured;
    RingThreads.RefinesFifo(s, RingThreads.Release);
    var n := s.consumer.n;
    assert Samples(q.items)[..n] == s.consumer.dest;
    assert Samples(q.items[n..]) == Samples(q.items)[n..];
  }

  lemma SkipMatches(s: RingThreads.State, q: Ring, g: nat)
    requires RingThreads.Inv(s) && RingThreads.Enabled(s, RingThreads.StoreRead) && Matches(s, q) && InBounds(q)
    ensures var s', q' := RingThreads.Next(s, RingThreads.StoreRead), Seen(q, s, RingThreads.StoreRead, g);
            Matches(s', q') && q'.heard == q.heard && s'.delivered == s.delivered
  {
    hide RingThreads.RingInv, RingThreads.ProducerInv, RingThreads.ClearHonoured;
    RingThreads.RefinesFifo(s, RingThreads.StoreRead);
    var n := s.consumer.level - |s.fate|;
    assert Samples(q.items[n..]) == Samples(q.items)[n..];
  }

  lemma ResetMatches(s: RingThreads.State, q: Ring, capacity: nat, g: nat)
    requires RingThreads.Inv(s) && RingThreads.Enabled(s, RingThreads.Reset(capacity)) && Matches(s, q) && InBounds(q)
    ensures var s', q' := RingThreads.Next(s, RingThreads.Reset(capacity)), Seen(q, s, RingThreads.Reset(capacity), g);
            Matches(s', q') && q'.heard == q.heard && s'.delivered == s.delivered
  {
    hide RingThreads.RingInv, RingThreads.ProducerInv, RingThreads.ConsumerInv, RingThreads.ClearHonoured;
  }

  lemma QuietStepMatches(s: RingThreads.State, q: Ring, step: RingThreads.Step, g: nat)
    requires RingThreads.Inv(s) && RingThreads.Enabled(s, step) && Matches(s, q) && InBounds(q)
    requires !step.Publish? && !step.Release? && !step.StoreRead? && !step.Reset?
    ensures var s', q' := RingThreads.Next(s, step), Seen(q, s, step, g);
            Matches(s', q') && q'.heard == q.heard && s'.delivered == s.delivered
  {
    hide RingThreads.ProducerInv, RingThreads.ClearHonoured;
    assert |q.items| == |Samples(q.items)|;
  }

  /** Every step of the interleaved ring is the step of this one that `Seen` names, and hands
      out the same bytes. */
  lemma RingThreadsIsThisRing(s: RingThreads.State, q: Ring, step: RingThreads.Step, g: nat)
    requires RingThreads.Inv(s) && RingThreads.Enabled(s, step) && Matches(s, q) && InBounds(q)
    ensures var s', q' := RingThreads.Next(s, step), Seen(q, s, step, g);
            Matches(s', q') && |q.heard| <= |q'.heard| && s'.delivered == s.delivered + Out(q, q')
  {
    hide Matches, RingThreads.Inv;
    match step
    case Publish => PublishMatches(s, q, g);
    case Release => ReleaseMatches(s, q, g);
    case StoreRead => SkipMatches(s, q, g);
    case Reset(capacity) => ResetMatches(s, q, capacity, g);
    case _ => QuietStepMatches(s, q, step, g);
  }
}
