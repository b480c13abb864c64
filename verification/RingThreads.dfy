/** The ring under two threads: src/pcm_ring.cpp taken apart into the atomic
    loads, byte copies and stores that a producer and a consumer interleave.

    The state carries its own history: every byte accepted, what became of each
    byte consumed, and how much had been accepted at the last clear request.
 */
module RingThreads {
  import opened Machine
  import opened PcmRing

  /** write(): positions loaded, then `copied` of `n` bytes stored, then published. */
  datatype Producer =
    | Idle
    | Copying(data: seq<byte>, n: nat, copied: nat)

  /** read(): `since` is how much had been accepted at the last clear request
      made before this read began. */
  datatype Consumer =
    | Idle
    | Tested(since: nat, len: nat)              // the flag was down
    | SawClear(since: nat)                      // the flag was up
    | FlagDown(since: nat)                      // ... and has been lowered
    | HaveWrite(since: nat, w: nat, level: nat) // ... and write_pos_ loaded, `level` bytes accepted by then
    | Reading(since: nat, n: nat, dest: seq<byte>)

  datatype State = State(
    cap: nat, buf: seq<byte>, wpos: nat, rpos: nat, clear: bool,
    producer: Producer, consumer: Consumer,
    accepted: seq<byte>,   // every byte published, in order
    fate: seq<bool>,       // for each byte gone from the ring: delivered, or dropped by a clear
    delivered: seq<byte>,  // what reads have returned, in order
    mark: nat)             // |accepted| at the last clear request

  datatype Step =
    | Load(data: seq<byte>)      // write(): read both positions, decide how much fits
    | Store                      // one byte of the memcpy in
    | Publish                    // write_pos_.store
    | RequestClear               // clear_requested_.store(true), from any thread, at any time
    | Test(len: nat)             // read(): clear_requested_.load
    | LowerFlag                  // clear_requested_.store(false)
    | LoadWrite                  // write_pos_.load on the clearing path
    | StoreRead                  // read_pos_.store on the clearing path
    | LoadAvailable              // write_pos_.load on the reading path
    | Fetch                      // one byte of the memcpy out
    | Release                    // read_pos_.store
    | Reset(capacity: nat)       // reset() or, at the same capacity, drop(): no reader or writer running

  function Queue(s: State): seq<byte>
    requires |s.fate| <= |s.accepted|
  {
    s.accepted[|s.fate|..]
  }

  predicate Sized(s: State) {
    s.cap > 0 && s.wpos < s.cap && s.rpos < s.cap && |s.buf| == s.cap
  }

  function FreeSpace(s: State): int
    requires s.cap > 0 ==> Sized(s)
  {
    if s.cap == 0 then 0 else s.cap - 1 - Used(s.wpos, s.rpos, s.cap)
  }

  /** The steps of one thread follow its own program; RequestClear is free. An
      unsized ring returns before touching anything. */
  predicate Enabled(s: State, step: Step) {
    match step
    case Load(data) => s.producer.Idle? && Sized(s) && Min(|data|, FreeSpace(s)) > 0
    case Store => s.producer.Copying? && s.producer.copied < s.producer.n <= |s.producer.data| && Sized(s)
        && s.producer.copied < s.cap
    case Publish => s.producer.Copying? && s.producer.copied == s.producer.n <= |s.producer.data| && Sized(s)
        && s.producer.n < s.cap
    case RequestClear => true
    case Test(len) => s.consumer.Idle? && Sized(s)
    case LowerFlag => s.consumer.SawClear?
    case LoadWrite => s.consumer.FlagDown?
    case StoreRead => s.consumer.HaveWrite? && |s.fate| <= s.consumer.level
    case LoadAvailable => s.consumer.Tested? && Sized(s)
    case Fetch => s.consumer.Reading? && |s.consumer.dest| < s.consumer.n && Sized(s) && |s.consumer.dest| < s.cap
    case Release => s.consumer.Reading? && |s.consumer.dest| == s.consumer.n && Sized(s) && s.consumer.n < s.cap
    case Reset(capacity) => s.producer.Idle? && s.consumer.Idle? && |s.fate| <= |s.accepted|
  }

  function Next(s: State, step: Step): State
    requires Enabled(s, step)
  {
    match step
    case Load(data) =>
      s.(producer := Copying(data, Min(|data|, FreeSpace(s)), 0))
    case Store =>
      var p := s.producer;
      s.(buf := s.buf[Wrap(s.wpos, p.copied, s.cap) := p.data[p.copied]], producer := p.(copied := p.copied + 1))
    case Publish =>
      var p := s.producer;
      s.(wpos := Wrap(s.wpos, p.n, s.cap), accepted := s.accepted + p.data[..p.n], producer := Producer.Idle)
    case RequestClear =>
      s.(clear := true, mark := |s.accepted|)
    case Test(len) =>
      s.(consumer := if s.clear then SawClear(s.mark) else Tested(s.mark, len))
    case LowerFlag =>
      s.(clear := false, consumer := FlagDown(s.consumer.since))
    case LoadWrite =>
      s.(consumer := HaveWrite(s.consumer.since, s.wpos, |s.accepted|))
    case StoreRead =>
      s.(rpos := s.consumer.w, fate := s.fate + seq(s.consumer.level - |s.fate|, _ => false), consumer := Consumer.Idle)
    case LoadAvailable =>
      var n := Min(s.consumer.len, Used(s.wpos, s.rpos, s.cap));
      s.(consumer := if n == 0 then Consumer.Idle else Reading(s.consumer.since, n, []))
    case Fetch =>
      var c := s.consumer;
      s.(consumer := c.(dest := c.dest + [s.buf[Wrap(s.rpos, |c.dest|, s.cap)]]))
    case Release =>
      var c := s.consumer;
      s.(rpos := Wrap(s.rpos, c.n, s.cap), fate := s.fate + seq(c.n, _ => true), delivered := s.delivered + c.dest,
         consumer := Consumer.Idle)
    case Reset(capacity) =>
      s.(cap := capacity, buf := Zeros(capacity), wpos := 0, rpos := 0, clear := false,
         fate := s.fate + seq(|s.accepted| - |s.fate|, _ => false))
  }

  const STARTED := State(0, [], 0, 0, false, Producer.Idle, Consumer.Idle, [], [], [], 0)

  predicate Init(s: State) {
    s == STARTED
  }

  // -------------------------------------------------------------- invariant

  /** The bytes of `accepted` that were delivered rather than dropped, in order. */
  function Kept(bytes: seq<byte>, fate: seq<bool>): seq<byte>
    requires |bytes| == |fate|
  {
    if bytes == [] then []
    else
      var last := |bytes| - 1;
      Kept(bytes[..last], fate[..last]) + if fate[last] then [bytes[last]] else []
  }

  /** A clear request is still honoured: everything accepted before it is already
      gone, or the flag is up, or the consumer is on its way to dropping it. */
  predicate ClearHonoured(s: State) {
    || s.mark <= |s.fate|
    || s.clear
    || s.consumer.SawClear?
    || s.consumer.FlagDown?
    || (s.consumer.HaveWrite? && s.mark <= s.consumer.level)
  }

  ghost predicate ProducerInv(s: State)
    requires |s.fate| <= |s.accepted|
  {
    s.producer.Copying? ==>
      && var p := s.producer;
      && Sized(s) && 0 < p.n <= |p.data| && p.copied <= p.n
      && |Queue(s)| + p.n <= s.cap - 1
      && forall k :: 0 <= k < p.copied ==> s.buf[Wrap(s.wpos, k, s.cap)] == p.data[k]
  }

  ghost predicate ConsumerInv(s: State)
    requires |s.fate| <= |s.accepted|
  {
    && (s.consumer != Consumer.Idle ==> Sized(s) && s.consumer.since <= s.mark)
    && (s.consumer.Tested? || s.consumer.Reading? ==> s.consumer.since <= |s.fate|)
    && (s.consumer.HaveWrite? ==>
          && |s.fate| <= s.consumer.level <= |s.accepted|
          && s.consumer.w < s.cap && s.consumer.level - |s.fate| < s.cap
          && s.consumer.w == Wrap(s.rpos, s.consumer.level - |s.fate|, s.cap))
    && (s.consumer.Reading? ==>
          && var c := s.consumer;
          && |c.dest| <= c.n <= |Queue(s)|
          && c.dest == Queue(s)[..|c.dest|])
  }

  ghost predicate RingInv(s: State)
    requires |s.fate| <= |s.accepted|
  {
    if s.cap == 0 then Queue(s) == []
    else
      && Sized(s)
      && Used(s.wpos, s.rpos, s.cap) == |Queue(s)|
      && forall i :: 0 <= i < |Queue(s)| ==> s.buf[Wrap(s.rpos, i, s.cap)] == Queue(s)[i]
  }

  ghost predicate Inv(s: State) {
    && |s.fate| <= |s.accepted|
    && s.mark <= |s.accepted|
    && RingInv(s)
    && ProducerInv(s)
    && ConsumerInv(s)
    && ClearHonoured(s)
    && s.delivered == Kept(s.accepted[..|s.fate|], s.fate)
  }

  lemma {:induction false} KeptExtends(bytes: seq<byte>, fate: seq<bool>, more: seq<byte>, keep: bool)
    requires |bytes| == |fate|
    ensures Kept(bytes + more, fate + seq(|more|, _ => keep)) == Kept(bytes, fate) + if keep then more else []
    decreases |more|
  {
    var all, fates := bytes + more, fate + seq(|more|, _ => keep);
    if more == [] {
      assert all == bytes && fates == fate;
    } else {
      var k := |more| - 1;
      KeptExtends(bytes, fate, more[..k], keep);
      assert all[..|all| - 1] == bytes + more[..k];
      assert fates[..|all| - 1] == fate + seq(k, _ => keep);
    }
  }

  // -------------------------------------------- one lemma per family of steps

  lemma PublishKeepsInv(s: State)
    requires Inv(s) && Enabled(s, Publish)
    ensures Inv(Next(s, Publish))
  {
    hide Wrap, Used, Kept;
    var s', p := Next(s, Publish), s.producer;
    assert s'.accepted[..|s.fate|] == s.accepted[..|s.fate|];
    assert Queue(s') == Queue(s) + p.data[..p.n];
    forall i | 0 <= i < |Queue(s')|
      ensures s'.buf[Wrap(s'.rpos, i, s'.cap)] == Queue(s')[i]
    {
      if i >= |Queue(s)| {
        assert Wrap(s.rpos, i, s.cap) == Wrap(s.wpos, i - |Queue(s)|, s.cap);
      }
    }
  }

  lemma StoreKeepsInv(s: State)
    requires Inv(s) && Enabled(s, Store)
    ensures Inv(Next(s, Store))
  {
    hide Wrap, Used, Kept;
  }

  lemma LoadKeepsInv(s: State, data: seq<byte>)
    requires Inv(s) && Enabled(s, Load(data))
    ensures Inv(Next(s, Load(data)))
  {
    hide Wrap, Used, Kept;
  }

  lemma FlagStepKeepsInv(s: State, step: Step)
    requires Inv(s) && Enabled(s, step)
    requires step.RequestClear? || step.Test? || step.LowerFlag? || step.LoadWrite?
    ensures Inv(Next(s, step))
  {
    hide Wrap, Used, Kept;
  }

  lemma StoreReadKeepsInv(s: State)
    requires Inv(s) && Enabled(s, StoreRead)
    ensures Inv(Next(s, StoreRead))
  {
    hide Wrap, Used, Kept;
    Forgotten(s, Next(s, StoreRead), s.consumer.level, false);
  }

  lemma ResetKeepsInv(s: State, capacity: nat)
    requires Inv(s) && Enabled(s, Reset(capacity))
    ensures Inv(Next(s, Reset(capacity)))
  {
    hide Wrap, Used, Kept;
    Forgotten(s, Next(s, Reset(capacity)), |s.accepted|, false);
  }

  lemma LoadAvailableKeepsInv(s: State)
    requires Inv(s) && Enabled(s, LoadAvailable)
    ensures Inv(Next(s, LoadAvailable))
  {
    hide Wrap, Used, Kept;
  }

  lemma FetchKeepsInv(s: State)
    requires Inv(s) && Enabled(s, Fetch)
    ensures Inv(Next(s, Fetch))
  {
    hide Wrap, Used, Kept;
    var d := |s.consumer.dest|;
    assert Queue(s)[..d + 1] == Queue(s)[..d] + [Queue(s)[d]];
  }

  lemma ReleaseKeepsInv(s: State)
    requires Inv(s) && Enabled(s, Release)
    ensures Inv(Next(s, Release))
  {
    hide Wrap, Used, Kept;
    Forgotten(s, Next(s, Release), |s.fate| + s.consumer.n, true);
    assert s.consumer.dest == s.accepted[|s.fate|..|s.fate| + s.consumer.n];
  }

  /** Consuming up to `level` moves those bytes from the ring to the history. */
  lemma Forgotten(s: State, s': State, level: nat, keep: bool)
    requires |s.fate| <= level <= |s.accepted|
    requires s.delivered == Kept(s.accepted[..|s.fate|], s.fate)
    requires s'.accepted == s.accepted && s'.fate == s.fate + seq(level - |s.fate|, _ => keep)
    ensures Queue(s') == Queue(s)[level - |s.fate|..]
    ensures Kept(s'.accepted[..|s'.fate|], s'.fate) == s.delivered + if keep then s.accepted[|s.fate|..level] else []
  {
    hide Kept;
    var more := s.accepted[|s.fate|..level];
    KeptExtends(s.accepted[..|s.fate|], s.fate, more, keep);
    assert s.accepted[..level] == s.accepted[..|s.fate|] + more;
  }

  lemma StepKeepsInv(s: State, step: Step)
    requires Inv(s) && Enabled(s, step)
    ensures Inv(Next(s, step))
  {
    match step
    case Load(data) => LoadKeepsInv(s, data);
    case Store => StoreKeepsInv(s);
    case Publish => PublishKeepsInv(s);
    case StoreRead => StoreReadKeepsInv(s);
    case LoadAvailable => LoadAvailableKeepsInv(s);
    case Fetch => FetchKeepsInv(s);
    case Release => ReleaseKeepsInv(s);
    case Reset(capacity) => ResetKeepsInv(s, capacity);
    case _ => FlagStepKeepsInv(s, step);
  }

  // ------------------------------------------------------------ whole runs

  /** Any interleaving at all: from the initial state, one enabled step at a time. */
  ghost predicate IsRun(run: seq<State>, steps: seq<Step>) {
    && |run| == |steps| + 1
    && Init(run[0])
    && forall i :: 0 <= i < |steps| ==> Enabled(run[i], steps[i]) && run[i + 1] == Next(run[i], steps[i])
  }

  lemma {:induction false} RunKeepsInv(run: seq<State>, steps: seq<Step>, i: nat)
    requires IsRun(run, steps) && i < |run|
    ensures Inv(run[i])
  {
    if i > 0 {
      RunKeepsInv(run, steps, i - 1);
      StepKeepsInv(run[i - 1], steps[i - 1]);
    }
  }

  /** The positions a thread's copy touches. */
  ghost predicate InProducerRegion(s: State, pos: nat) {
    s.producer.Copying? && Sized(s) && exists k: nat :: k < s.producer.n && k < s.cap && pos == Wrap(s.wpos, k, s.cap)
  }

  ghost predicate InConsumerRegion(s: State, pos: nat) {
    s.consumer.Reading? && Sized(s) && exists k: nat :: k < s.consumer.n && k < s.cap && pos == Wrap(s.rpos, k, s.cap)
  }

  /** In every interleaving the two copies never touch the same byte of storage. */
  lemma CopiesAreDisjoint(run: seq<State>, steps: seq<Step>, i: nat, pos: nat)
    requires IsRun(run, steps) && i < |run|
    ensures !(InProducerRegion(run[i], pos) && InConsumerRegion(run[i], pos))
  {
    RunKeepsInv(run, steps, i);
  }

  function CountOf(fate: seq<bool>, which: bool): nat {
    if fate == [] then 0 else CountOf(fate[..|fate| - 1], which) + if fate[|fate| - 1] == which then 1 else 0
  }

  lemma {:induction false} KeptCount(bytes: seq<byte>, fate: seq<bool>)
    requires |bytes| == |fate|
    ensures |Kept(bytes, fate)| == CountOf(fate, true)
    ensures CountOf(fate, true) + CountOf(fate, false) == |fate|
  {
    if bytes != [] {
      KeptCount(bytes[..|bytes| - 1], fate[..|fate| - 1]);
    }
  }

  /** Conservation and order: what was accepted is what was delivered, plus what
      clears dropped, plus what the ring still holds; and what was delivered is
      the accepted bytes less the dropped ones, in the order they were accepted. */
  lemma BytesAreConserved(run: seq<State>, steps: seq<Step>, i: nat)
    requires IsRun(run, steps) && i < |run|
    ensures var s := run[i];
            && |s.fate| <= |s.accepted|
            && s.delivered == Kept(s.accepted[..|s.fate|], s.fate)
            && |s.accepted| == |s.delivered| + CountOf(s.fate, false) + |Queue(s)|
            && (s.cap > 0 ==> Sized(s) && FreeSpace(s) == s.cap - 1 - |Queue(s)|)
  {
    RunKeepsInv(run, steps, i);
    KeptCount(run[i].accepted[..|run[i].fate|], run[i].fate);
  }

  /** What one step does to the ring seen as a queue. */
  datatype QueueStep = Enqueue(bytes: seq<byte>) | Dequeue(bytes: seq<byte>) | DropFront(n: nat) | Stay

  function QueueStepOf(s: State, step: Step): QueueStep
    requires Enabled(s, step)
  {
    match step
    case Publish => Enqueue(s.producer.data[..s.producer.n])
    case Release => Dequeue(s.consumer.dest)
    case StoreRead => DropFront(s.consumer.level - |s.fate|)
    case Reset(_) => DropFront(|s.accepted| - |s.fate|)
    case _ => Stay
  }

  predicate QueueNext(q: seq<byte>, q': seq<byte>, out: seq<byte>, qs: QueueStep) {
    match qs
    case Enqueue(bytes) => q' == q + bytes && out == []
    case Dequeue(bytes) => q == bytes + q' && out == bytes
    case DropFront(n) => n <= |q| && q' == q[n..] && out == []
    case Stay => q' == q && out == []
  }

  /** The interleaved ring refines a FIFO queue: each step is one queue step or
      none, and the bytes it hands out are exactly the ones it dequeues. */
  lemma RefinesFifo(s: State, step: Step)
    requires Inv(s) && Enabled(s, step)
    ensures var s' := Next(s, step);
            && |s'.fate| <= |s'.accepted| && s.delivered <= s'.delivered
            && QueueNext(Queue(s), Queue(s'), s'.delivered[|s.delivered|..], QueueStepOf(s, step))
  {
    hide Wrap, Used, Kept, Next, Inv;
    match step
    case Release => ReleaseIsDequeue(s);
    case StoreRead => StoreReadDropsFront(s);
    case Reset(capacity) => ResetDropsAll(s, capacity);
    case _ => OthersTakeNothing(s, step);
  }

  lemma ReleaseIsDequeue(s: State)
    requires Inv(s) && Enabled(s, Release)
    ensures var s' := Next(s, Release);
            && |s'.fate| <= |s'.accepted| && s'.delivered == s.delivered + s.consumer.dest
            && Queue(s) == s.consumer.dest + Queue(s')
  {
    hide Wrap, Used, Kept, ProducerInv, ClearHonoured, RingInv;
    Forgotten(s, Next(s, Release), |s.fate| + s.consumer.n, true);
  }

  lemma StoreReadDropsFront(s: State)
    requires Inv(s) && Enabled(s, StoreRead)
    ensures var s' := Next(s, StoreRead);
            && |s'.fate| <= |s'.accepted| && s'.delivered == s.delivered
            && s.consumer.level - |s.fate| <= |Queue(s)| && Queue(s') == Queue(s)[s.consumer.level - |s.fate|..]
  {
    hide Wrap, Used, Kept, ProducerInv, ClearHonoured, RingInv;
    Forgotten(s, Next(s, StoreRead), s.consumer.level, false);
  }

  lemma ResetDropsAll(s: State, capacity: nat)
    requires Inv(s) && Enabled(s, Reset(capacity))
    ensures var s' := Next(s, Reset(capacity));
            && |s'.fate| <= |s'.accepted| && s'.delivered == s.delivered && Queue(s') == []
            && Queue(s)[|s.accepted| - |s.fate|..] == []
  {
    hide Wrap, Used, Kept, ProducerInv, ConsumerInv, ClearHonoured, RingInv;
    Forgotten(s, Next(s, Reset(capacity)), |s.accepted|, false);
  }

  lemma OthersTakeNothing(s: State, step: Step)
    requires Inv(s) && Enabled(s, step) && !step.Release? && !step.StoreRead? && !step.Reset?
    ensures var s' := Next(s, step);
            && |s'.fate| <= |s'.accepted| && s'.delivered == s.delivered
            && Queue(s') == if step.Publish? then Queue(s) + s.producer.data[..s.producer.n] else Queue(s)
  {
    hide Wrap, Used, Kept, ProducerInv, ConsumerInv, ClearHonoured, RingInv;
  }

  lemma FreeSpaceIs(s: State)
    requires Inv(s)
    ensures s.cap > 0 ==> Sized(s)
    ensures FreeSpace(s) == if s.cap == 0 then 0 else s.cap - 1 - |Queue(s)|
  {
  }

  lemma OnlyPublishFills(s: State, step: Step)
    requires Inv(s) && Enabled(s, step) && !step.Publish? && !step.Reset?
    ensures var s' := Next(s, step);
            s'.cap == s.cap && |s'.fate| <= |s'.accepted| && |Queue(s')| <= |Queue(s)|
  {
    hide ProducerInv, ClearHonoured, RingInv;
    RefinesFifo(s, step);
  }

  /** A producer's free_space() stays a valid lower bound until its own next
      publish, whatever the consumer and any clears do meanwhile. */
  lemma {:induction false} FreeSpaceIsLowerBound(run: seq<State>, steps: seq<Step>, i: nat, j: nat)
    requires IsRun(run, steps) && i <= j < |run|
    requires forall k :: i <= k < j ==> !steps[k].Publish? && !steps[k].Reset?
    ensures run[i].cap > 0 ==> Sized(run[i])
    ensures run[j].cap > 0 ==> Sized(run[j])
    ensures run[j].cap == run[i].cap && FreeSpace(run[i]) <= FreeSpace(run[j])
    decreases j - i
  {
    hide Next, Enabled, ProducerInv, ClearHonoured, RingInv;
    RunKeepsInv(run, steps, i);
    RunKeepsInv(run, steps, j);
    FreeSpaceIs(run[i]);
    FreeSpaceIs(run[j]);
    if i < j {
      FreeSpaceIsLowerBound(run, steps, i, j - 1);
      RunKeepsInv(run, steps, j - 1);
      FreeSpaceIs(run[j - 1]);
      OnlyPublishFills(run[j - 1], steps[j - 1]);
    }
  }

  lemma {:induction false} MarkGrows(run: seq<State>, steps: seq<Step>, i: nat, j: nat)
    requires IsRun(run, steps) && i <= j < |run|
    ensures run[i].mark <= run[j].mark
    decreases j - i
  {
    hide Wrap, Used, Kept, ProducerInv, ClearHonoured;
    if i < j {
      MarkGrows(run, steps, i, j - 1);
      RunKeepsInv(run, steps, j - 1);
    }
  }

  /** A read in progress at `j` that had not begun at `i` knows every clear asked for by `i`. */
  lemma {:induction false} ReadBeganAfter(run: seq<State>, steps: seq<Step>, i: nat, j: nat)
    requires IsRun(run, steps) && i <= j < |run|
    requires run[i].consumer.Idle?
    ensures run[j].consumer != Consumer.Idle ==> run[i].mark <= run[j].consumer.since
    decreases j - i
  {
    hide Wrap, Used, Kept, ProducerInv, ClearHonoured;
    if i < j {
      ReadBeganAfter(run, steps, i, j - 1);
      MarkGrows(run, steps, i, j - 1);
    }
  }

  /** No clear request is lost. Whenever request_clear() lands -- between the
      consumer's test of the flag and its store of false included -- a read that
      begins after it returns no byte that had been accepted before it. */
  lemma ClearIsNeverLost(run: seq<State>, steps: seq<Step>, asked: nat, began: nat, last: nat)
    requires IsRun(run, steps) && asked < began <= last < |steps|
    requires steps[asked].RequestClear? && run[began].consumer.Idle? && steps[last].Release?
    ensures |run[asked].accepted| <= |run[last].fate|
    ensures var s := run[last];
            && |s.fate| + |s.consumer.dest| <= |s.accepted|
            && s.consumer.dest == s.accepted[|s.fate|..|s.fate| + |s.consumer.dest|]
  {
    MarkGrows(run, steps, asked + 1, began);
    ReadBeganAfter(run, steps, began, last);
    RunKeepsInv(run, steps, last);
    var s := run[last];
    assert Queue(s)[..|s.consumer.dest|] == s.accepted[|s.fate|..|s.fate| + |s.consumer.dest|];
  }

  // ------------------------------------------ what a deferred clear takes with it

  lemma {:induction false} HoldsItsLevel(run: seq<State>, steps: seq<Step>, loaded: nat, j: nat)
    requires IsRun(run, steps) && loaded < j < |run| && steps[loaded].LoadWrite?
    requires forall k :: loaded < k < j ==> !steps[k].StoreRead?
    ensures run[j].consumer.HaveWrite? && run[j].consumer.level == |run[loaded].accepted|
    ensures run[j].fate == run[loaded].fate && run[loaded].accepted <= run[j].accepted
    decreases j
  {
    hide Wrap, Used;
    if j > loaded + 1 {
      HoldsItsLevel(run, steps, loaded, j - 1);
    }
  }

  /** A deferred clear drops exactly what had been accepted when the consumer loaded the write
      position to carry it out, whatever of that was accepted after the request; everything
      accepted later stays. */
  lemma ClearDropsToItsLevel(run: seq<State>, steps: seq<Step>, loaded: nat, last: nat)
    requires IsRun(run, steps) && loaded < last < |steps|
    requires steps[loaded].LoadWrite? && steps[last].StoreRead?
    requires forall k :: loaded < k < last ==> !steps[k].StoreRead?
    ensures var s, t := run[loaded], run[last + 1];
            && |s.fate| <= |s.accepted| == |t.fate| <= |t.accepted|
            && t.delivered == s.delivered
            && (forall i :: |s.fate| <= i < |t.accepted| ==> ((i < |t.fate| && !t.fate[i]) <==> i < |s.accepted|))
            && Queue(t) == t.accepted[|s.accepted|..]
  {
    hide Wrap, Used, Kept;
    RunKeepsInv(run, steps, loaded);
    RunKeepsInv(run, steps, last);
    HoldsItsLevel(run, steps, loaded, last);
    DeliveredStays(run, steps, loaded, last);
    hide Inv;
  }

  lemma {:induction false} DeliveredStays(run: seq<State>, steps: seq<Step>, loaded: nat, j: nat)
    requires IsRun(run, steps) && loaded < j < |run| && steps[loaded].LoadWrite?
    requires forall k :: loaded < k < j ==> !steps[k].StoreRead?
    ensures run[j].delivered == run[loaded].delivered
    decreases j
  {
    hide Wrap, Used;
    if j > loaded + 1 {
      HoldsItsLevel(run, steps, loaded, j - 1);
      DeliveredStays(run, steps, loaded, j - 1);
    }
  }

  lemma GoOn(run: seq<State>, steps: seq<Step>, step: Step) returns (run': seq<State>, steps': seq<Step>)
    requires IsRun(run, steps) && Enabled(run[|steps|], step)
    ensures |run'| == |run| + 1 == |steps'| + 1 && steps' == steps + [step]
            && run' == run + [Next(run[|steps|], step)] && IsRun(run', steps')
  {
    hide Next, Enabled, Init;
    steps', run' := steps + [step], run + [Next(run[|steps|], step)];
  }

  /** The request, and a byte written after it. */
  lemma WrittenAfterRequest() returns (run: seq<State>, steps: seq<Step>)
    ensures IsRun(run, steps) && |run| == 6 && |steps| == 5 && steps[1].RequestClear? && run[2].accepted == []
    ensures run[5] == State(4, [7, 0, 0, 0], 1, 0, true, Producer.Idle, Consumer.Idle, [7], [], [], 0)
  {
    hide IsRun;
    run, steps := JustStarted();
    run, steps := GoOn(run, steps, Reset(4));
    assert run[1] == STARTED.(cap := 4, buf := Zeros(4));
    run, steps := GoOn(run, steps, RequestClear);
    run, steps := GoOn(run, steps, Load([7]));
    run, steps := GoOn(run, steps, Store);
    assert Zeros(4)[0 := 7] == [7, 0, 0, 0];
    assert [7][..1] == [7];
    run, steps := GoOn(run, steps, Publish);
  }

  lemma JustStarted() returns (run: seq<State>, steps: seq<Step>)
    ensures IsRun(run, steps) && run == [STARTED] && steps == []
  {
    run, steps := [STARTED], [];
  }

  /** So a byte written after request_clear() can be lost to it: here one is. */
  lemma LaterByteIsDropped() returns (run: seq<State>, steps: seq<Step>)
    ensures IsRun(run, steps) && |steps| == 9
    ensures steps[1].RequestClear? && run[2].accepted == []
    ensures run[9].accepted == [7] && run[9].fate == [false] && run[9].delivered == []
  {
    hide IsRun;
    run, steps := WrittenAfterRequest();
    run, steps := GoOn(run, steps, Test(1));
    run, steps := GoOn(run, steps, LowerFlag);
    run, steps := GoOn(run, steps, LoadWrite);
    run, steps := GoOn(run, steps, StoreRead);
  }
}
