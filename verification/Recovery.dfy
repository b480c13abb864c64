/** Getting a dead output back: src/sink_recovery.cpp.

    `Recovery` is the value the class holds; `Apply` is what one call does to it.
    The theorems are about any sequence of calls whatsoever.
 */
module Recovery {
  import opened Arith
  import opened Machine

  const SINK_RESCAN_DELAY_MS := 2000
  const SINK_RESCAN_MAX_DELAY_MS := 30000
  const SINK_RESCAN_ATTEMPTS := 5
  const NOT_STAMPED := -TWO_63

  datatype Recovery = Recovery(
    reopenSpent: bool, rescanSpent: bool, rescanInFlight: bool,
    rescanAttempts: nat, rescanOwed: bool, rescanAt: int)

  const FRESH := Recovery(false, false, false, 0, false, NOT_STAMPED)

  datatype Op =
    | ReopenDue
    | ReopenDone(recovered: bool)
    | RescanDue(now: int)
    | RescanDone(recovered: bool)
    | Reset

  /** A clock reading that leaves room for the longest delay in an int64. */
  predicate ClockRange(now: int) {
    -TWO_63 <= now < TWO_63 - SINK_RESCAN_MAX_DELAY_MS
  }

  predicate InRange(op: Op) {
    op.RescanDue? ==> ClockRange(op.now)
  }

  /** min(2000 * 2^k, 30000). */
  function Delay(k: nat): (d: nat)
    ensures SINK_RESCAN_DELAY_MS <= d <= SINK_RESCAN_MAX_DELAY_MS
  {
    Min(SINK_RESCAN_DELAY_MS * Pow2(k), SINK_RESCAN_MAX_DELAY_MS)
  }

  function Escalate(r: Recovery): Recovery {
    if !r.rescanSpent && !r.rescanInFlight then r.(rescanOwed := true) else r
  }

  /** Whether the call answers "yes, try now". */
  predicate Grants(r: Recovery, op: Op) {
    match op
    case ReopenDue => !r.reopenSpent
    case RescanDue(now) => r.rescanOwed && r.rescanAt != NOT_STAMPED && now >= r.rescanAt
    case _ => false
  }

  function Apply(r: Recovery, op: Op): Recovery {
    match op
    case ReopenDue => if r.reopenSpent then Escalate(r) else r.(reopenSpent := true)
    case ReopenDone(recovered) => if recovered then r else Escalate(r)
    case RescanDue(now) =>
      if !r.rescanOwed then r
      else if r.rescanAt == NOT_STAMPED then r.(rescanAt := now + Delay(r.rescanAttempts))
      else if now < r.rescanAt then r
      else r.(rescanAttempts := r.rescanAttempts + 1, rescanInFlight := true, rescanOwed := false)
    case RescanDone(recovered) =>
      if !r.rescanInFlight then r
      else if recovered || r.rescanAttempts >= SINK_RESCAN_ATTEMPTS then
        r.(rescanInFlight := false, rescanSpent := true, rescanOwed := false)
      else r.(rescanInFlight := false, rescanAt := NOT_STAMPED, rescanOwed := true)
    case Reset => FRESH
  }

  /** The class, field by field as the source updates it. */
  class SinkRecovery {
    var reopenSpent: bool
    var rescanSpent: bool
    var rescanInFlight: bool
    var rescanAttempts: nat
    var rescanOwed: bool
    var rescanAt: int

    ghost function View(): Recovery
      reads this
    {
      Recovery(reopenSpent, rescanSpent, rescanInFlight, rescanAttempts, rescanOwed, rescanAt)
    }

    constructor ()
      ensures View() == FRESH
    {
      reopenSpent, rescanSpent, rescanInFlight := false, false, false;
      rescanAttempts, rescanOwed, rescanAt := 0, false, NOT_STAMPED;
    }

    method EscalateRescan()
      modifies this
      ensures View() == Escalate(old(View()))
    {
      if !rescanSpent && !rescanInFlight {
        rescanOwed := true;
      }
    }

    method ReopenDue() returns (due: bool)
      modifies this
      ensures View() == Apply(old(View()), Op.ReopenDue) && due == Grants(old(View()), Op.ReopenDue)
    {
      if reopenSpent {
        EscalateRescan();
        return false;
      }
      reopenSpent := true;
      due := true;
    }

    method ReopenDone(recovered: bool)
      modifies this
      ensures View() == Apply(old(View()), Op.ReopenDone(recovered))
    {
      if !recovered {
        EscalateRescan();
      }
    }

    method RescanDue(now: int) returns (due: bool)
      requires ClockRange(now)
      modifies this
      ensures View() == Apply(old(View()), Op.RescanDue(now)) && due == Grants(old(View()), Op.RescanDue(now))
    {
      due := false;
      if !rescanOwed {
        return;
      }
      if rescanAt == NOT_STAMPED {
        var delay := DelayFor(rescanAttempts);
        rescanAt := now + delay;
        return;
      }
      if now < rescanAt {
        return;
      }
      rescanAttempts := rescanAttempts + 1;
      rescanInFlight := true;
      rescanOwed := false;
      due := true;
    }

    method RescanDone(recovered: bool)
      modifies this
      ensures View() == Apply(old(View()), Op.RescanDone(recovered))
    {
      if !rescanInFlight {
        return;
      }
      rescanInFlight := false;
      if recovered || rescanAttempts >= SINK_RESCAN_ATTEMPTS {
        rescanSpent, rescanOwed := true, false;
        return;
      }
      rescanAt, rescanOwed := NOT_STAMPED, true;
    }

    method Reset()
      modifies this
      ensures View() == FRESH
    {
      reopenSpent, rescanSpent, rescanInFlight := false, false, false;
      rescanAttempts, rescanOwed, rescanAt := 0, false, NOT_STAMPED;
    }

    /** delay_for_(): repeated doubling that stops at the ceiling. */
    static method DelayFor(attempts: nat) returns (delay: nat)
      ensures delay == Delay(attempts)
    {
      delay := SINK_RESCAN_DELAY_MS;
      var i := 0;
      while i < attempts && delay < SINK_RESCAN_MAX_DELAY_MS
        invariant 0 <= i <= attempts && delay == SINK_RESCAN_DELAY_MS * Pow2(i)
      {
        delay := delay * 2;
        i := i + 1;
      }
      Pow2Grows(i, attempts);
      delay := if delay < SINK_RESCAN_MAX_DELAY_MS then delay else SINK_RESCAN_MAX_DELAY_MS;
    }
  }

  // --------------------------------------------------- any order of calls

  /** The state after a sequence of calls on a fresh object. */
  function After(ops: seq<Op>): Recovery {
    if ops == [] then FRESH else Apply(After(ops[..|ops| - 1]), ops[|ops| - 1])
  }

  function GrantCount(r: Recovery, ops: seq<Op>, reopens: bool): nat
    decreases |ops|
  {
    if ops == [] then 0
    else
      (if Grants(r, ops[0]) && ops[0].ReopenDue? == reopens then 1 else 0)
      + GrantCount(Apply(r, ops[0]), ops[1..], reopens)
  }

  /** Nothing is owed while an attempt is in flight or once the budget is spent;
      an attempt not owed has no stale deadline to fire on. */
  predicate Inv(r: Recovery) {
    && !(r.rescanOwed && r.rescanInFlight)
    && !(r.rescanOwed && r.rescanSpent)
    && !(r.rescanInFlight && r.rescanSpent)
    && r.rescanAttempts <= SINK_RESCAN_ATTEMPTS
    && (r.rescanOwed ==> r.rescanAttempts < SINK_RESCAN_ATTEMPTS)
    && (!r.rescanOwed && !r.rescanInFlight && !r.rescanSpent ==> r.rescanAt == NOT_STAMPED && r.rescanAttempts == 0)
  }

  lemma ApplyKeepsInv(r: Recovery, op: Op)
    requires Inv(r)
    ensures Inv(Apply(r, op))
  {
  }

  lemma {:induction false} AfterInv(ops: seq<Op>)
    ensures Inv(After(ops))
  {
    if ops != [] {
      AfterInv(ops[..|ops| - 1]);
    }
  }

  lemma {:induction false} BudgetLeft(r: Recovery, ops: seq<Op>)
    requires Inv(r) && Reset !in ops
    ensures GrantCount(r, ops, true) <= if r.reopenSpent then 0 else 1
    ensures GrantCount(r, ops, false) <= SINK_RESCAN_ATTEMPTS - r.rescanAttempts
    ensures r.rescanInFlight && (forall op :: op in ops ==> !op.RescanDone?) ==> GrantCount(r, ops, false) == 0
    ensures r.rescanSpent ==> GrantCount(r, ops, false) == 0
    decreases |ops|
  {
    if ops != [] {
      ApplyKeepsInv(r, ops[0]);
      BudgetLeft(Apply(r, ops[0]), ops[1..]);
    }
  }

  /** Between resets, whatever the order of calls: at most one reopen and at most
      five rescans are granted, and a caller that never reports gets at most one rescan. */
  lemma BudgetHolds(before: seq<Op>, ops: seq<Op>)
    requires Reset !in ops
    requires before == [] || before[|before| - 1].Reset?
    ensures GrantCount(After(before), ops, true) <= 1
    ensures GrantCount(After(before), ops, false) <= SINK_RESCAN_ATTEMPTS
    ensures (forall op :: op in ops ==> !op.RescanDone?) ==> GrantCount(After(before), ops, false) <= 1
  {
    assert After(before) == FRESH;
    BudgetLeft(FRESH, ops);
    if forall op :: op in ops ==> !op.RescanDone? {
      UnreportedIsOneShot(FRESH, ops);
    }
  }

  lemma {:induction false} UnreportedIsOneShot(r: Recovery, ops: seq<Op>)
    requires Inv(r) && Reset !in ops && forall op :: op in ops ==> !op.RescanDone?
    ensures GrantCount(r, ops, false) <= 1
    decreases |ops|
  {
    if ops != [] {
      ApplyKeepsInv(r, ops[0]);
      UnreportedIsOneShot(Apply(r, ops[0]), ops[1..]);
      BudgetLeft(Apply(r, ops[0]), ops[1..]);
    }
  }

  /** The k-th call's answer, given the calls before it. */
  predicate GrantedAt(ops: seq<Op>, k: nat)
    requires k < |ops|
  {
    Grants(After(ops[..k]), ops[k])
  }

  /** Call `i` is the refused tick that stamped the deadline still standing after
      `ops`, and nothing has been granted or reset since. */
  ghost predicate StampedBy(ops: seq<Op>, i: nat) {
    && i < |ops| && ops[i].RescanDue? && !GrantedAt(ops, i)
    && After(ops).rescanAt == ops[i].now + Delay(After(ops).rescanAttempts)
    && forall k :: i < k < |ops| ==> !ops[k].Reset? && !(ops[k].RescanDue? && GrantedAt(ops, k))
  }

  lemma {:induction false} DeadlineHasStamp(ops: seq<Op>) returns (i: nat)
    requires forall k :: 0 <= k < |ops| ==> InRange(ops[k])
    requires After(ops).rescanOwed && After(ops).rescanAt != NOT_STAMPED
    ensures StampedBy(ops, i)
  {
    var n := |ops| - 1;
    var prev, op := ops[..n], ops[n];
    AfterInv(prev);
    assert forall k :: 0 <= k < n ==> ops[..k] == prev[..k];
    if op.RescanDue? && After(prev).rescanAt == NOT_STAMPED {
      i := n;
    } else {
      i := DeadlineHasStamp(prev);
      assert forall k :: i < k < n ==> !ops[k].Reset? && !(ops[k].RescanDue? && GrantedAt(prev, k));
    }
  }

  /** Every granted rescan waited: some earlier tick stamped it, and it fires at
      least min(2000 * 2^k, 30000) ms after that tick, k being the attempts already made. */
  lemma RescanWaits(ops: seq<Op>, j: nat) returns (i: nat)
    requires forall k :: 0 <= k < |ops| ==> InRange(ops[k])
    requires j < |ops| && ops[j].RescanDue? && GrantedAt(ops, j)
    ensures i < j && StampedBy(ops[..j], i)
    ensures ops[j].now >= ops[i].now + Delay(After(ops[..j]).rescanAttempts)
  {
    i := DeadlineHasStamp(ops[..j]);
  }

  ghost predicate ClockMonotone(ops: seq<Op>) {
    forall a, b :: 0 <= a < b < |ops| && ops[a].RescanDue? && ops[b].RescanDue? ==> ops[a].now <= ops[b].now
  }

  /** However often streams start and reset the budget, rescans are floored 2000 ms apart. */
  lemma RescansAreSpacedAcrossStreams(ops: seq<Op>, a: nat, b: nat)
    requires forall k :: 0 <= k < |ops| ==> InRange(ops[k])
    requires ClockMonotone(ops)
    requires a < b < |ops| && ops[a].RescanDue? && ops[b].RescanDue? && GrantedAt(ops, a) && GrantedAt(ops, b)
    ensures ops[b].now >= ops[a].now + SINK_RESCAN_DELAY_MS
  {
    var i := RescanWaits(ops, b);
    assert forall k :: 0 <= k < b ==> ops[..b][..k] == ops[..k];
    assert GrantedAt(ops[..b], a);
    assert ops[..b][a] == ops[a];
    assert a < i;
  }

  // ---------------------------------------------- when a rescan is owed, and given

  /** How the last rescan granted came out, as far as has been reported. */
  datatype LastRescan = NoneYet | Unreported | Recovered | Failed

  function LastOf(ops: seq<Op>): LastRescan
    decreases |ops|
  {
    if ops == [] then NoneYet
    else
      var n := |ops| - 1;
      var before := LastOf(ops[..n]);
      match ops[n]
      case RescanDue(_) => if GrantedAt(ops, n) then Unreported else before
      case RescanDone(recovered) =>
        if before != Unreported then before else if recovered then Recovered else Failed
      case Reset => NoneYet
      case _ => before
  }

  /** Rescans granted since the last reset. */
  function RescansOf(ops: seq<Op>): nat
    decreases |ops|
  {
    if ops == [] then 0
    else
      var n := |ops| - 1;
      if ops[n].Reset? then 0 else RescansOf(ops[..n]) + if ops[n].RescanDue? && GrantedAt(ops, n) then 1 else 0
  }

  /** Since the last reset the cheap attempt has failed, or was asked for again. */
  ghost predicate CheapOneGone(ops: seq<Op>) {
    exists k :: 0 <= k < |ops| && NoReset(ops, k) &&
      (ops[k] == ReopenDone(false)
       || (ops[k].ReopenDue? && exists j :: 0 <= j < k && ops[j].ReopenDue? && NoReset(ops, j)))
  }

  predicate NoReset(ops: seq<Op>, from: nat) {
    forall k :: from <= k < |ops| ==> !ops[k].Reset?
  }

  ghost predicate AskedOnce(ops: seq<Op>) {
    exists j :: 0 <= j < |ops| && ops[j].ReopenDue? && NoReset(ops, j)
  }

  lemma NoResetOn(ops: seq<Op>, op: Op, k: nat)
    requires k <= |ops|
    ensures NoReset(ops + [op], k) <==> NoReset(ops, k) && !op.Reset?
  {
    var longer := ops + [op];
    assert longer[|ops|] == op && forall j :: 0 <= j < |ops| ==> longer[j] == ops[j];
  }

  lemma AskedOnceMore(ops: seq<Op>, op: Op)
    ensures AskedOnce(ops + [op]) <==> !op.Reset? && (AskedOnce(ops) || op.ReopenDue?)
  {
    var longer := ops + [op];
    assert longer[|ops|] == op;
    forall k: nat | k <= |ops| ensures NoReset(longer, k) <==> NoReset(ops, k) && !op.Reset? {
      NoResetOn(ops, op, k);
    }
    hide NoReset;
    if AskedOnce(ops) && !op.Reset? {
      var j :| 0 <= j < |ops| && ops[j].ReopenDue? && NoReset(ops, j);
      assert longer[j] == ops[j];
    }
    if op.ReopenDue? {
      assert NoReset(ops, |ops|) by { NothingLeft(ops); }
    }
  }

  lemma NothingLeft(ops: seq<Op>)
    ensures NoReset(ops, |ops|)
  {
  }

  lemma CheapOneGoneMore(ops: seq<Op>, op: Op)
    ensures CheapOneGone(ops + [op]) <==>
              !op.Reset? && (CheapOneGone(ops) || op == ReopenDone(false) || (op.ReopenDue? && AskedOnce(ops)))
  {
    var longer := ops + [op];
    assert longer[|ops|] == op;
    forall k: nat | k <= |ops| ensures NoReset(longer, k) <==> NoReset(ops, k) && !op.Reset? {
      NoResetOn(ops, op, k);
    }
    NothingLeft(ops);
    hide NoReset;
    assert forall j :: 0 <= j < |ops| ==> longer[j] == ops[j];
  }

  /** A rescan is owed exactly when the cheap attempt is gone and none has been tried, or when the
      last one tried was reported to have failed and fewer than five have been. */
  lemma {:induction false} RescanOwedIff(ops: seq<Op>)
    ensures After(ops).rescanOwed <==>
              match LastOf(ops)
              case NoneYet => CheapOneGone(ops)
              case Failed => RescansOf(ops) < SINK_RESCAN_ATTEMPTS
              case _ => false
    ensures After(ops).rescanInFlight <==> LastOf(ops).Unreported?
    ensures After(ops).rescanAttempts == RescansOf(ops)
    ensures After(ops).reopenSpent <==> AskedOnce(ops)
    ensures LastOf(ops).NoneYet? <==> RescansOf(ops) == 0
    ensures After(ops).rescanSpent <==>
              LastOf(ops).Recovered? || (LastOf(ops).Failed? && RescansOf(ops) >= SINK_RESCAN_ATTEMPTS)
    decreases |ops|
  {
    hide AskedOnce, CheapOneGone;
    if ops == [] {
      NothingAsked();
    } else {
      var n := |ops| - 1;
      RescanOwedIff(ops[..n]);
      AfterInv(ops[..n]);
      AskedOnceMore(ops[..n], ops[n]);
      CheapOneGoneMore(ops[..n], ops[n]);
      assert ops == ops[..n] + [ops[n]];
      hide Delay;
    }
  }

  lemma NothingAsked()
    ensures !AskedOnce([]) && !CheapOneGone([])
  {
  }

  /** While nothing is granted or reset, what is owed stays owed, and its deadline is no later than
      one stamped at `i` would be. */
  lemma {:induction false} StaysOwed(ops: seq<Op>, i: nat)
    requires forall k :: 0 <= k < |ops| ==> InRange(ops[k])
    requires i < |ops| && ops[i].RescanDue? && After(ops[..i]).rescanOwed && ClockMonotone(ops)
    requires forall k :: i <= k < |ops| ==> !ops[k].Reset? && !(ops[k].RescanDue? && GrantedAt(ops, k))
    ensures var r := After(ops);
            && r.rescanOwed && r.rescanAttempts == After(ops[..i]).rescanAttempts
            && NOT_STAMPED != r.rescanAt <= ops[i].now + Delay(r.rescanAttempts)
    decreases |ops|
  {
    hide Apply, Grants, Delay, Inv;
    var n := |ops| - 1;
    var front := ops[..n];
    AfterInv(front);
    assert GrantedAt(ops, n) <==> Grants(After(front), ops[n]);
    if i == n {
      DeadlineIsNoLater(front, ops[n].now) by {
        assert forall k :: 0 <= k < n ==> front[k] == ops[k];
      }
      FirstTickStamps(After(front), ops[n]);
    } else {
      assert front[..i] == ops[..i];
      assert forall k :: 0 <= k < n ==> front[..k] == ops[..k];
      StaysOwed(front, i);
      OwedStep(After(front), ops[n]);
    }
  }

  lemma DeadlineIsNoLater(ops: seq<Op>, now: int)
    requires forall k :: 0 <= k < |ops| ==> InRange(ops[k])
    requires forall k :: 0 <= k < |ops| && ops[k].RescanDue? ==> ops[k].now <= now
    requires After(ops).rescanOwed
    ensures After(ops).rescanAt != NOT_STAMPED ==> After(ops).rescanAt <= now + Delay(After(ops).rescanAttempts)
  {
    hide Delay, After;
    if After(ops).rescanAt != NOT_STAMPED {
      var j := DeadlineHasStamp(ops);
    }
  }

  lemma FirstTickStamps(r: Recovery, op: Op)
    requires op.RescanDue? && InRange(op) && r.rescanOwed && !Grants(r, op)
    ensures var q := Apply(r, op);
            && q.rescanOwed && q.rescanAttempts == r.rescanAttempts && q.rescanAt != NOT_STAMPED
            && q.rescanAt == if r.rescanAt == NOT_STAMPED then op.now + Delay(r.rescanAttempts) else r.rescanAt
  {
    hide Delay;
  }

  lemma OwedStep(r: Recovery, op: Op)
    requires Inv(r) && r.rescanOwed && r.rescanAt != NOT_STAMPED && !op.Reset? && (op.RescanDue? ==> !Grants(r, op))
    ensures var q := Apply(r, op);
            q.rescanOwed && q.rescanAttempts == r.rescanAttempts && q.rescanAt == r.rescanAt
  {
    hide Delay;
  }

  /** What is owed is given: of two ticks that far apart, some tick from the first to the second
      is granted, unless a reset comes between. */
  lemma OwedIsGrantedInTime(ops: seq<Op>, i: nat, j: nat) returns (k: nat)
    requires forall k :: 0 <= k < |ops| ==> InRange(ops[k])
    requires i < j < |ops| && ops[i].RescanDue? && ops[j].RescanDue? && ClockMonotone(ops)
    requires After(ops[..i]).rescanOwed && forall k :: i <= k < j ==> !ops[k].Reset?
    requires ops[j].now >= ops[i].now + Delay(After(ops[..i]).rescanAttempts)
    ensures i <= k <= j && ops[k].RescanDue? && GrantedAt(ops, k)
  {
    if k' :| i <= k' < j && ops[k'].RescanDue? && GrantedAt(ops, k') {
      return k';
    }
    var front := ops[..j];
    assert front[..i] == ops[..i];
    assert forall k :: 0 <= k < j ==> front[..k] == ops[..k] && front[k] == ops[k];
    StaysOwed(front, i);
    k := j;
  }
}
