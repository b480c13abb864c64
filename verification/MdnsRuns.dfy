/** Whole runs of the candidate machine: advertise(), browse(), poll() and stop() of
    src/mdns_dnssd.cpp in any order, with every callback order dns_sd may choose. */
module MdnsRuns {
  import opened Outbound
  import opened Mdns

  /** One readable descriptor of the snapshot: the replies DNSServiceProcessResult() hands
      over for it, and whether it then reports a failure. */
  datatype Visit = Visit(ref: nat, replies: seq<Reply>, failed: bool)

  datatype Op =
    | Advertise(fails: bool)
    | Browse(fails: bool)
    | Poll(now: int, registerFails: bool, browseFails: bool, visits: seq<Visit>, names: seq<string>)
    | Stop

  /** dns_sd calls the callback the ref was made with; any other reply is not one it makes. */
  function Step(s: State, ref: nat, e: Reply): State {
    if ref in s.live && Fits(s.live[ref], e) then Deliver(s, ref, e) else s
  }

  function Replies(s: State, ref: nat, replies: seq<Reply>): State
    decreases |replies|
  {
    if replies == [] then s else Replies(Step(s, ref, replies[0]), ref, replies[1..])
  }

  /** is_live(): still in one of our slots, and so not retired or torn down meanwhile. */
  predicate IsLive(s: State, r: nat) {
    && r != NULL
    && (r == s.registerRef || r == s.browseRef || exists i :: i in s.candidates && r in SlotRefs(s.candidates[i]))
  }

  function Fail(s: State): State {
    ScheduleRestart(Teardown(s))
  }

  /** The loop over the snapshot. No ref is deallocated inside it except by the failure that
      ends it, so a ref number in the snapshot means the same ref throughout. */
  function Pump(s: State, visits: seq<Visit>): State
    decreases |visits|
  {
    if visits == [] then s
    else if !IsLive(s, visits[0].ref) then Pump(s, visits[1..])
    else
      var s1 := Replies(s, visits[0].ref, visits[0].replies);
      if visits[0].failed then Fail(s1) else Pump(s1, visits[1..])
  }

  /** Anything asked for but not running is owed a retry, whichever way it stopped. */
  predicate Missing(s: State) {
    (s.advertiseWanted && s.registerRef == NULL) || (s.browseWanted && s.browseRef == NULL)
  }

  function NoteMissing(s: State, now: int): State {
    if Missing(s) && s.restartAt < 0 then ScheduleRestart(s.(now := now)) else s.(now := now)
  }

  function RestartIfDue(s: State, registerFails: bool, browseFails: bool): State {
    if s.restartAt >= 0 && s.now >= s.restartAt then Restart(s.(restartAt := -1), registerFails, browseFails) else s
  }

  function BeginPoll(s: State, now: int, registerFails: bool, browseFails: bool): State {
    RestartIfDue(NoteMissing(s, now), registerFails, browseFails)
  }

  function EndPoll(s: State, names: seq<string>): State {
    var drained := Drain(s);
    Settle(Purge(drained, drained.doomed), names)
  }

  function Apply(s: State, op: Op): State {
    match op
    case Advertise(fails) => StartRegister(s.(advertiseWanted := true), fails)
    case Browse(fails) => StartBrowse(s.(browseWanted := true), fails)
    case Poll(now, registerFails, browseFails, visits, names) =>
      EndPoll(Pump(BeginPoll(s, now, registerFails, browseFails), visits), names)
    case Stop => Teardown(s.(advertiseWanted := false, browseWanted := false, restartAt := -1))
  }

  /** What the caller owes: a steady clock, and no second advertise() or browse() over a live one. */
  predicate Allowed(s: State, op: Op) {
    match op
    case Advertise(_) => s.registerRef == NULL
    case Browse(_) => s.browseRef == NULL
    case Poll(now, _, _, _, _) => now >= s.now
    case Stop => true
  }

  function Run(s: State, ops: seq<Op>): State
    decreases |ops|
  {
    if ops == [] then s else Run(Apply(s, ops[0]), ops[1..])
  }

  predicate AllAllowed(s: State, ops: seq<Op>)
    decreases |ops|
  {
    ops == [] || (Allowed(s, ops[0]) && AllAllowed(Apply(s, ops[0]), ops[1..]))
  }

  // ------------------------------------------------------ every step keeps Inv

  lemma StepKeepsOwnership(s: State, ref: nat, e: Reply)
    requires Ownership(s)
    ensures Ownership(Step(s, ref, e))
  {
    hide Ownership, SameRefs, OnBrowse, OnResolve, OnAnswer;
    if ref in s.live && Fits(s.live[ref], e) {
      match s.live[ref]
      case Registering => SameRefsAfterAttempt(s);
      case Browsing =>
        if e.instance in s.candidates {
          HearKeepsOwnership(s, e);
        } else {
          DiscoverKeepsOwnership(s, e);
        }
      case Resolving(ctx, i) => ResolveKeepsOwnership(s, ref, ctx, i, e);
      case Querying(_, i, _) => AnswerKeepsOwnership(s, i, e);
    }
  }

  lemma SameRefsAfterAttempt(s: State)
    requires Ownership(s)
    ensures Ownership(s.(restartAttempt := 0))
  {
    SameRefsSameOwnership(s, s.(restartAttempt := 0));
  }

  lemma StepKeepsCandidates(s: State, ref: nat, e: Reply)
    requires Candidates(s)
    ensures Candidates(Step(s, ref, e))
  {
    hide Candidates, OnBrowse, OnResolve, OnAnswer;
    if ref in s.live && Fits(s.live[ref], e) {
      match s.live[ref]
      case Registering => SameKeepsCandidates(s, Step(s, ref, e));
      case Browsing => BrowsedKeepsCandidates(s, e);
      case Resolving(ctx, i) => ResolveKeepsCandidates(s, ref, ctx, i, e);
      case Querying(_, i, _) => AnswerKeepsCandidates(s, i, e);
    }
  }

  lemma {:induction false} RepliesKeepInv(s: State, ref: nat, replies: seq<Reply>)
    requires Inv(s)
    ensures Inv(Replies(s, ref, replies))
    decreases |replies|
  {
    hide Ownership, Candidates, Step;
    if replies != [] {
      StepKeepsOwnership(s, ref, replies[0]);
      StepKeepsCandidates(s, ref, replies[0]);
      RepliesKeepInv(Step(s, ref, replies[0]), ref, replies[1..]);
    }
  }

  lemma RescheduledKeepsOwnership(s: State, restartAt: int, attempt: nat, now: int, advertise: bool, browse: bool)
    requires Ownership(s)
    ensures Ownership(s.(restartAt := restartAt, restartAttempt := attempt, now := now, advertiseWanted := advertise,
            browseWanted := browse))
  {
    SameRefsSameOwnership(s, s.(restartAt := restartAt, restartAttempt := attempt, now := now,
        advertiseWanted := advertise, browseWanted := browse));
  }

  lemma TeardownKeepsInv(s: State)
    requires Inv(s)
    ensures Quiet(Teardown(s))
  {
    TeardownKeepsOwnership(s);
  }

  lemma FailKeepsInv(s: State)
    requires Inv(s)
    ensures Quiet(Fail(s))
  {
    TeardownKeepsInv(s);
    var t, f := Teardown(s), Fail(s);
    hide Ownership, Candidates, Teardown, Backoff;
    RescheduledKeepsOwnership(t, f.restartAt, f.restartAttempt, t.now, t.advertiseWanted, t.browseWanted);
    SameKeepsCandidates(t, f);
  }

  lemma {:induction false} PumpKeepsInv(s: State, visits: seq<Visit>)
    requires Inv(s)
    ensures Inv(Pump(s, visits))
    decreases |visits|
  {
    hide Ownership, Candidates, IsLive, Fail, Replies;
    if visits != [] {
      if IsLive(s, visits[0].ref) {
        RepliesKeepInv(s, visits[0].ref, visits[0].replies);
        var s1 := Replies(s, visits[0].ref, visits[0].replies);
        if visits[0].failed {
          FailKeepsInv(s1);
        } else {
          PumpKeepsInv(s1, visits[1..]);
        }
      } else {
        PumpKeepsInv(s, visits[1..]);
      }
    }
  }

  lemma RestartKeepsOwnership(s: State, registerFails: bool, browseFails: bool)
    requires Ownership(s)
    ensures Ownership(Restart(s, registerFails, browseFails))
  {
    hide Ownership;
    var s1 := s;
    if s.advertiseWanted && s.registerRef == NULL {
      RegisterKeepsOwnership(s, registerFails);
      s1 := StartRegister(s, registerFails);
    }
    if s1.browseWanted && s1.browseRef == NULL {
      BrowseKeepsOwnership(s1, browseFails);
    }
  }

  lemma NoteMissingKeepsInv(s: State, now: int)
    requires Inv(s) && now >= s.now
    ensures Inv(NoteMissing(s, now))
  {
    hide Ownership, Candidates, Backoff;
    var s' := NoteMissing(s, now);
    SameKeepsCandidates(s, s');
    RescheduledKeepsOwnership(s, s'.restartAt, s'.restartAttempt, now, s.advertiseWanted, s.browseWanted);
  }

  lemma RestartKeepsInv(s: State, registerFails: bool, browseFails: bool)
    requires Inv(s)
    ensures Inv(RestartIfDue(s, registerFails, browseFails))
  {
    hide Ownership, Candidates;
    var s1 := s.(restartAt := -1);
    SameKeepsCandidates(s, RestartIfDue(s, registerFails, browseFails));
    RescheduledKeepsOwnership(s, -1, s.restartAttempt, s.now, s.advertiseWanted, s.browseWanted);
    RestartKeepsOwnership(s1, registerFails, browseFails);
  }

  lemma BeginKeepsInv(s: State, now: int, registerFails: bool, browseFails: bool)
    requires Inv(s) && now >= s.now
    ensures Inv(BeginPoll(s, now, registerFails, browseFails))
  {
    hide Inv, NoteMissing, RestartIfDue;
    NoteMissingKeepsInv(s, now);
    RestartKeepsInv(NoteMissing(s, now), registerFails, browseFails);
  }

  /** The candidates that have departed are all among `names`. */
  ghost predicate DepartedAmong(s: State, names: seq<string>) {
    forall i :: i in s.candidates && Departed(s.candidates[i]) ==> i in names
  }

  lemma {:induction false} PurgeKeepsInv(s: State, names: seq<string>)
    requires Inv(s) && s.retired == [] && DepartedAmong(s, names)
    ensures Quiet(Purge(s, names))
    decreases |names|
  {
    hide Ownership, Forget;
    if names == [] {
      var s' := s.(doomed := []);
      NothingDoomed(s);
    } else if names[0] in s.candidates && !Departed(s.candidates[names[0]]) {
      NextAmong(s, names);
      PurgeKeepsInv(s, names[1..]);
    } else {
      ForgetKeepsOwnership(s, names[0]);
      ForgetKeepsCandidates(s, names[0]);
      ForgottenAmong(s, names);
      PurgeKeepsInv(Forget(s, names[0]), names[1..]);
    }
  }

  lemma NothingDoomed(s: State)
    requires Inv(s) && DepartedAmong(s, [])
    ensures Inv(s.(doomed := []))
  {
    SameRefsSameOwnership(s, s.(doomed := []));
  }

  lemma NextAmong(s: State, names: seq<string>)
    requires names != [] && DepartedAmong(s, names) && names[0] in s.candidates && !Departed(s.candidates[names[0]])
    ensures DepartedAmong(s, names[1..])
  {
  }

  lemma ForgottenAmong(s: State, names: seq<string>)
    requires names != [] && DepartedAmong(s, names)
    ensures DepartedAmong(Forget(s, names[0]), names[1..]) && Forget(s, names[0]).retired == s.retired
  {
  }

  lemma {:induction false} SettleAllKeepsInv(s: State, names: seq<string>)
    requires Quiet(s)
    ensures Quiet(Settle(s, names))
    decreases |names|
  {
    hide Ownership, Candidates, Due;
    if names != [] {
      SettleKeepsOwnership(s, names[0]);
      SettleKeepsCandidates(s, names[0]);
      SettleAllKeepsInv(SettleOne(s, names[0]), names[1..]);
    }
  }

  lemma EndPollIsQuiet(s: State, names: seq<string>)
    requires Inv(s)
    ensures Quiet(EndPoll(s, names))
  {
    hide Ownership, Purge, Settle;
    var drained := Drain(s);
    DrainKeepsOwnership(s);
    SameKeepsCandidates(s, drained);
    PurgeKeepsInv(drained, drained.doomed);
    SettleAllKeepsInv(Purge(drained, drained.doomed), names);
  }

  lemma ApplyKeepsQuiet(s: State, op: Op)
    requires Quiet(s) && Allowed(s, op)
    ensures Quiet(Apply(s, op))
  {
    hide Ownership, Candidates, BeginPoll, Pump, EndPoll, Teardown;
    match op
    case Advertise(fails) =>
      var s1 := s.(advertiseWanted := true);
      RescheduledKeepsOwnership(s, s.restartAt, s.restartAttempt, s.now, true, s.browseWanted);
      RegisterKeepsOwnership(s1, fails);
      SameKeepsCandidates(s, Apply(s, op));
    case Browse(fails) =>
      var s1 := s.(browseWanted := true);
      RescheduledKeepsOwnership(s, s.restartAt, s.restartAttempt, s.now, s.advertiseWanted, true);
      BrowseKeepsOwnership(s1, fails);
      SameKeepsCandidates(s, Apply(s, op));
    case Poll(now, registerFails, browseFails, visits, names) =>
      BeginKeepsInv(s, now, registerFails, browseFails);
      var s1 := BeginPoll(s, now, registerFails, browseFails);
      PumpKeepsInv(s1, visits);
      EndPollIsQuiet(Pump(s1, visits), names);
    case Stop =>
      RescheduledKeepsOwnership(s, -1, s.restartAttempt, s.now, false, false);
      var s1 := s.(advertiseWanted := false, browseWanted := false, restartAt := -1);
      SameKeepsCandidates(s, s1);
      TeardownKeepsInv(s1);
  }

  /** Every run of the service, from start-up or from any quiet state. */
  lemma {:induction false} RunKeepsQuiet(s: State, ops: seq<Op>)
    requires Quiet(s) && AllAllowed(s, ops)
    ensures Quiet(Run(s, ops))
    decreases |ops|
  {
    hide Quiet, Apply;
    if ops != [] {
      ApplyKeepsQuiet(s, ops[0]);
      RunKeepsQuiet(Apply(s, ops[0]), ops[1..]);
    }
  }

  lemma StartsQuiet()
    ensures Quiet(STOPPED)
  {
  }

  // ------------------------------------------------------------- the theorems

  datatype Place =
    | RegisterSlot
    | BrowseSlot
    | ResolveSlot(i: string)
    | V4Slot(i: string)
    | V6Slot(i: string)
    | RetiredAt(k: nat)

  predicate Holds(s: State, p: Place, r: nat) {
    match p
    case RegisterSlot => s.registerRef == r
    case BrowseSlot => s.browseRef == r
    case ResolveSlot(i) => i in s.candidates && s.candidates[i].resolveRef == r
    case V4Slot(i) => i in s.candidates && s.candidates[i].v4Ref == r
    case V6Slot(i) => i in s.candidates && s.candidates[i].v6Ref == r
    case RetiredAt(k) => k < |s.retired| && s.retired[k] == r
  }

  /** Where a live ref is, told by what it was made for. */
  lemma LiveRefHasPlace(s: State, r: nat) returns (p: Place)
    requires Ownership(s) && r in s.live
    ensures Holds(s, p, r)
  {
    assert LiveOk(s, r);
    match s.live[r]
    case Registering => p := RegisterSlot;
    case Browsing => p := BrowseSlot;
    case Querying(_, i, v6) => p := if v6 then V6Slot(i) else V4Slot(i);
    case Resolving(_, i) =>
      if r == s.candidates[i].resolveRef {
        p := ResolveSlot(i);
      } else {
        var k :| 0 <= k < |s.retired| && s.retired[k] == r;
        p := RetiredAt(k);
      }
  }

  lemma PlaceTellsKind(s: State, p: Place, r: nat)
    requires Ownership(s) && r != NULL && Holds(s, p, r)
    ensures r in s.live
    ensures match p
            case RegisterSlot => s.live[r].Registering?
            case BrowseSlot => s.live[r].Browsing?
            case ResolveSlot(i) => s.live[r].Resolving? && s.live[r].instance == i && r !in s.retired
            case V4Slot(i) => s.live[r].Querying? && !s.live[r].v6 && s.live[r].instance == i
            case V6Slot(i) => s.live[r].Querying? && s.live[r].v6 && s.live[r].instance == i
            case RetiredAt(_) => s.live[r].Resolving? && r in s.retired
  {
    if p.ResolveSlot? || p.V4Slot? || p.V6Slot? {
      assert SlotsOk(s, p.i);
    }
    if r in s.retired {
      assert RetiredOk(s, r);
    }
  }

  /** Every ref dns_sd has out is in exactly one place, and no place holds one it has not:
      nothing is leaked, freed twice or left dangling. */
  lemma ExactlyOnePlace(s: State, r: nat)
    requires Ownership(s) && r != NULL
    ensures r in s.live <==> exists p: Place :: Holds(s, p, r)
    ensures forall p: Place, q: Place :: Holds(s, p, r) && Holds(s, q, r) ==> p == q
  {
    if r in s.live {
      var p := LiveRefHasPlace(s, r);
    }
    forall p: Place | Holds(s, p, r) ensures r in s.live {
      PlaceTellsKind(s, p, r);
    }
    forall p: Place, q: Place | Holds(s, p, r) && Holds(s, q, r) ensures p == q {
      PlaceTellsKind(s, p, r);
      PlaceTellsKind(s, q, r);
    }
  }

  /** The context a live ref's callback would be given is the one its candidate still owns. */
  lemma ContextOutlivesRef(s: State, r: nat)
    requires Ownership(s) && r in s.live
    ensures s.live[r].Resolving? || s.live[r].Querying? ==>
              s.live[r].instance in s.candidates && s.live[r].instance in s.contexts
                  && s.contexts[s.live[r].instance] == s.live[r].ctx
  {
    assert LiveOk(s, r);
  }

  /** A callback deallocates nothing: the ref being processed, and every other one, stays
      allocated until the tick's callbacks are done, however many replies one call hands over. */
  lemma CallbacksFreeNothing(s: State, ref: nat, e: Reply, r: nat)
    requires Ownership(s) && r in s.live
    ensures Has(Step(s, ref, e), r, s.live[r])
  {
    assert LiveOk(s, r);
    if ref in s.live && s.live[ref].Resolving? && e.Resolved? {
      ResolveFreesNothing(s, ref, s.live[ref].ctx, s.live[ref].instance, e, r);
    }
  }

  lemma ResolveFreesNothing(s: State, ref: nat, ctx: nat, i: string, e: Reply, r: nat)
    requires e.Resolved? && r in s.live && r < s.nextRef
    ensures Has(OnResolve(s, ref, ctx, i, e), r, s.live[r])
  {
  }

  /** The pump processes exactly what is allocated and has not been retired: no reply is lost, and
      none is asked of a ref that is gone. */
  lemma ProcessedIsOurs(s: State, r: nat)
    requires Ownership(s)
    ensures IsLive(s, r) <==> r in s.live && r !in s.retired
  {
    if IsLive(s, r) {
      LiveIsOurs(s, r);
    } else if r in s.live {
      assert LiveOk(s, r);
    }
  }

  lemma LiveIsOurs(s: State, r: nat)
    requires Ownership(s) && IsLive(s, r)
    ensures r in s.live && r !in s.retired
  {
    if r == s.registerRef {
      PlaceTellsKind(s, RegisterSlot, r);
    } else if r == s.browseRef {
      PlaceTellsKind(s, BrowseSlot, r);
    } else {
      var i :| i in s.candidates && r in SlotRefs(s.candidates[i]);
      var c := s.candidates[i];
      PlaceTellsKind(s, if c.resolveRef == r then ResolveSlot(i) else if c.v4Ref == r then V4Slot(i) else V6Slot(i), r);
    }
    assert r in s.retired ==> RetiredOk(s, r);
  }

  /** stop() and the destructor give everything back. */
  lemma StopFreesEverything(s: State)
    requires Quiet(s)
    ensures Apply(s, Stop).live == map[]
  {
    RescheduledKeepsOwnership(s, -1, s.restartAttempt, s.now, false, false);
    TeardownKeepsOwnership(s.(advertiseWanted := false, browseWanted := false, restartAt := -1));
  }

  /** Calling advertise() again leaks the ref of a live registration, and only then. */
  lemma AdvertiseLeaksIffLive(s: State, fails: bool)
    requires Quiet(s)
    ensures Ownership(Apply(s, Advertise(fails))) <==> s.registerRef == NULL
  {
    var s1 := s.(advertiseWanted := true);
    RescheduledKeepsOwnership(s, s.restartAt, s.restartAttempt, s.now, true, s.browseWanted);
    if s.registerRef == NULL {
      RegisterKeepsOwnership(s1, fails);
    } else {
      assert s.registerRef in s.live && LiveOk(s, s.registerRef);
      assert !LiveOk(Apply(s, Advertise(fails)), s.registerRef);
    }
  }

  lemma BrowseLeaksIffLive(s: State, fails: bool)
    requires Quiet(s)
    ensures Ownership(Apply(s, Browse(fails))) <==> s.browseRef == NULL
  {
    var s1 := s.(browseWanted := true);
    RescheduledKeepsOwnership(s, s.restartAt, s.restartAttempt, s.now, s.advertiseWanted, true);
    if s.browseRef == NULL {
      BrowseKeepsOwnership(s1, fails);
    } else {
      assert s.browseRef in s.live && LiveOk(s, s.browseRef);
      assert !LiveOk(Apply(s, Browse(fails)), s.browseRef);
    }
  }

  /** Two calls reach such a state: with dns_sd answering, advertise() twice leaks the first ref,
      and browse() twice likewise. */
  lemma SecondCallLeaks()
    ensures var s := Apply(STOPPED, Advertise(false));
            Quiet(s) && s.registerRef in s.live && !Ownership(Apply(s, Advertise(false)))
    ensures var s := Apply(STOPPED, Browse(false));
            Quiet(s) && s.browseRef in s.live && !Ownership(Apply(s, Browse(false)))
  {
    hide Quiet, Inv, Ownership;
    StartsQuiet();
    ApplyKeepsQuiet(STOPPED, Advertise(false));
    ApplyKeepsQuiet(STOPPED, Browse(false));
    AdvertiseLeaksIffLive(Apply(STOPPED, Advertise(false)), false);
    BrowseLeaksIffLive(Apply(STOPPED, Browse(false)), false);
  }

  // -------------------------------------------------- a freed ref stays freed

  /** dns_sd hands out only new refs, and this program only ever lets go of old ones. */
  ghost predicate OnlyNew(s: State, s': State) {
    s.nextRef <= s'.nextRef && forall r :: r in s'.live ==> (r in s.live && s'.live[r] == s.live[r]) || s.nextRef <= r
  }

  lemma OnlyNewChains(a: State, b: State, c: State)
    requires OnlyNew(a, b) && OnlyNew(b, c)
    ensures OnlyNew(a, c)
  {
  }

  lemma StepOnlyNew(s: State, ref: nat, e: Reply)
    ensures OnlyNew(s, Step(s, ref, e))
  {
    if ref in s.live && s.live[ref].Resolving? && e.Resolved? {
      ResolveOnlyNew(s, ref, s.live[ref].ctx, s.live[ref].instance, e);
    }
  }

  lemma ResolveOnlyNew(s: State, ref: nat, ctx: nat, i: string, e: Reply)
    requires e.Resolved?
    ensures OnlyNew(s, OnResolve(s, ref, ctx, i, e))
  {
    if i in s.candidates && !e.error && s.candidates[i].resolveRef != NULL {
      var s1 := Retire(s, ref, i, e.details);
      var s2 := Query(s1, i, ctx, false, e.v4Fails);
      OnlyNewChains(s, s1, s2);
      OnlyNewChains(s, s2, Query(s2, i, ctx, true, e.v6Fails));
    }
  }

  lemma {:induction false} RepliesOnlyNew(s: State, ref: nat, replies: seq<Reply>)
    ensures OnlyNew(s, Replies(s, ref, replies))
    decreases |replies|
  {
    hide Step;
    if replies != [] {
      var s1 := Step(s, ref, replies[0]);
      StepOnlyNew(s, ref, replies[0]);
      RepliesOnlyNew(s1, ref, replies[1..]);
      OnlyNewChains(s, s1, Replies(s1, ref, replies[1..]));
    }
  }

  lemma {:induction false} PumpOnlyNew(s: State, visits: seq<Visit>)
    ensures OnlyNew(s, Pump(s, visits))
    decreases |visits|
  {
    if visits != [] {
      if IsLive(s, visits[0].ref) {
        hide Replies;
        var s1 := Replies(s, visits[0].ref, visits[0].replies);
        RepliesOnlyNew(s, visits[0].ref, visits[0].replies);
        if !visits[0].failed {
          PumpOnlyNew(s1, visits[1..]);
          OnlyNewChains(s, s1, Pump(s1, visits[1..]));
        }
      } else {
        PumpOnlyNew(s, visits[1..]);
      }
    }
  }

  lemma {:induction false} PurgeOnlyNew(s: State, names: seq<string>)
    ensures OnlyNew(s, Purge(s, names))
    decreases |names|
  {
    if names != [] {
      if names[0] in s.candidates && !Departed(s.candidates[names[0]]) {
        PurgeOnlyNew(s, names[1..]);
      } else {
        PurgeOnlyNew(Forget(s, names[0]), names[1..]);
        OnlyNewChains(s, Forget(s, names[0]), Purge(Forget(s, names[0]), names[1..]));
      }
    }
  }

  lemma {:induction false} SettleOnlyNew(s: State, names: seq<string>)
    ensures OnlyNew(s, Settle(s, names))
    decreases |names|
  {
    hide Due;
    if names != [] {
      SettleOnlyNew(SettleOne(s, names[0]), names[1..]);
    }
  }

  lemma ApplyOnlyNew(s: State, op: Op)
    ensures OnlyNew(s, Apply(s, op))
  {
    if op.Poll? {
      PollOnlyNew(s, op);
    }
  }

  lemma RestartOnlyNew(s: State, registerFails: bool, browseFails: bool)
    ensures OnlyNew(s, Restart(s, registerFails, browseFails))
  {
  }

  lemma BeginOnlyNew(s: State, now: int, registerFails: bool, browseFails: bool)
    ensures OnlyNew(s, BeginPoll(s, now, registerFails, browseFails))
  {
    hide Missing, Restart;
    RestartOnlyNew(NoteMissing(s, now).(restartAt := -1), registerFails, browseFails);
  }

  lemma DrainOnlyNew(s: State)
    ensures OnlyNew(s, Drain(s))
  {
  }

  lemma PollOnlyNew(s: State, op: Op)
    requires op.Poll?
    ensures OnlyNew(s, Apply(s, op))
  {
    hide OnlyNew, BeginPoll, Pump, Drain, Purge, Settle;
    var s1 := BeginPoll(s, op.now, op.registerFails, op.browseFails);
    BeginOnlyNew(s, op.now, op.registerFails, op.browseFails);
    var s2 := Pump(s1, op.visits);
    PumpOnlyNew(s1, op.visits);
    OnlyNewChains(s, s1, s2);
    var s3 := Drain(s2);
    DrainOnlyNew(s2);
    OnlyNewChains(s, s2, s3);
    var s4 := Purge(s3, s3.doomed);
    PurgeOnlyNew(s3, s3.doomed);
    OnlyNewChains(s, s3, s4);
    SettleOnlyNew(s4, op.names);
    OnlyNewChains(s, s4, Settle(s4, op.names));
  }

  /** A ref that has been deallocated is never again among those in use, over any run. */
  lemma {:induction false} FreedStaysFreed(s: State, ops: seq<Op>, r: nat)
    requires r !in s.live && r < s.nextRef
    ensures r !in Run(s, ops).live
    decreases |ops|
  {
    hide Apply;
    if ops != [] {
      ApplyOnlyNew(s, ops[0]);
      FreedStaysFreed(Apply(s, ops[0]), ops[1..], r);
    }
  }

  // --------------------------------------------------------- who stays listed

  /** The purge drops exactly the candidates that are unusable or on no interface, and leaves
      the others as they are, whatever order they were doomed in. */
  lemma {:induction false} PurgeIsExact(s: State, names: seq<string>)
    requires DepartedAmong(s, names)
    ensures Purge(s, names).candidates == map i | i in s.candidates && !Departed(s.candidates[i]) :: s.candidates[i]
    decreases |names|
  {
    if names == [] {
    } else if names[0] in s.candidates && !Departed(s.candidates[names[0]]) {
      NextAmong(s, names);
      PurgeIsExact(s, names[1..]);
    } else {
      ForgottenAmong(s, names);
      PurgeIsExact(Forget(s, names[0]), names[1..]);
    }
  }

  lemma {:induction false} SettleKeepsKeys(s: State, names: seq<string>)
    ensures Settle(s, names).candidates.Keys == s.candidates.Keys
    ensures forall i :: i in s.candidates ==> Placed(s.candidates[i], Settle(s, names).candidates[i])
    decreases |names|
  {
    hide Due;
    if names != [] {
      SettleKeepsKeys(SettleOne(s, names[0]), names[1..]);
    }
  }

  /** No candidate is left that has waited long enough, is dialable and has no place in the order. */
  ghost predicate NoneDue(s: State) {
    forall i :: i in s.candidates ==> !Due(i, s.candidates[i], s.now)
  }

  lemma VisitedIsNotDue(s: State, i: string, j: string)
    requires s.nextSeq > 0
    ensures SettleOne(s, i).nextSeq > 0
    ensures i in s.candidates ==> !Due(i, SettleOne(s, i).candidates[i], s.now)
    ensures j in s.candidates && !Due(j, s.candidates[j], s.now) ==> !Due(j, SettleOne(s, i).candidates[j], s.now)
  {
  }

  lemma {:induction false} SettleLeavesNotDue(s: State, names: seq<string>, i: string)
    requires i in s.candidates && s.nextSeq > 0 && (i in names || !Due(i, s.candidates[i], s.now))
    ensures i in Settle(s, names).candidates && !Due(i, Settle(s, names).candidates[i], s.now)
    decreases |names|
  {
    hide Due;
    if names != [] {
      VisitedIsNotDue(s, names[0], i);
      SettleLeavesNotDue(SettleOne(s, names[0]), names[1..], i);
    }
  }

  /** So a poll whose pass visits every candidate leaves none due, in whatever order it visits. */
  lemma EndPollLeavesNoneDue(s: State, names: seq<string>)
    requires Inv(s) && forall i :: i in EndPoll(s, names).candidates ==> i in names
    ensures NoneDue(EndPoll(s, names))
  {
    hide Ownership, Purge, Settle, Due;
    var drained := Drain(s);
    DrainKeepsOwnership(s);
    SameKeepsCandidates(s, drained);
    PurgeKeepsInv(drained, drained.doomed);
    var purged := Purge(drained, drained.doomed);
    SettleKeepsKeys(purged, names);
    SettleKeepsTimer(purged, names);
    forall i | i in EndPoll(s, names).candidates
      ensures !Due(i, EndPoll(s, names).candidates[i], EndPoll(s, names).now)
    {
      SettleLeavesNotDue(purged, names, i);
    }
  }

  lemma PollLeavesNoneDue(s: State, op: Op)
    requires Quiet(s) && Allowed(s, op) && op.Poll?
    requires forall i :: i in Apply(s, op).candidates ==> i in op.names
    ensures NoneDue(Apply(s, op))
  {
    hide Ownership, Candidates, BeginPoll, Pump, EndPoll, NoneDue;
    BeginKeepsInv(s, op.now, op.registerFails, op.browseFails);
    var s1 := BeginPoll(s, op.now, op.registerFails, op.browseFails);
    PumpKeepsInv(s1, op.visits);
    EndPollLeavesNoneDue(Pump(s1, op.visits), op.names);
  }

  /** The same candidate, except perhaps for its place in the order. */
  predicate Placed(c: Candidate, c': Candidate) {
    c' == c.(resolvedSeq := c'.resolvedSeq, settledAt := c'.settledAt)
  }

  /** A poll ends with a candidate exactly if, when the callbacks are done, it is usable and
      some interface carries it: dropped and re-announced in one tick, it is kept with its
      refs and addresses. */
  lemma PollKeepsExactlyTheCarried(s: State, names: seq<string>, i: string)
    requires Inv(s)
    ensures i in EndPoll(s, names).candidates <==>
            i in s.candidates && !s.candidates[i].unusable && s.candidates[i].interfaces != {}
    ensures i in EndPoll(s, names).candidates ==> Placed(s.candidates[i], EndPoll(s, names).candidates[i])
  {
    var drained := Drain(s);
    PurgeIsExact(drained, drained.doomed);
    SettleKeepsKeys(Purge(drained, drained.doomed), names);
  }

  /** Lost on its last interface and found again before the tick is over. */
  lemma FlapKeepsCandidate(s: State, e: Reply, f: Reply, names: seq<string>)
    requires Inv(s) && e.Browsed? && f.Browsed? && !e.error && !f.error && e.instance == f.instance
    requires e.instance in s.candidates && !s.candidates[e.instance].unusable
    requires !e.change.add && f.change.add
    ensures var s' := EndPoll(OnBrowse(OnBrowse(s, e), f), names);
            e.instance in s'.candidates
            && SameSlots(s.candidates[e.instance], s'.candidates[e.instance])
            && s'.candidates[e.instance].addresses == s.candidates[e.instance].addresses
            && f.change.interface in s'.candidates[e.instance].interfaces
  {
    hide Ownership, Candidates, EndPoll;
    var s1 := OnBrowse(s, e);
    var s2 := OnBrowse(s1, f);
    HearKeepsOwnership(s, e);
    BrowsedKeepsCandidates(s, e);
    HearKeepsOwnership(s1, f);
    BrowsedKeepsCandidates(s1, f);
    PollKeepsExactlyTheCarried(s2, names, e.instance);
    assert f.change.interface in s2.candidates[e.instance].interfaces;
  }

  /** A restart that is due, with dns_sd answering, leaves nothing wanted missing. */
  lemma RestartRecovers(s: State, now: int)
    requires s.restartAt >= 0 && now >= s.restartAt && s.nextRef > 0
    ensures !Missing(BeginPoll(s, now, false, false))
  {
  }

  /** The retry owed is never further off than the longest backoff, and its counter stops. */
  predicate RetrySoon(s: State) {
    s.restartAt <= s.now + MAX_RETRY_DELAY_MS && s.restartAttempt <= 5 && s.now >= 0
  }

  lemma ScheduledSoon(s: State)
    requires s.restartAttempt <= 5 && s.now >= 0
    ensures RetrySoon(ScheduleRestart(s))
  {
    BackoffValues();
  }

  predicate SameDeadline(s: State, s': State) {
    s'.restartAt == s.restartAt && s'.now == s.now
  }

  /** The retry stands, or a new one is owed, no sooner than the shortest backoff. */
  predicate LaterDeadline(s: State, s': State) {
    s'.now == s.now && (s'.restartAt == s.restartAt || s'.restartAt >= s.now + MIN_RETRY_DELAY_MS)
  }

  predicate SameTimer(s: State, s': State) {
    s'.restartAt == s.restartAt && s'.restartAttempt == s.restartAttempt && s'.now == s.now
  }

  lemma QueryKeepsTimer(s: State, i: string, ctx: nat, v6: bool, fails: bool)
    requires i in s.candidates
    ensures SameTimer(s, Query(s, i, ctx, v6, fails))
  {
  }

  lemma DoomKeepsTimer(s: State, i: string)
    requires i in s.candidates
    ensures SameTimer(s, Doom(s, i))
  {
  }

  lemma ResolveKeepsTimer(s: State, ref: nat, ctx: nat, i: string, e: Reply)
    requires e.Resolved?
    ensures SameTimer(s, OnResolve(s, ref, ctx, i, e))
  {
    if i in s.candidates {
      DoomKeepsTimer(s, i);
      var s1 := Retire(s, ref, i, e.details);
      assert SameTimer(s, s1);
      hide Retire;
      QueryKeepsTimer(s1, i, ctx, false, e.v4Fails);
      var s2 := Query(s1, i, ctx, false, e.v4Fails);
      QueryKeepsTimer(s2, i, ctx, true, e.v6Fails);
      DoomKeepsTimer(Query(s2, i, ctx, true, e.v6Fails), i);
      hide Doom;
    }
  }

  lemma StepKeepsTimer(s: State, ref: nat, e: Reply)
    requires RetrySoon(s)
    ensures RetrySoon(Step(s, ref, e)) && SameDeadline(s, Step(s, ref, e))
  {
    if ref in s.live && s.live[ref].Resolving? && e.Resolved? {
      ResolveKeepsTimer(s, ref, s.live[ref].ctx, s.live[ref].instance, e);
      hide OnResolve;
    }
  }

  lemma {:induction false} RepliesKeepTimer(s: State, ref: nat, replies: seq<Reply>)
    requires RetrySoon(s)
    ensures RetrySoon(Replies(s, ref, replies)) && SameDeadline(s, Replies(s, ref, replies))
    decreases |replies|
  {
    hide Step, RetrySoon;
    if replies != [] {
      StepKeepsTimer(s, ref, replies[0]);
      RepliesKeepTimer(Step(s, ref, replies[0]), ref, replies[1..]);
    }
  }

  lemma FailKeepsTimer(s: State)
    requires RetrySoon(s)
    ensures RetrySoon(Fail(s)) && LaterDeadline(s, Fail(s))
  {
    ScheduledSoon(Teardown(s));
  }

  lemma {:induction false} PumpKeepsTimer(s: State, visits: seq<Visit>)
    requires RetrySoon(s)
    ensures RetrySoon(Pump(s, visits)) && LaterDeadline(s, Pump(s, visits))
    decreases |visits|
  {
    hide Replies, RetrySoon, IsLive, Fail;
    if visits != [] {
      var s1 := Replies(s, visits[0].ref, visits[0].replies);
      RepliesKeepTimer(s, visits[0].ref, visits[0].replies);
      FailKeepsTimer(s1);
      if IsLive(s, visits[0].ref) {
        PumpKeepsTimer(s1, visits[1..]);
      } else {
        PumpKeepsTimer(s, visits[1..]);
      }
    }
  }

  lemma {:induction false} PurgeKeepsTimer(s: State, names: seq<string>)
    ensures Purge(s, names).restartAt == s.restartAt && Purge(s, names).now == s.now
    ensures Purge(s, names).restartAttempt == s.restartAttempt
    decreases |names|
  {
    if names != [] {
      PurgeKeepsTimer(s, names[1..]);
      PurgeKeepsTimer(Forget(s, names[0]), names[1..]);
    }
  }

  lemma {:induction false} SettleKeepsTimer(s: State, names: seq<string>)
    ensures Settle(s, names).restartAt == s.restartAt && Settle(s, names).now == s.now
    ensures Settle(s, names).restartAttempt == s.restartAttempt
    decreases |names|
  {
    hide Due;
    if names != [] {
      SettleKeepsTimer(SettleOne(s, names[0]), names[1..]);
    }
  }

  lemma BeginKeepsTimer(s: State, now: int, registerFails: bool, browseFails: bool)
    requires RetrySoon(s) && s.now <= now
    ensures RetrySoon(BeginPoll(s, now, registerFails, browseFails))
  {
    hide Backoff, Missing;
    var s1 := s.(now := now);
    ScheduledSoon(s1);
    assert RetrySoon(NoteMissing(s, now));
    hide NoteMissing;
  }

  lemma PollKeepsTimer(s: State, op: Op)
    requires RetrySoon(s) && op.Poll? && s.now <= op.now
    ensures RetrySoon(Apply(s, op))
  {
    hide BeginPoll, Pump, Purge, Settle;
    BeginKeepsTimer(s, op.now, op.registerFails, op.browseFails);
    var s1 := BeginPoll(s, op.now, op.registerFails, op.browseFails);
    PumpKeepsTimer(s1, op.visits);
    var drained := Drain(Pump(s1, op.visits));
    PurgeKeepsTimer(drained, drained.doomed);
    SettleKeepsTimer(Purge(drained, drained.doomed), op.names);
  }

  lemma ApplyKeepsTimer(s: State, op: Op)
    requires RetrySoon(s) && Allowed(s, op)
    ensures RetrySoon(Apply(s, op))
  {
    hide BeginPoll, Pump, EndPoll;
    if op.Poll? {
      PollKeepsTimer(s, op);
    }
  }

  /** Over any run: the service never waits longer than 30 s to try again. */
  lemma {:induction false} RetryIsNeverFarOff(s: State, ops: seq<Op>)
    requires RetrySoon(s) && AllAllowed(s, ops)
    ensures RetrySoon(Run(s, ops))
    decreases |ops|
  {
    hide Apply, RetrySoon;
    if ops != [] {
      ApplyKeepsTimer(s, ops[0]);
      RetryIsNeverFarOff(Apply(s, ops[0]), ops[1..]);
    }
  }

  /** A schedule made again doubles the wait, up to 30 s. */
  lemma RetryDoubles(s: State)
    requires s.restartAttempt <= 5
    ensures ScheduleRestart(s).restartAt == s.now + Backoff(s.restartAttempt)
    ensures var d := 2 * Backoff(s.restartAttempt);
            Backoff(ScheduleRestart(s).restartAttempt) == if d < MAX_RETRY_DELAY_MS then d else MAX_RETRY_DELAY_MS
  {
    BackoffValues();
  }

  /** A poll at this point tries again what is missing. */
  predicate Restarts(s: State, op: Op) {
    op.Poll? && 0 <= NoteMissing(s, op.now).restartAt <= op.now
  }

  /** Nothing is given up: once a poll has begun, what is wanted and missing is owed a retry within
      30 s, or dns_sd has just refused one. */
  lemma MissingIsOwed(s: State, op: Op)
    requires RetrySoon(s) && op.Poll? && op.now >= s.now && s.nextRef > 0
    ensures var t := BeginPoll(s, op.now, op.registerFails, op.browseFails);
            Missing(t) ==>
              || op.now < t.restartAt <= op.now + MAX_RETRY_DELAY_MS
              || (Restarts(s, op) && (op.registerFails || op.browseFails))
  {
    hide Backoff;
  }

  predicate SpacedFrom(s: State, last: int) {
    last <= s.now && (s.restartAt >= 0 ==> s.restartAt >= last + MIN_RETRY_DELAY_MS)
  }

  lemma BeginSpaced(s: State, op: Op, last: int)
    requires op.Poll? && s.now <= op.now && SpacedFrom(s, last) && s.now >= 0
    ensures var t := BeginPoll(s, op.now, op.registerFails, op.browseFails);
            && SpacedFrom(t, last) && t.now == op.now
            && (Restarts(s, op) ==> op.now >= last + MIN_RETRY_DELAY_MS && SpacedFrom(t, op.now))
  {
    hide Backoff;
  }

  lemma ApplySpaced(s: State, op: Op, last: int)
    requires SpacedFrom(s, last) && RetrySoon(s) && Allowed(s, op)
    ensures SpacedFrom(Apply(s, op), last)
    ensures Restarts(s, op) ==> op.now >= last + MIN_RETRY_DELAY_MS && SpacedFrom(Apply(s, op), op.now)
  {
    if op.Poll? {
      hide BeginPoll, Pump, Purge, Settle, Restarts, Backoff;
      BeginSpaced(s, op, last);
      BeginKeepsTimer(s, op.now, op.registerFails, op.browseFails);
      var s1 := BeginPoll(s, op.now, op.registerFails, op.browseFails);
      PumpKeepsTimer(s1, op.visits);
      var drained := Drain(Pump(s1, op.visits));
      PurgeKeepsTimer(drained, drained.doomed);
      SettleKeepsTimer(Purge(drained, drained.doomed), op.names);
    }
    hide Owned;
  }

  lemma {:induction false} NoRestartBefore(s: State, ops: seq<Op>, last: int, k: nat)
    requires SpacedFrom(s, last) && RetrySoon(s) && AllAllowed(s, ops) && k < |ops|
    requires Restarts(Run(s, ops[..k]), ops[k])
    ensures ops[k].now >= last + MIN_RETRY_DELAY_MS
    decreases |ops|
  {
    hide Apply, RetrySoon, SpacedFrom, Restarts, Allowed;
    ApplySpaced(s, ops[0], last);
    if k == 0 {
      assert ops[..0] == [];
    } else {
      ApplyKeepsTimer(s, ops[0]);
      assert ops[..k][0] == ops[0] && ops[..k][1..] == ops[1..][..k - 1];
      NoRestartBefore(Apply(s, ops[0]), ops[1..], last, k - 1);
    }
  }

  lemma {:induction false} RestartsKeepApart(s: State, ops: seq<Op>, last: int, j: nat, k: nat)
    requires RetrySoon(s) && SpacedFrom(s, last) && AllAllowed(s, ops)
    requires j < k < |ops| && Restarts(Run(s, ops[..j]), ops[j]) && Restarts(Run(s, ops[..k]), ops[k])
    ensures ops[k].now >= ops[j].now + MIN_RETRY_DELAY_MS
    decreases |ops|
  {
    hide Apply, RetrySoon, NoteMissing, Allowed, SpacedFrom;
    var s1 := Apply(s, ops[0]);
    ApplyKeepsTimer(s, ops[0]);
    ApplySpaced(s, ops[0], last);
    assert ops[..k][0] == ops[0] && ops[..k][1..] == ops[1..][..k - 1];
    if j == 0 {
      assert ops[..0] == [];
      NoRestartBefore(s1, ops[1..], ops[0].now, k - 1);
    } else {
      assert ops[..j][0] == ops[0] && ops[..j][1..] == ops[1..][..j - 1];
      RestartsKeepApart(s1, ops[1..], last, j - 1, k - 1);
    }
  }

  /** Over any run, two restarts are at least a second apart. */
  lemma RestartsAreSpaced(ops: seq<Op>, j: nat, k: nat)
    requires AllAllowed(STOPPED, ops)
    requires j < k < |ops| && Restarts(Run(STOPPED, ops[..j]), ops[j]) && Restarts(Run(STOPPED, ops[..k]), ops[k])
    ensures ops[k].now >= ops[j].now + MIN_RETRY_DELAY_MS
  {
    hide AllAllowed, Run, NoteMissing;
    RestartsKeepApart(STOPPED, ops, 0, j, k);
  }

  lemma StepOnlyResetsBackoff(s: State, ref: nat, e: Reply)
    ensures Step(s, ref, e).restartAttempt == s.restartAttempt || Step(s, ref, e).restartAttempt == 0
  {
    if ref in s.live && s.live[ref].Resolving? && e.Resolved? {
      ResolveKeepsTimer(s, ref, s.live[ref].ctx, s.live[ref].instance, e);
      hide OnResolve;
    }
  }

  lemma {:induction false} RepliesKeepFresh(s: State, ref: nat, replies: seq<Reply>)
    requires s.restartAttempt == 0
    ensures Replies(s, ref, replies).restartAttempt == 0
    decreases |replies|
  {
    hide Step;
    if replies != [] {
      StepOnlyResetsBackoff(s, ref, replies[0]);
      RepliesKeepFresh(Step(s, ref, replies[0]), ref, replies[1..]);
    }
  }

  /** Only a failure counts up. */
  lemma {:induction false} PumpKeepsFresh(s: State, visits: seq<Visit>)
    requires s.restartAttempt == 0 && forall k :: 0 <= k < |visits| ==> !visits[k].failed
    ensures Pump(s, visits).restartAttempt == 0
    decreases |visits|
  {
    hide Replies, IsLive;
    if visits != [] {
      RepliesKeepFresh(s, visits[0].ref, visits[0].replies);
      PumpKeepsFresh(if IsLive(s, visits[0].ref) then Replies(s, visits[0].ref, visits[0].replies) else s, visits[1..]);
    }
  }

  /** dns_sd confirms the registration before anything else of this poll. */
  predicate Confirms(s: State, visits: seq<Visit>) {
    && visits != [] && visits[0] == Visit(s.registerRef, [Registered(false)], false)
    && s.registerRef != NULL && s.registerRef in s.live && s.live[s.registerRef].Registering?
  }

  /** Once dns_sd has taken a browse again or confirmed the registration, and nothing fails after
      that, the backoff starts over: the next loss is retried after a second. */
  lemma BackoffStartsOver(s: State, op: Op)
    requires op.Poll? && forall k :: 0 <= k < |op.visits| ==> !op.visits[k].failed
    requires || (Restarts(s, op) && s.browseWanted && s.browseRef == NULL && !op.browseFails)
             || Confirms(BeginPoll(s, op.now, op.registerFails, op.browseFails), op.visits)
    ensures Fail(Apply(s, op)).restartAt == Apply(s, op).now + MIN_RETRY_DELAY_MS
  {
    var s1 := BeginPoll(s, op.now, op.registerFails, op.browseFails);
    BackoffValues();
    if Confirms(s1, op.visits) {
      ConfirmedIsFresh(s1, op.visits);
    } else {
      BrowseIsFresh(s, op);
      PumpKeepsFresh(s1, op.visits);
    }
    hide BeginPoll, Pump, Purge, Settle, Owned, Backoff, Restarts, Confirms;
    var drained := Drain(Pump(s1, op.visits));
    PurgeKeepsTimer(drained, drained.doomed);
    SettleKeepsTimer(Purge(drained, drained.doomed), op.names);
  }

  lemma BrowseIsFresh(s: State, op: Op)
    requires Restarts(s, op) && s.browseWanted && s.browseRef == NULL && !op.browseFails
    ensures BeginPoll(s, op.now, op.registerFails, op.browseFails).restartAttempt == 0
  {
    hide Backoff;
  }

  lemma ConfirmedIsFresh(s: State, visits: seq<Visit>)
    requires Confirms(s, visits) && forall k :: 0 <= k < |visits| ==> !visits[k].failed
    ensures Pump(s, visits).restartAttempt == 0
  {
    var s1 := Step(s, s.registerRef, Registered(false));
    assert [Registered(false)][1..] == [];
    assert Replies(s, s.registerRef, [Registered(false)]) == Replies(s1, s.registerRef, []) == s1;
    PumpKeepsFresh(s1, visits[1..]);
  }

  // ------------------------------------------------------------ what is wanted

  /** The last call that asked for it or stopped it asked for it. */
  function Asked(before: bool, ops: seq<Op>, browse: bool): bool
    decreases |ops|
  {
    if ops == [] then before
    else
      var now := match ops[0]
        case Advertise(_) => !browse || before
        case Browse(_) => browse || before
        case Stop => false
        case Poll(_, _, _, _, _) => before;
      Asked(now, ops[1..], browse)
  }

  lemma {:induction false} PumpKeepsWanted(s: State, visits: seq<Visit>)
    ensures SameWanted(s, Pump(s, visits))
    decreases |visits|
  {
    if visits != [] {
      RepliesKeepWanted(s, visits[0].ref, visits[0].replies);
      PumpKeepsWanted(s, visits[1..]);
      PumpKeepsWanted(Replies(s, visits[0].ref, visits[0].replies), visits[1..]);
    }
    hide IsLive, Replies, Owned, Backoff;
  }

  predicate SameWanted(s: State, t: State) {
    t.advertiseWanted == s.advertiseWanted && t.browseWanted == s.browseWanted
  }

  lemma {:induction false} RepliesKeepWanted(s: State, ref: nat, replies: seq<Reply>)
    ensures SameWanted(s, Replies(s, ref, replies))
    decreases |replies|
  {
    if replies != [] {
      StepKeepsWanted(s, ref, replies[0]);
      RepliesKeepWanted(Step(s, ref, replies[0]), ref, replies[1..]);
    }
    hide Step;
  }

  lemma StepKeepsWanted(s: State, ref: nat, e: Reply)
    ensures SameWanted(s, Step(s, ref, e))
  {
    if ref in s.live && s.live[ref].Resolving? && e.Resolved? {
      ResolveKeepsWanted(s, ref, s.live[ref].ctx, s.live[ref].instance, e);
      hide OnResolve;
    }
  }

  lemma ResolveKeepsWanted(s: State, ref: nat, ctx: nat, i: string, e: Reply)
    requires e.Resolved?
    ensures SameWanted(s, OnResolve(s, ref, ctx, i, e))
  {
  }

  lemma {:induction false} PurgeKeepsWanted(s: State, names: seq<string>)
    ensures SameWanted(s, Purge(s, names))
    decreases |names|
  {
    if names != [] {
      PurgeKeepsWanted(s, names[1..]);
      PurgeKeepsWanted(Forget(s, names[0]), names[1..]);
    }
  }

  lemma {:induction false} SettleKeepsWanted(s: State, names: seq<string>)
    ensures SameWanted(s, Settle(s, names))
    decreases |names|
  {
    hide Due;
    if names != [] {
      SettleKeepsWanted(SettleOne(s, names[0]), names[1..]);
    }
  }

  lemma BeginKeepsWanted(s: State, now: int, registerFails: bool, browseFails: bool)
    ensures SameWanted(s, BeginPoll(s, now, registerFails, browseFails))
  {
    hide Backoff;
  }

  lemma ApplyKeepsWanted(s: State, op: Op)
    ensures Apply(s, op).advertiseWanted == Asked(s.advertiseWanted, [op], false)
    ensures Apply(s, op).browseWanted == Asked(s.browseWanted, [op], true)
  {
    assert [op][1..] == [];
    hide BeginPoll, Pump, Purge, Settle, Owned;
    if op.Poll? {
      BeginKeepsWanted(s, op.now, op.registerFails, op.browseFails);
      var s1 := BeginPoll(s, op.now, op.registerFails, op.browseFails);
      PumpKeepsWanted(s1, op.visits);
      var drained := Drain(Pump(s1, op.visits));
      PurgeKeepsWanted(drained, drained.doomed);
      SettleKeepsWanted(Purge(drained, drained.doomed), op.names);
    }
  }

  /** Whatever dns_sd does, the service wants what it was last asked for, until it is stopped; so
      whatever is lost of it is owed a retry. */
  lemma {:induction false} WantedAsAsked(s: State, ops: seq<Op>)
    ensures Run(s, ops).advertiseWanted == Asked(s.advertiseWanted, ops, false)
    ensures Run(s, ops).browseWanted == Asked(s.browseWanted, ops, true)
    decreases |ops|
  {
    hide Apply;
    if ops != [] {
      ApplyKeepsWanted(s, ops[0]);
      assert [ops[0]][1..] == [];
      WantedAsAsked(Apply(s, ops[0]), ops[1..]);
    }
  }
}
