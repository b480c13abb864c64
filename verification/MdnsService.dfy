/** MdnsService::Impl of src/mdns_dnssd.cpp, field by field.

    dns_sd is the table `live` and the counters beside it. Its rules are the
    preconditions of Deallocate() and Callback(): a ref is given back once, and never
    used when it or the context it points to is gone.
 */
module MdnsService {
  import opened Machine
  import opened MdnsRules
  import opened Outbound
  import opened Mdns
  import opened MdnsRuns
  import opened MdnsListing
  import opened MdnsStory

  class Impl {
    var live: map<nat, Handle>
    var nextRef: nat
    var nextCtx: nat

    var registerRef: nat
    var browseRef: nat
    var advertiseWanted: bool
    var browseWanted: bool
    var candidates: map<string, Candidate>
    var contexts: map<string, nat>
    var retired: seq<nat>
    var doomed: seq<string>
    var nextSeq: nat
    var restartAt: int
    var restartAttempt: u32
    var now: int

    function Snapshot(): State
      reads this
    {
      State(live, nextRef, nextCtx, registerRef, browseRef, advertiseWanted, browseWanted,
            candidates, contexts, retired, doomed, nextSeq, restartAt, restartAttempt as nat, now)
    }

    constructor ()
      ensures Snapshot() == STOPPED
    {
      live, nextRef, nextCtx := map[], 1, 0;
      registerRef, browseRef, advertiseWanted, browseWanted := NULL, NULL, false, false;
      candidates, contexts, retired, doomed := map[], map[], [], [];
      nextSeq, restartAt, restartAttempt, now := 1, -1, 0, 0;
    }

    // --------------------------------------------------------------- dns_sd

    /** Is the ref out, and what it points to still there? */
    predicate Valid(r: nat)
      reads this
    {
      r in live && (live[r].Resolving? || live[r].Querying? ==>
                      live[r].instance in contexts && contexts[live[r].instance] == live[r].ctx)
    }

    method Deallocate(r: nat)
      requires Valid(r)
      modifies this`live
      ensures live == old(live) - {r}
    {
      live := live - {r};
    }

    method AllocateRef(h: Handle) returns (r: nat)
      modifies this`live, this`nextRef
      ensures r == old(nextRef) && Snapshot() == Allocate(old(Snapshot()), h)
    {
      r := nextRef;
      live := live[r := h];
      nextRef := nextRef + 1;
    }

    // ------------------------------------------------- starting and stopping

    method BeginRegister(fails: bool)
      modifies this
      ensures Snapshot() == StartRegister(old(Snapshot()), fails)
    {
      if fails {
        registerRef := NULL;
        return;
      }
      registerRef := AllocateRef(Registering);
    }

    method BeginBrowse(fails: bool)
      modifies this
      ensures Snapshot() == StartBrowse(old(Snapshot()), fails)
    {
      if fails {
        browseRef := NULL;
        return;
      }
      browseRef := AllocateRef(Browsing);
      restartAttempt := 0;
    }

    method Advertise(fails: bool)
      modifies this
      ensures Snapshot() == Apply(old(Snapshot()), MdnsRuns.Advertise(fails))
    {
      advertiseWanted := true;
      BeginRegister(fails);
    }

    method Browse(fails: bool)
      modifies this
      ensures Snapshot() == Apply(old(Snapshot()), MdnsRuns.Browse(fails))
    {
      browseWanted := true;
      BeginBrowse(fails);
    }

    method DrainRetired()
      requires Ownership(Snapshot())
      modifies this`live, this`retired
      ensures Snapshot() == Drain(old(Snapshot())) && retired == []
    {
      ghost var before := live;
      for k := 0 to |retired|
        modifies this`live
        invariant live == before - RefSet(retired[..k])
      {
        assert RetiredOk(old(Snapshot()), retired[k]) && LiveOk(old(Snapshot()), retired[k]);
        assert retired[..k + 1] == retired[..k] + [retired[k]];
        Deallocate(retired[k]);
        assert RefSet(retired[..k + 1]) == RefSet(retired[..k]) + {retired[k]};
      }
      assert retired[..|retired|] == retired;
      retired := [];
    }

    /** release_candidate_refs(): each slot that is not null, once. Both callers erase the
        candidate at once, so the nulled slots themselves are never seen. */
    method ReleaseRefs(c: Candidate)
      requires NULL !in live
      requires forall r :: r in SlotRefs(c) && r != NULL ==> Valid(r)
      requires c.resolveRef != NULL ==> c.v4Ref == NULL && c.v6Ref == NULL
      requires c.v4Ref != NULL ==> c.v4Ref != c.v6Ref
      modifies this`live
      ensures live == old(live) - SlotRefs(c)
    {
      if c.resolveRef != NULL {
        Deallocate(c.resolveRef);
      }
      if c.v4Ref != NULL {
        Deallocate(c.v4Ref);
      }
      if c.v6Ref != NULL {
        Deallocate(c.v6Ref);
      }
    }

    lemma SlotsReleasable(i: string)
      requires Ownership(Snapshot()) && i in candidates
      ensures var c := candidates[i];
              && (forall r :: r in SlotRefs(c) && r != NULL ==> Valid(r))
              && (c.resolveRef != NULL ==> c.v4Ref == NULL && c.v6Ref == NULL)
              && (c.v4Ref != NULL ==> c.v4Ref != c.v6Ref)
    {
      assert SlotsOk(Snapshot(), i);
    }

    method ForgetCandidate(i: string)
      requires Ownership(Snapshot())
      modifies this
      ensures Snapshot() == Forget(old(Snapshot()), i)
    {
      if i !in candidates {
        return;
      }
      SlotsReleasable(i);
      ReleaseRefs(candidates[i]);
      candidates := candidates - {i};
      contexts := contexts - {i};
    }

    method TeardownAll()
      requires Ownership(Snapshot())
      modifies this
      ensures Snapshot() == Teardown(old(Snapshot()))
      ensures live == map[]
    {
      TeardownKeepsOwnership(Snapshot());
      ReleaseAll();
      doomed := [];
    }

    method ReleaseAll()
      requires Ownership(Snapshot())
      modifies this`live, this`retired, this`candidates, this`contexts, this`browseRef, this`registerRef
      ensures live == map[] && retired == [] && candidates == map[] && contexts == map[]
      ensures browseRef == NULL && registerRef == NULL
    {
      hide Ownership;
      DrainKeepsOwnership(Snapshot());
      DrainRetired();
      ReleaseCandidates();
      contexts := map[];
      ReleaseSingles();
    }

    /** The registration's ref or the browse's. */
    predicate IsSingle(r: nat)
      reads this
    {
      (Has(Snapshot(), r, Registering) && r == registerRef) || (Has(Snapshot(), r, Browsing) && r == browseRef)
    }

    /** Every candidate's refs, in some order. */
    method ReleaseCandidates()
      requires Ownership(Snapshot()) && retired == []
      modifies this`live, this`candidates, this`contexts
      ensures candidates == map[] && NULL !in live
      ensures forall r :: r in live ==> IsSingle(r)
      ensures registerRef != NULL ==> Has(Snapshot(), registerRef, Registering)
      ensures browseRef != NULL ==> Has(Snapshot(), browseRef, Browsing)
    {
      while candidates.Keys != {}
        invariant Ownership(Snapshot()) && retired == []
        decreases |candidates.Keys|
      {
        hide Ownership;
        var i :| i in candidates;
        ForgetOne(i);
      }
      OnlySingles();
    }

    lemma OnlySingles()
      requires Ownership(Snapshot()) && candidates.Keys == {} && retired == []
      ensures forall r :: r in live ==> IsSingle(r)
      ensures registerRef != NULL ==> Has(Snapshot(), registerRef, Registering)
      ensures browseRef != NULL ==> Has(Snapshot(), browseRef, Browsing)
      ensures NULL !in live
    {
      assert forall r :: r in live ==> LiveOk(Snapshot(), r);
    }

    method ForgetOne(i: string)
      requires Ownership(Snapshot()) && retired == [] && i in candidates
      modifies this`live, this`candidates, this`contexts
      ensures Ownership(Snapshot()) && candidates == old(candidates) - {i}
      ensures |candidates.Keys| < |old(candidates).Keys|
    {
      hide Ownership;
      SlotsReleasable(i);
      ForgetKeepsOwnership(Snapshot(), i);
      NullIsNobody();
      ReleaseRefs(candidates[i]);
      assert candidates.Keys == (candidates.Keys - {i}) + {i};
      candidates := candidates - {i};
      contexts := contexts - {i};
      assert candidates.Keys == old(candidates).Keys - {i};
    }

    lemma NullIsNobody()
      requires Ownership(Snapshot())
      ensures NULL !in live
    {
    }

    method ReleaseSingles()
      requires forall r :: r in live ==> IsSingle(r)
      requires registerRef != NULL ==> Has(Snapshot(), registerRef, Registering)
      requires browseRef != NULL ==> Has(Snapshot(), browseRef, Browsing)
      requires NULL !in live
      modifies this`live, this`browseRef, this`registerRef
      ensures live == map[] && browseRef == NULL && registerRef == NULL
    {
      if browseRef != NULL {
        Deallocate(browseRef);
        browseRef := NULL;
      }
      if registerRef != NULL {
        Deallocate(registerRef);
        registerRef := NULL;
      }
    }

    method Stop()
      requires Quiet(Snapshot())
      modifies this
      ensures Snapshot() == Apply(old(Snapshot()), MdnsRuns.Stop)
      ensures live == map[]
    {
      advertiseWanted := false;
      browseWanted := false;
      restartAt := -1;
      RescheduledKeepsOwnership(old(Snapshot()), -1, restartAttempt as nat, now, false, false);
      TeardownAll();
    }

    // ------------------------------------------------------------- callbacks

    method BrowseCallback(e: Reply)
      requires e.Browsed?
      modifies this
      ensures Snapshot() == OnBrowse(old(Snapshot()), e)
    {
      if e.error {
        return;
      }
      var instance := e.instance;
      if !e.change.add {
        if instance in candidates {
          candidates := candidates[instance := Hear(candidates[instance], e.change)];
          if candidates[instance].interfaces == {} {
            doomed := doomed + [instance];
          }
        }
        return;
      }
      if instance in candidates {
        candidates := candidates[instance := Hear(candidates[instance], e.change)];
        return;
      }
      var ctx := nextCtx;
      nextCtx := nextCtx + 1;
      contexts := contexts[instance := ctx];
      if e.resolveFails {
        contexts := contexts - {instance};
        assert contexts == old(contexts) - {instance};
        return;
      }
      var ref := AllocateRef(Resolving(ctx, instance));
      candidates := candidates[instance := NewCandidate(ref, e.change)];
    }

    method StartAddressQuery(i: string, ctx: nat, v6: bool, fails: bool)
      requires i in candidates
      modifies this
      ensures Snapshot() == Query(old(Snapshot()), i, ctx, v6, fails)
    {
      var ref := NULL;
      if !fails {
        ref := AllocateRef(Querying(ctx, i, v6));
      }
      candidates := candidates[i := if v6 then candidates[i].(v6Ref := ref) else candidates[i].(v4Ref := ref)];
    }

    method DoomCandidate(i: string)
      requires i in candidates
      modifies this
      ensures Snapshot() == Doom(old(Snapshot()), i)
    {
      candidates := candidates[i := candidates[i].(unusable := true)];
      doomed := doomed + [i];
    }

    method ResolveCallback(ref: nat, ctx: nat, i: string, e: Reply)
      requires e.Resolved?
      modifies this
      ensures Snapshot() == OnResolve(old(Snapshot()), ref, ctx, i, e)
    {
      if i !in candidates {
        return;
      }
      if e.error {
        DoomCandidate(i);
        return;
      }
      if candidates[i].resolveRef == NULL {
        return;
      }
      candidates := candidates[i := candidates[i].(resolveRef := NULL, details := e.details)];
      retired := retired + [ref];
      assert Snapshot() == Retire(old(Snapshot()), ref, i, e.details);
      hide Retire, Doom;
      StartAddressQuery(i, ctx, false, e.v4Fails);
      StartAddressQuery(i, ctx, true, e.v6Fails);
      if candidates[i].v4Ref == NULL && candidates[i].v6Ref == NULL {
        DoomCandidate(i);
      }
    }

    method QueryCallback(i: string, e: Reply)
      requires e.Answered?
      modifies this
      ensures Snapshot() == OnAnswer(old(Snapshot()), i, e)
    {
      if i !in candidates || e.error || e.address == None {
        return;
      }
      var c := AddAddress(candidates[i], e.address.value, e.add, now);
      candidates := candidates[i := c];
    }

    /** One reply, for a ref that is out and whose context is still there. */
    method Callback(ref: nat, e: Reply)
      requires Valid(ref)
      modifies this
      ensures Snapshot() == Step(old(Snapshot()), ref, e)
    {
      match live[ref] {
        case Registering =>
          if e.Registered? && !e.error {
            restartAttempt := 0;
          }
        case Browsing =>
          if e.Browsed? {
            BrowseCallback(e);
          }
        case Resolving(ctx, i) =>
          if e.Resolved? {
            ResolveCallback(ref, ctx, i, e);
          }
        case Querying(_, i, _) =>
          if e.Answered? {
            QueryCallback(i, e);
          }
      }
    }

    // --------------------------------------------------------------- the poll

    method ProcessResult(ref: nat, replies: seq<Reply>)
      requires Inv(Snapshot()) && ref in live
      modifies this
      ensures Snapshot() == Replies(old(Snapshot()), ref, replies)
      ensures Inv(Snapshot())
    {
      ghost var start := Snapshot();
      for k := 0 to |replies|
        invariant Replies(Snapshot(), ref, replies[k..]) == Replies(start, ref, replies)
        invariant Inv(Snapshot()) && ref in live
      {
        hide Ownership, Candidates, Step;
        ContextOutlivesRef(Snapshot(), ref);
        CallbacksFreeNothing(Snapshot(), ref, replies[k], ref);
        StepKeepsOwnership(Snapshot(), ref, replies[k]);
        StepKeepsCandidates(Snapshot(), ref, replies[k]);
        assert replies[k..][1..] == replies[k + 1..];
        Callback(ref, replies[k]);
      }
    }

    method Schedule()
      modifies this
      ensures Snapshot() == ScheduleRestart(old(Snapshot()))
    {
      var delay := NextRetryDelay(restartAttempt);
      restartAt := now + delay as int;
      if delay < MAX_RETRY_DELAY_MS as u32 {
        BackoffValues();
        restartAttempt := restartAttempt + 1;
      }
    }

    method RestartWanted(registerFails: bool, browseFails: bool)
      modifies this
      ensures Snapshot() == Restart(old(Snapshot()), registerFails, browseFails)
    {
      if advertiseWanted && registerRef == NULL {
        BeginRegister(registerFails);
      }
      if browseWanted && browseRef == NULL {
        BeginBrowse(browseFails);
      }
    }

    method Begin(at: int, registerFails: bool, browseFails: bool)
      modifies this
      ensures Snapshot() == BeginPoll(old(Snapshot()), at, registerFails, browseFails)
    {
      now := at;
      var missing := (advertiseWanted && registerRef == NULL) || (browseWanted && browseRef == NULL);
      if missing && restartAt < 0 {
        Schedule();
      }
      assert Snapshot() == NoteMissing(old(Snapshot()), at);
      if restartAt >= 0 && now >= restartAt {
        restartAt := -1;
        RestartWanted(registerFails, browseFails);
      }
    }

    method PumpVisits(visits: seq<Visit>)
      requires Inv(Snapshot())
      modifies this
      ensures Snapshot() == Pump(old(Snapshot()), visits)
      ensures Inv(Snapshot())
    {
      ghost var start := Snapshot();
      var k := 0;
      while k < |visits|
        invariant k <= |visits|
        invariant Pump(Snapshot(), visits[k..]) == Pump(start, visits)
        invariant Inv(Snapshot())
      {
        hide Ownership, Candidates, Replies, Fail;
        assert visits[k..][1..] == visits[k + 1..];
        if IsLive(Snapshot(), visits[k].ref) {
          ProcessedIsOurs(Snapshot(), visits[k].ref);
          ProcessResult(visits[k].ref, visits[k].replies);
          if visits[k].failed {
            FailNow();
            return;
          }
        }
        k := k + 1;
      }
    }

    method FailNow()
      requires Inv(Snapshot())
      modifies this
      ensures Snapshot() == Fail(old(Snapshot())) && Inv(Snapshot())
    {
      FailKeepsInv(Snapshot());
      TeardownAll();
      Schedule();
    }

    method PurgeDoomed()
      requires Ownership(Snapshot()) && retired == []
      modifies this
      ensures Snapshot() == Purge(old(Snapshot()), old(doomed))
    {
      ghost var start := Snapshot();
      var k := 0;
      while k < |doomed|
        invariant k <= |doomed| && doomed == start.doomed
        invariant Purge(Snapshot(), doomed[k..]) == Purge(start, doomed)
        invariant Ownership(Snapshot()) && retired == []
      {
        hide Ownership, Departed;
        var i := doomed[k];
        assert doomed[k..][1..] == doomed[k + 1..];
        if !(i in candidates && !Departed(candidates[i])) {
          ForgetKeepsOwnership(Snapshot(), i);
          ForgetCandidate(i);
        }
        k := k + 1;
      }
      doomed := [];
    }

    method SettleCandidate(i: string)
      requires i in candidates
      modifies this
      ensures Snapshot() == SettleOne(old(Snapshot()), i)
    {
      hide Dialable;
      var c := candidates[i];
      if c.resolvedSeq != 0 || c.firstAddress < 0 || now - c.firstAddress < ADDRESS_SETTLE_MS {
        return;
      }
      var url := DiscoveredServerUrl(Described(i, c));
      if url == None {
        return;
      }
      candidates := candidates[i := c.(resolvedSeq := nextSeq, settledAt := now)];
      nextSeq := nextSeq + 1;
    }

    /** The candidates in map order, which here is any order. */
    method SettleAddresses() returns (ghost names: seq<string>)
      modifies this
      ensures Snapshot() == Settle(old(Snapshot()), names)
      ensures RefNames(names) == candidates.Keys == old(candidates).Keys
    {
      var todo := candidates.Keys;
      ghost var start := Snapshot();
      names := [];
      while todo != {}
        invariant todo <= candidates.Keys == start.candidates.Keys
        invariant RefNames(names) + todo == candidates.Keys
        invariant Snapshot() == Settle(start, names)
        decreases |todo|
      {
        hide Settle, SettleOne;
        var i :| i in todo;
        todo := todo - {i};
        SettleOneMore(start, names, i);
        SettleOneKeepsKeys(Snapshot(), i);
        SettleCandidate(i);
        assert RefNames(names + [i]) == RefNames(names) + {i};
        names := names + [i];
      }
    }

    /** poll_once(): the snapshot's readable refs are `visits`, in the snapshot's order. */
    method PollOnce(at: int, registerFails: bool, browseFails: bool, visits: seq<Visit>)
        returns (ghost names: seq<string>)
      requires Quiet(Snapshot()) && at >= now
      modifies this
      ensures Snapshot() == Apply(old(Snapshot()), Poll(at, registerFails, browseFails, visits, names))
      ensures RefNames(names) == candidates.Keys && NoneDue(Snapshot())
      ensures Quiet(Snapshot())
    {
      hide Quiet, Inv, Ownership, BeginPoll, Pump, Drain, Purge, Settle, NoneDue;
      ghost var start := Snapshot();
      QuietInv(start);
      BeginKeepsInv(start, at, registerFails, browseFails);
      Begin(at, registerFails, browseFails);
      PumpVisits(visits);
      InvOwns(Snapshot());
      DrainKeepsOwnership(Snapshot());
      DrainRetired();
      PurgeDoomed();
      names := SettleAddresses();
      ApplyKeepsQuiet(start, Poll(at, registerFails, browseFails, visits, names));
      assert forall i :: i in candidates ==> i in RefNames(names);
      PollLeavesNoneDue(start, Poll(at, registerFails, browseFails, visits, names));
    }

    // ------------------------------------------------------------- servers()

    /** Exactly the settled candidates that are dialable now, in the order they settled. */
    method Servers() returns (servers: seq<Server>)
      requires Quiet(Snapshot())
      ensures var names := Instances(servers);
              && Describe(servers, names) && InOrder(names) && SettledProperly(names)
              && forall i :: i in names <==> Offered(Snapshot(), i)
    {
      var ready := Ready();
      var names;
      servers, names := FilterDialable(ready);
      assert Instances(servers) == names;
      OrderMeansTime(names);
    }

    method FilterDialable(ready: seq<string>) returns (servers: seq<Server>, names: seq<string>)
      requires InOrder(ready)
      ensures Describe(servers, names) && InOrder(names)
      ensures forall i :: i in names <==> i in ready && Offered(Snapshot(), i)
    {
      servers, names := [], [];
      for k := 0 to |ready|
        invariant Describe(servers, names) && InOrder(names)
        invariant forall i :: i in names <==> i in ready[..k] && Offered(Snapshot(), i)
      {
        hide Dialable, InOrder, Describe;
        assert ready[..k + 1] == ready[..k] + [ready[k]];
        EarlierAreBefore(ready, k);
        var s := Described(ready[k], candidates[ready[k]]);
        var url := DiscoveredServerUrl(s);
        if url.Some? {
          AppendInOrder(servers, names, s, ready[k]);
          servers := servers + [s];
          names := names + [ready[k]];
        }
      }
      assert ready[..|ready|] == ready;
    }

    lemma EarlierAreBefore(ready: seq<string>, k: nat)
      requires InOrder(ready) && k < |ready|
      ensures ready[k] in candidates && candidates[ready[k]].resolvedSeq != 0
      ensures forall i :: i in ready[..k] ==>
              i in candidates && candidates[i].resolvedSeq < candidates[ready[k]].resolvedSeq
    {
    }

    lemma AppendInOrder(servers: seq<Server>, names: seq<string>, s: Server, i: string)
      requires InOrder(names) && Describe(servers, names)
      requires i in candidates && candidates[i].resolvedSeq != 0 && s == Described(i, candidates[i])
      requires forall j :: j in names ==> j in candidates && candidates[j].resolvedSeq < candidates[i].resolvedSeq
      ensures InOrder(names + [i]) && Describe(servers + [s], names + [i])
    {
    }

    ghost predicate Describe(servers: seq<Server>, names: seq<string>)
      reads this
    {
      |servers| == |names| && forall k :: 0 <= k < |names| ==>
          names[k] in candidates && servers[k] == Described(names[k], candidates[names[k]])
    }

    /** All settled, in strictly increasing order of settling. */
    ghost predicate InOrder(names: seq<string>)
      reads this
    {
      (forall k :: 0 <= k < |names| ==> names[k] in candidates && candidates[names[k]].resolvedSeq != 0)
      && forall j, k :: 0 <= j < k < |names| ==> candidates[names[j]].resolvedSeq < candidates[names[k]].resolvedSeq
    }

    /** Earlier in the list is no later in time, and each had its addresses long enough. */
    ghost predicate SettledProperly(names: seq<string>)
      requires InOrder(names)
      reads this
    {
      (forall k :: 0 <= k < |names| ==>
          candidates[names[k]].settledAt - candidates[names[k]].firstAddress >= ADDRESS_SETTLE_MS)
      && forall j, k :: 0 <= j < k < |names| ==> candidates[names[j]].settledAt <= candidates[names[k]].settledAt
    }

    lemma OrderMeansTime(names: seq<string>)
      requires Quiet(Snapshot()) && InOrder(names)
      ensures SettledProperly(names)
    {
      forall j, k | 0 <= j < k < |names| ensures candidates[names[j]].settledAt <= candidates[names[k]].settledAt {
        assert Ordered(names[j], candidates[names[j]], names[k], candidates[names[k]]);
      }
      forall k | 0 <= k < |names|
        ensures candidates[names[k]].settledAt - candidates[names[k]].firstAddress >= ADDRESS_SETTLE_MS
      {
        assert CandidateOk(candidates[names[k]], nextSeq, now);
      }
    }

    /** The settled candidates, sorted by resolved_seq. */
    method Ready() returns (ready: seq<string>)
      requires Quiet(Snapshot())
      ensures InOrder(ready)
      ensures forall i :: i in candidates && candidates[i].resolvedSeq != 0 ==> i in ready
    {
      ready := [];
      var todo := candidates.Keys;
      while todo != {}
        invariant todo <= candidates.Keys
        invariant InOrder(ready) && forall i :: i in ready ==> i !in todo
        invariant forall i :: i in candidates && i !in todo && candidates[i].resolvedSeq != 0 ==> i in ready
        decreases |todo|
      {
        hide Quiet;
        var i :| i in todo;
        todo := todo - {i};
        if candidates[i].resolvedSeq != 0 {
          DistinctPlaces(i, ready);
          ready := Insert(ready, i);
        }
      }
    }

    lemma DistinctPlaces(i: string, ready: seq<string>)
      requires Quiet(Snapshot()) && InOrder(ready) && i in candidates && candidates[i].resolvedSeq != 0 && i !in ready
      ensures forall k :: 0 <= k < |ready| ==> candidates[ready[k]].resolvedSeq != candidates[i].resolvedSeq
    {
      forall k | 0 <= k < |ready| ensures candidates[ready[k]].resolvedSeq != candidates[i].resolvedSeq {
        assert Ordered(i, candidates[i], ready[k], candidates[ready[k]]);
      }
    }

    method Insert(ready: seq<string>, i: string) returns (longer: seq<string>)
      requires InOrder(ready) && i in candidates && candidates[i].resolvedSeq != 0
      requires forall k :: 0 <= k < |ready| ==> candidates[ready[k]].resolvedSeq != candidates[i].resolvedSeq
      ensures InOrder(longer) && forall j :: j in longer <==> j == i || j in ready
    {
      var p := 0;
      while p < |ready| && candidates[ready[p]].resolvedSeq < candidates[i].resolvedSeq
        invariant p <= |ready|
        invariant forall k :: 0 <= k < p ==> candidates[ready[k]].resolvedSeq < candidates[i].resolvedSeq
      {
        p := p + 1;
      }
      hide InsertedAt;
      longer := InsertedAt(ready, p, i);
      InsertedPlaces(ready, p, i);
    }
  }

  function InsertedAt(names: seq<string>, p: nat, i: string): seq<string>
    requires p <= |names|
  {
    names[..p] + [i] + names[p..]
  }

  lemma InsertedPlaces(names: seq<string>, p: nat, i: string)
    requires p <= |names|
    ensures |InsertedAt(names, p, i)| == |names| + 1
    ensures forall k :: 0 <= k <= |names| ==>
              InsertedAt(names, p, i)[k] == if k < p then names[k] else if k == p then i else names[k - 1]
    ensures forall j :: j in InsertedAt(names, p, i) <==> j == i || j in names
  {
    assert names == names[..p] + names[p..];
  }

  function Instances(servers: seq<Server>): seq<string> {
    seq(|servers|, k requires 0 <= k < |servers| => servers[k].instance)
  }

  function RefNames(names: seq<string>): set<string> {
    set i | i in names
  }

  lemma {:induction false} SettleOneMore(s: State, names: seq<string>, i: string)
    ensures Settle(s, names + [i]) == SettleOne(Settle(s, names), i)
    decreases |names|
  {
    hide SettleOne;
    if names == [] {
      assert [] + [i] == [i] && [i][1..] == [];
      assert Settle(SettleOne(s, i), []) == SettleOne(s, i);
    } else {
      assert (names + [i])[0] == names[0] && (names + [i])[1..] == names[1..] + [i];
      SettleOneMore(SettleOne(s, names[0]), names[1..], i);
    }
  }

  lemma SettleOneKeepsKeys(s: State, i: string)
    ensures SettleOne(s, i).candidates.Keys == s.candidates.Keys
  {
  }

  lemma QuietInv(s: State)
    requires Quiet(s)
    ensures Inv(s)
  {
  }

  lemma InvOwns(s: State)
    requires Inv(s)
    ensures Ownership(s)
  {
  }

  /** std::find. */
  method FindAddress(addresses: seq<Address>, a: Address) returns (found: nat)
    ensures found <= |addresses| && (forall j :: 0 <= j < found ==> addresses[j] != a)
    ensures found < |addresses| ==> addresses[found] == a
  {
    found := 0;
    while found < |addresses| && addresses[found] != a
      invariant found <= |addresses| && forall j :: 0 <= j < found ==> addresses[j] != a
    {
      found := found + 1;
    }
  }

  lemma {:induction false} WithoutFirst(addresses: seq<Address>, a: Address, found: nat)
    requires found <= |addresses| && (forall j :: 0 <= j < found ==> addresses[j] != a)
    requires found < |addresses| ==> addresses[found] == a
    ensures Without(addresses, a) ==
            if found < |addresses| then addresses[..found] + addresses[found + 1..] else addresses
    decreases found
  {
    if found > 0 {
      var first, rest := addresses[0], addresses[1..];
      assert forall j :: 0 <= j < found - 1 ==> rest[j] == addresses[j + 1];
      WithoutFirst(rest, a, found - 1);
      assert Without(addresses, a) == [first] + Without(rest, a);
      if found < |addresses| {
        FirstStays(addresses, found);
      } else {
        assert [first] + rest == addresses;
      }
    }
  }

  lemma FirstStays(addresses: seq<Address>, found: nat)
    requires 0 < found < |addresses|
    ensures [addresses[0]] + (addresses[1..][..found - 1] + addresses[1..][found..]) ==
            addresses[..found] + addresses[found + 1..]
  {
  }

  /** add_address(): the first occurrence found is the one erased. */
  method AddAddress(c: Candidate, a: Address, add: bool, now: int) returns (c': Candidate)
    ensures c' == ChangeAddress(c, a, add, now)
  {
    var found := FindAddress(c.addresses, a);
    WithoutFirst(c.addresses, a, found);
    if !add {
      return if found < |c.addresses| then c.(addresses := c.addresses[..found] + c.addresses[found + 1..]) else c;
    }
    if found < |c.addresses| {
      return c;
    }
    return c.(addresses := c.addresses + [a], firstAddress := if c.firstAddress < 0 then now else c.firstAddress);
  }

  // ------------------------------------------------------- from start to list

  /** One poll after another, under a steady clock. */
  predicate Steady(polls: seq<Op>) {
    && (forall k :: 0 <= k < |polls| ==> polls[k].Poll?)
    && (polls != [] ==> polls[0].now >= 0)
    && forall j, k :: 0 <= j < k < |polls| ==> polls[j].now <= polls[k].now
  }

  /** `ops` is a browse() and then the polls, each with the order in which it visited the candidates. */
  predicate IsRunOf(ops: seq<Op>, browseFails: bool, polls: seq<Op>) {
    && |ops| == |polls| + 1 && ops[0] == MdnsRuns.Browse(browseFails)
    && forall k :: 0 <= k < |polls| ==> SameCall(ops[k + 1], polls[k])
  }

  predicate SameCall(op: Op, poll: Op) {
    && op.Poll? && poll.Poll? && op.now == poll.now && op.registerFails == poll.registerFails
    && op.browseFails == poll.browseFails && op.visits == poll.visits
  }

  lemma OneMorePoll(ops: seq<Op>, browseFails: bool, polls: seq<Op>, k: nat, op: Op)
    requires k < |polls| && IsRunOf(ops, browseFails, polls[..k]) && SameCall(op, polls[k])
    ensures IsRunOf(ops + [op], browseFails, polls[..k + 1])
  {
    hide SameCall;
    var longer := ops + [op];
    assert forall j :: 0 <= j < |ops| ==> longer[j] == ops[j];
  }

  /** Browse, then poll: whatever dns_sd says, servers() lists exactly the names that what it said
      settles and makes dialable, each as it was told. */
  method ServersAfter(browseFails: bool, polls: seq<Op>) returns (servers: seq<Server>, ghost ops: seq<Op>)
    requires Steady(polls)
    ensures IsRunOf(ops, browseFails, polls)
    ensures forall i :: i in Instances(servers) <==> OfferedTold(i, SinceFound(ops, i))
    ensures forall k :: 0 <= k < |servers| ==>
              servers[k] == ServerTold(servers[k].instance, SinceFound(ops, servers[k].instance))
  {
    hide Quiet, Apply, AllAllowed, AllVisited, MdnsRuns.Run, ToldByRun, SinceFound, OfferedTold, ServerTold, Offered;
    hide IsRunOf;
    var impl := new Impl();
    StartsQuiet();
    BrowseBegins(browseFails);
    impl.Browse(browseFails);
    ops := [MdnsRuns.Browse(browseFails)];
    assert impl.Snapshot().now == 0;
    assert IsRunOf(ops, browseFails, polls[..0]) by { BrowseIsRun(browseFails, polls); }
    for k := 0 to |polls|
      invariant IsRunOf(ops, browseFails, polls[..k])
      invariant fresh(impl) && impl.Snapshot() == MdnsRuns.Run(STOPPED, ops) && Quiet(impl.Snapshot())
      invariant AllAllowed(STOPPED, ops) && AllVisited(STOPPED, ops)
      invariant k < |polls| ==> polls[k].Poll? && impl.now <= polls[k].now
    {
      var p := polls[k];
      ghost var names := impl.PollOnce(p.now, p.registerFails, p.browseFails, p.visits);
      ghost var op := Poll(p.now, p.registerFails, p.browseFails, p.visits, names);
      assert forall i :: i in impl.candidates ==> i in RefNames(names);
      PollSetsClock(ops, op);
      OneMoreOp(STOPPED, map[], ops, op);
      OneMorePoll(ops, browseFails, polls, k, op);
      ops := ops + [op];
    }
    assert polls[..|polls|] == polls;
    servers := impl.Servers();
    forall i ensures i in Instances(servers) <==> OfferedTold(i, SinceFound(ops, i)) {
      OfferedAsTold(ops, i);
    }
    forall k | 0 <= k < |servers|
      ensures servers[k] == ServerTold(servers[k].instance, SinceFound(ops, servers[k].instance))
    {
      OfferedAsTold(ops, servers[k].instance);
    }
  }

  lemma BrowseIsRun(fails: bool, polls: seq<Op>)
    ensures IsRunOf([MdnsRuns.Browse(fails)], fails, polls[..0])
  {
  }

  lemma BrowseBegins(fails: bool)
    ensures var op := MdnsRuns.Browse(fails);
            && Quiet(Apply(STOPPED, op)) && Apply(STOPPED, op).now == 0
            && AllAllowed(STOPPED, [op]) && AllVisited(STOPPED, [op])
            && MdnsRuns.Run(STOPPED, [op]) == Apply(STOPPED, op)
  {
    var op := MdnsRuns.Browse(fails);
    StartsQuiet();
    ApplyKeepsQuiet(STOPPED, op);
    assert [op][1..] == [];
    hide Quiet;
  }
}
