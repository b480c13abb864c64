/** The candidate machine of src/mdns_dnssd.cpp, as values.

    `live` is dns_sd's own book-keeping: every DNSServiceRef allocated and not yet
    deallocated, with what it was made for. A CandidateContext is identified by a
    number never used twice, so that a dangling one cannot be mistaken for its
    successor. MdnsService.dfy is the class that works this way step by step.
 */
module Mdns {
  import opened Machine
  import opened MdnsRules
  import opened Outbound

  const ADDRESS_SETTLE_MS := 250

  /** What a ref was made for, and with which context. */
  datatype Handle =
    | Registering
    | Browsing
    | Resolving(ctx: nat, instance: string)
    | Querying(ctx: nat, instance: string, v6: bool)

  /** A browse reply for one interface: found there, or lost there. */
  datatype Change = Change(add: bool, interface: nat)

  datatype Details = Details(host: string, port: nat, interface: nat, path: string, name: string)

  /** `settledAt` is history: the tick that gave the candidate its place in the order. */
  datatype Candidate = Candidate(
    resolveRef: nat, v4Ref: nat, v6Ref: nat,
    interfaces: set<nat>, details: Details, addresses: seq<Address>,
    firstAddress: int, resolvedSeq: nat, unusable: bool, settledAt: int)

  datatype State = State(
    live: map<nat, Handle>, nextRef: nat, nextCtx: nat,
    registerRef: nat, browseRef: nat, advertiseWanted: bool, browseWanted: bool,
    candidates: map<string, Candidate>, contexts: map<string, nat>,
    retired: seq<nat>, doomed: seq<string>,
    nextSeq: nat, restartAt: int, restartAttempt: nat, now: int)

  const NULL: nat := 0

  const STOPPED := State(map[], 1, 0, NULL, NULL, false, false, map[], map[], [], [], 1, -1, 0, 0)

  /** A reply delivered to the callback of the ref it belongs to; `fails` says which of the
      dns_sd calls the callback makes are refused. */
  datatype Reply =
    | Registered(error: bool)
    | Browsed(error: bool, change: Change, instance: string, resolveFails: bool)
    | Resolved(error: bool, details: Details, v4Fails: bool, v6Fails: bool)
    | Answered(error: bool, add: bool, address: Option<Address>)

  // --------------------------------------------------------- dns_sd's own part

  function Allocate(s: State, h: Handle): State {
    s.(live := s.live[s.nextRef := h], nextRef := s.nextRef + 1)
  }

  function SlotRefs(c: Candidate): set<nat> {
    {c.resolveRef, c.v4Ref, c.v6Ref}
  }

  function RefSet(refs: seq<nat>): set<nat> {
    set r | r in refs
  }

  // ------------------------------------------------------ starting and stopping

  function StartRegister(s: State, fails: bool): State {
    if fails then s.(registerRef := NULL) else Allocate(s, Registering).(registerRef := s.nextRef)
  }

  function StartBrowse(s: State, fails: bool): State {
    if fails then s.(browseRef := NULL)
    else Allocate(s, Browsing).(browseRef := s.nextRef, restartAttempt := 0)
  }

  /** Only what is missing. */
  function Restart(s: State, registerFails: bool, browseFails: bool): State {
    var s1 := if s.advertiseWanted && s.registerRef == NULL then StartRegister(s, registerFails) else s;
    if s1.browseWanted && s1.browseRef == NULL then StartBrowse(s1, browseFails) else s1
  }

  function ScheduleRestart(s: State): State {
    s.(restartAt := s.now + Backoff(s.restartAttempt),
       restartAttempt :=
         if Backoff(s.restartAttempt) < MAX_RETRY_DELAY_MS then s.restartAttempt + 1 else s.restartAttempt)
  }

  /** Everything that was ours is deallocated. */
  function Teardown(s: State): State {
    s.(live := map r | r in s.live && !Owned(s, r) :: s.live[r],
       retired := [], candidates := map[], contexts := map[], doomed := [], browseRef := NULL, registerRef := NULL)
  }

  /** The refs a teardown releases: retired ones, candidates' slots, browse and register. */
  predicate Owned(s: State, r: nat) {
    || r in s.retired || r == s.registerRef || r == s.browseRef
    || exists i :: i in s.candidates && r in SlotRefs(s.candidates[i])
  }

  // ---------------------------------------------------------------- callbacks

  function Hear(c: Candidate, change: Change): Candidate {
    c.(interfaces := if change.add then c.interfaces + {change.interface} else c.interfaces - {change.interface})
  }

  function NewCandidate(ref: nat, change: Change): Candidate {
    Candidate(ref, NULL, NULL, {change.interface}, Details("", 0, change.interface, "", ""), [],
              -1, 0, false, 0)
  }

  function OnBrowse(s: State, e: Reply): State
    requires e.Browsed?
  {
    var i := e.instance;
    if e.error then s
    else if i in s.candidates then
      var c := Hear(s.candidates[i], e.change);
      s.(candidates := s.candidates[i := c],
         doomed := if !e.change.add && c.interfaces == {} then s.doomed + [i] else s.doomed)
    else if !e.change.add then s
    else if e.resolveFails then s.(nextCtx := s.nextCtx + 1, contexts := s.contexts - {i})
    else Allocate(s, Resolving(s.nextCtx, i)).(
           nextCtx := s.nextCtx + 1, contexts := s.contexts[i := s.nextCtx],
           candidates := s.candidates[i := NewCandidate(s.nextRef, e.change)])
  }

  function Doom(s: State, i: string): State
    requires i in s.candidates
  {
    s.(candidates := s.candidates[i := s.candidates[i].(unusable := true)], doomed := s.doomed + [i])
  }

  /** start_address_query() for one family: the slot takes the new ref, or null. */
  function Query(s: State, i: string, ctx: nat, v6: bool, fails: bool): State
    requires i in s.candidates
  {
    var ref := if fails then NULL else s.nextRef;
    var c := s.candidates[i];
    var s1 := if fails then s else Allocate(s, Querying(ctx, i, v6));
    s1.(candidates := s.candidates[i := if v6 then c.(v6Ref := ref) else c.(v4Ref := ref)])
  }

  function Retire(s: State, ref: nat, i: string, details: Details): State
    requires i in s.candidates
  {
    s.(candidates := s.candidates[i := s.candidates[i].(resolveRef := NULL, details := details)],
       retired := s.retired + [ref])
  }

  function OnResolve(s: State, ref: nat, ctx: nat, i: string, e: Reply): State
    requires e.Resolved?
  {
    if i !in s.candidates then s
    else if e.error then Doom(s, i)
    else if s.candidates[i].resolveRef == NULL then s
    else
      var s1 := Retire(s, ref, i, e.details);
      var s2 := Query(Query(s1, i, ctx, false, e.v4Fails), i, ctx, true, e.v6Fails);
      if s2.candidates[i].v4Ref == NULL && s2.candidates[i].v6Ref == NULL then Doom(s2, i) else s2
  }

  /** The first occurrence goes. */
  function Without(addresses: seq<Address>, a: Address): seq<Address> {
    if addresses == [] then []
    else if addresses[0] == a then addresses[1..]
    else [addresses[0]] + Without(addresses[1..], a)
  }

  function ChangeAddress(c: Candidate, a: Address, add: bool, now: int): Candidate {
    if !add then c.(addresses := Without(c.addresses, a))
    else if a in c.addresses then c
    else c.(addresses := c.addresses + [a], firstAddress := if c.firstAddress < 0 then now else c.firstAddress)
  }

  function OnAnswer(s: State, i: string, e: Reply): State
    requires e.Answered?
  {
    if i !in s.candidates || e.error || e.address == None then s
    else s.(candidates := s.candidates[i := ChangeAddress(s.candidates[i], e.address.value, e.add, s.now)])
  }

  /** dns_sd calls the callback a ref was made with, and no other. */
  predicate Fits(h: Handle, e: Reply) {
    match h
    case Registering => e.Registered?
    case Browsing => e.Browsed?
    case Resolving(_, _) => e.Resolved?
    case Querying(_, _, _) => e.Answered?
  }

  function Deliver(s: State, ref: nat, e: Reply): State
    requires ref in s.live && Fits(s.live[ref], e)
  {
    match s.live[ref]
    case Registering => if e.error then s else s.(restartAttempt := 0)
    case Browsing => OnBrowse(s, e)
    case Resolving(ctx, i) => OnResolve(s, ref, ctx, i, e)
    case Querying(_, i, _) => OnAnswer(s, i, e)
  }

  // ------------------------------------------------------------- end of a poll

  function Drain(s: State): State {
    s.(live := s.live - RefSet(s.retired), retired := [])
  }

  function Forget(s: State, i: string): State {
    if i !in s.candidates then s
    else s.(live := s.live - SlotRefs(s.candidates[i]), candidates := s.candidates - {i}, contexts := s.contexts - {i})
  }

  predicate Departed(c: Candidate) {
    c.unusable || c.interfaces == {}
  }

  function Purge(s: State, names: seq<string>): State
    decreases |names|
  {
    if names == [] then s.(doomed := [])
    else if names[0] in s.candidates && !Departed(s.candidates[names[0]]) then Purge(s, names[1..])
    else Purge(Forget(s, names[0]), names[1..])
  }

  function Described(i: string, c: Candidate): Server {
    Server(i, c.details.name, c.details.path, c.details.port, c.addresses)
  }

  predicate Due(i: string, c: Candidate, now: int) {
    c.resolvedSeq == 0 && c.firstAddress >= 0 && now - c.firstAddress >= ADDRESS_SETTLE_MS && Dialable(Described(i, c))
  }

  /** What servers() offers of a name. */
  predicate Offered(s: State, i: string) {
    i in s.candidates && s.candidates[i].resolvedSeq != 0 && Dialable(Described(i, s.candidates[i]))
  }

  function SettleOne(s: State, i: string): State {
    if i in s.candidates && Due(i, s.candidates[i], s.now) then
      s.(candidates := s.candidates[i := s.candidates[i].(resolvedSeq := s.nextSeq, settledAt := s.now)],
          nextSeq := s.nextSeq + 1)
    else s
  }

  /** `names` is the order in which the candidates are visited. */
  function Settle(s: State, names: seq<string>): State
    decreases |names|
  {
    if names == [] then s else Settle(SettleOne(s, names[0]), names[1..])
  }

  // --------------------------------------------------------------- invariants

  /** r is a ref of dns_sd's, made for `h`. */
  predicate Has(s: State, r: nat, h: Handle) {
    r in s.live && s.live[r] == h
  }

  predicate SlotsOk(s: State, i: string)
    requires i in s.candidates && i in s.contexts
  {
    var c, x := s.candidates[i], s.contexts[i];
    && (c.resolveRef != NULL ==> Has(s, c.resolveRef, Resolving(x, i)) && c.v4Ref == NULL && c.v6Ref == NULL)
    && (c.v4Ref != NULL ==> Has(s, c.v4Ref, Querying(x, i, false)))
    && (c.v6Ref != NULL ==> Has(s, c.v6Ref, Querying(x, i, true)))
  }

  predicate RetiredOk(s: State, r: nat) {
    && r in s.live && s.live[r].Resolving?
    && s.live[r].instance in s.candidates && s.candidates[s.live[r].instance].resolveRef == NULL
  }

  /** The live ref's context is still allocated, and it is where its kind says. */
  predicate LiveOk(s: State, r: nat)
    requires r in s.live
  {
    match s.live[r]
    case Registering => r == s.registerRef
    case Browsing => r == s.browseRef
    case Resolving(x, i) =>
      i in s.candidates && i in s.contexts && s.contexts[i] == x && (r == s.candidates[i].resolveRef || r in s.retired)
    case Querying(x, i, v6) =>
      i in s.candidates && i in s.contexts && s.contexts[i] == x
          && r == if v6 then s.candidates[i].v6Ref else s.candidates[i].v4Ref
  }

  ghost predicate LiveAll(s: State) {
    forall r :: r in s.live ==> 0 < r < s.nextRef && LiveOk(s, r)
  }

  ghost predicate SlotsAll(s: State) {
    && s.contexts.Keys == s.candidates.Keys
    && (forall i :: i in s.candidates ==> SlotsOk(s, i))
  }

  ghost predicate RetiredAll(s: State) {
    && (forall r :: r in s.retired ==> RetiredOk(s, r))
    && (forall j, k :: 0 <= j < k < |s.retired| ==> s.retired[j] != s.retired[k])
  }

  ghost predicate SinglesOk(s: State) {
    && s.nextRef > 0
    && (s.registerRef != NULL ==> Has(s, s.registerRef, Registering))
    && (s.browseRef != NULL ==> Has(s, s.browseRef, Browsing))
  }

  ghost predicate Ownership(s: State) {
    LiveAll(s) && SlotsAll(s) && RetiredAll(s) && SinglesOk(s)
  }

  ghost predicate CandidateOk(c: Candidate, nextSeq: nat, now: int) {
    && c.resolvedSeq < nextSeq
    && (c.resolvedSeq != 0 ==> c.firstAddress >= 0 && c.firstAddress + ADDRESS_SETTLE_MS <= c.settledAt <= now)
  }

  /** Settled earlier means ahead in the order, and no two share a place. */
  predicate Ordered(i: string, c: Candidate, j: string, d: Candidate) {
    0 < c.resolvedSeq <= d.resolvedSeq ==> c.settledAt <= d.settledAt && (c.resolvedSeq == d.resolvedSeq ==> i == j)
  }

  ghost predicate CandidatesOk(s: State) {
    s.nextSeq > 0 && forall i :: i in s.candidates ==> CandidateOk(s.candidates[i], s.nextSeq, s.now)
  }

  ghost predicate DepartedDoomed(s: State) {
    forall i :: i in s.candidates && Departed(s.candidates[i]) ==> i in s.doomed
  }

  ghost predicate SettleOrder(s: State) {
    forall i, j :: i in s.candidates && j in s.candidates ==> Ordered(i, s.candidates[i], j, s.candidates[j])
  }

  ghost predicate Candidates(s: State) {
    CandidatesOk(s) && DepartedDoomed(s) && SettleOrder(s)
  }

  /** Within a poll. */
  ghost predicate Inv(s: State) {
    Ownership(s) && Candidates(s)
  }

  /** Between polls nothing is waiting to be released. */
  ghost predicate Quiet(s: State) {
    Inv(s) && s.retired == [] && s.doomed == []
  }

  // ---------------------------------------- ownership, one step at a time

  lemma RegisterKeepsOwnership(s: State, fails: bool)
    requires Ownership(s) && s.registerRef == NULL
    ensures Ownership(StartRegister(s, fails))
  {
  }

  lemma BrowseKeepsOwnership(s: State, fails: bool)
    requires Ownership(s) && s.browseRef == NULL
    ensures Ownership(StartBrowse(s, fails))
  {
  }

  lemma TeardownKeepsOwnership(s: State)
    requires Ownership(s)
    ensures Ownership(Teardown(s)) && Teardown(s).live == map[]
  {
    forall r | r in s.live ensures Owned(s, r) {
      assert LiveOk(s, r);
      match s.live[r]
      case Registering =>
      case Browsing =>
      case Resolving(_, i) => assert r in s.retired || r in SlotRefs(s.candidates[i]);
      case Querying(_, i, _) => assert r in SlotRefs(s.candidates[i]);
    }
  }

  predicate SameSlots(c: Candidate, c': Candidate) {
    c'.resolveRef == c.resolveRef && c'.v4Ref == c.v4Ref && c'.v6Ref == c.v6Ref
  }

  /** Changes that touch no ref of anybody's. */
  ghost predicate SameRefs(s: State, s': State) {
    && s'.live == s.live && s'.nextRef == s.nextRef && s'.contexts == s.contexts
    && s'.registerRef == s.registerRef && s'.browseRef == s.browseRef && s'.retired == s.retired
    && s'.candidates.Keys == s.candidates.Keys
    && (forall i :: i in s.candidates ==> SameSlots(s.candidates[i], s'.candidates[i]))
  }

  lemma SameRefsSameLive(s: State, s': State)
    requires SameRefs(s, s') && LiveAll(s)
    ensures LiveAll(s')
  {
    forall r | r in s'.live ensures 0 < r < s'.nextRef && LiveOk(s', r) {
      assert LiveOk(s, r);
    }
  }

  lemma SameRefsSameOwnership(s: State, s': State)
    requires SameRefs(s, s') && Ownership(s)
    ensures Ownership(s')
  {
    SameRefsSameLive(s, s');
    hide LiveAll;
    assert forall i :: i in s.candidates ==> SlotsOk(s, i);
    assert forall r :: r in s.retired ==> RetiredOk(s, r);
  }

  lemma DiscoverKeepsLive(s: State, e: Reply)
    requires LiveAll(s) && e.Browsed? && e.instance !in s.candidates && s.contexts.Keys == s.candidates.Keys
    requires NULL < s.nextRef
    ensures LiveAll(OnBrowse(s, e))
  {
    var s' := OnBrowse(s, e);
    forall r | r in s'.live ensures 0 < r < s'.nextRef && LiveOk(s', r) {
      if r in s.live {
        assert LiveOk(s, r);
      }
    }
  }

  lemma DiscoverKeepsSlots(s: State, e: Reply)
    requires SlotsAll(s) && e.Browsed? && e.instance !in s.candidates && 0 < s.nextRef && s.nextRef !in s.live
    ensures SlotsAll(OnBrowse(s, e))
  {
    var s' := OnBrowse(s, e);
    forall i | i in s'.candidates ensures SlotsOk(s', i) {
      if i in s.candidates {
        assert SlotsOk(s, i);
      }
    }
  }

  lemma DiscoverKeepsRetired(s: State, e: Reply)
    requires RetiredAll(s) && e.Browsed? && e.instance !in s.candidates && s.nextRef !in s.live
    ensures RetiredAll(OnBrowse(s, e))
  {
    assert forall r :: r in s.retired ==> RetiredOk(s, r);
  }

  lemma DiscoverKeepsOwnership(s: State, e: Reply)
    requires Ownership(s) && e.Browsed? && e.instance !in s.candidates
    ensures Ownership(OnBrowse(s, e))
  {
    DiscoverKeepsLive(s, e);
    assert forall r :: r in s.live ==> r < s.nextRef;
    hide LiveAll, SlotsAll, RetiredAll;
    DiscoverKeepsSlots(s, e);
    DiscoverKeepsRetired(s, e);
  }

  lemma RetireKeepsLive(s: State, ref: nat, i: string, details: Details)
    requires LiveAll(s) && i in s.candidates && ref == s.candidates[i].resolveRef
    ensures LiveAll(Retire(s, ref, i, details))
  {
    var s' := Retire(s, ref, i, details);
    assert ref in s'.retired;
    assert forall r :: r in s.retired ==> r in s'.retired;
    forall r | r in s'.live ensures 0 < r < s'.nextRef && LiveOk(s', r) {
      assert LiveOk(s, r);
    }
  }

  lemma RetireKeepsSlots(s: State, ref: nat, i: string, details: Details)
    requires SlotsAll(s) && i in s.candidates
    ensures SlotsAll(Retire(s, ref, i, details))
  {
    var s' := Retire(s, ref, i, details);
    forall j | j in s'.candidates ensures SlotsOk(s', j) {
      assert SlotsOk(s, j);
    }
  }

  lemma RetireKeepsRetired(s: State, ref: nat, i: string, details: Details)
    requires RetiredAll(s) && i in s.candidates && ref == s.candidates[i].resolveRef != NULL
    requires ref in s.live && s.live[ref].Resolving? && s.live[ref].instance == i
    ensures RetiredAll(Retire(s, ref, i, details))
  {
    var s' := Retire(s, ref, i, details);
    assert ref !in s.retired by {
      assert ref in s.retired ==> RetiredOk(s, ref);
    }
    forall r | r in s'.retired ensures RetiredOk(s', r) {
      assert r in s.retired ==> RetiredOk(s, r);
      assert r == ref || r in s.retired;
    }
    forall j, k | 0 <= j < k < |s'.retired| ensures s'.retired[j] != s'.retired[k] {
      assert s'.retired[j] in s.retired;
    }
  }

  lemma RetireKeepsOwnership(s: State, ref: nat, i: string, details: Details)
    requires Ownership(s) && i in s.candidates && ref == s.candidates[i].resolveRef != NULL
    ensures Ownership(Retire(s, ref, i, details))
  {
    assert SlotsOk(s, i);
    hide LiveAll, SlotsAll, RetiredAll;
    RetireKeepsLive(s, ref, i, details);
    RetireKeepsSlots(s, ref, i, details);
    RetireKeepsRetired(s, ref, i, details);
  }

  lemma QueryKeepsLive(s: State, i: string, ctx: nat, v6: bool, fails: bool)
    requires LiveAll(s) && i in s.candidates && i in s.contexts && s.contexts[i] == ctx
    requires NULL !in s.live && (if v6 then s.candidates[i].v6Ref else s.candidates[i].v4Ref) == NULL
    requires NULL < s.nextRef
    ensures LiveAll(Query(s, i, ctx, v6, fails))
  {
    var s' := Query(s, i, ctx, v6, fails);
    forall r | r in s'.live ensures 0 < r < s'.nextRef && LiveOk(s', r) {
      if r in s.live {
        assert LiveOk(s, r);
      }
    }
  }

  lemma QueryKeepsSlots(s: State, i: string, ctx: nat, v6: bool, fails: bool)
    requires SlotsAll(s) && i in s.candidates && i in s.contexts && s.contexts[i] == ctx && 0 < s.nextRef
             && s.nextRef !in s.live
    requires s.candidates[i].resolveRef == NULL
    ensures SlotsAll(Query(s, i, ctx, v6, fails))
  {
    var s' := Query(s, i, ctx, v6, fails);
    assert SlotsOk(s, i);
    forall j | j in s'.candidates ensures SlotsOk(s', j) {
      assert SlotsOk(s, j);
    }
  }

  lemma QueryKeepsRetired(s: State, i: string, ctx: nat, v6: bool, fails: bool)
    requires RetiredAll(s) && i in s.candidates && s.nextRef !in s.live
    ensures RetiredAll(Query(s, i, ctx, v6, fails))
  {
    assert forall r :: r in s.retired ==> RetiredOk(s, r);
  }

  lemma QueryKeepsOwnership(s: State, i: string, ctx: nat, v6: bool, fails: bool)
    requires Ownership(s) && i in s.candidates && i in s.contexts && s.contexts[i] == ctx
    requires s.candidates[i].resolveRef == NULL && (if v6 then s.candidates[i].v6Ref else s.candidates[i].v4Ref) == NULL
    ensures Ownership(Query(s, i, ctx, v6, fails))
  {
    QueryKeepsLive(s, i, ctx, v6, fails);
    assert forall r :: r in s.live ==> r < s.nextRef;
    hide LiveAll, SlotsAll, RetiredAll;
    QueryKeepsSlots(s, i, ctx, v6, fails);
    QueryKeepsRetired(s, i, ctx, v6, fails);
  }

  lemma ResolvesOwnRef(s: State, ref: nat, ctx: nat, i: string)
    requires Ownership(s) && Has(s, ref, Resolving(ctx, i))
    ensures i in s.candidates && i in s.contexts && s.contexts[i] == ctx
    ensures var c := s.candidates[i];
            c.resolveRef == NULL || (c.resolveRef == ref && c.v4Ref == NULL && c.v6Ref == NULL)
  {
    assert LiveOk(s, ref);
    if ref in s.retired {
      assert RetiredOk(s, ref);
    }
    assert SlotsOk(s, i);
  }

  /** The retired slot and the two queries that take over from it. */
  lemma HandOverKeepsOwnership(s: State, ref: nat, ctx: nat, i: string, details: Details, v4Fails: bool, v6Fails: bool)
    requires Ownership(s) && i in s.candidates && i in s.contexts && s.contexts[i] == ctx
    requires ref == s.candidates[i].resolveRef != NULL && s.candidates[i].v4Ref == NULL && s.candidates[i].v6Ref == NULL
    ensures Ownership(Query(Query(Retire(s, ref, i, details), i, ctx, false, v4Fails), i, ctx, true, v6Fails))
  {
    hide Ownership;
    RetireKeepsOwnership(s, ref, i, details);
    var s1 := Retire(s, ref, i, details);
    QueryKeepsOwnership(s1, i, ctx, false, v4Fails);
    var s2 := Query(s1, i, ctx, false, v4Fails);
    assert s2.candidates[i].resolveRef == NULL && s2.candidates[i].v6Ref == NULL;
    assert i in s2.contexts && s2.contexts[i] == ctx;
    hide Retire, Query;
    QueryKeepsOwnership(s2, i, ctx, true, v6Fails);
  }

  lemma ResolveKeepsOwnership(s: State, ref: nat, ctx: nat, i: string, e: Reply)
    requires Ownership(s) && e.Resolved? && Has(s, ref, Resolving(ctx, i))
    ensures Ownership(OnResolve(s, ref, ctx, i, e))
  {
    ResolvesOwnRef(s, ref, ctx, i);
    hide Ownership, SameRefs, Doom;
    if e.error {
      DoomKeepsOwnership(s, i);
    } else if s.candidates[i].resolveRef != NULL {
      HandOverKeepsOwnership(s, ref, ctx, i, e.details, e.v4Fails, e.v6Fails);
      var retired := Retire(s, ref, i, e.details);
      DoomKeepsOwnership(Query(Query(retired, i, ctx, false, e.v4Fails), i, ctx, true, e.v6Fails), i);
      hide Query, Retire;
    }
  }

  lemma DoomKeepsOwnership(s: State, i: string)
    requires Ownership(s) && i in s.candidates
    ensures Ownership(Doom(s, i))
  {
    hide Ownership;
    SameRefsSameOwnership(s, Doom(s, i));
  }

  lemma HearKeepsOwnership(s: State, e: Reply)
    requires Ownership(s) && e.Browsed? && e.instance in s.candidates
    ensures Ownership(OnBrowse(s, e))
  {
    hide Ownership;
    SameRefsSameOwnership(s, OnBrowse(s, e));
  }

  lemma AnswerKeepsOwnership(s: State, i: string, e: Reply)
    requires Ownership(s) && e.Answered?
    ensures Ownership(OnAnswer(s, i, e))
  {
    hide Ownership;
    SameRefsSameOwnership(s, OnAnswer(s, i, e));
  }

  lemma SettleKeepsOwnership(s: State, i: string)
    requires Ownership(s)
    ensures Ownership(SettleOne(s, i))
  {
    hide Ownership, Due;
    SameRefsSameOwnership(s, SettleOne(s, i));
  }

  lemma DrainKeepsOwnership(s: State)
    requires Ownership(s)
    ensures Ownership(Drain(s))
  {
    var s' := Drain(s);
    assert forall r :: r in s'.live ==> LiveOk(s, r);
    assert forall i :: i in s.candidates ==> SlotsOk(s, i);
    assert forall r :: r in s.retired ==> RetiredOk(s, r);
  }

  lemma ForgetKeepsLive(s: State, i: string)
    requires LiveAll(s) && s.retired == [] && i in s.candidates
    ensures LiveAll(Forget(s, i))
  {
    var s' := Forget(s, i);
    forall r | r in s'.live ensures 0 < r < s'.nextRef && LiveOk(s', r) {
      assert LiveOk(s, r);
    }
  }

  lemma ForgetKeepsSlots(s: State, i: string)
    requires SlotsAll(s) && i in s.candidates
    ensures SlotsAll(Forget(s, i))
  {
    var s' := Forget(s, i);
    assert SlotsOk(s, i);
    forall j | j in s'.candidates ensures SlotsOk(s', j) {
      assert SlotsOk(s, j);
    }
  }

  lemma ForgetKeepsOwnership(s: State, i: string)
    requires Ownership(s) && s.retired == []
    ensures Ownership(Forget(s, i))
  {
    if i in s.candidates {
      ForgetKeepsLive(s, i);
      ForgetKeepsSlots(s, i);
      assert SlotsOk(s, i);
      hide LiveAll, SlotsAll;
    }
  }

  // ---------------------------------------- candidates, one step at a time

  /** One candidate changes, without moving in the order. */
  lemma UpdateKeepsCandidates(s: State, s': State, i: string, c: Candidate)
    requires Candidates(s) && s'.candidates == s.candidates[i := c] && s'.nextSeq == s.nextSeq && s'.now == s.now
    requires CandidateOk(c, s.nextSeq, s.now)
    requires c.resolvedSeq == 0 || (i in s.candidates && c.resolvedSeq == s.candidates[i].resolvedSeq
             && c.settledAt == s.candidates[i].settledAt)
    requires (forall j :: j in s.doomed ==> j in s'.doomed) && (Departed(c) ==> i in s'.doomed)
    ensures Candidates(s')
  {
    hide CandidateOk;
    forall j, k | j in s'.candidates && k in s'.candidates ensures Ordered(j, s'.candidates[j], k, s'.candidates[k]) {
      if j in s.candidates && k in s.candidates {
        assert Ordered(j, s.candidates[j], k, s.candidates[k]);
      }
    }
  }

  lemma BrowsedKeepsCandidates(s: State, e: Reply)
    requires Candidates(s) && e.Browsed?
    ensures Candidates(OnBrowse(s, e))
  {
    hide Candidates;
    CandidatesPart(s);
    if !e.error && e.instance in s.candidates {
      HearStillDoomed(s, e);
      UpdateKeepsCandidates(s, OnBrowse(s, e), e.instance, Hear(s.candidates[e.instance], e.change));
    } else if !e.error && e.change.add && !e.resolveFails {
      UpdateKeepsCandidates(s, OnBrowse(s, e), e.instance, NewCandidate(s.nextRef, e.change));
    } else {
      SameKeepsCandidates(s, OnBrowse(s, e));
    }
  }

  lemma CandidatesPart(s: State)
    requires Candidates(s)
    ensures CandidatesOk(s) && DepartedDoomed(s)
  {
  }

  lemma HearStillDoomed(s: State, e: Reply)
    requires Candidates(s) && e.Browsed? && !e.error && e.instance in s.candidates
    ensures Departed(Hear(s.candidates[e.instance], e.change)) ==> e.instance in OnBrowse(s, e).doomed
  {
  }

  lemma SameKeepsCandidates(s: State, s': State)
    requires Candidates(s) && s'.candidates == s.candidates && s'.nextSeq == s.nextSeq && s.now <= s'.now
             && s'.doomed == s.doomed
    ensures Candidates(s')
  {
  }

  lemma DoomKeepsCandidates(s: State, i: string)
    requires Candidates(s) && i in s.candidates
    ensures Candidates(Doom(s, i))
  {
    UpdateKeepsCandidates(s, Doom(s, i), i, s.candidates[i].(unusable := true));
  }

  lemma RetireKeepsCandidates(s: State, ref: nat, i: string, details: Details)
    requires Candidates(s) && i in s.candidates
    ensures Candidates(Retire(s, ref, i, details))
  {
    UpdateKeepsCandidates(s, Retire(s, ref, i, details), i, s.candidates[i].(resolveRef := NULL, details := details));
  }

  lemma QueryKeepsCandidates(s: State, i: string, ctx: nat, v6: bool, fails: bool)
    requires Candidates(s) && i in s.candidates
    ensures Candidates(Query(s, i, ctx, v6, fails))
  {
    UpdateKeepsCandidates(s, Query(s, i, ctx, v6, fails), i, Query(s, i, ctx, v6, fails).candidates[i]);
  }

  lemma ResolveKeepsCandidates(s: State, ref: nat, ctx: nat, i: string, e: Reply)
    requires Candidates(s) && e.Resolved?
    ensures Candidates(OnResolve(s, ref, ctx, i, e))
  {
    hide Candidates;
    if i in s.candidates {
      if e.error {
        DoomKeepsCandidates(s, i);
      } else if s.candidates[i].resolveRef != NULL {
        RetireKeepsCandidates(s, ref, i, e.details);
        var s1 := Retire(s, ref, i, e.details);
        QueryKeepsCandidates(s1, i, ctx, false, e.v4Fails);
        var s2 := Query(s1, i, ctx, false, e.v4Fails);
        QueryKeepsCandidates(s2, i, ctx, true, e.v6Fails);
        DoomKeepsCandidates(Query(s2, i, ctx, true, e.v6Fails), i);
      }
    }
  }

  lemma AnswerKeepsCandidates(s: State, i: string, e: Reply)
    requires Candidates(s) && e.Answered?
    ensures Candidates(OnAnswer(s, i, e))
  {
    if i in s.candidates && !e.error && e.address.Some? {
      UpdateKeepsCandidates(s, OnAnswer(s, i, e), i, ChangeAddress(s.candidates[i], e.address.value, e.add, s.now));
    }
  }

  lemma ForgetKeepsCandidates(s: State, i: string)
    requires Candidates(s)
    ensures Candidates(Forget(s, i))
  {
    hide CandidateOk, Ordered;
  }

  lemma SettleKeepsCandidates(s: State, i: string)
    requires Candidates(s)
    ensures Candidates(SettleOne(s, i))
  {
    hide Dialable;
    var s' := SettleOne(s, i);
    if i in s.candidates && Due(i, s.candidates[i], s.now) {
      forall j, k | j in s'.candidates && k in s'.candidates ensures Ordered(j, s'.candidates[j], k, s'.candidates[k]) {
        assert Ordered(j, s.candidates[j], k, s.candidates[k]);
        assert CandidateOk(s.candidates[j], s.nextSeq, s.now) && CandidateOk(s.candidates[k], s.nextSeq, s.now);
      }
    }
  }
}
