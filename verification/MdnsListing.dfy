/** Which interfaces a candidate is listed on, against what the browse has said.

    The history is kept by instance from the browse's start: every reply for the name, with
    whether creating a candidate for it was refused, every time a candidate of that name was
    dropped as unusable or left for want of an interface, and every poll's end. It is computed
    beside the run of `MdnsRuns` and read by nothing.
 */
module MdnsListing {
  import opened Machine
  import opened Mdns
  import opened MdnsRules
  import opened MdnsRuns
  import Outbound

  datatype Told =
    | Heard(change: Change, refused: bool)
    | Resolves(details: Details, v4: bool, v6: bool)   // and which address queries dns_sd then takes
    | Fails
    | Gives(add: bool, address: Address, at: int)
    | Dropped
    | Left
    | Polled(at: int)

  type History = map<string, seq<Told>>

  function ToldOf(h: History, i: string): seq<Told> {
    if i in h then h[i] else []
  }

  function Tell(h: History, i: string, t: Told): History {
    h[i := ToldOf(h, i) + [t]]
  }

  // ----------------------------------------------- the history beside the run

  /** `at` is the clock the poll was given. */
  function ToldByStep(s: State, h: History, ref: nat, e: Reply, at: int): History {
    if ref !in s.live || !Fits(s.live[ref], e) then h
    else
      match s.live[ref]
      case Registering => h
      case Browsing =>
        if e.error then h
        else Tell(h, e.instance, Heard(e.change, e.instance !in s.candidates && e.change.add && e.resolveFails))
      case Resolving(_, i) => Tell(h, i, ResolveTold(e))
      case Querying(_, i, _) =>
        if e.error || e.address == None then h else Tell(h, i, Gives(e.add, e.address.value, at))
  }

  function ResolveTold(e: Reply): Told
    requires e.Resolved?
  {
    if e.error then Fails else Resolves(e.details, !e.v4Fails, !e.v6Fails)
  }

  function ToldByReplies(s: State, h: History, ref: nat, replies: seq<Reply>, at: int): History
    decreases |replies|
  {
    if replies == [] then h
    else ToldByReplies(Step(s, ref, replies[0]), ToldByStep(s, h, ref, replies[0], at), ref, replies[1..], at)
  }

  /** A teardown ends the browse, and its history with it. */
  function ToldByPump(s: State, h: History, visits: seq<Visit>, at: int): History
    decreases |visits|
  {
    if visits == [] then h
    else if !IsLive(s, visits[0].ref) then ToldByPump(s, h, visits[1..], at)
    else if visits[0].failed then map[]
    else
      var h1 := ToldByReplies(s, h, visits[0].ref, visits[0].replies, at);
      ToldByPump(Replies(s, visits[0].ref, visits[0].replies), h1, visits[1..], at)
  }

  function ToldByPurge(s: State, h: History, names: seq<string>): History
    decreases |names|
  {
    if names == [] then h
    else if names[0] in s.candidates && !Departed(s.candidates[names[0]]) then ToldByPurge(s, h, names[1..])
    else ToldByPurge(Forget(s, names[0]), ToldByForget(s, h, names[0]), names[1..])
  }

  function ToldByForget(s: State, h: History, i: string): History {
    if i !in s.candidates then h else Tell(h, i, if s.candidates[i].unusable then Dropped else Left)
  }

  function ToldAll(h: History, t: Told): History {
    map i | i in h :: h[i] + [t]
  }

  function ToldByOp(s: State, h: History, op: Op): History {
    match op
    case Advertise(_) => h
    case Browse(_) => h
    case Stop => map[]
    case Poll(now, registerFails, browseFails, visits, _) =>
      var s1 := BeginPoll(s, now, registerFails, browseFails);
      var drained := Drain(Pump(s1, visits));
      ToldAll(ToldByPurge(drained, ToldByPump(s1, h, visits, now), drained.doomed), Polled(now))
  }

  function ToldByRun(s: State, h: History, ops: seq<Op>): History
    decreases |ops|
  {
    if ops == [] then h else ToldByRun(Apply(s, ops[0]), ToldByOp(s, h, ops[0]), ops[1..])
  }

  // ------------------------------------------------------------- what it means

  predicate TakenBack(t: Told, n: nat) {
    t.Heard? && t.change == Change(false, n)
  }

  /** The browse has the instance on the interface: an Add that no later Remove took back. */
  ghost predicate Carried(told: seq<Told>, n: nat) {
    exists k :: 0 <= k < |told| && told[k].Heard? && told[k].change == Change(true, n)
                && forall j :: k < j < |told| ==> !TakenBack(told[j], n)
  }

  /** Such an Add that was also not refused, nor followed by the candidate's being dropped. */
  ghost predicate Kept(told: seq<Told>, n: nat) {
    exists k :: 0 <= k < |told| && told[k] == Heard(Change(true, n), false)
                && forall j :: k < j < |told| ==> !TakenBack(told[j], n) && !told[j].Dropped?
  }

  lemma KeptAfter(told: seq<Told>, t: Told, n: nat)
    ensures Kept(told + [t], n) <==>
              || t == Heard(Change(true, n), false)
              || (Kept(told, n) && !TakenBack(t, n) && !t.Dropped?)
  {
    var longer := told + [t];
    assert longer[|told|] == t;
    if Kept(told, n) && !TakenBack(t, n) && !t.Dropped? {
      var k :| 0 <= k < |told| && told[k] == Heard(Change(true, n), false)
               && forall j :: k < j < |told| ==> !TakenBack(told[j], n) && !told[j].Dropped?;
      assert longer[k] == told[k];
      assert forall j :: k < j < |told| ==> longer[j] == told[j];
    }
    if Kept(longer, n) && t != Heard(Change(true, n), false) {
      var k :| 0 <= k < |longer| && longer[k] == Heard(Change(true, n), false)
               && forall j :: k < j < |longer| ==> !TakenBack(longer[j], n) && !longer[j].Dropped?;
      assert told[k] == longer[k];
      assert forall j :: k < j < |told| ==> told[j] == longer[j];
      assert !TakenBack(longer[|told|], n) && !longer[|told|].Dropped?;
    }
  }

  function InterfacesOf(s: State, i: string): set<nat> {
    if i in s.candidates then s.candidates[i].interfaces else {}
  }

  ghost predicate ListedAsKept(s: State, h: History, i: string) {
    forall n: nat :: n in InterfacesOf(s, i) <==> Kept(ToldOf(h, i), n)
  }

  ghost predicate Listing(s: State, h: History) {
    forall i: string :: ListedAsKept(s, h, i)
  }

  // ------------------------------------------------------- every step keeps it

  ghost predicate SameInterfaces(s: State, s': State) {
    forall i: string :: InterfacesOf(s', i) == InterfacesOf(s, i)
  }

  lemma SameInterfacesSameListing(s: State, s': State, h: History)
    requires SameInterfaces(s, s') && Listing(s, h)
    ensures Listing(s', h)
  {
    forall i: string ensures ListedAsKept(s', h, i) {
      assert ListedAsKept(s, h, i) && InterfacesOf(s', i) == InterfacesOf(s, i);
    }
  }

  /** One name's interfaces and history change together. */
  lemma OneNameMoves(s: State, s': State, h: History, i: string, t: Told)
    requires Listing(s, h)
    requires forall j: string :: j != i ==> InterfacesOf(s', j) == InterfacesOf(s, j)
    requires forall n: nat :: n in InterfacesOf(s', i) <==>
               || t == Heard(Change(true, n), false)
               || (n in InterfacesOf(s, i) && !TakenBack(t, n) && !t.Dropped?)
    ensures Listing(s', Tell(h, i, t))
  {
    forall j: string ensures ListedAsKept(s', Tell(h, i, t), j) {
      assert ListedAsKept(s, h, j);
      if j == i {
        forall n: nat ensures n in InterfacesOf(s', i) <==> Kept(ToldOf(h, i) + [t], n) {
          KeptAfter(ToldOf(h, i), t, n);
        }
      } else {
        assert InterfacesOf(s', j) == InterfacesOf(s, j);
        assert ToldOf(Tell(h, i, t), j) == ToldOf(h, j);
      }
    }
  }

  /** News that is of no interface. */
  lemma OtherNews(s: State, s': State, h: History, i: string, t: Told)
    requires SameInterfaces(s, s') && Listing(s, h) && !t.Heard? && !t.Dropped?
    ensures Listing(s', Tell(h, i, t))
  {
    OneNameMoves(s, s', h, i, t);
  }

  lemma PolledIsNoNews(s: State, h: History, at: int)
    requires Listing(s, h)
    ensures Listing(s, ToldAll(h, Polled(at)))
  {
    forall i: string ensures ListedAsKept(s, ToldAll(h, Polled(at)), i) {
      assert ListedAsKept(s, h, i);
      forall n: nat ensures Kept(ToldOf(h, i) + [Polled(at)], n) <==> Kept(ToldOf(h, i), n) {
        KeptAfter(ToldOf(h, i), Polled(at), n);
      }
    }
  }

  lemma BrowsedKeepsListing(s: State, h: History, e: Reply)
    requires Listing(s, h) && e.Browsed? && !e.error
    ensures var refused := e.instance !in s.candidates && e.change.add && e.resolveFails;
            Listing(OnBrowse(s, e), Tell(h, e.instance, Heard(e.change, refused)))
  {
    var refused := e.instance !in s.candidates && e.change.add && e.resolveFails;
    OneNameMoves(s, OnBrowse(s, e), h, e.instance, Heard(e.change, refused));
  }

  lemma QueryKeepsInterfaces(s: State, i: string, ctx: nat, v6: bool, fails: bool)
    requires i in s.candidates
    ensures SameInterfaces(s, Query(s, i, ctx, v6, fails)) && i in Query(s, i, ctx, v6, fails).candidates
  {
  }

  lemma DoomKeepsInterfaces(s: State, i: string)
    requires i in s.candidates
    ensures SameInterfaces(s, Doom(s, i))
  {
  }

  lemma ResolveKeepsInterfaces(s: State, ref: nat, ctx: nat, i: string, e: Reply)
    requires e.Resolved?
    ensures SameInterfaces(s, OnResolve(s, ref, ctx, i, e))
  {
    if i in s.candidates {
      DoomKeepsInterfaces(s, i);
      var s1 := Retire(s, ref, i, e.details);
      assert SameInterfaces(s, s1);
      QueryKeepsInterfaces(s1, i, ctx, false, e.v4Fails);
      var s2 := Query(s1, i, ctx, false, e.v4Fails);
      QueryKeepsInterfaces(s2, i, ctx, true, e.v6Fails);
      DoomKeepsInterfaces(Query(s2, i, ctx, true, e.v6Fails), i);
      hide Retire, Query, Doom, InterfacesOf;
    }
  }

  lemma StepKeepsListing(s: State, h: History, ref: nat, e: Reply, at: int)
    requires Listing(s, h)
    ensures Listing(Step(s, ref, e), ToldByStep(s, h, ref, e, at))
  {
    hide Listing, OnBrowse, OnResolve;
    if ref in s.live && Fits(s.live[ref], e) {
      match s.live[ref]
      case Browsing =>
        if !e.error {
          BrowsedKeepsListing(s, h, e);
        } else {
          ErrorChangesNothing(s, e);
        }
      case Resolving(ctx, i) =>
        ResolveKeepsInterfaces(s, ref, ctx, i, e);
        SameInterfacesSameListing(s, Step(s, ref, e), h);
        OtherNews(s, Step(s, ref, e), h, i, ResolveTold(e));
      case Querying(_, i, _) =>
        AnswerKeepsInterfaces(s, i, e);
        SameInterfacesSameListing(s, Step(s, ref, e), h);
        if e.address.Some? {
          OtherNews(s, Step(s, ref, e), h, i, Gives(e.add, e.address.value, at));
        }
      case Registering =>
        assert SameInterfaces(s, Step(s, ref, e));
        SameInterfacesSameListing(s, Step(s, ref, e), h);
    }
  }

  lemma AnswerKeepsInterfaces(s: State, i: string, e: Reply)
    requires e.Answered?
    ensures SameInterfaces(s, OnAnswer(s, i, e))
  {
  }

  lemma ErrorChangesNothing(s: State, e: Reply)
    requires e.Browsed? && e.error
    ensures OnBrowse(s, e) == s
  {
  }

  lemma {:induction false} RepliesKeepListing(s: State, h: History, ref: nat, replies: seq<Reply>, at: int)
    requires Listing(s, h)
    ensures Listing(Replies(s, ref, replies), ToldByReplies(s, h, ref, replies, at))
    decreases |replies|
  {
    hide Listing, Step, ToldByStep;
    if replies != [] {
      StepKeepsListing(s, h, ref, replies[0], at);
      RepliesKeepListing(Step(s, ref, replies[0]), ToldByStep(s, h, ref, replies[0], at), ref, replies[1..], at);
    }
  }

  /** A teardown leaves no candidate and no history. */
  lemma NothingListed(s: State)
    requires s.candidates == map[]
    ensures Listing(s, map[])
  {
    forall i: string ensures ListedAsKept(s, map[], i) {
      assert ToldOf(map[], i) == [];
    }
  }

  lemma {:induction false} PumpKeepsListing(s: State, h: History, visits: seq<Visit>, at: int)
    requires Listing(s, h)
    ensures Listing(Pump(s, visits), ToldByPump(s, h, visits, at))
    decreases |visits|
  {
    hide Listing, IsLive, Replies, ToldByReplies;
    if visits != [] {
      if IsLive(s, visits[0].ref) {
        RepliesKeepListing(s, h, visits[0].ref, visits[0].replies, at);
        var s1 := Replies(s, visits[0].ref, visits[0].replies);
        if visits[0].failed {
          NothingListed(Fail(s1));
        } else {
          PumpKeepsListing(s1, ToldByReplies(s, h, visits[0].ref, visits[0].replies, at), visits[1..], at);
        }
      } else {
        PumpKeepsListing(s, h, visits[1..], at);
      }
    }
  }

  lemma ForgetKeepsListing(s: State, h: History, i: string)
    requires Listing(s, h) && (i in s.candidates ==> Departed(s.candidates[i]))
    ensures Listing(Forget(s, i), ToldByForget(s, h, i))
  {
    if i in s.candidates && s.candidates[i].unusable {
      OneNameMoves(s, Forget(s, i), h, i, Dropped);
    } else if i in s.candidates {
      assert SameInterfaces(s, Forget(s, i));
      OtherNews(s, Forget(s, i), h, i, Left);
    } else {
      SameInterfacesSameListing(s, Forget(s, i), h);
    }
  }

  lemma {:induction false} PurgeKeepsListing(s: State, h: History, names: seq<string>)
    requires Listing(s, h)
    ensures Listing(Purge(s, names), ToldByPurge(s, h, names))
    decreases |names|
  {
    hide Listing, Forget, ToldByForget;
    if names == [] {
      SameInterfacesSameListing(s, s.(doomed := []), h);
    } else if names[0] in s.candidates && !Departed(s.candidates[names[0]]) {
      PurgeKeepsListing(s, h, names[1..]);
    } else {
      ForgetKeepsListing(s, h, names[0]);
      PurgeKeepsListing(Forget(s, names[0]), ToldByForget(s, h, names[0]), names[1..]);
    }
  }

  lemma BeginKeepsInterfaces(s: State, now: int, registerFails: bool, browseFails: bool)
    ensures SameInterfaces(s, BeginPoll(s, now, registerFails, browseFails))
  {
    hide Outbound.Backoff;
  }

  lemma PollKeepsListing(s: State, h: History, op: Op)
    requires Listing(s, h) && op.Poll?
    ensures Listing(Apply(s, op), ToldByOp(s, h, op))
  {
    hide Listing, BeginPoll, Pump, Purge, Settle, ToldByPump, ToldByPurge;
    var s1 := BeginPoll(s, op.now, op.registerFails, op.browseFails);
    BeginKeepsInterfaces(s, op.now, op.registerFails, op.browseFails);
    SameInterfacesSameListing(s, s1, h);
    PumpKeepsListing(s1, h, op.visits, op.now);
    var pumped, told := Pump(s1, op.visits), ToldByPump(s1, h, op.visits, op.now);
    var drained := Drain(pumped);
    SameInterfacesSameListing(pumped, drained, told);
    PurgeKeepsListing(drained, told, drained.doomed);
    var purged := Purge(drained, drained.doomed);
    SettleKeepsKeys(purged, op.names);
    PolledIsNoNews(purged, ToldByPurge(drained, told, drained.doomed), op.now);
    SameInterfacesSameListing(purged, Settle(purged, op.names), ToldByOp(s, h, op));
  }

  lemma OpKeepsListing(s: State, h: History, op: Op)
    requires Listing(s, h)
    ensures Listing(Apply(s, op), ToldByOp(s, h, op))
  {
    hide Listing, BeginPoll, Pump, EndPoll;
    match op
    case Advertise(_) => SameInterfacesSameListing(s, Apply(s, op), h);
    case Browse(_) => SameInterfacesSameListing(s, Apply(s, op), h);
    case Stop => NothingListed(Apply(s, op));
    case Poll(_, _, _, _, _) => PollKeepsListing(s, h, op);
  }

  lemma {:induction false} RunKeepsListing(s: State, h: History, ops: seq<Op>)
    requires Listing(s, h)
    ensures Listing(Run(s, ops), ToldByRun(s, h, ops))
    decreases |ops|
  {
    hide Listing, Apply, ToldByOp;
    if ops != [] {
      OpKeepsListing(s, h, ops[0]);
      RunKeepsListing(Apply(s, ops[0]), ToldByOp(s, h, ops[0]), ops[1..]);
    }
  }

  // ------------------------------------------------------------- the theorems

  /** After any run from start-up, an interface is listed for a name exactly if the browse
      announced it there, without the candidate's creation being refused, and since then neither
      withdrew it nor saw a candidate of that name dropped as unusable. */
  lemma ListedExactlyIfKept(ops: seq<Op>, i: string, n: nat)
    ensures n in InterfacesOf(Run(STOPPED, ops), i) <==> Kept(ToldOf(ToldByRun(STOPPED, map[], ops), i), n)
  {
    hide Run, ToldByRun;
    NothingListed(STOPPED);
    RunKeepsListing(STOPPED, map[], ops);
    assert ListedAsKept(Run(STOPPED, ops), ToldByRun(STOPPED, map[], ops), i);
  }

  /** An interface the browse still has the name on, lost to the program: every standing Add of
      it was refused, or came before a drop. */
  ghost predicate Overlooked(told: seq<Told>, n: nat) {
    && Carried(told, n)
    && forall k :: 0 <= k < |told| && told[k].Heard? && told[k].change == Change(true, n)
                   && (forall j :: k < j < |told| ==> !TakenBack(told[j], n)) ==>
         told[k].refused || exists j :: k < j < |told| && told[j].Dropped?
  }

  /** So the interfaces listed are those the browse carries exactly when nothing is overlooked. */
  lemma ListedAsCarriedIff(ops: seq<Op>, i: string)
    ensures var told := ToldOf(ToldByRun(STOPPED, map[], ops), i);
            (forall n: nat :: n in InterfacesOf(Run(STOPPED, ops), i) <==> Carried(told, n))
            <==> (forall n: nat :: !Overlooked(told, n))
  {
    var told := ToldOf(ToldByRun(STOPPED, map[], ops), i);
    hide Run, ToldByRun;
    forall n: nat
      ensures n in InterfacesOf(Run(STOPPED, ops), i) <==> Carried(told, n) && !Overlooked(told, n)
    {
      ListedExactlyIfKept(ops, i, n);
      KeptIsCarriedAndNotOverlooked(told, n);
    }
  }

  lemma KeptIsCarriedAndNotOverlooked(told: seq<Told>, n: nat)
    ensures Kept(told, n) <==> Carried(told, n) && !Overlooked(told, n)
  {
  }

  /** In particular if no creation for the name was refused and no candidate of it was dropped as
      unusable since the browse started. */
  lemma NothingOverlookedIfNeverRefused(told: seq<Told>, n: nat)
    requires forall k :: 0 <= k < |told| ==> !told[k].Dropped? && (told[k].Heard? ==> !told[k].refused)
    ensures !Overlooked(told, n)
  {
  }

  /** What is listed is not empty and usable, and each of its interfaces is still announced. */
  lemma ListedIsCarried(ops: seq<Op>, i: string)
    requires AllAllowed(STOPPED, ops) && i in Run(STOPPED, ops).candidates
    ensures var c := Run(STOPPED, ops).candidates[i];
            && c.interfaces != {} && !c.unusable
            && forall n: nat :: n in c.interfaces ==> Carried(ToldOf(ToldByRun(STOPPED, map[], ops), i), n)
  {
    hide Run, ToldByRun;
    StartsQuiet();
    RunKeepsQuiet(STOPPED, ops);
    forall n: nat | n in Run(STOPPED, ops).candidates[i].interfaces
      ensures Carried(ToldOf(ToldByRun(STOPPED, map[], ops), i), n)
    {
      ListedExactlyIfKept(ops, i, n);
      KeptIsCarriedAndNotOverlooked(ToldOf(ToldByRun(STOPPED, map[], ops), i), n);
    }
  }

  // ------------------------------------------------- a server lost while carried

  const FOUND_ON_1 := Browsed(false, Change(true, 1), "s", true)   // its resolve is refused
  const FOUND_ON_2 := Browsed(false, Change(true, 2), "s", false)
  const LOST_ON_2 := Browsed(false, Change(false, 2), "s", false)

  const BROWSING := STOPPED.(live := map[1 := Handle.Browsing], nextRef := 2, browseRef := 1, browseWanted := true)

  function PollGiving(replies: seq<Reply>): Op {
    Poll(0, false, false, [Visit(1, replies, false)], [])
  }

  /** One such poll, from a state with nothing owed, retired or doomed. */
  lemma PollIsReplies(s: State, h: History, replies: seq<Reply>)
    requires s.browseRef == 1 && s.browseWanted && !s.advertiseWanted && s.restartAt < 0 && s.now == 0
    requires s.retired == []
    ensures var t := Replies(s, 1, replies);
            && (t.retired == [] ==> Apply(s, PollGiving(replies)) == Purge(t, t.doomed))
            && (t.retired == [] ==>
                  ToldByOp(s, h, PollGiving(replies)) ==
                  ToldAll(ToldByPurge(t, ToldByReplies(s, h, 1, replies, 0), t.doomed), Polled(0)))
  {
    hide Replies, ToldByReplies, Purge, ToldByPurge, ToldAll;
    var visit := Visit(1, replies, false);
    assert BeginPoll(s, 0, false, false) == s;
    var t := Replies(s, 1, replies);
    assert [visit][1..] == [];
    assert Pump(s, [visit]) == Pump(t, []) == t;
    assert ToldByPump(s, h, [visit], 0) == ToldByPump(t, ToldByReplies(s, h, 1, replies, 0), [], 0);
    if t.retired == [] {
      assert RefSet([]) == {};
      assert Drain(t) == t;
    }
  }

  lemma StartsBrowsing()
    ensures Apply(STOPPED, Browse(false)) == BROWSING && Allowed(STOPPED, Browse(false))
    ensures ToldByOp(STOPPED, map[], Browse(false)) == map[]
  {
  }

  lemma FoundOnOneInterfaceOnly() returns (s: State, h: History)
    ensures s == Apply(BROWSING, PollGiving([FOUND_ON_1, FOUND_ON_2]))
    ensures h == ToldByOp(BROWSING, map[], PollGiving([FOUND_ON_1, FOUND_ON_2]))
    ensures s.candidates.Keys == {"s"} && s.candidates["s"].interfaces == {2} && !s.candidates["s"].unusable
    ensures h == map["s" := [Heard(Change(true, 1), true), Heard(Change(true, 2), false), Polled(0)]]
    ensures s.browseRef == 1 && s.browseWanted && !s.advertiseWanted && s.restartAt < 0 && s.now == 0
    ensures s.retired == [] && s.doomed == [] && 1 in s.live && s.live[1].Browsing?
  {
    hide BeginPoll, Pump, EndPoll, Settle, OnResolve, OnAnswer, ToldByPump, Apply, ToldByOp;
    PollIsReplies(BROWSING, map[], [FOUND_ON_1, FOUND_ON_2]);
    var a := Step(BROWSING, 1, FOUND_ON_1);
    assert a == BROWSING.(nextCtx := 1);
    var b := Step(a, 1, FOUND_ON_2);
    assert [FOUND_ON_1, FOUND_ON_2][1..] == [FOUND_ON_2] && [FOUND_ON_2][1..] == [];
    assert Replies(BROWSING, 1, [FOUND_ON_1, FOUND_ON_2]) == Replies(a, 1, [FOUND_ON_2]) == Replies(b, 1, []) == b;
    var h1 := ToldByStep(BROWSING, map[], 1, FOUND_ON_1, 0);
    var refused, found := Heard(Change(true, 1), true), Heard(Change(true, 2), false);
    assert h1 == Tell(map[], "s", refused) && [] + [refused] == [refused];
    assert h1 == map["s" := [refused]];
    var h2 := ToldByStep(a, h1, 1, FOUND_ON_2, 0);
    assert h2 == Tell(h1, "s", found) && [refused] + [found] == [refused, found];
    assert h2 == map["s" := [refused, found]];
    assert ToldByReplies(BROWSING, map[], 1, [FOUND_ON_1, FOUND_ON_2], 0) == ToldByReplies(a, h1, 1, [FOUND_ON_2], 0)
           == h2;
    h := ToldAll(h2, Polled(0));
    assert [refused, found] + [Polled(0)] == [refused, found, Polled(0)];
    assert h == map["s" := [refused, found, Polled(0)]];
    s := Purge(b, b.doomed);
  }

  /** The code means to drop a server only once its last interface has gone. Here the browse
      finds it on interface 1, where its resolve is refused, and on 2; then loses it on 2; and
      it is dropped while the browse still has it on 1. */
  lemma LostWhileCarried()
    ensures var ops := [Browse(false), PollGiving([FOUND_ON_1, FOUND_ON_2]), PollGiving([LOST_ON_2])];
            && AllAllowed(STOPPED, ops) && "s" !in Run(STOPPED, ops).candidates
            && Carried(ToldOf(ToldByRun(STOPPED, map[], ops), "s"), 1)
  {
    hide Apply, ToldByOp, Run, ToldByRun, AllAllowed;
    var first, second := PollGiving([FOUND_ON_1, FOUND_ON_2]), PollGiving([LOST_ON_2]);
    StartsBrowsing();
    var s, h := FoundOnOneInterfaceOnly();
    LosesIt(s, h);
    var told := [Heard(Change(true, 1), true), Heard(Change(true, 2), false), Polled(0),
                 Heard(Change(false, 2), false), Left, Polled(0)];
    assert told[0].change == Change(true, 1);
    ThreeOps(STOPPED, map[], Browse(false), first, second);
  }

  lemma LosesIt(s: State, h: History)
    requires s.candidates.Keys == {"s"} && s.candidates["s"].interfaces == {2} && !s.candidates["s"].unusable
    requires h == map["s" := [Heard(Change(true, 1), true), Heard(Change(true, 2), false), Polled(0)]]
    requires s.browseRef == 1 && s.browseWanted && !s.advertiseWanted && s.restartAt < 0 && s.now == 0
    requires s.retired == [] && s.doomed == [] && 1 in s.live && s.live[1].Browsing?
    ensures "s" !in Apply(s, PollGiving([LOST_ON_2])).candidates
    ensures ToldOf(ToldByOp(s, h, PollGiving([LOST_ON_2])), "s") ==
            [Heard(Change(true, 1), true), Heard(Change(true, 2), false), Polled(0),
             Heard(Change(false, 2), false), Left, Polled(0)]
  {
    hide BeginPoll, Pump, EndPoll, Settle, OnResolve, OnAnswer, ToldByPump, Apply, ToldByOp;
    PollIsReplies(s, h, [LOST_ON_2]);
    var t := Step(s, 1, LOST_ON_2);
    assert [LOST_ON_2][1..] == [] && Replies(s, 1, [LOST_ON_2]) == Replies(t, 1, []) == t;
    assert t.candidates["s"].interfaces == {} && t.doomed == ["s"] && !t.candidates["s"].unusable;
    assert ["s"][1..] == [];
    var gone := Forget(t, "s");
    assert Purge(t, ["s"]) == Purge(gone, []);
    var h1 := ToldByStep(s, h, 1, LOST_ON_2, 0);
    assert ToldByReplies(s, h, 1, [LOST_ON_2], 0) == ToldByReplies(t, h1, 1, [], 0) == h1;
    var h2 := ToldByForget(t, h1, "s");
    assert ToldByPurge(t, h1, ["s"]) == ToldByPurge(gone, h2, []) == h2;
    assert ToldOf(h1, "s") == ToldOf(h, "s") + [Heard(Change(false, 2), false)];
    assert ToldOf(h2, "s") == ToldOf(h1, "s") + [Left];
    assert ToldOf(ToldAll(h2, Polled(0)), "s") == ToldOf(h2, "s") + [Polled(0)];
  }

  lemma ThreeOps(s: State, h: History, a: Op, b: Op, c: Op)
    ensures Run(s, [a, b, c]) == Apply(Apply(Apply(s, a), b), c)
    ensures AllAllowed(s, [a, b, c]) <==>
            Allowed(s, a) && Allowed(Apply(s, a), b) && Allowed(Apply(Apply(s, a), b), c)
    ensures ToldByRun(s, h, [a, b, c]) ==
            ToldByOp(Apply(Apply(s, a), b), ToldByOp(Apply(s, a), ToldByOp(s, h, a), b), c)
  {
    hide Apply, Allowed, ToldByOp;
    assert [a, b, c][1..] == [b, c] && [b, c][1..] == [c] && [c][1..] == [];
    var s1, h1 := Apply(s, a), ToldByOp(s, h, a);
    var s2, h2 := Apply(s1, b), ToldByOp(s1, h1, b);
    var s3, h3 := Apply(s2, c), ToldByOp(s2, h2, c);
    assert Run(s, [a, b, c]) == Run(s1, [b, c]) == Run(s2, [c]) == Run(s3, []) == s3;
    assert ToldByRun(s, h, [a, b, c]) == ToldByRun(s1, h1, [b, c]) == ToldByRun(s2, h2, [c]) == ToldByRun(s3, h3, []);
    assert AllAllowed(s2, [c]) <==> Allowed(s2, c);
    assert AllAllowed(s1, [b, c]) <==> Allowed(s1, b) && AllAllowed(s2, [c]);
  }
}
