/** What a candidate is made of, against what dns_sd has said.

    From the history of `MdnsListing`: what has been told of a name since its candidate was
    found decides its details, its addresses, when the first of them came and whether it has
    settled; and so which names servers() lists, and at which addresses.
 */
module MdnsStory {
  import opened Machine
  import opened Mdns
  import opened MdnsListing
  import opened MdnsRules
  import opened MdnsRuns

  // ----------------------------------------------------------- from the history

  function Front(told: seq<Told>): seq<Told>
    requires told != []
  {
    told[..|told| - 1]
  }

  function Last(told: seq<Told>): Told
    requires told != []
  {
    told[|told| - 1]
  }

  predicate Finds(t: Told) {
    t.Heard? && t.change.add && !t.refused
  }

  predicate Ends(t: Told) {
    t.Dropped? || t.Left?
  }

  /** A candidate of the name has been found and not let go since. */
  predicate Found(told: seq<Told>) {
    told != [] && !Ends(Last(told)) && (Finds(Last(told)) || Found(Front(told)))
  }

  /** What has been told since it was. */
  function Since(told: seq<Told>): seq<Told> {
    if !Found(told) then []
    else if Found(Front(told)) then Since(Front(told)) + [Last(told)]
    else [Last(told)]
  }

  /** The first resolve that came without an error. */
  function Resolution(since: seq<Told>): (r: Option<Told>)
    ensures r.Some? ==> r.value.Resolves?
  {
    if since == [] then None
    else if Resolution(Front(since)).Some? then Resolution(Front(since))
    else if Last(since).Resolves? then Some(Last(since))
    else None
  }

  /** It can come to nothing: a resolve has failed, or dns_sd took neither address query. */
  predicate Hopeless(since: seq<Told>) {
    || Fails in since
    || (Resolution(since).Some? && !Resolution(since).value.v4 && !Resolution(since).value.v6)
  }

  /** When the first address came. */
  function FirstGiven(since: seq<Told>): Option<int> {
    if since == [] then None
    else if FirstGiven(Front(since)).Some? then FirstGiven(Front(since))
    else if Last(since).Gives? && Last(since).add then Some(Last(since).at)
    else None
  }

  predicate Adds(t: Told, a: Address) {
    t.Gives? && t.add && t.address == a
  }

  predicate Withdraws(t: Told, a: Address) {
    t.Gives? && !t.add && t.address == a
  }

  /** The k-th thing told added an address that has not been withdrawn since, and that had not been
      added before, or not since it was last withdrawn. */
  ghost predicate Stands(since: seq<Told>, k: nat) {
    && k < |since| && since[k].Gives? && since[k].add
    && (forall j :: k < j < |since| ==> !Withdraws(since[j], since[k].address))
    && forall j :: 0 <= j < k && Adds(since[j], since[k].address) ==>
         exists m :: j < m < k && Withdraws(since[m], since[k].address)
  }

  /** The addresses that stand, in the order they were added. */
  ghost function Standing(since: seq<Told>, n: nat): seq<Address>
    requires n <= |since|
  {
    if n == 0 then []
    else Standing(since, n - 1) + if Stands(since, n - 1) then [since[n - 1].address] else []
  }

  ghost function Addresses(since: seq<Told>): seq<Address> {
    Standing(since, |since|)
  }

  const UNRESOLVED := Details("", 0, 0, "", "")

  ghost function ServerTold(i: string, since: seq<Told>): Server {
    var d := match Resolution(since) case Some(r) => r.details case None => UNRESOLVED;
    Server(i, d.name, d.path, d.port, Addresses(since))
  }

  /** At some poll's end it was dialable, its first address long enough there. */
  ghost predicate Settled(i: string, since: seq<Told>) {
    exists k :: 0 <= k < |since| && since[k].Polled? && DueBy(i, since[..k], since[k].at)
  }

  ghost predicate DueBy(i: string, since: seq<Told>, now: int) {
    FirstGiven(since).Some? && now - FirstGiven(since).value >= ADDRESS_SETTLE_MS && Dialable(ServerTold(i, since))
  }

  // -------------------------------------------------------- the addresses that stand

  lemma StandsAfter(since: seq<Told>, t: Told, k: nat)
    requires k <= |since|
    ensures k < |since| ==>
              (Stands(since + [t], k) <==> Stands(since, k) && !Withdraws(t, since[k].address))
    ensures k == |since| ==>
              (Stands(since + [t], k) <==> t.Gives? && t.add
                                           && forall j :: 0 <= j < |since| && Adds(since[j], t.address) ==>
                                                exists m :: j < m < |since| && Withdraws(since[m], t.address))
  {
    var longer := since + [t];
    assert longer[|since|] == t && forall j :: 0 <= j < |since| ==> longer[j] == since[j];
  }

  lemma {:induction false} StandingBefore(since: seq<Told>, t: Told, n: nat)
    requires n <= |since| && !(t.Gives? && !t.add)
    ensures Standing(since + [t], n) == Standing(since, n)
  {
    if n > 0 {
      StandingBefore(since, t, n - 1);
      StandsAfter(since, t, n - 1);
    }
  }

  /** An address stands if and only if it has been added and not withdrawn since. */
  lemma {:induction false} StandsIff(since: seq<Told>, a: Address)
    ensures a in Addresses(since) <==>
              exists j :: 0 <= j < |since| && Adds(since[j], a)
                          && forall m :: j < m < |since| ==> !Withdraws(since[m], a)
  {
    InStanding(since, |since|, a);
    if j :| 0 <= j < |since| && Adds(since[j], a) && forall m :: j < m < |since| ==> !Withdraws(since[m], a) {
      var k := FirstAdd(since, a, j);
      assert Stands(since, k);
    }
  }

  /** The earliest add that nothing between it and `j` undoes. */
  lemma {:induction false} FirstAdd(since: seq<Told>, a: Address, j: nat) returns (k: nat)
    requires j < |since| && Adds(since[j], a)
    ensures k <= j && Adds(since[k], a) && forall m :: k < m < j ==> !Withdraws(since[m], a)
    ensures forall i :: 0 <= i < k && Adds(since[i], a) ==> exists m :: i < m < k && Withdraws(since[m], a)
    decreases j
  {
    k := j;
    if i :| 0 <= i < j && Adds(since[i], a) && forall m :: i < m < j ==> !Withdraws(since[m], a) {
      k := FirstAdd(since, a, i);
    }
  }

  lemma {:induction false} InStanding(since: seq<Told>, n: nat, a: Address)
    requires n <= |since|
    ensures a in Standing(since, n) <==> exists k :: 0 <= k < n && Stands(since, k) && since[k].address == a
  {
    hide Stands;
    if n > 0 {
      InStanding(since, n - 1, a);
    }
  }

  /** Two adds of one address cannot both stand. */
  lemma OnePlaceEach(since: seq<Told>, j: nat, k: nat)
    requires j < k && Stands(since, j) && Stands(since, k)
    ensures since[j].address != since[k].address
  {
  }

  lemma {:induction false} WithoutAbsent(s: seq<Address>, a: Address)
    requires a !in s
    ensures Without(s, a) == s
  {
    if s != [] {
      WithoutAbsent(s[1..], a);
      assert s == [s[0]] + s[1..];
    }
  }

  lemma {:induction false} WithoutLast(s: seq<Address>, b: Address, a: Address)
    ensures Without(s + [b], a) ==
            if a in s then Without(s, a) + [b] else if a == b then s else s + [b]
  {
    if s != [] {
      assert (s + [b])[0] == s[0] && (s + [b])[1..] == s[1..] + [b];
      WithoutLast(s[1..], b, a);
      assert s == [s[0]] + s[1..];
    }
  }

  lemma {:induction false} WithdrawnGoes(since: seq<Told>, t: Told, n: nat)
    requires n <= |since| && t.Gives? && !t.add
    ensures Standing(since + [t], n) == Without(Standing(since, n), t.address)
  {
    if n > 0 {
      var k := n - 1;
      WithdrawnGoes(since, t, k);
      StandsAfter(since, t, k);
      InStanding(since, k, t.address);
      assert (since + [t])[k] == since[k];
      assert Standing(since, k) + [] == Standing(since, k);
      assert Standing(since + [t], k) + [] == Standing(since + [t], k);
      hide Stands, Without;
      if Stands(since, k) {
        if since[k].address == t.address && t.address in Standing(since, k) {
          var j :| 0 <= j < k && Stands(since, j) && since[j].address == t.address;
          OnePlaceEach(since, j, k);
        }
        WithoutLast(Standing(since, k), since[k].address, t.address);
        assert Standing(since, n) == Standing(since, k) + [since[k].address];
      }
      if t.address !in Standing(since, k) {
        WithoutAbsent(Standing(since, k), t.address);
      }
    }
  }

  /** add_address() keeps the list as it is told. */
  lemma AddressesAfter(since: seq<Told>, t: Told)
    ensures Addresses(since + [t]) ==
            if !t.Gives? then Addresses(since)
            else if !t.add then Without(Addresses(since), t.address)
            else if t.address in Addresses(since) then Addresses(since)
            else Addresses(since) + [t.address]
  {
    var n := |since|;
    StandsAfter(since, t, n);
    if t.Gives? && !t.add {
      WithdrawnGoes(since, t, n);
    } else {
      StandingBefore(since, t, n);
      if t.Gives? {
        StandsIff(since, t.address);
      }
    }
    hide Stands;
  }

  // ------------------------------------------------------ a candidate as it is told

  ghost predicate Matches(i: string, c: Candidate, since: seq<Told>) {
    && (match Resolution(since)
        case None =>
          && c.resolveRef != NULL && c.v4Ref == c.v6Ref == NULL
          && c.details.(interface := 0) == UNRESOLVED
        case Some(r) =>
          && c.resolveRef == NULL && (c.v4Ref != NULL <==> r.v4) && (c.v6Ref != NULL <==> r.v6)
          && c.details == r.details)
    && (c.unusable <==> Hopeless(since))
    && (match FirstGiven(since)
        case None => c.firstAddress == -1
        case Some(t) => c.firstAddress == t >= 0)
    && c.addresses == Addresses(since)
    && (c.resolvedSeq != 0 <==> Settled(i, since))
  }

  /** Alike in all of that. */
  predicate Alike(c: Candidate, d: Candidate) {
    && (c.resolveRef == NULL <==> d.resolveRef == NULL) && (c.v4Ref == NULL <==> d.v4Ref == NULL)
    && (c.v6Ref == NULL <==> d.v6Ref == NULL) && (c.unusable <==> d.unusable)
    && c.details == d.details && c.addresses == d.addresses
    && c.firstAddress == d.firstAddress && (c.resolvedSeq == 0 <==> d.resolvedSeq == 0)
  }

  /** What each thing told does to a candidate. */
  predicate Follows(i: string, c: Candidate, t: Told, d: Candidate) {
    match t
    case Resolves(details, v4, v6) =>
      if c.resolveRef == NULL then Alike(c, d)
      else
        && d.resolveRef == NULL && (d.v4Ref != NULL <==> v4) && (d.v6Ref != NULL <==> v6)
        && (d.unusable <==> c.unusable || !(v4 || v6))
        && Alike(c.(resolveRef := NULL, details := details, v4Ref := d.v4Ref, v6Ref := d.v6Ref,
            unusable := d.unusable), d)
    case Fails => Alike(c.(unusable := true), d)
    case Gives(add, a, at) => at >= 0 && Alike(ChangeAddress(c, a, add, at), d)
    case Polled(at) =>
      && (d.resolvedSeq != 0 <==> c.resolvedSeq != 0 || Due(i, c, at))
      && Alike(c.(resolvedSeq := d.resolvedSeq), d)
    case _ => Alike(c, d)
  }

  lemma SettledAfter(i: string, since: seq<Told>, t: Told)
    ensures Settled(i, since + [t]) <==> Settled(i, since) || (t.Polled? && DueBy(i, since, t.at))
  {
    var longer := since + [t];
    assert longer[..|since|] == since && longer[|since|] == t;
    hide DueBy;
    forall k | 0 <= k < |since| ensures longer[k] == since[k] && longer[..k] == since[..k] {
    }
    if Settled(i, since) {
      var k :| 0 <= k < |since| && since[k].Polled? && DueBy(i, since[..k], since[k].at);
      assert DueBy(i, longer[..k], longer[k].at);
    }
  }

  lemma DueAsTold(i: string, c: Candidate, since: seq<Told>, now: int)
    requires Matches(i, c, since)
    ensures c.resolvedSeq == 0 ==> (Due(i, c, now) <==> DueBy(i, since, now))
  {
    hide Settled, Addresses, Dialable;
    assert Described(i, c) == ServerTold(i, since);
  }

  lemma FirstsAfter(since: seq<Told>, t: Told)
    ensures Resolution(since + [t]) ==
            if Resolution(since).Some? then Resolution(since) else if t.Resolves? then Some(t) else None
    ensures FirstGiven(since + [t]) ==
            if FirstGiven(since).Some? then FirstGiven(since) else if t.Gives? && t.add then Some(t.at) else None
  {
    assert Front(since + [t]) == since;
  }

  lemma FollowedMatches(i: string, c: Candidate, since: seq<Told>, t: Told, d: Candidate)
    requires Matches(i, c, since) && Follows(i, c, t, d)
    ensures Matches(i, d, since + [t])
  {
    FirstsAfter(since, t);
    assert Fails in since + [t] <==> Fails in since || t == Fails;
    AddressesAfter(since, t);
    SettledAfter(i, since, t);
    if t.Polled? {
      DueAsTold(i, c, since, t.at);
    }
    GivenMeansFirst(since);
    hide Settled, Addresses, DueBy, Resolution, FirstGiven, Due;
  }

  /** No address stands before the first was given. */
  lemma {:induction false} GivenMeansFirst(since: seq<Told>)
    ensures Addresses(since) != [] ==> FirstGiven(since).Some?
    decreases |since|
  {
    if since != [] {
      GivenMeansFirst(Front(since));
      assert since == Front(since) + [Last(since)];
      AddressesAfter(Front(since), Last(since));
      FirstsAfter(Front(since), Last(since));
    }
  }

  lemma NewMatches(i: string, ref: nat, t: Told)
    requires ref != NULL && Finds(t)
    ensures Matches(i, NewCandidate(ref, t.change), [t])
  {
    assert [] + [t] == [t];
    FirstsAfter([], t);
    AddressesAfter([], t);
    SettledAfter(i, [], t);
  }

  lemma SinceAfter(told: seq<Told>, t: Told)
    ensures Found(told + [t]) <==> !Ends(t) && (Finds(t) || Found(told))
    ensures Since(told + [t]) ==
            if Ends(t) then [] else if Found(told) then Since(told) + [t] else if Finds(t) then [t] else []
  {
    assert Front(told + [t]) == told;
  }

  // ------------------------------------------------------------ every step keeps it

  ghost predicate AsTold(s: State, h: History, i: string) {
    && (i in s.candidates <==> Found(ToldOf(h, i)))
    && (i in s.candidates ==> Matches(i, s.candidates[i], Since(ToldOf(h, i))))
  }

  ghost predicate AllAsTold(s: State, h: History) {
    forall i: string :: AsTold(s, h, i)
  }

  predicate SameHere(s: State, s': State, i: string) {
    (i in s.candidates <==> i in s'.candidates) && (i in s.candidates ==> Alike(s.candidates[i], s'.candidates[i]))
  }

  ghost predicate SameAll(s: State, s': State) {
    forall i: string :: SameHere(s, s', i)
  }

  lemma AlikeMatches(i: string, c: Candidate, d: Candidate, since: seq<Told>)
    requires Matches(i, c, since) && Alike(c, d)
    ensures Matches(i, d, since)
  {
  }

  lemma SameAllAsTold(s: State, s': State, h: History)
    requires AllAsTold(s, h) && SameAll(s, s')
    ensures AllAsTold(s', h)
  {
    hide Matches, Alike;
    forall i: string ensures AsTold(s', h, i) {
      assert AsTold(s, h, i) && SameHere(s, s', i);
      if i in s.candidates {
        AlikeMatches(i, s.candidates[i], s'.candidates[i], Since(ToldOf(h, i)));
      }
    }
  }

  /** How a name's candidate takes what is told of it. */
  ghost predicate Takes(s: State, i: string, t: Told, s': State) {
    && (i in s'.candidates <==> !Ends(t) && (Finds(t) || i in s.candidates))
    && (i in s.candidates && i in s'.candidates ==> Follows(i, s.candidates[i], t, s'.candidates[i]))
    && (i !in s.candidates && i in s'.candidates ==>
          exists ref: nat :: ref != NULL && s'.candidates[i] == NewCandidate(ref, t.change))
  }

  lemma TakenAsTold(s: State, h: History, i: string, t: Told, s': State)
    requires AsTold(s, h, i) && Takes(s, i, t, s')
    ensures AsTold(s', Tell(h, i, t), i)
  {
    var told := ToldOf(h, i);
    assert ToldOf(Tell(h, i, t), i) == told + [t];
    SinceAfter(told, t);
    hide Matches, Follows, Found, Since;
    if i in s'.candidates {
      if i in s.candidates {
        FollowedMatches(i, s.candidates[i], Since(told), t, s'.candidates[i]);
      } else {
        var ref: nat :| ref != NULL && s'.candidates[i] == NewCandidate(ref, t.change);
        NewMatches(i, ref, t);
      }
    }
  }

  lemma OneNameTold(s: State, s': State, h: History, i: string, t: Told)
    requires AllAsTold(s, h) && Takes(s, i, t, s') && forall j: string :: j != i ==> SameHere(s, s', j)
    ensures AllAsTold(s', Tell(h, i, t))
  {
    hide Matches, Alike, Takes;
    forall j: string ensures AsTold(s', Tell(h, i, t), j) {
      assert AsTold(s, h, j);
      if j == i {
        TakenAsTold(s, h, i, t, s');
      } else {
        assert SameHere(s, s', j) && ToldOf(Tell(h, i, t), j) == ToldOf(h, j);
        if j in s.candidates {
          AlikeMatches(j, s.candidates[j], s'.candidates[j], Since(ToldOf(h, j)));
        }
      }
    }
  }

  /** Within a poll whose clock reads `at`. */
  predicate Sane(s: State, at: int) {
    s.now == at >= 0 && s.nextRef > 0 && s.nextSeq > 0
  }

  lemma BrowsedTells(s: State, h: History, e: Reply, at: int)
    requires AllAsTold(s, h) && Sane(s, at) && e.Browsed? && !e.error
    ensures var refused := e.instance !in s.candidates && e.change.add && e.resolveFails;
            AllAsTold(OnBrowse(s, e), Tell(h, e.instance, Heard(e.change, refused)))
    ensures Sane(OnBrowse(s, e), at)
  {
    var refused := e.instance !in s.candidates && e.change.add && e.resolveFails;
    var s' := OnBrowse(s, e);
    assert Takes(s, e.instance, Heard(e.change, refused), s');
    assert forall j: string :: j != e.instance ==> SameHere(s, s', j);
    hide OnBrowse, Takes, SameHere;
    OneNameTold(s, s', h, e.instance, Heard(e.change, refused));
  }

  /** What a resolve does to its own candidate, and that it leaves the others alone. */
  lemma ResolveTakes(s: State, ref: nat, ctx: nat, i: string, e: Reply, at: int)
    requires Sane(s, at) && e.Resolved?
    requires i in s.candidates && s.candidates[i].resolveRef != NULL ==>
               s.candidates[i].v4Ref == s.candidates[i].v6Ref == NULL
    ensures var s' := OnResolve(s, ref, ctx, i, e);
            && Takes(s, i, ResolveTold(e), s') && (forall j: string :: j != i ==> SameHere(s, s', j)) && Sane(s', at)
  {
    if i in s.candidates && !e.error && s.candidates[i].resolveRef != NULL {
      FirstResolveTakes(s, ref, ctx, i, e, at);
      hide OnResolve, Takes;
    }
  }

  lemma FirstResolveTakes(s: State, ref: nat, ctx: nat, i: string, e: Reply, at: int)
    requires Sane(s, at) && e.Resolved? && !e.error
    requires i in s.candidates && s.candidates[i].resolveRef != NULL
    requires s.candidates[i].v4Ref == s.candidates[i].v6Ref == NULL
    ensures var s' := OnResolve(s, ref, ctx, i, e);
            && Takes(s, i, ResolveTold(e), s') && (forall j: string :: j != i ==> SameHere(s, s', j)) && Sane(s', at)
  {
    var s1 := Retire(s, ref, i, e.details);
    QueryTakes(s1, i, ctx, false, e.v4Fails, at);
    var s2 := Query(s1, i, ctx, false, e.v4Fails);
    QueryTakes(s2, i, ctx, true, e.v6Fails, at);
    hide Query;
  }

  lemma QueryTakes(s: State, i: string, ctx: nat, v6: bool, fails: bool, at: int)
    requires i in s.candidates && Sane(s, at)
    ensures var s' := Query(s, i, ctx, v6, fails);
            && i in s'.candidates && Sane(s', at) && (forall j: string :: j != i ==> SameHere(s, s', j))
            && (var c, d := s.candidates[i], s'.candidates[i];
                if v6 then d == c.(v6Ref := d.v6Ref) && (d.v6Ref == NULL <==> fails)
                else d == c.(v4Ref := d.v4Ref) && (d.v4Ref == NULL <==> fails))
  {
  }

  lemma ResolvedTells(s: State, h: History, ref: nat, ctx: nat, i: string, e: Reply, at: int)
    requires AllAsTold(s, h) && Sane(s, at) && e.Resolved?
    ensures AllAsTold(OnResolve(s, ref, ctx, i, e), Tell(h, i, ResolveTold(e)))
    ensures Sane(OnResolve(s, ref, ctx, i, e), at)
  {
    assert AsTold(s, h, i);
    ResolveTakes(s, ref, ctx, i, e, at);
    hide OnResolve, Takes, SameHere, AsTold, Matches;
    OneNameTold(s, OnResolve(s, ref, ctx, i, e), h, i, ResolveTold(e));
  }

  lemma SameAsBefore(s: State)
    ensures SameAll(s, s)
  {
  }

  lemma AnsweredTells(s: State, h: History, i: string, e: Reply, at: int)
    requires AllAsTold(s, h) && Sane(s, at) && e.Answered?
    ensures AllAsTold(OnAnswer(s, i, e),
                      if e.error || e.address == None then h else Tell(h, i, Gives(e.add, e.address.value, at)))
    ensures Sane(OnAnswer(s, i, e), at)
  {
    var s' := OnAnswer(s, i, e);
    if e.error || e.address == None {
    } else {
      AnswerTakes(s, i, e, at);
      hide OnAnswer, Takes, SameHere;
      OneNameTold(s, s', h, i, Gives(e.add, e.address.value, at));
    }
  }

  lemma AnswerTakes(s: State, i: string, e: Reply, at: int)
    requires Sane(s, at) && e.Answered? && !e.error && e.address.Some?
    ensures Takes(s, i, Gives(e.add, e.address.value, at), OnAnswer(s, i, e))
    ensures forall j: string :: j != i ==> SameHere(s, OnAnswer(s, i, e), j)
  {
    hide ChangeAddress;
  }

  lemma StepTells(s: State, h: History, ref: nat, e: Reply, at: int)
    requires AllAsTold(s, h) && Sane(s, at)
    ensures AllAsTold(Step(s, ref, e), ToldByStep(s, h, ref, e, at)) && Sane(Step(s, ref, e), at)
  {
    hide AllAsTold, OnBrowse, OnResolve, OnAnswer;
    if ref in s.live && Fits(s.live[ref], e) {
      match s.live[ref]
      case Browsing =>
        if e.error {
          ErrorChangesNothing(s, e);
        } else {
          BrowsedTells(s, h, e, at);
        }
      case Resolving(ctx, i) => ResolvedTells(s, h, ref, ctx, i, e, at);
      case Querying(_, i, _) => AnsweredTells(s, h, i, e, at);
      case Registering =>
        SameAsBefore(s);
        SameAllAsTold(s, Step(s, ref, e), h);
    }
  }

  lemma {:induction false} RepliesTell(s: State, h: History, ref: nat, replies: seq<Reply>, at: int)
    requires AllAsTold(s, h) && Sane(s, at)
    ensures AllAsTold(Replies(s, ref, replies), ToldByReplies(s, h, ref, replies, at))
    ensures Sane(Replies(s, ref, replies), at)
    decreases |replies|
  {
    hide AllAsTold, Sane, Step, ToldByStep;
    if replies != [] {
      StepTells(s, h, ref, replies[0], at);
      RepliesTell(Step(s, ref, replies[0]), ToldByStep(s, h, ref, replies[0], at), ref, replies[1..], at);
    }
  }

  lemma NothingTold(s: State)
    requires s.candidates == map[]
    ensures AllAsTold(s, map[])
  {
    forall i: string ensures AsTold(s, map[], i) {
      assert ToldOf(map[], i) == [];
    }
  }

  lemma {:induction false} PumpTells(s: State, h: History, visits: seq<Visit>, at: int)
    requires AllAsTold(s, h) && Sane(s, at)
    ensures AllAsTold(Pump(s, visits), ToldByPump(s, h, visits, at)) && Sane(Pump(s, visits), at)
    decreases |visits|
  {
    hide AllAsTold, IsLive, Replies, ToldByReplies, Owned;
    if visits != [] {
      if IsLive(s, visits[0].ref) {
        RepliesTell(s, h, visits[0].ref, visits[0].replies, at);
        var s1 := Replies(s, visits[0].ref, visits[0].replies);
        if visits[0].failed {
          NothingTold(Fail(s1));
        } else {
          PumpTells(s1, ToldByReplies(s, h, visits[0].ref, visits[0].replies, at), visits[1..], at);
        }
      } else {
        PumpTells(s, h, visits[1..], at);
      }
    }
  }

  lemma ForgetTells(s: State, h: History, i: string, at: int)
    requires AllAsTold(s, h) && Sane(s, at)
    ensures AllAsTold(Forget(s, i), ToldByForget(s, h, i)) && Sane(Forget(s, i), at)
  {
    if i in s.candidates {
      var t := if s.candidates[i].unusable then Dropped else Left;
      assert Takes(s, i, t, Forget(s, i)) && forall j: string :: j != i ==> SameHere(s, Forget(s, i), j);
      hide Takes, SameHere, Forget;
      OneNameTold(s, Forget(s, i), h, i, t);
    }
  }

  lemma {:induction false} PurgeTells(s: State, h: History, names: seq<string>, at: int)
    requires AllAsTold(s, h) && Sane(s, at)
    ensures AllAsTold(Purge(s, names), ToldByPurge(s, h, names)) && Sane(Purge(s, names), at)
    decreases |names|
  {
    hide AllAsTold, Forget, ToldByForget;
    if names == [] {
      SameAsBefore(s);
      SameAllAsTold(s, s.(doomed := []), h);
    } else if names[0] in s.candidates && !Departed(s.candidates[names[0]]) {
      PurgeTells(s, h, names[1..], at);
    } else {
      ForgetTells(s, h, names[0], at);
      PurgeTells(Forget(s, names[0]), ToldByForget(s, h, names[0]), names[1..], at);
    }
  }

  // ----------------------------------------------------------------- the settle pass

  lemma {:induction false} SettledOnlyIfDue(s: State, names: seq<string>, i: string)
    requires i in s.candidates && s.nextSeq > 0
    ensures i in Settle(s, names).candidates
    ensures Settle(s, names).candidates[i].resolvedSeq != 0 ==>
              s.candidates[i].resolvedSeq != 0 || Due(i, s.candidates[i], s.now)
    ensures s.candidates[i].resolvedSeq != 0 ==> Settle(s, names).candidates[i].resolvedSeq != 0
    ensures Settle(s, names).nextSeq > 0 && Settle(s, names).now == s.now && Settle(s, names).nextRef == s.nextRef
    decreases |names|
  {
    if names != [] {
      SettledOnlyIfDue(SettleOne(s, names[0]), names[1..], i);
    }
    hide Dialable;
  }

  /** A pass over every candidate settles exactly those that are due. */
  lemma SettleFollows(s: State, names: seq<string>, i: string)
    requires i in s.candidates && i in names && s.nextSeq > 0
    ensures i in Settle(s, names).candidates
    ensures Follows(i, s.candidates[i], Polled(s.now), Settle(s, names).candidates[i])
  {
    SettledOnlyIfDue(s, names, i);
    SettleLeavesNotDue(s, names, i);
    SettleKeepsKeys(s, names);
    SettleKeepsTimer(s, names);
    var c, d := s.candidates[i], Settle(s, names).candidates[i];
    assert Due(i, c, s.now) && d.resolvedSeq == 0 ==> Due(i, d, s.now);
    hide Settle, Due;
  }

  lemma {:induction false} SettleKeepsSane(s: State, names: seq<string>, at: int)
    requires Sane(s, at)
    ensures Sane(Settle(s, names), at)
    decreases |names|
  {
    hide Due;
    if names != [] {
      SettleKeepsSane(SettleOne(s, names[0]), names[1..], at);
    }
  }

  lemma SettleTells(s: State, h: History, names: seq<string>, at: int)
    requires AllAsTold(s, h) && Sane(s, at) && forall i :: i in s.candidates ==> i in names
    ensures AllAsTold(Settle(s, names), ToldAll(h, Polled(at)))
  {
    hide Settle, Matches, Follows, Since, Found;
    SettleKeepsKeys(s, names);
    forall i: string ensures AsTold(Settle(s, names), ToldAll(h, Polled(at)), i) {
      assert AsTold(s, h, i);
      var told := ToldOf(h, i);
      if i in h {
        SinceAfter(told, Polled(at));
        if i in s.candidates {
          SettleFollows(s, names, i);
          FollowedMatches(i, s.candidates[i], Since(told), Polled(at), Settle(s, names).candidates[i]);
        }
      } else {
        NothingFound();
      }
    }
  }

  lemma NothingFound()
    ensures !Found([])
  {
  }

  // ------------------------------------------------------------------- whole runs

  lemma BeginIsAlike(s: State, now: int, registerFails: bool, browseFails: bool)
    requires Sane(s, s.now) && now >= s.now
    ensures SameAll(s, BeginPoll(s, now, registerFails, browseFails))
    ensures Sane(BeginPoll(s, now, registerFails, browseFails), now)
  {
    NoteIsAlike(s, now);
    RestartIsAlike(NoteMissing(s, now), registerFails, browseFails);
    hide NoteMissing, RestartIfDue, Alike;
  }

  lemma NoteIsAlike(s: State, now: int)
    requires Sane(s, s.now) && now >= s.now
    ensures NoteMissing(s, now).candidates == s.candidates && Sane(NoteMissing(s, now), now)
  {
    hide Outbound.Backoff;
  }

  lemma RestartIsAlike(s: State, registerFails: bool, browseFails: bool)
    requires Sane(s, s.now)
    ensures RestartIfDue(s, registerFails, browseFails).candidates == s.candidates
    ensures Sane(RestartIfDue(s, registerFails, browseFails), s.now)
  {
  }

  /** The order in which a poll's settle pass visits the candidates is an order of all of them. */
  predicate VisitsAll(s: State, op: Op) {
    op.Poll? ==> forall i :: i in Apply(s, op).candidates ==> i in op.names
  }

  predicate AllVisited(s: State, ops: seq<Op>)
    decreases |ops|
  {
    ops == [] || (VisitsAll(s, ops[0]) && AllVisited(Apply(s, ops[0]), ops[1..]))
  }

  lemma PollTells(s: State, h: History, op: Op)
    requires AllAsTold(s, h) && Sane(s, s.now) && op.Poll? && Allowed(s, op) && VisitsAll(s, op)
    ensures AllAsTold(Apply(s, op), ToldByOp(s, h, op)) && Sane(Apply(s, op), op.now)
  {
    hide AllAsTold, BeginPoll, Pump, Purge, Settle, ToldByPump, ToldByPurge, ToldAll;
    var s1 := BeginPoll(s, op.now, op.registerFails, op.browseFails);
    BeginIsAlike(s, op.now, op.registerFails, op.browseFails);
    SameAllAsTold(s, s1, h);
    PumpTells(s1, h, op.visits, op.now);
    var pumped, told := Pump(s1, op.visits), ToldByPump(s1, h, op.visits, op.now);
    var drained := Drain(pumped);
    SameAsBefore(pumped);
    SameAllAsTold(pumped, drained, told);
    PurgeTells(drained, told, drained.doomed, op.now);
    var purged := Purge(drained, drained.doomed);
    SettleKeepsKeys(purged, op.names);
    SettleTells(purged, ToldByPurge(drained, told, drained.doomed), op.names, op.now);
    SettleKeepsSane(purged, op.names, op.now);
  }

  lemma OpTells(s: State, h: History, op: Op)
    requires AllAsTold(s, h) && Sane(s, s.now) && Allowed(s, op) && VisitsAll(s, op)
    ensures AllAsTold(Apply(s, op), ToldByOp(s, h, op)) && Sane(Apply(s, op), Apply(s, op).now)
  {
    hide AllAsTold, BeginPoll, Pump, EndPoll, Owned;
    match op
    case Advertise(_) => SameAsBefore(s); SameAllAsTold(s, Apply(s, op), h);
    case Browse(_) => SameAsBefore(s); SameAllAsTold(s, Apply(s, op), h);
    case Stop => NothingTold(Apply(s, op));
    case Poll(_, _, _, _, _) => PollTells(s, h, op);
  }

  lemma {:induction false} RunTells(s: State, h: History, ops: seq<Op>)
    requires AllAsTold(s, h) && Sane(s, s.now) && AllAllowed(s, ops) && AllVisited(s, ops)
    ensures AllAsTold(Run(s, ops), ToldByRun(s, h, ops)) && Sane(Run(s, ops), Run(s, ops).now)
    decreases |ops|
  {
    hide AllAsTold, Sane, Apply, ToldByOp, Allowed, VisitsAll;
    if ops != [] {
      OpTells(s, h, ops[0]);
      RunTells(Apply(s, ops[0]), ToldByOp(s, h, ops[0]), ops[1..]);
    }
  }

  // ----------------------------------------------------------------- the theorems

  ghost function SinceFound(ops: seq<Op>, i: string): seq<Told> {
    Since(ToldOf(ToldByRun(STOPPED, map[], ops), i))
  }

  /** After any allowed run there is a candidate of a name exactly if one has been found and not let
      go since. Its details are those of the first resolve that came without an error since then, or
      none, and an address query of each family runs if dns_sd took it then; its addresses are those
      added and not withdrawn, in order; and its settle window starts at the clock of the first one
      added. */
  lemma MadeOfWhatWasTold(ops: seq<Op>, i: string)
    requires AllAllowed(STOPPED, ops) && AllVisited(STOPPED, ops)
    ensures var s, since := Run(STOPPED, ops), SinceFound(ops, i);
            && (i in s.candidates <==> Found(ToldOf(ToldByRun(STOPPED, map[], ops), i)))
            && (i in s.candidates ==>
                  && !Hopeless(since)
                  && (Resolution(since).Some? ==>
                        && s.candidates[i].details == Resolution(since).value.details
                        && (s.candidates[i].v4Ref != NULL <==> Resolution(since).value.v4)
                        && (s.candidates[i].v6Ref != NULL <==> Resolution(since).value.v6))
                  && (Resolution(since) == None ==> s.candidates[i].details.(interface := 0) == UNRESOLVED)
                  && s.candidates[i].addresses == Addresses(since)
                  && s.candidates[i].firstAddress ==
                       (if FirstGiven(since).Some? then FirstGiven(since).value else -1)
                  && (s.candidates[i].resolvedSeq != 0 <==> Settled(i, since)))
  {
    hide Run, ToldByRun, Resolution, FirstGiven, Addresses, Settled, Since, Found, Hopeless;
    NothingTold(STOPPED);
    RunTells(STOPPED, map[], ops);
    assert AsTold(Run(STOPPED, ops), ToldByRun(STOPPED, map[], ops), i);
    if i in Run(STOPPED, ops).candidates {
      ListedIsCarried(ops, i);
    }
  }

  /** So a name is offered, and as what, is decided by what was told: it has been found, it was
      dialable at the end of some poll at least 250 ms after its first address, and it is now. */
  lemma OfferedAsTold(ops: seq<Op>, i: string)
    requires AllAllowed(STOPPED, ops) && AllVisited(STOPPED, ops)
    ensures var s, since := Run(STOPPED, ops), SinceFound(ops, i);
            && (Offered(s, i) <==> OfferedTold(i, since))
            && (i in s.candidates ==> Described(i, s.candidates[i]) == ServerTold(i, since))
  {
    hide Run, ToldByRun, Resolution, FirstGiven, Addresses, Settled, Dialable;
    MadeOfWhatWasTold(ops, i);
    FoundMeansTold(ToldOf(ToldByRun(STOPPED, map[], ops), i));
    NothingSettled(i);
    hide Since, Found;
  }

  ghost predicate OfferedTold(i: string, since: seq<Told>) {
    Settled(i, since) && Dialable(ServerTold(i, since))
  }

  lemma FoundMeansTold(told: seq<Told>)
    ensures Found(told) <==> Since(told) != []
  {
  }

  lemma NothingSettled(i: string)
    ensures !Settled(i, [])
  {
  }

  // ------------------------------------------------------ no one goes without a reason

  /** A name is dropped as unusable only when it is hopeless, and left only when it is carried on no
      interface; and a poll lets neither kind through. */
  ghost predicate MarkRight(before: seq<Told>, t: Told) {
    match t
    case Dropped => Found(before) && Hopeless(Since(before))
    case Left => Found(before) && !Hopeless(Since(before)) && forall n: nat :: !Kept(before, n)
    case Polled(_) => Found(before) ==> !Hopeless(Since(before)) && exists n: nat :: Kept(before, n)
    case _ => true
  }

  ghost predicate MarksRight(told: seq<Told>) {
    forall k :: 0 <= k < |told| ==> MarkRight(told[..k], told[k])
  }

  ghost predicate AllMarksRight(h: History) {
    forall i :: i in h ==> MarksRight(h[i])
  }

  lemma OneMoreMark(told: seq<Told>, t: Told)
    requires MarksRight(told) && MarkRight(told, t)
    ensures MarksRight(told + [t])
  {
    hide MarkRight;
    var longer := told + [t];
    forall k | 0 <= k < |longer| ensures MarkRight(longer[..k], longer[k]) {
      assert longer[..k] == told[..k];
      assert k == |told| ==> told[..k] == told;
    }
  }

  lemma TellKeepsMarks(h: History, i: string, t: Told)
    requires AllMarksRight(h) && MarkRight(ToldOf(h, i), t)
    ensures AllMarksRight(Tell(h, i, t))
  {
    hide MarkRight;
    assert MarksRight(ToldOf(h, i));
    OneMoreMark(ToldOf(h, i), t);
  }

  lemma StepKeepsMarks(s: State, h: History, ref: nat, e: Reply, at: int)
    requires AllMarksRight(h)
    ensures AllMarksRight(ToldByStep(s, h, ref, e, at))
  {
    hide AllMarksRight, Tell;
    if ref in s.live && Fits(s.live[ref], e) {
      match s.live[ref]
      case Browsing =>
        if !e.error {
          TellKeepsMarks(h, e.instance,
                         Heard(e.change, e.instance !in s.candidates && e.change.add && e.resolveFails));
        }
      case Resolving(_, i) => TellKeepsMarks(h, i, ResolveTold(e));
      case Querying(_, i, _) =>
        if !e.error && e.address.Some? {
          TellKeepsMarks(h, i, Gives(e.add, e.address.value, at));
        }
      case Registering =>
    }
  }

  lemma {:induction false} RepliesKeepMarks(s: State, h: History, ref: nat, replies: seq<Reply>, at: int)
    requires AllMarksRight(h)
    ensures AllMarksRight(ToldByReplies(s, h, ref, replies, at))
    decreases |replies|
  {
    hide AllMarksRight, Step, ToldByStep;
    if replies != [] {
      StepKeepsMarks(s, h, ref, replies[0], at);
      RepliesKeepMarks(Step(s, ref, replies[0]), ToldByStep(s, h, ref, replies[0], at), ref, replies[1..], at);
    }
  }

  lemma {:induction false} PumpKeepsMarks(s: State, h: History, visits: seq<Visit>, at: int)
    requires AllMarksRight(h)
    ensures AllMarksRight(ToldByPump(s, h, visits, at))
    decreases |visits|
  {
    if visits != [] {
      var h1 := ToldByReplies(s, h, visits[0].ref, visits[0].replies, at);
      RepliesKeepMarks(s, h, visits[0].ref, visits[0].replies, at);
      PumpKeepsMarks(s, h, visits[1..], at);
      PumpKeepsMarks(Replies(s, visits[0].ref, visits[0].replies), h1, visits[1..], at);
      hide MarksRight, IsLive, Replies, ToldByReplies;
    }
  }

  lemma ForgetMarks(s: State, h: History, i: string)
    requires AllMarksRight(h) && AllAsTold(s, h) && Listing(s, h)
    requires i in s.candidates ==> Departed(s.candidates[i])
    ensures AllMarksRight(ToldByForget(s, h, i))
  {
    if i in s.candidates {
      assert AsTold(s, h, i) && ListedAsKept(s, h, i);
      hide AllMarksRight, Kept, Found, Since, Hopeless;
      TellKeepsMarks(h, i, if s.candidates[i].unusable then Dropped else Left);
    }
  }

  lemma {:induction false} PurgeKeepsMarks(s: State, h: History, names: seq<string>, at: int)
    requires AllMarksRight(h) && AllAsTold(s, h) && Listing(s, h) && Sane(s, at)
    ensures AllMarksRight(ToldByPurge(s, h, names))
    decreases |names|
  {
    hide AllMarksRight, AllAsTold, Listing, Forget, ToldByForget, Sane;
    if names != [] {
      if names[0] in s.candidates && !Departed(s.candidates[names[0]]) {
        PurgeKeepsMarks(s, h, names[1..], at);
      } else {
        ForgetMarks(s, h, names[0]);
        ForgetTells(s, h, names[0], at);
        ForgetKeepsListing(s, h, names[0]);
        PurgeKeepsMarks(Forget(s, names[0]), ToldByForget(s, h, names[0]), names[1..], at);
      }
    }
  }

  lemma PolledMarks(s: State, h: History, at: int)
    requires AllMarksRight(h) && AllAsTold(s, h) && Listing(s, h)
    requires forall i :: i in s.candidates ==> !Departed(s.candidates[i])
    ensures AllMarksRight(ToldAll(h, Polled(at)))
  {
    hide Kept, Found, Since, Hopeless, MarksRight;
    forall i | i in h ensures MarksRight(h[i] + [Polled(at)]) {
      assert AsTold(s, h, i) && ListedAsKept(s, h, i);
      if i in s.candidates {
        var n :| n in s.candidates[i].interfaces;
        assert n in InterfacesOf(s, i);
      }
      OneMoreMark(h[i], Polled(at));
    }
  }

  lemma PollKeepsMarks(s: State, h: History, op: Op)
    requires AllMarksRight(h) && AllAsTold(s, h) && Listing(s, h) && Quiet(s) && Sane(s, s.now)
    requires op.Poll? && Allowed(s, op)
    ensures AllMarksRight(ToldByOp(s, h, op))
  {
    hide AllAsTold, AllMarksRight, Listing, Ownership, Candidates, BeginPoll, Pump, Purge, ToldByPump, ToldByPurge,
      ToldAll, SameAll, SameInterfaces;
    var s1 := BeginPoll(s, op.now, op.registerFails, op.browseFails);
    BeginIsAlike(s, op.now, op.registerFails, op.browseFails);
    BeginKeepsInv(s, op.now, op.registerFails, op.browseFails);
    BeginKeepsInterfaces(s, op.now, op.registerFails, op.browseFails);
    SameAllAsTold(s, s1, h);
    SameInterfacesSameListing(s, s1, h);
    var pumped, told := Pump(s1, op.visits), ToldByPump(s1, h, op.visits, op.now);
    PumpTells(s1, h, op.visits, op.now);
    PumpKeepsInv(s1, op.visits);
    PumpKeepsListing(s1, h, op.visits, op.now);
    PumpKeepsMarks(s1, h, op.visits, op.now);
    var drained := Drain(pumped);
    DrainedAlike(pumped);
    SameAllAsTold(pumped, drained, told);
    SameInterfacesSameListing(pumped, drained, told);
    DrainKeepsOwnership(pumped);
    SameKeepsCandidates(pumped, drained);
    var purged, left := Purge(drained, drained.doomed), ToldByPurge(drained, told, drained.doomed);
    PurgeKeepsMarks(drained, told, drained.doomed, op.now);
    PurgeTells(drained, told, drained.doomed, op.now);
    PurgeKeepsListing(drained, told, drained.doomed);
    PurgedHasNoneDeparted(drained);
    PolledMarks(purged, left, op.now);
  }

  lemma DrainedAlike(s: State)
    ensures SameAll(s, Drain(s)) && SameInterfaces(s, Drain(s))
  {
  }

  lemma PurgedHasNoneDeparted(s: State)
    requires Inv(s) && s.retired == []
    ensures forall i :: i in Purge(s, s.doomed).candidates ==> !Departed(Purge(s, s.doomed).candidates[i])
  {
    PurgeIsExact(s, s.doomed);
  }

  lemma {:induction false} RunKeepsMarks(s: State, h: History, ops: seq<Op>)
    requires AllMarksRight(h) && AllAsTold(s, h) && Listing(s, h) && Quiet(s) && Sane(s, s.now)
    requires AllAllowed(s, ops) && AllVisited(s, ops)
    ensures AllMarksRight(ToldByRun(s, h, ops))
    decreases |ops|
  {
    hide AllMarksRight, AllAsTold, Listing, Quiet, Sane, Apply, Allowed, VisitsAll;
    if ops != [] {
      var op := ops[0];
      OpTells(s, h, op);
      OpKeepsListing(s, h, op);
      ApplyKeepsQuiet(s, op);
      if op.Poll? {
        PollKeepsMarks(s, h, op);
      } else {
        NoMarks();
      }
      RunKeepsMarks(Apply(s, op), ToldByOp(s, h, op), ops[1..]);
    }
  }

  lemma NoMarks()
    ensures AllMarksRight(map[])
  {
  }

  /** Over any allowed run, every mark in a name's history is right. */
  lemma NobodyGoesWithoutReason(ops: seq<Op>, i: string, k: nat)
    requires AllAllowed(STOPPED, ops) && AllVisited(STOPPED, ops)
    requires k < |ToldOf(ToldByRun(STOPPED, map[], ops), i)|
    ensures var told := ToldOf(ToldByRun(STOPPED, map[], ops), i); MarkRight(told[..k], told[k])
  {
    hide MarkRight, ToldByRun;
    StartsQuiet();
    NothingTold(STOPPED);
    NothingListed(STOPPED);
    NoMarks();
    RunKeepsMarks(STOPPED, map[], ops);
  }

  /** The clock is the last poll's. */
  lemma PollSetsClock(ops: seq<Op>, op: Op)
    requires AllAllowed(STOPPED, ops) && AllVisited(STOPPED, ops)
    requires op.Poll? && Allowed(Run(STOPPED, ops), op) && VisitsAll(Run(STOPPED, ops), op)
    ensures Apply(Run(STOPPED, ops), op).now == op.now
  {
    hide Run, ToldByRun, Apply;
    NothingTold(STOPPED);
    RunTells(STOPPED, map[], ops);
    PollTells(Run(STOPPED, ops), ToldByRun(STOPPED, map[], ops), op);
  }

  /** A run one call longer. */
  lemma {:induction false} OneMoreOp(s: State, h: History, ops: seq<Op>, op: Op)
    ensures Run(s, ops + [op]) == Apply(Run(s, ops), op)
    ensures ToldByRun(s, h, ops + [op]) == ToldByOp(Run(s, ops), ToldByRun(s, h, ops), op)
    ensures AllAllowed(s, ops) && Allowed(Run(s, ops), op) ==> AllAllowed(s, ops + [op])
    ensures AllVisited(s, ops) && VisitsAll(Run(s, ops), op) ==> AllVisited(s, ops + [op])
    decreases |ops|
  {
    hide Apply, ToldByOp, Allowed, VisitsAll;
    if ops == [] {
      assert [] + [op] == [op] && [op][1..] == [];
    } else {
      assert (ops + [op])[0] == ops[0] && (ops + [op])[1..] == ops[1..] + [op];
      OneMoreOp(Apply(s, ops[0]), ToldByOp(s, h, ops[0]), ops[1..], op);
    }
  }
}
