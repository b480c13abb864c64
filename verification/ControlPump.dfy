/** The bounded connection pump: ControlSocket::poll() of src/control_socket.cpp.

    What accept(), fcntl() and read() answer are inputs. A connection is known by the
    number of its accept(), because the kernel reuses descriptors. `closed` and
    `handled` are histories of the close() calls and of the handler's; `Story` is the
    history of what the peers sent, kept from the answers beside any run.
 */
module ControlPump {
  import opened ControlLine

  const MAX_CONTROL_CONNECTIONS := 8
  const CONTROL_IDLE_TIMEOUT_MS := 5000

  datatype Read =
    | Data(bytes: string)
    | EndOfInput
    | Interrupted
    | WouldBlock
    | Broken

  datatype Connection = Connection(id: nat, buffer: string, accepted: int)

  /** A call of the handler. */
  datatype Handled = Handled(id: nat, line: string)

  datatype Pump = Pump(connections: seq<Connection>, nextId: nat, closed: seq<nat>, handled: seq<Handled>)

  const FRESH := Pump([], 0, [], [])

  // --------------------------------------------------------------- accepting

  function Accept(p: Pump, now: int, nonBlocking: bool): Pump {
    var q := p.(nextId := p.nextId + 1);
    if |p.connections| >= MAX_CONTROL_CONNECTIONS || !nonBlocking then q.(closed := p.closed + [p.nextId])
    else q.(connections := p.connections + [Connection(p.nextId, "", now)])
  }

  /** One entry for each connection waiting: whether it can be made non-blocking. */
  function AcceptAll(p: Pump, now: int, waiting: seq<bool>): Pump
    decreases |waiting|
  {
    if waiting == [] then p else AcceptAll(Accept(p, now, waiting[0]), now, waiting[1..])
  }

  // ----------------------------------------------------------------- reading

  datatype Outcome = Outcome(assembly: Assembly, closed: bool)

  /** read() until there is a verdict, an end or nothing more; no answers left means EAGAIN. */
  function ReadAll(a: Assembly, answers: seq<Read>): Outcome
    decreases |answers|
  {
    if answers == [] then Outcome(a, false)
    else
      match answers[0]
      case Data(d) =>
        var fed := Feed(a, d);
        if fed.state == Incomplete then ReadAll(fed, answers[1..]) else Outcome(fed, false)
      case EndOfInput => Outcome(Finish(a), true)
      case Interrupted => ReadAll(a, answers[1..])
      case WouldBlock => Outcome(a, false)
      case Broken => Outcome(a, true)
  }

  function ReadFrom(c: Connection, answers: seq<Read>): Outcome {
    ReadAll(Assembly(Incomplete, c.buffer, ""), answers)
  }

  predicate Survives(c: Connection, o: Outcome, now: int) {
    o.assembly.state == Incomplete && !o.closed && now - c.accepted < CONTROL_IDLE_TIMEOUT_MS
  }

  /** One connection served: kept among the survivors `kept`, or answered if it is owed an
      answer, and closed. */
  function Serve(p: Pump, kept: seq<Connection>, c: Connection, answers: seq<Read>, now: int): (Pump, seq<Connection>) {
    var o := ReadFrom(c, answers);
    if Survives(c, o, now) then (p, kept + [c.(buffer := o.assembly.buffer)])
    else
      var q := p.(closed := p.closed + [c.id]);
      var served := Handled(c.id, o.assembly.line);
      if o.assembly.state == Ready then (q.(handled := p.handled + [served]), kept) else (q, kept)
  }

  /** What each connection's read() calls answer this time round. */
  function ReadsOf(answers: map<nat, seq<Read>>, id: nat): seq<Read> {
    if id in answers then answers[id] else []
  }

  function ServeAll(p: Pump, kept: seq<Connection>, todo: seq<Connection>, answers: map<nat, seq<Read>>,
      now: int): (Pump, seq<Connection>)
    decreases |todo|
  {
    if todo == [] then (p, kept)
    else
      var (q, kept') := Serve(p, kept, todo[0], ReadsOf(answers, todo[0].id), now);
      ServeAll(q, kept', todo[1..], answers, now)
  }

  function PollOnce(p: Pump, now: int, waiting: seq<bool>, answers: map<nat, seq<Read>>): Pump {
    var accepted := AcceptAll(p, now, waiting);
    var (q, kept) := ServeAll(accepted.(connections := []), [], accepted.connections, answers, now);
    q.(connections := kept)
  }

  function CloseAll(p: Pump): Pump {
    p.(connections := [], closed := p.closed + Ids(p.connections))
  }

  function Ids(connections: seq<Connection>): seq<nat> {
    seq(|connections|, i requires 0 <= i < |connections| => connections[i].id)
  }

  // --------------------------------------------------------------- invariant

  /** Every accepted connection is held or has been closed, and that exactly once. */
  ghost predicate EachOnce(held: seq<Connection>, closed: seq<nat>, nextId: nat) {
    forall id: nat :: multiset(Ids(held) + closed)[id] == if id < nextId then 1 else 0
  }

  ghost predicate HandledOk(handled: seq<Handled>, closed: seq<nat>) {
    && (forall k :: 0 <= k < |handled| ==> handled[k].id in closed)
    && (forall j, k :: 0 <= j < k < |handled| ==> handled[j].id != handled[k].id)
  }

  predicate ConnectionOk(c: Connection) {
    Plain(c.buffer) && |c.buffer| <= MAX_CONTROL_LINE_BYTES
  }

  predicate Conns(cs: seq<Connection>) {
    forall k :: 0 <= k < |cs| ==> ConnectionOk(cs[k])
  }

  ghost predicate Inv(p: Pump) {
    && |p.connections| <= MAX_CONTROL_CONNECTIONS
    && EachOnce(p.connections, p.closed, p.nextId)
    && HandledOk(p.handled, p.closed)
    && Conns(p.connections)
  }

  predicate Young(cs: seq<Connection>, now: int) {
    forall k :: 0 <= k < |cs| ==> now - cs[k].accepted < CONTROL_IDLE_TIMEOUT_MS
  }

  // ------------------------------------------------------ held or closed, once

  lemma CountAfterMove(a: seq<nat>, id: nat, b: seq<nat>, closed: seq<nat>)
    ensures multiset((a + [id] + b) + closed) == multiset((a + b) + (closed + [id]))
  {
  }

  lemma IdsConcat(a: seq<Connection>, b: seq<Connection>)
    ensures Ids(a + b) == Ids(a) + Ids(b)
  {
  }

  lemma IdsAround(kept: seq<Connection>, c: Connection, rest: seq<Connection>)
    ensures Ids(kept + ([c] + rest)) == Ids(kept) + [c.id] + Ids(rest)
    ensures Ids((kept + [c]) + rest) == Ids(kept) + [c.id] + Ids(rest)
    ensures Ids(kept + rest) == Ids(kept) + Ids(rest)
  {
  }

  lemma ClosingKeepsCount(kept: seq<Connection>, c: Connection, rest: seq<Connection>, closed: seq<nat>, nextId: nat)
    requires EachOnce(kept + ([c] + rest), closed, nextId)
    ensures EachOnce(kept + rest, closed + [c.id], nextId)
    ensures c.id !in closed
  {
    IdsAround(kept, c, rest);
    CountAfterMove(Ids(kept), c.id, Ids(rest), closed);
    var all: seq<nat> := (Ids(kept) + [c.id] + Ids(rest)) + closed;
    assert multiset(all)[c.id] <= 1;
    assert multiset(all) == multiset(Ids(kept)) + multiset([c.id]) + multiset(Ids(rest)) + multiset(closed);
    assert c.id in closed ==> multiset(closed)[c.id] >= 1;
  }

  lemma KeepingKeepsCount(kept: seq<Connection>, c: Connection, buffer: string, rest: seq<Connection>,
      closed: seq<nat>, nextId: nat)
    requires EachOnce(kept + ([c] + rest), closed, nextId)
    ensures EachOnce((kept + [c.(buffer := buffer)]) + rest, closed, nextId)
  {
    IdsAround(kept, c, rest);
    IdsAround(kept, c.(buffer := buffer), rest);
  }

  lemma AcceptKeepsInv(p: Pump, now: int, nonBlocking: bool)
    requires Inv(p)
    ensures Inv(Accept(p, now, nonBlocking))
  {
    hide HandledOk;
    HandledStays(p.handled, p.closed, p.nextId);
    var q := Accept(p, now, nonBlocking);
    AcceptCounts(p, now, nonBlocking);
    hide EachOnce;
  }

  lemma HandledStays(handled: seq<Handled>, closed: seq<nat>, id: nat)
    requires HandledOk(handled, closed)
    ensures HandledOk(handled, closed + [id])
  {
  }

  lemma AcceptCounts(p: Pump, now: int, nonBlocking: bool)
    requires EachOnce(p.connections, p.closed, p.nextId)
    ensures EachOnce(Accept(p, now, nonBlocking).connections, Accept(p, now, nonBlocking).closed, p.nextId + 1)
  {
    var q := Accept(p, now, nonBlocking);
    IdsConcat(p.connections, [Connection(p.nextId, "", now)]);
    assert Ids([Connection(p.nextId, "", now)]) == [p.nextId];
    forall id: nat ensures multiset(Ids(q.connections) + q.closed)[id] == if id < q.nextId then 1 else 0 {
      assert multiset(Ids(q.connections) + q.closed) == multiset(Ids(p.connections) + p.closed) + multiset([p.nextId]);
    }
  }

  lemma {:induction false} AcceptAllKeepsInv(p: Pump, now: int, waiting: seq<bool>)
    requires Inv(p)
    ensures Inv(AcceptAll(p, now, waiting))
    decreases |waiting|
  {
    hide Inv, Accept;
    if waiting != [] {
      AcceptKeepsInv(p, now, waiting[0]);
      AcceptAllKeepsInv(Accept(p, now, waiting[0]), now, waiting[1..]);
    }
  }

  /** Of the connections waiting, those are taken that can be made non-blocking while there is room,
      first come first served. */
  lemma {:induction false} TakenWhileThereIsRoom(p: Pump, now: int, waiting: seq<bool>, k: nat)
    requires k < |waiting| && |p.connections| <= MAX_CONTROL_CONNECTIONS
    requires forall i :: 0 <= i < |p.connections| ==> p.connections[i].id < p.nextId
    ensures p.nextId + k in IdSet(AcceptAll(p, now, waiting).connections) <==>
            waiting[k] && |p.connections| + Willing(waiting[..k]) < MAX_CONTROL_CONNECTIONS
    decreases |waiting|
  {
    var q := Accept(p, now, waiting[0]);
    if k == 0 {
      AcceptAllOnlyAdds(q, now, waiting[1..]);
      var held := AcceptAll(q, now, waiting[1..]).connections;
      assert waiting[..0] == [];
      if q.connections != p.connections {
        assert held[|p.connections|].id == p.nextId;
      } else {
        assert forall c :: c in held ==> c.id != p.nextId;
      }
    } else {
      assert waiting[..k][0] == waiting[0] && waiting[..k][1..] == waiting[1..][..k - 1];
      TakenWhileThereIsRoom(q, now, waiting[1..], k - 1);
    }
  }

  function Willing(waiting: seq<bool>): nat {
    if waiting == [] then 0 else (if waiting[0] then 1 else 0) + Willing(waiting[1..])
  }

  function IdSet(cs: seq<Connection>): set<nat> {
    set c | c in cs :: c.id
  }

  lemma {:induction false} AcceptAllOnlyAdds(p: Pump, now: int, waiting: seq<bool>)
    ensures var q := AcceptAll(p, now, waiting);
            && p.connections <= q.connections && p.nextId <= q.nextId
            && q.handled == p.handled
            && forall i :: |p.connections| <= i < |q.connections| ==>
                 p.nextId <= q.connections[i].id < q.nextId
                 && q.connections[i] == Connection(q.connections[i].id, "", now)
    decreases |waiting|
  {
    if waiting != [] {
      AcceptAllOnlyAdds(Accept(p, now, waiting[0]), now, waiting[1..]);
    }
  }

  // --------------------------------------------------------- what reading yields

  /** How the bytes a peer has to give now end: with more to come, with its write side shut, or
      with a failure. */
  datatype Ending = Open | Shut | Failed

  /** The bytes the answers give, up to the first that gives no more. */
  function Offered(answers: seq<Read>): string {
    if answers == [] then ""
    else
      match answers[0]
      case Data(d) => d + Offered(answers[1..])
      case Interrupted => Offered(answers[1..])
      case _ => ""
  }

  function EndOf(answers: seq<Read>): Ending {
    if answers == [] then Open
    else
      match answers[0]
      case Data(_) => EndOf(answers[1..])
      case Interrupted => EndOf(answers[1..])
      case EndOfInput => Shut
      case WouldBlock => Open
      case Broken => Failed
  }

  /** Everything a peer has sent since it was accepted at `since`, as of its last visit at `seen`. */
  datatype Peer = Peer(text: string, end: Ending, since: int, seen: int)

  /** A whole line, and what it says: all before the first newline, or all of a non-empty input
      whose peer has shut its side, less a trailing CR, within the limit. */
  predicate Completes(p: Peer) {
    var k := FirstSpecial(p.text);
    k <= MAX_CONTROL_LINE_BYTES && if k < |p.text| then p.text[k] == '\n' else p.end.Shut? && p.text != ""
  }

  function LineOf(text: string): string {
    WithoutCr(text[..FirstSpecial(text)])
  }

  /** Neither a line nor a breach of one yet, and the peer still there and inside its deadline. */
  predicate Lasts(p: Peer) {
    FirstSpecial(p.text) == |p.text| <= MAX_CONTROL_LINE_BYTES && p.end.Open?
        && p.seen - p.since < CONTROL_IDLE_TIMEOUT_MS
  }

  /** However the reads cut it, the outcome of a visit is the verdict on the text so far and what is
      offered now. */
  lemma {:induction false} ReadsAreOneText(a: Assembly, text: string, answers: seq<Read>)
    requires a.state == Incomplete && a == Feed(EMPTY, text)
    ensures var o, v := ReadAll(a, answers), Feed(EMPTY, text + Offered(answers));
            && o.assembly == (if v.state == Incomplete && EndOf(answers).Shut? then Finish(v) else v)
            && (o.closed <==> v.state == Incomplete && !EndOf(answers).Open?)
    decreases |answers|
  {
    hide Feed, Finish;
    if answers == [] {
      assert text + "" == text;
    } else {
      match answers[0]
      case Data(d) =>
        var rest := Offered(answers[1..]);
        assert text + (d + rest) == (text + d) + rest;
        FeedSplit(EMPTY, text, d);
        FeedSplit(EMPTY, text + d, rest);
        if Feed(a, d).state == Incomplete {
          ReadsAreOneText(Feed(a, d), text + d, answers[1..]);
        }
      case Interrupted => ReadsAreOneText(a, text, answers[1..]);
      case EndOfInput => assert text + "" == text;
      case WouldBlock => assert text + "" == text;
      case Broken => assert text + "" == text;
    }
  }

  /** A connection still assembling has buffered everything it ever sent. */
  lemma BufferIsInput(c: Connection)
    requires ConnectionOk(c)
    ensures Feed(EMPTY, c.buffer) == Assembly(Incomplete, c.buffer, "")
  {
    PlainAccumulates(EMPTY, c.buffer, "");
    assert c.buffer + "" == c.buffer && "" + c.buffer == c.buffer;
  }

  /** What one visit concludes of a connection whose buffer is all it had sent before. */
  lemma ReadFromIsVerdict(c: Connection, answers: seq<Read>, now: int)
    requires ConnectionOk(c)
    ensures var o, p := ReadFrom(c, answers), Peer(c.buffer + Offered(answers), EndOf(answers), c.accepted, now);
            && (o.assembly.state == Ready <==> Completes(p))
            && (o.assembly.state == Ready ==> o.assembly.line == LineOf(p.text))
            && (Survives(c, o, now) <==> Lasts(p))
            && (Survives(c, o, now) ==> o.assembly.buffer == p.text && ConnectionOk(c.(buffer := p.text)))
  {
    BufferIsInput(c);
    ReadsAreOneText(Assembly(Incomplete, c.buffer, ""), c.buffer, answers);
    var text := c.buffer + Offered(answers);
    VerdictIsDecidedByFirstSpecial(text);
    assert text[..|text|] == text;
    hide Feed, ReadAll, Offered, EndOf, FirstSpecial;
  }

  // ------------------------------------------------------------------ serving

  /** Midway through the loop: `kept` and `todo` together are what is held. */
  ghost predicate Midway(p: Pump, kept: seq<Connection>, todo: seq<Connection>, now: int) {
    && EachOnce(kept + todo, p.closed, p.nextId)
    && HandledOk(p.handled, p.closed)
    && Conns(kept) && Conns(todo) && Young(kept, now)
    && |kept| + |todo| <= MAX_CONTROL_CONNECTIONS
  }

  lemma HandlingOnce(handled: seq<Handled>, closed: seq<nat>, h: Handled)
    requires HandledOk(handled, closed) && h.id !in closed
    ensures HandledOk(handled + [h], closed + [h.id])
  {
  }

  lemma ServeKeepsMidway(p: Pump, kept: seq<Connection>, c: Connection, rest: seq<Connection>, answers: seq<Read>,
      now: int)
    requires Midway(p, kept, [c] + rest, now)
    ensures var (q, kept') := Serve(p, kept, c, answers, now); Midway(q, kept', rest, now)
  {
    hide EachOnce, HandledOk, ReadFrom, ConnectionOk;
    assert ([c] + rest)[0] == c && ([c] + rest)[1..] == rest;
    var o := ReadFrom(c, answers);
    ReadFromIsVerdict(c, answers, now);
    if Survives(c, o, now) {
      KeepingKeepsCount(kept, c, o.assembly.buffer, rest, p.closed, p.nextId);
    } else {
      ClosingKeepsCount(kept, c, rest, p.closed, p.nextId);
      if o.assembly.state == Ready {
        HandlingOnce(p.handled, p.closed, Handled(c.id, o.assembly.line));
      } else {
        HandledStays(p.handled, p.closed, c.id);
      }
    }
  }

  lemma {:induction false} ServeAllKeepsMidway(p: Pump, kept: seq<Connection>, todo: seq<Connection>,
      answers: map<nat, seq<Read>>, now: int)
    requires Midway(p, kept, todo, now)
    ensures var (q, kept') := ServeAll(p, kept, todo, answers, now); Midway(q, kept', [], now)
    decreases |todo|
  {
    hide Midway, Serve, ReadsOf;
    if todo != [] {
      assert todo == [todo[0]] + todo[1..];
      ServeKeepsMidway(p, kept, todo[0], todo[1..], ReadsOf(answers, todo[0].id), now);
      var (q, kept') := Serve(p, kept, todo[0], ReadsOf(answers, todo[0].id), now);
      ServeAllKeepsMidway(q, kept', todo[1..], answers, now);
    }
  }

  /** After every poll: at most 8 held, all of them unfinished, young and short; every
      accepted connection held or closed exactly once; the handler called at most once for
      each. */
  lemma PollKeepsInv(p: Pump, now: int, waiting: seq<bool>, answers: map<nat, seq<Read>>)
    requires Inv(p)
    ensures Inv(PollOnce(p, now, waiting, answers))
    ensures Young(PollOnce(p, now, waiting, answers).connections, now)
  {
    hide EachOnce, HandledOk, ServeAll, AcceptAll;
    AcceptAllKeepsInv(p, now, waiting);
    var accepted := AcceptAll(p, now, waiting);
    var start := accepted.(connections := []);
    assert [] + accepted.connections == accepted.connections;
    ServeAllKeepsMidway(start, [], accepted.connections, answers, now);
    var (q, kept) := ServeAll(start, [], accepted.connections, answers, now);
    assert kept + [] == kept;
  }

  /** One poll, as the main loop sees it. */
  datatype Round = Round(now: int, waiting: seq<bool>, answers: map<nat, seq<Read>>)

  function Rounds(p: Pump, rounds: seq<Round>): Pump
    decreases |rounds|
  {
    if rounds == [] then p
    else Rounds(PollOnce(p, rounds[0].now, rounds[0].waiting, rounds[0].answers), rounds[1..])
  }

  // ---------------------------------------------- what the peers have said

  type Story = map<nat, Peer>

  function Before(story: Story, id: nat, now: int): Peer {
    if id in story then story[id] else Peer("", Open, now, now)
  }

  function Visited(p: Peer, answers: seq<Read>, now: int): Peer {
    Peer(p.text + Offered(answers), EndOf(answers), p.since, now)
  }

  /** Every connection held is visited, those just accepted included. */
  function StoryAfter(story: Story, held: seq<Connection>, answers: map<nat, seq<Read>>, now: int): Story {
    story + map id | id in IdSet(held) :: Visited(Before(story, id, now), ReadsOf(answers, id), now)
  }

  function StoryOf(p: Pump, story: Story, rounds: seq<Round>): Story
    decreases |rounds|
  {
    if rounds == [] then story
    else
      var r := rounds[0];
      StoryOf(PollOnce(p, r.now, r.waiting, r.answers),
              StoryAfter(story, AcceptAll(p, r.now, r.waiting).connections, r.answers, r.now), rounds[1..])
  }

  function HandledIds(handled: seq<Handled>): set<nat> {
    set h | h in handled :: h.id
  }

  /** The handler has had a connection's line exactly if what its peer sent is one, and it is held
      exactly while the peer may yet send one. */
  predicate Served(handled: set<nat>, held: set<nat>, id: nat, peer: Peer) {
    (id in handled <==> Completes(peer)) && (id in held <==> Lasts(peer))
  }

  ghost predicate AllServed(handled: set<nat>, held: set<nat>, except: set<nat>, story: Story) {
    forall id :: id in story && id !in except ==> Served(handled, held, id, story[id])
  }

  predicate LinesAreTheirs(handled: seq<Handled>, story: Story) {
    forall h :: h in handled ==> h.id in story && h.line == LineOf(story[h.id].text)
  }

  predicate HeldAsTold(held: seq<Connection>, story: Story) {
    forall c :: c in held ==> c.id in story && c.buffer == story[c.id].text && c.accepted == story[c.id].since
  }

  ghost predicate AsTold(p: Pump, story: Story) {
    && (forall id :: id in story ==> id < p.nextId)
    && AllServed(HandledIds(p.handled), IdSet(p.connections), {}, story)
    && LinesAreTheirs(p.handled, story) && HeldAsTold(p.connections, story)
  }

  // Midway through a poll: the visits still to come will make `next` true of the rest.

  predicate Awaits(c: Connection, peer: Peer, answers: seq<Read>, now: int) {
    peer == Peer(c.buffer + Offered(answers), EndOf(answers), c.accepted, now)
  }

  predicate AllAwait(todo: seq<Connection>, answers: map<nat, seq<Read>>, now: int, next: Story) {
    forall c :: c in todo ==> c.id in next && Awaits(c, next[c.id], ReadsOf(answers, c.id), now)
  }

  ghost predicate MidTold(p: Pump, kept: seq<Connection>, todo: seq<Connection>, answers: map<nat, seq<Read>>,
      now: int, next: Story)
  {
    && (forall id :: id in next ==> id < p.nextId)
    && AllServed(HandledIds(p.handled), IdSet(kept), IdSet(todo), next)
    && LinesAreTheirs(p.handled, next) && HeldAsTold(kept, next) && AllAwait(todo, answers, now, next)
  }

  lemma HeldIsNowhereElse(kept: seq<Connection>, c: Connection, rest: seq<Connection>, closed: seq<nat>, nextId: nat)
    requires EachOnce(kept + ([c] + rest), closed, nextId)
    ensures c.id !in closed && c.id !in IdSet(kept) && c.id !in IdSet(rest)
  {
    IdsAround(kept, c, rest);
    var k, r := Ids(kept), Ids(rest);
    assert forall d :: d in kept ==> d.id in k by {
      assert forall i :: 0 <= i < |kept| ==> k[i] == kept[i].id;
    }
    assert forall d :: d in rest ==> d.id in r by {
      assert forall i :: 0 <= i < |rest| ==> r[i] == rest[i].id;
    }
    var all: seq<nat> := (k + [c.id] + r) + closed;
    assert multiset(all)[c.id] <= 1;
    assert multiset(all) == multiset(k) + multiset([c.id]) + multiset(r) + multiset(closed);
  }

  lemma IdsMet(a: seq<Connection>, c: Connection)
    ensures IdSet([c] + a) == {c.id} + IdSet(a) && IdSet(a + [c]) == IdSet(a) + {c.id}
  {
    assert forall d :: d in [c] + a <==> d == c || d in a;
    assert forall d :: d in a + [c] <==> d == c || d in a;
  }

  lemma HandledMet(handled: seq<Handled>, h: Handled)
    ensures HandledIds(handled + [h]) == HandledIds(handled) + {h.id}
  {
    assert forall g :: g in handled + [h] <==> g == h || g in handled;
  }

  /** Of all the clauses, a visit changes the one on the connection visited. */
  lemma OneMoreServed(handled: set<nat>, held: set<nat>, rest: set<nat>, id: nat, next: Story, handled': set<nat>,
      held': set<nat>)
    requires AllServed(handled, held, {id} + rest, next) && id in next && id !in held && id !in handled
    requires handled' == handled + if Completes(next[id]) then {id} else {}
    requires held' == held + if Lasts(next[id]) then {id} else {}
    ensures AllServed(handled', held', rest, next)
  {
    hide Completes, Lasts;
  }

  lemma KeptTells(p: Pump, kept: seq<Connection>, c: Connection, rest: seq<Connection>,
      answers: map<nat, seq<Read>>, now: int, next: Story)
    requires MidTold(p, kept, [c] + rest, answers, now, next)
    requires c.id !in IdSet(kept) && c.id !in HandledIds(p.handled) && c.id in next && next[c.id].since == c.accepted
    requires Lasts(next[c.id]) && !Completes(next[c.id])
    ensures MidTold(p, kept + [c.(buffer := next[c.id].text)], rest, answers, now, next)
  {
    hide Completes, Lasts, LinesAreTheirs, Awaits, ReadsOf;
    IdsMet(rest, c);
    IdsMet(kept, c.(buffer := next[c.id].text));
    assert forall d :: d in rest ==> d in [c] + rest;
    hide IdSet, HandledIds;
    OneMoreServed(HandledIds(p.handled), IdSet(kept), IdSet(rest), c.id, next,
                  HandledIds(p.handled), IdSet(kept) + {c.id});
    hide AllServed;
  }

  lemma ClosedTells(p: Pump, kept: seq<Connection>, c: Connection, rest: seq<Connection>,
      answers: map<nat, seq<Read>>, now: int, next: Story, handled: seq<Handled>, closed: seq<nat>)
    requires MidTold(p, kept, [c] + rest, answers, now, next)
    requires c.id !in IdSet(kept) && c.id !in HandledIds(p.handled) && c.id in next && !Lasts(next[c.id])
    requires handled == p.handled + if Completes(next[c.id]) then [Handled(c.id, LineOf(next[c.id].text))] else []
    ensures MidTold(p.(closed := closed, handled := handled), kept, rest, answers, now, next)
  {
    hide Completes, Lasts, LineOf, HeldAsTold, Awaits, ReadsOf;
    assert forall d :: d in rest ==> d in [c] + rest;
    IdsMet(rest, c);
    HandledMet(p.handled, Handled(c.id, LineOf(next[c.id].text)));
    assert p.handled + [] == p.handled;
    hide IdSet, HandledIds;
    OneMoreServed(HandledIds(p.handled), IdSet(kept), IdSet(rest), c.id, next, HandledIds(handled), IdSet(kept));
    hide AllServed;
  }

  lemma ServeTells(p: Pump, kept: seq<Connection>, c: Connection, rest: seq<Connection>,
      answers: map<nat, seq<Read>>, now: int, next: Story)
    requires Midway(p, kept, [c] + rest, now) && MidTold(p, kept, [c] + rest, answers, now, next)
    ensures var (q, kept') := Serve(p, kept, c, ReadsOf(answers, c.id), now);
            MidTold(q, kept', rest, answers, now, next)
  {
    assert ([c] + rest)[0] == c;
    HeldIsNowhereElse(kept, c, rest, p.closed, p.nextId);
    NotHandledYet(p.handled, p.closed, c.id);
    assert ConnectionOk(c);
    ReadFromIsVerdict(c, ReadsOf(answers, c.id), now);
    assert Awaits(c, next[c.id], ReadsOf(answers, c.id), now);
    hide MidTold, Midway, EachOnce, HandledOk, ReadFrom, Completes, Lasts, LineOf, IdSet, HandledIds, ConnectionOk,
        Survives;
    var o := ReadFrom(c, ReadsOf(answers, c.id));
    if Survives(c, o, now) {
      LastingIsNoLine(next[c.id]);
      KeptTells(p, kept, c, rest, answers, now, next);
    } else {
      var line := Handled(c.id, LineOf(next[c.id].text));
      assert p.handled + [] == p.handled;
      ClosedTells(p, kept, c, rest, answers, now, next,
                  p.handled + (if Completes(next[c.id]) then [line] else []), p.closed + [c.id]);
    }
  }

  lemma LastingIsNoLine(p: Peer)
    ensures Lasts(p) ==> !Completes(p)
  {
  }

  lemma NotHandledYet(handled: seq<Handled>, closed: seq<nat>, id: nat)
    requires HandledOk(handled, closed) && id !in closed
    ensures id !in HandledIds(handled)
  {
  }

  lemma {:induction false} ServeAllTells(p: Pump, kept: seq<Connection>, todo: seq<Connection>,
      answers: map<nat, seq<Read>>, now: int, next: Story)
    requires Midway(p, kept, todo, now) && MidTold(p, kept, todo, answers, now, next)
    ensures var (q, kept') := ServeAll(p, kept, todo, answers, now); MidTold(q, kept', [], answers, now, next)
    decreases |todo|
  {
    hide Midway, MidTold, Serve, ReadsOf;
    if todo != [] {
      assert todo == [todo[0]] + todo[1..];
      ServeKeepsMidway(p, kept, todo[0], todo[1..], ReadsOf(answers, todo[0].id), now);
      ServeTells(p, kept, todo[0], todo[1..], answers, now, next);
      var (q, kept') := Serve(p, kept, todo[0], ReadsOf(answers, todo[0].id), now);
      ServeAllTells(q, kept', todo[1..], answers, now, next);
    }
  }

  lemma HeldIsNotClosed(held: seq<Connection>, closed: seq<nat>, nextId: nat)
    requires EachOnce(held, closed, nextId)
    ensures forall c :: c in held ==> c.id !in closed
  {
    forall c | c in held ensures c.id !in closed {
      var i :| 0 <= i < |held| && held[i] == c;
      assert held == held[..i] + ([c] + held[i + 1..]);
      HeldIsNowhereElse(held[..i], c, held[i + 1..], closed, nextId);
    }
  }

  lemma StoryOfEach(story: Story, held: seq<Connection>, answers: map<nat, seq<Read>>, now: int)
    ensures var next := StoryAfter(story, held, answers, now);
            && next.Keys == story.Keys + IdSet(held)
            && (forall id :: id in story && id !in IdSet(held) ==> next[id] == story[id])
            && forall c :: c in held ==>
                 c.id in next && next[c.id] == Visited(Before(story, c.id, now), ReadsOf(answers, c.id), now)
  {
    hide Visited, ReadsOf, Before;
  }

  /** What has been handled or was held before stays as told until it is visited. */
  lemma OthersAsBefore(handled: set<nat>, before: set<nat>, held: set<nat>, story: Story, next: Story)
    requires before <= held && AllServed(handled, before, {}, story)
    requires next.Keys == story.Keys + held
    requires forall id :: id in story && id !in held ==> next[id] == story[id]
    ensures AllServed(handled, {}, held, next)
  {
    hide Completes, Lasts;
    forall id | id in next && id !in held ensures Served(handled, {}, id, next[id]) {
      assert Served(handled, before, id, story[id]);
    }
  }

  lemma LinesAsBefore(handled: seq<Handled>, closed: seq<nat>, held: seq<Connection>, story: Story, next: Story)
    requires HandledOk(handled, closed) && LinesAreTheirs(handled, story)
    requires forall c :: c in held ==> c.id !in closed
    requires story.Keys <= next.Keys && forall id :: id in story && id !in IdSet(held) ==> next[id] == story[id]
    ensures LinesAreTheirs(handled, next)
  {
    forall h | h in handled ensures h.id in next && h.line == LineOf(next[h.id].text) {
      assert h.id in closed && h.id !in IdSet(held);
    }
  }

  lemma NewOrHeldAwait(p: Pump, story: Story, c: Connection, answers: seq<Read>, now: int)
    requires AsTold(p, story) && (c in p.connections || (p.nextId <= c.id && c == Connection(c.id, "", now)))
    ensures Awaits(c, Visited(Before(story, c.id, now), answers, now), answers, now)
  {
    hide Offered, EndOf, AllServed, LinesAreTheirs;
  }

  /** Before the first visit. */
  lemma AcceptTells(p: Pump, story: Story, r: Round)
    requires Inv(p) && AsTold(p, story)
    ensures var q := AcceptAll(p, r.now, r.waiting);
            MidTold(q.(connections := []), [], q.connections, r.answers, r.now,
                    StoryAfter(story, q.connections, r.answers, r.now))
  {
    AcceptAllKeepsInv(p, r.now, r.waiting);
    AcceptAllOnlyAdds(p, r.now, r.waiting);
    var q := AcceptAll(p, r.now, r.waiting);
    var next := StoryAfter(story, q.connections, r.answers, r.now);
    HeldIsNotClosed(q.connections, q.closed, q.nextId);
    StoryOfEach(story, q.connections, r.answers, r.now);
    HeldStayHeld(p.connections, q.connections);
    hide EachOnce, Conns, AcceptAll, StoryAfter, Awaits, Visited, ReadsOf, AllServed;
    OthersAsBefore(HandledIds(q.handled), IdSet(p.connections), IdSet(q.connections), story, next);
    LinesAsBefore(q.handled, q.closed, q.connections, story, next);
    AllHeldAwait(p, story, q.connections, r, next);
    BoundedIds(p, q, story);
    assert IdSet([]) == {};
    hide HandledOk, IdSet, HandledIds, LinesAreTheirs, Inv, AsTold, AllAwait;
  }

  lemma BoundedIds(p: Pump, q: Pump, story: Story)
    requires AsTold(p, story) && p.nextId <= q.nextId && EachOnce(q.connections, q.closed, q.nextId)
    ensures forall id :: id in story.Keys + IdSet(q.connections) ==> id < q.nextId
  {
    forall c | c in q.connections ensures c.id < q.nextId {
      var i :| 0 <= i < |q.connections| && q.connections[i] == c;
      assert (Ids(q.connections) + q.closed)[i] == c.id;
      assert multiset(Ids(q.connections) + q.closed)[c.id] >= 1;
    }
  }

  lemma AllHeldAwait(p: Pump, story: Story, held: seq<Connection>, r: Round, next: Story)
    requires AsTold(p, story)
    requires forall c :: c in held ==> c in p.connections || (p.nextId <= c.id && c == Connection(c.id, "", r.now))
    requires forall c :: c in held ==>
               c.id in next && next[c.id] == Visited(Before(story, c.id, r.now), ReadsOf(r.answers, c.id), r.now)
    ensures AllAwait(held, r.answers, r.now, next)
  {
    hide Awaits, Visited, ReadsOf, Before, AsTold;
    forall c | c in held ensures c.id in next && Awaits(c, next[c.id], ReadsOf(r.answers, c.id), r.now) {
      NewOrHeldAwait(p, story, c, ReadsOf(r.answers, c.id), r.now);
    }
  }

  lemma HeldStayHeld(before: seq<Connection>, held: seq<Connection>)
    requires before <= held
    ensures IdSet(before) <= IdSet(held)
  {
    assert forall c :: c in before ==> c in held;
  }

  lemma PollTells(p: Pump, story: Story, r: Round)
    requires Inv(p) && AsTold(p, story)
    ensures AsTold(PollOnce(p, r.now, r.waiting, r.answers),
                   StoryAfter(story, AcceptAll(p, r.now, r.waiting).connections, r.answers, r.now))
  {
    hide EachOnce, HandledOk, ServeAll, AcceptAll, AllServed, StoryAfter, LinesAreTheirs, HeldAsTold;
    AcceptAllKeepsInv(p, r.now, r.waiting);
    AcceptTells(p, story, r);
    var accepted := AcceptAll(p, r.now, r.waiting);
    assert [] + accepted.connections == accepted.connections;
    ServeAllTells(accepted.(connections := []), [], accepted.connections, r.answers, r.now,
                  StoryAfter(story, accepted.connections, r.answers, r.now));
    assert IdSet([]) == {};
  }

  lemma {:induction false} RoundsTell(p: Pump, story: Story, rounds: seq<Round>)
    requires Inv(p) && AsTold(p, story)
    ensures AsTold(Rounds(p, rounds), StoryOf(p, story, rounds))
    decreases |rounds|
  {
    hide Inv, AsTold, PollOnce, StoryAfter;
    if rounds != [] {
      var r := rounds[0];
      PollKeepsInv(p, r.now, r.waiting, r.answers);
      PollTells(p, story, r);
      RoundsTell(PollOnce(p, r.now, r.waiting, r.answers),
                 StoryAfter(story, AcceptAll(p, r.now, r.waiting).connections, r.answers, r.now), rounds[1..]);
    }
  }

  /** From start-up, after any number of polls: of each connection taken, the handler has been given
      the line its peer sent, over however many reads and polls, exactly if what it sent is a whole
      line; and it is still held exactly if it may yet become one. */
  lemma HandledExactlyIfWhole(rounds: seq<Round>, id: nat)
    ensures var p, story := Rounds(FRESH, rounds), StoryOf(FRESH, map[], rounds);
            && (id in story ==>
                  && (id in HandledIds(p.handled) <==> Completes(story[id]))
                  && (id in IdSet(p.connections) <==> Lasts(story[id])))
            && (forall h :: h in p.handled && h.id == id ==> id in story && h.line == LineOf(story[id].text))
            && (id in IdSet(p.connections) ==> id in story)
  {
    hide Rounds, StoryOf, Inv, Completes, Lasts, LineOf;
    FreshIsFine();
    RoundsTell(FRESH, map[], rounds);
  }

  /** Any number of polls, whatever the peers do. */
  lemma {:induction false} RoundsKeepInv(p: Pump, rounds: seq<Round>)
    requires Inv(p)
    ensures Inv(Rounds(p, rounds))
    decreases |rounds|
  {
    hide Inv, PollOnce;
    if rounds != [] {
      var r := rounds[0];
      PollKeepsInv(p, r.now, r.waiting, r.answers);
      RoundsKeepInv(PollOnce(p, r.now, r.waiting, r.answers), rounds[1..]);
    }
  }

  lemma FreshIsFine()
    ensures Inv(FRESH)
  {
    assert Ids([]) == [];
  }

  /** From start-up: whatever the peers do, the bounds hold after every poll. */
  lemma AlwaysBounded(rounds: seq<Round>)
    ensures Inv(Rounds(FRESH, rounds))
  {
    FreshIsFine();
    RoundsKeepInv(FRESH, rounds);
  }

  /** close() leaves nothing held and nothing closed twice. */
  lemma CloseKeepsInv(p: Pump)
    requires Inv(p)
    ensures Inv(CloseAll(p)) && forall id: nat :: id < p.nextId ==> id in CloseAll(p).closed
  {
    var q := CloseAll(p);
    assert Ids(q.connections) == [];
    assert multiset(Ids(q.connections) + q.closed) == multiset(Ids(p.connections) + p.closed);
    assert forall h :: h in p.closed ==> h in q.closed;
    forall id: nat | id < p.nextId ensures id in q.closed {
      assert multiset(Ids(q.connections) + q.closed)[id] == 1;
      assert Ids(q.connections) + q.closed == q.closed;
    }
  }

  // ---------------------------------------------------------------- the class

  class ControlSocket {
    var listening: bool
    var connections: seq<Connection>
    var nextId: nat
    ghost var closed: seq<nat>
    ghost var handled: seq<Handled>

    ghost function Value(): Pump
      reads this
    {
      Pump(connections, nextId, closed, handled)
    }

    constructor ()
      ensures Value() == FRESH && listening
    {
      listening, connections := true, [];
      nextId, closed, handled := 0, [], [];
    }

    method Poll(now: int, waiting: seq<bool>, answers: map<nat, seq<Read>>)
      requires Inv(Value())
      modifies this
      ensures Inv(Value()) && listening == old(listening)
      ensures old(listening) ==> Value() == PollOnce(old(Value()), now, waiting, answers) && Young(connections, now)
      ensures !old(listening) ==> Value() == old(Value())
    {
      hide Inv, Young, AcceptAll, ServeAll;
      if !listening {
        return;
      }
      PollKeepsInv(Value(), now, waiting, answers);
      AcceptWaiting(now, waiting);
      ServeHeld(now, answers);
    }

    method AcceptWaiting(now: int, waiting: seq<bool>)
      modifies this`connections, this`nextId, this`closed
      ensures Value() == AcceptAll(old(Value()), now, waiting)
    {
      ghost var start := Value();
      for k := 0 to |waiting|
        invariant AcceptAll(Value(), now, waiting[k..]) == AcceptAll(start, now, waiting)
      {
        assert waiting[k..][1..] == waiting[k + 1..];
        if |connections| >= MAX_CONTROL_CONNECTIONS || !waiting[k] {
          closed := closed + [nextId];
        } else {
          connections := connections + [Connection(nextId, "", now)];
        }
        nextId := nextId + 1;
      }
    }

    /** Survivors are collected apart, so a connection that finishes cannot disturb the walk. */
    method ServeHeld(now: int, answers: map<nat, seq<Read>>)
      modifies this`connections, this`closed, this`handled
      ensures var (q, kept) := ServeAll(old(Value()).(connections := []), [], old(connections), answers, now);
              Value() == q.(connections := kept)
    {
      var surviving: seq<Connection> := [];
      ghost var start := Value().(connections := []);
      for k := 0 to |connections|
        invariant connections == old(connections)
        invariant ServeAll(Value().(connections := []), surviving, connections[k..], answers, now)
                  == ServeAll(start, [], connections, answers, now)
      {
        hide ReadFrom;
        var c := connections[k];
        assert connections[k..][1..] == connections[k + 1..];
        var o := ReadConnection(c, ReadsOf(answers, c.id));
        if Survives(c, o, now) {
          surviving := surviving + [c.(buffer := o.assembly.buffer)];
        } else {
          if o.assembly.state == Ready {
            handled := handled + [Handled(c.id, o.assembly.line)];
          }
          closed := closed + [c.id];
        }
      }
      connections := surviving;
    }

    method Close()
      requires Inv(Value())
      modifies this
      ensures Value() == CloseAll(old(Value())) && Inv(Value()) && !listening
    {
      CloseKeepsInv(Value());
      for k := 0 to |connections|
        invariant connections == old(connections) && nextId == old(nextId) && handled == old(handled)
        invariant closed == old(closed) + Ids(connections[..k])
      {
        IdsConcat(connections[..k], [connections[k]]);
        assert connections[..k + 1] == connections[..k] + [connections[k]];
        assert Ids([connections[k]]) == [connections[k].id];
        closed := closed + [connections[k].id];
      }
      assert connections[..|connections|] == connections;
      connections := [];
      listening := false;
    }
  }

  /** The read loop of one connection. */
  method ReadConnection(c: Connection, answers: seq<Read>) returns (o: Outcome)
    ensures o == ReadFrom(c, answers)
  {
    o := Outcome(Assembly(Incomplete, c.buffer, ""), false);
    ghost var start := o.assembly;
    var k := 0;
    while k < |answers| && o.assembly.state == Incomplete && !o.closed
      invariant k <= |answers| && !o.closed && o.assembly.state == Incomplete
      invariant ReadAll(o.assembly, answers[k..]) == ReadAll(start, answers)
    {
      hide Feed, Finish;
      assert answers[k..][1..] == answers[k + 1..];
      match answers[k] {
        case Data(d) =>
          var fed := Feed(o.assembly, d);
          o := Outcome(fed, false);
          if fed.state != Incomplete {
            return;
          }
        case EndOfInput =>
          return Outcome(Finish(o.assembly), true);
        case Interrupted =>
        case WouldBlock =>
          return;
        case Broken =>
          return Outcome(o.assembly, true);
      }
      k := k + 1;
    }
  }
}
