/** Pacing the outbound dials: src/outbound.cpp under OutboundMode::tick (src/main.cpp).

    RetryPacer, LastDial and OutboundMode are classes over the values `Pacer`,
    `Dial` and `Mode`; `Tick` is one main-loop tick, and the theorems are about
    any run of ticks.
 */
module Outbound {
  import opened Arith
  import opened Machine
  import opened MdnsRules

  const MIN_RETRY_DELAY_MS := 1000
  const MAX_RETRY_DELAY_MS := 30000

  /** How long to wait after `attempt` dials: min(1000 * 2^attempt, 30000). */
  function Backoff(attempt: nat): (d: nat)
    ensures MIN_RETRY_DELAY_MS <= d <= MAX_RETRY_DELAY_MS
  {
    Min(MIN_RETRY_DELAY_MS * Pow2(attempt), MAX_RETRY_DELAY_MS)
  }

  /** Counted up rather than shifted: in 32 bits, nothing overflows however many attempts
      there were. */
  method NextRetryDelay(attempt: u32) returns (delay: u32)
    ensures delay as int == Backoff(attempt as nat)
  {
    delay := MIN_RETRY_DELAY_MS as u32;
    var step: u32 := 0;
    while step < attempt
      invariant step <= attempt && delay as int == MIN_RETRY_DELAY_MS * Pow2(step as nat)
    {
      if delay >= MAX_RETRY_DELAY_MS as u32 / 2 {
        Pow2Grows(step as nat + 1, attempt as nat);
        return MAX_RETRY_DELAY_MS as u32;
      }
      delay := delay * 2;
      step := step + 1;
    }
    return if delay > MAX_RETRY_DELAY_MS as u32 then MAX_RETRY_DELAY_MS as u32 else delay;
  }

  // ------------------------------------------------------------- RetryPacer

  datatype Pacer = Pacer(lastDial: int, dials: nat, dialled: bool, connected: bool)

  function DelayOf(dials: nat): nat {
    Backoff(if dials > 0 then dials - 1 else 0)
  }

  function Observe(p: Pacer, connected: bool, now: int): Pacer {
    if connected then p.(connected := true, dials := 0)
    else if p.connected then Pacer(now, 1, true, false)
    else p
  }

  predicate ShouldDial(p: Pacer, now: int) {
    !p.connected && (p.dialled ==> now - p.lastDial >= DelayOf(p.dials))
  }

  function Dialled(p: Pacer, now: int): Pacer {
    p.(lastDial := now, dialled := true,
       dials := if DelayOf(p.dials) < MAX_RETRY_DELAY_MS then p.dials + 1 else p.dials)
  }

  class RetryPacer {
    var lastDial: int
    var dials: u32
    var dialled: bool
    var connected: bool

    function Value(): Pacer
      reads this
    {
      Pacer(lastDial, dials as nat, dialled, connected)
    }

    constructor ()
      ensures Value() == Pacer(0, 0, false, false)
    {
      lastDial, dials, dialled, connected := 0, 0, false, false;
    }

    method NoteConnectionState(now_connected: bool, now: int) returns (lost: bool)
      modifies this
      ensures Value() == Observe(old(Value()), now_connected, now)
      ensures lost == (old(connected) && !now_connected)
    {
      lost := connected && !now_connected;
      connected := now_connected;
      if now_connected {
        dials := 0;
        return false;
      }
      if lost {
        dials := 1;
        lastDial := now;
        dialled := true;
      }
    }

    method DelayMs() returns (d: u32)
      ensures d as int == DelayOf(dials as nat)
    {
      d := NextRetryDelay(if dials > 0 then dials - 1 else 0);
    }

    method ShouldDialNow(now: int) returns (due: bool)
      ensures due == ShouldDial(Value(), now)
    {
      if connected {
        return false;
      }
      if !dialled {
        return true;
      }
      var d := DelayMs();
      return now - lastDial >= d as int;
    }

    method NoteDial(now: int)
      modifies this
      ensures Value() == Dialled(old(Value()), now)
    {
      lastDial := now;
      dialled := true;
      var d := DelayMs();
      if d < MAX_RETRY_DELAY_MS as u32 {
        BackoffValues();
        dials := dials + 1;
      }
    }
  }

  // --------------------------------------------------------------- LastDial

  /** The dialled URL and whom it was meant to reach; "" promises nothing about who answers. */
  datatype Dial = Dial(url: string, serverId: string)

  const NO_DIAL := Dial("", "")

  function UrlFor(d: Dial, connectedId: string): string {
    if d.serverId != "" && d.serverId != connectedId then "" else d.url
  }

  class LastDial {
    var url: string
    var serverId: string

    function Value(): Dial
      reads this
    {
      Dial(url, serverId)
    }

    constructor ()
      ensures Value() == NO_DIAL
    {
      url, serverId := "", "";
    }

    method NoteDial(u: string, id: string)
      modifies this
      ensures Value() == Dial(u, id)
    {
      url := u;
      serverId := id;
    }

    method NoteLost()
      modifies this
      ensures Value() == NO_DIAL
    {
      url := "";
      serverId := "";
    }
  }

  // ------------------------------------------------------------ OutboundMode

  /** What one tick sees: the client's state, the clock, who answered the handshake
      if the library can say, and what there is to dial. */
  datatype Input = Input(connected: bool, now: int, peer: Option<string>, target: Option<Dial>)

  datatype Mode = Mode(pacer: Pacer, last: Dial, remembered: string, rememberedThis: bool)

  function Start(stored: string): Mode {
    Mode(Pacer(0, 0, false, false), NO_DIAL, stored, false)
  }

  function Remember(m: Mode, peer: Option<string>): Mode {
    if m.rememberedThis || peer == None || peer.value == "" || peer.value == m.remembered then m
    else m.(remembered := peer.value, rememberedThis := true)
  }

  /** The dial made by this tick, if any. */
  function DialOf(m: Mode, i: Input): Option<Dial> {
    if !i.connected && ShouldDial(Observe(m.pacer, i.connected, i.now), i.now) then i.target else None
  }

  function Tick(m: Mode, i: Input): Mode {
    var pacer := Observe(m.pacer, i.connected, i.now);
    var lost := m.pacer.connected && !i.connected;
    var seen := if lost then m.(pacer := pacer, last := NO_DIAL, rememberedThis := false) else m.(pacer := pacer);
    if i.connected then Remember(seen, i.peer)
    else match DialOf(m, i)
         case None => seen
         case Some(d) => seen.(pacer := Dialled(pacer, i.now), last := d)
  }

  class OutboundMode {
    const pacer: RetryPacer
    const last: LastDial
    var remembered: string
    var rememberedThis: bool

    function Value(): Mode
      reads this, pacer, last
    {
      Mode(pacer.Value(), last.Value(), remembered, rememberedThis)
    }

    function Observed(connected: bool, now: int): Pacer
      reads this, pacer
    {
      Observe(pacer.Value(), connected, now)
    }

    constructor (storedServer: string)
      ensures Value() == Start(storedServer)
      ensures fresh(pacer) && fresh(last)
    {
      pacer := new RetryPacer();
      last := new LastDial();
      remembered := storedServer;
      rememberedThis := false;
    }

    /** `literal` is -s given an address; otherwise the choice is among the discovered servers. */
    method TickNow(connected: bool, now: int, peer: Option<string>, literal: Option<string>,
                   servers: seq<Server>, filter: string)
      returns (dialled: Option<Dial>, ghost target: Option<Dial>)
      modifies this, pacer, last
      ensures literal.Some? ==> target == Some(Dial(literal.value, ""))
      ensures literal == None && target.Some? ==> IsChoice(servers, filter, old(remembered), target.value)
      ensures literal == None && target == None && !connected && ShouldDial(old(Observed(connected, now)), now) ==>
                forall k: nat :: Selected(servers, filter, old(remembered), k) ==> !Dialable(servers[k])
      ensures Value() == Tick(old(Value()), Input(connected, now, peer, target))
      ensures dialled == DialOf(old(Value()), Input(connected, now, peer, target))
    {
      target := if literal.Some? then Some(Dial(literal.value, "")) else None;
      dialled := None;
      var lost := pacer.NoteConnectionState(connected, now);
      if lost {
        rememberedThis := false;
        last.NoteLost();
      }
      if connected {
        if !rememberedThis && peer.Some? && peer.value != "" && peer.value != remembered {
          rememberedThis := true;
          remembered := peer.value;
        }
        return;
      }
      var due := pacer.ShouldDialNow(now);
      if !due {
        return;
      }
      var chosen: Option<Dial>;
      if literal.Some? {
        chosen := Some(Dial(literal.value, ""));
      } else {
        chosen := Choose(servers, filter, remembered);
        target := chosen;
      }
      if chosen == None {
        return;
      }
      pacer.NoteDial(now);
      last.NoteDial(chosen.value.url, chosen.value.serverId);
      dialled := chosen;
    }

    method ExportedUrl(connectedId: string) returns (url: string)
      ensures url == UrlFor(last.Value(), connectedId)
    {
      url := if last.serverId != "" && last.serverId != connectedId then "" else last.url;
    }
  }

  /** A dial to the selected server, at the URL its preferred address gives, under its own id. */
  ghost predicate IsChoice(servers: seq<Server>, filter: string, remembered: string, d: Dial) {
    exists k: nat, a: nat ::
      Selected(servers, filter, remembered, k) && Preferred(servers[k].addresses, a)
      && d == Dial(Url(servers[k].addresses[a], servers[k].port, servers[k].path), servers[k].instance)
  }

  method Choose(servers: seq<Server>, filter: string, remembered: string) returns (dial: Option<Dial>)
    ensures dial.Some? ==> IsChoice(servers, filter, remembered, dial.value)
    ensures dial == None ==> forall k: nat :: Selected(servers, filter, remembered, k) ==> !Dialable(servers[k])
  {
    var k := SelectServer(servers, filter, remembered);
    if k == None {
      return None;
    }
    var url := DiscoveredServerUrl(servers[k.value]);
    if url == None {
      return None;
    }
    return Some(Dial(url.value, servers[k.value].instance));
  }

  // ------------------------------------------------------------- whole runs

  /** A run from start-up, with the server the state store remembered. */
  function Run(stored: string, inputs: seq<Input>): Mode
    decreases |inputs|
  {
    if inputs == [] then Start(stored) else Tick(Run(stored, Front(inputs)), Last(inputs))
  }

  function Front(inputs: seq<Input>): seq<Input>
    requires inputs != []
  {
    inputs[..|inputs| - 1]
  }

  function Last(inputs: seq<Input>): Input
    requires inputs != []
  {
    inputs[|inputs| - 1]
  }

  /** Did the last tick see a connection? */
  predicate WasConnected(inputs: seq<Input>) {
    inputs != [] && Last(inputs).connected
  }

  /** The dial the last tick made. */
  function LastTicksDial(stored: string, inputs: seq<Input>): Option<Dial>
    requires inputs != []
  {
    DialOf(Run(stored, Front(inputs)), Last(inputs))
  }

  /** When, since the connection state last reset the schedule, anything happened that the next
      dial must wait for: the loss that reset it, if it was one, and then every dial. */
  function Marks(stored: string, inputs: seq<Input>): seq<int>
    decreases |inputs|
  {
    if inputs == [] then []
    else
      var before := Marks(stored, Front(inputs));
      var i := Last(inputs);
      if i.connected then []
      else
        var since := if WasConnected(Front(inputs)) then [i.now] else before;
        if LastTicksDial(stored, inputs).Some? then since + [i.now] else since
  }

  /** The k-th wait is at least min(1000 * 2^(k-1), 30000) ms. */
  predicate WellPaced(marks: seq<int>) {
    forall k :: 0 < k < |marks| ==> marks[k] - marks[k - 1] >= Backoff(k - 1)
  }

  predicate Agrees(p: Pacer, marks: seq<int>) {
    && p.dials == Min(|marks|, 6)
    && (marks != [] ==> p.dialled && p.lastDial == marks[|marks| - 1])
    && (marks == [] && !p.connected ==> !p.dialled)
  }

  /** What the last tick's dial would have to wait for. */
  function WaitsOn(stored: string, inputs: seq<Input>): seq<int>
    requires inputs != []
  {
    if WasConnected(Front(inputs)) && !Last(inputs).connected then [Last(inputs).now] else Marks(stored, Front(inputs))
  }

  /** Nothing to wait for, or waited for long enough. */
  predicate Waited(since: seq<int>, now: int) {
    since == [] || now - since[|since| - 1] >= Backoff(|since| - 1)
  }

  lemma BackoffValues()
    ensures Backoff(0) == 1000 && Backoff(1) == 2000 && Backoff(2) == 4000 && Backoff(3) == 8000 && Backoff(4) == 16000
    ensures forall k: nat :: k >= 5 ==> Backoff(k) == 30000
  {
    forall k: nat | k >= 5 ensures Backoff(k) == 30000 {
      Pow2Grows(5, k);
      assert Pow2(1) == 2 && Pow2(2) == 4 && Pow2(3) == 8;
    }
  }

  lemma DialStaysPaced(p: Pacer, marks: seq<int>, now: int)
    requires Agrees(p, marks) && WellPaced(marks) && ShouldDial(p, now)
    ensures Agrees(Dialled(p, now), marks + [now]) && WellPaced(marks + [now])
  {
    BackoffValues();
  }

  /** Every run, whatever the connection does and the clock says: the waits since the last
      reset double, the dial counter stops at 6, and no tick that sees a connection dials. */
  lemma {:induction false} RunIsWellPaced(stored: string, inputs: seq<Input>)
    ensures WellPaced(Marks(stored, inputs))
    ensures Agrees(Run(stored, inputs).pacer, Marks(stored, inputs))
    ensures Run(stored, inputs).pacer.dials <= 6
    ensures Run(stored, inputs).pacer.connected == WasConnected(inputs)
    ensures WasConnected(inputs) ==> LastTicksDial(stored, inputs) == None
    decreases |inputs|
  {
    if inputs != [] {
      RunIsWellPaced(stored, Front(inputs));
      var p, i := Run(stored, Front(inputs)).pacer, Last(inputs);
      var since := if WasConnected(Front(inputs)) then [i.now] else Marks(stored, Front(inputs));
      if LastTicksDial(stored, inputs).Some? {
        DialStaysPaced(Observe(p, i.connected, i.now), since, i.now);
      }
      assert WellPaced(since) && WellPaced([]);
      BackoffValues();
      hide WellPaced;
    }
  }

  /** A tick dials what there is to dial exactly when it sees no connection and the wait since the
      last dial or loss is over; the first dial of all waits for nothing. */
  lemma DialsExactlyWhenDue(stored: string, inputs: seq<Input>)
    requires inputs != []
    ensures var i := Last(inputs);
            LastTicksDial(stored, inputs) ==
              if !i.connected && Waited(WaitsOn(stored, inputs), i.now) then i.target else None
  {
    RunIsWellPaced(stored, Front(inputs));
    BackoffValues();
  }

  /** After a connection is seen to go, the first redial is at least a second away, and the
      loss itself never dials. */
  lemma LossIsNotRedialledAtOnce(stored: string, inputs: seq<Input>)
    requires inputs != [] && WasConnected(Front(inputs)) && !Last(inputs).connected
    ensures Marks(stored, inputs) == [Last(inputs).now]
    ensures LastTicksDial(stored, inputs) == None
  {
    RunIsWellPaced(stored, Front(inputs));
    BackoffValues();
  }

  // ---------------------------------------------------------- who is remembered

  /** A peer worth remembering in place of `known`. */
  predicate Unknown(peer: Option<string>, known: string) {
    peer.Some? && peer.value != "" && peer.value != known
  }

  lemma {:induction false} ForgetsThePeerWithTheConnection(stored: string, inputs: seq<Input>)
    ensures !WasConnected(inputs) ==> !Run(stored, inputs).rememberedThis
    decreases |inputs|
  {
    if inputs != [] {
      ForgetsThePeerWithTheConnection(stored, Front(inputs));
      RunIsWellPaced(stored, Front(inputs));
    }
  }

  /** Ticks `c` to `k` see one connection, made at `c`, and it names nobody but `known`. */
  predicate NobodyNew(inputs: seq<Input>, c: nat, k: nat, known: string) {
    && c <= k <= |inputs| && !WasConnected(inputs[..c])
    && forall j :: c <= j < k ==> inputs[j].connected && !Unknown(inputs[j].peer, known)
  }

  lemma {:induction false} NobodyNewNobodyRemembered(stored: string, inputs: seq<Input>, c: nat)
    requires c <= |inputs| && NobodyNew(inputs, c, |inputs|, Run(stored, inputs[..c]).remembered)
    ensures Run(stored, inputs).remembered == Run(stored, inputs[..c]).remembered
    ensures !Run(stored, inputs).rememberedThis
    decreases |inputs|
  {
    if |inputs| == c {
      assert inputs[..c] == inputs;
      ForgetsThePeerWithTheConnection(stored, inputs);
    } else {
      assert Front(inputs)[..c] == inputs[..c];
      NobodyNewNobodyRemembered(stored, Front(inputs), c);
    }
  }

  /** The first peer a connection names other than the one remembered is remembered, and for that
      connection it is the last. */
  lemma {:induction false} FirstNewPeerIsRemembered(stored: string, inputs: seq<Input>, c: nat, k: nat)
    requires c <= k < |inputs| && NobodyNew(inputs, c, k, Run(stored, inputs[..c]).remembered)
    requires Unknown(inputs[k].peer, Run(stored, inputs[..c]).remembered)
    requires forall j :: k <= j < |inputs| ==> inputs[j].connected
    ensures Run(stored, inputs).rememberedThis && Some(Run(stored, inputs).remembered) == inputs[k].peer
    decreases |inputs|
  {
    hide Unknown;
    var front := Front(inputs);
    assert front[..c] == inputs[..c];
    if k == |front| {
      NobodyNewNobodyRemembered(stored, front, c);
      RemembersAtOnce(Run(stored, front), inputs[k]);
    } else {
      FirstNewPeerIsRemembered(stored, front, c, k);
    }
  }

  lemma RemembersAtOnce(m: Mode, i: Input)
    requires i.connected && !m.rememberedThis && Unknown(i.peer, m.remembered)
    ensures Tick(m, i).rememberedThis && Some(Tick(m, i).remembered) == i.peer
  {
  }

  /** Without a connection nobody is remembered or forgotten. */
  lemma UnconnectedRemembersNobody(stored: string, inputs: seq<Input>)
    requires inputs != [] && !Last(inputs).connected
    ensures Run(stored, inputs).remembered == Run(stored, Front(inputs)).remembered
  {
  }

  // ---------------------------------------------------- what the hooks are told

  /** The last dial of the run, unless a connection has been lost since. */
  function LiveDial(stored: string, inputs: seq<Input>): Option<Dial>
    decreases |inputs|
  {
    if inputs == [] then None
    else if LastTicksDial(stored, inputs).Some? then LastTicksDial(stored, inputs)
    else if WasConnected(Front(inputs)) && !Last(inputs).connected then None
    else LiveDial(stored, Front(inputs))
  }

  /** The exported URL is the last dial's, only while no connection has been lost since it,
      and only for the server it named, if it named one. */
  lemma {:induction false} ExportedUrlIsTheLiveDials(stored: string, inputs: seq<Input>, connectedId: string)
    ensures UrlFor(Run(stored, inputs).last, connectedId) ==
            match LiveDial(stored, inputs)
            case None => ""
            case Some(d) => if d.serverId == "" || d.serverId == connectedId then d.url else ""
    decreases |inputs|
  {
    if inputs != [] {
      ExportedUrlIsTheLiveDials(stored, Front(inputs), connectedId);
      RunIsWellPaced(stored, Front(inputs));
    }
  }
}
