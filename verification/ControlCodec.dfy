/** Requests and replies of the control channel: the printers and parsers of
    src/control_common.cpp, and split_first_line() of src/control_client.cpp. */
module ControlCodec {
  import opened Machine
  import opened Decimal
  import opened ControlLine

  const MAX_STATIC_DELAY_MS := 5000
  const MAX_POSITION_MS := 4294967295

  datatype Command =
    | Status | Play | Pause | Stop | Next | Previous
    | Volume | Mute | Seek | SeekRelative | Repeat | Shuffle | Switch | Delay

  datatype RepeatMode = RepeatOff | RepeatOne | RepeatAll

  /** Only the field the command uses is set. */
  datatype Request = Request(
    command: Command, volume: Option<nat>, flag: Option<bool>, position: Option<nat>,
    offset: Option<int>, repeat: Option<RepeatMode>, delay: Option<nat>)

  function Bare(c: Command): Request {
    Request(c, None, None, None, None, None, None)
  }

  // ------------------------------------------------------- the subcommand table

  const TABLE: seq<Command> := [
    Status, Play, Pause, Stop, Next, Previous, Volume, Mute, Seek, SeekRelative, Repeat, Shuffle, Switch, Delay]

  function Name(c: Command): string {
    match c
    case Status => "status"
    case Play => "play"
    case Pause => "pause"
    case Stop => "stop"
    case Next => "next"
    case Previous => "prev"
    case Volume => "vol"
    case Mute => "mute"
    case Seek => "seek"
    case SeekRelative => "seek-rel"
    case Repeat => "repeat"
    case Shuffle => "shuffle"
    case Switch => "switch"
    case Delay => "delay"
  }

  function Arity(c: Command): nat {
    if c.Volume? || c.Mute? || c.Seek? || c.SeekRelative? || c.Repeat? || c.Shuffle? || c.Delay? then 1 else 0
  }

  /** find_control_subcommand(): the first row whose name it is. */
  method Find(name: string) returns (found: Option<Command>)
    ensures found == Lookup(name)
  {
    for k := 0 to |TABLE|
      invariant forall j :: 0 <= j < k ==> Name(TABLE[j]) != name
    {
      if name == Name(TABLE[k]) {
        NamesAreDistinct();
        return Some(TABLE[k]);
      }
    }
    TableIsComplete();
    assert forall c :: c in TABLE ==> Name(c) != name;
    return None;
  }

  /** The command a name stands for, if any. */
  ghost function Lookup(name: string): Option<Command> {
    if exists c: Command :: Name(c) == name then
      var c: Command :| Name(c) == name;
      Some(c)
    else None
  }

  lemma TableIsComplete()
    ensures forall c: Command :: c in TABLE
  {
    forall c: Command ensures c in TABLE {
      var k := match c
        case Status => 0 case Play => 1 case Pause => 2 case Stop => 3 case Next => 4 case Previous => 5
        case Volume => 6 case Mute => 7 case Seek => 8 case SeekRelative => 9 case Repeat => 10
        case Shuffle => 11 case Switch => 12 case Delay => 13;
      assert TABLE[k] == c;
    }
  }

  /** Length and two letters tell every name from every other. */
  function Mark(name: string): (int, char, char)
    requires |name| > 2
  {
    (|name|, name[1], name[2])
  }

  lemma NamesAreDistinct()
    ensures forall c: Command, d: Command :: Name(c) == Name(d) ==> c == d
  {
    forall c: Command, d: Command | Name(c) == Name(d) ensures c == d {
      assert Mark(Name(c)) == Mark(Name(d));
    }
  }

  lemma LookupName(c: Command)
    ensures Lookup(Name(c)) == Some(c)
  {
    NamesAreDistinct();
  }

  // -------------------------------------------------------------- request text

  function OnOff(flag: bool): string {
    if flag then "on" else "off"
  }

  function ModeName(m: RepeatMode): string {
    match m
    case RepeatOff => "off"
    case RepeatOne => "one"
    case RepeatAll => "all"
  }

  /** The argument printed: whichever field is set, tried in this order. */
  function Argument(r: Request): Option<string> {
    if r.volume.Some? then Some(Digits(r.volume.value))
    else if r.flag.Some? then Some(OnOff(r.flag.value))
    else if r.position.Some? then Some(Digits(r.position.value))
    else if r.offset.Some? then Some(Signed(r.offset.value))
    else if r.repeat.Some? then Some(ModeName(r.repeat.value))
    else if r.delay.Some? then Some(Digits(r.delay.value))
    else None
  }

  function Encode(r: Request): string {
    match Argument(r)
    case None => Name(r.command)
    case Some(a) => Name(r.command) + " " + a
  }

  function ParseOnOff(text: string): Option<bool> {
    if text == "on" then Some(true) else if text == "off" then Some(false) else None
  }

  function ParseMode(text: string): Option<RepeatMode> {
    if text == "off" then Some(RepeatOff) else if text == "one" then Some(RepeatOne)
    else if text == "all" then Some(RepeatAll) else None
  }

  function ParseArgument(c: Command, value: string): Option<Request>
    requires Arity(c) == 1
  {
    match c
    case Volume =>
      var v := ParseUnsigned(value, 100);
      if v.Some? then Some(Bare(c).(volume := v)) else None
    case Delay =>
      var d := ParseUnsigned(value, MAX_STATIC_DELAY_MS);
      if d.Some? then Some(Bare(c).(delay := d)) else None
    case Seek =>
      var p := ParseUnsigned(value, MAX_POSITION_MS);
      if p.Some? then Some(Bare(c).(position := p)) else None
    case SeekRelative =>
      var o := ParseInt32(value);
      if o.Some? then Some(Bare(c).(offset := o)) else None
    case Repeat =>
      var m := ParseMode(value);
      if m.Some? then Some(Bare(c).(repeat := m)) else None
    case _ =>
      var f := ParseOnOff(value);
      if f.Some? then Some(Bare(c).(flag := f)) else None
  }

  /** parse_control_request(): None is a refusal, whose wording is not modelled. */
  ghost function Parse(words: seq<string>): Option<Request> {
    if words == [] then None
    else
      match Lookup(words[0])
      case None => None
      case Some(c) =>
        if |words| - 1 != Arity(c) then None
        else if Arity(c) == 0 then Some(Bare(c))
        else ParseArgument(c, words[1])
  }

  method ParseControlRequest(words: seq<string>) returns (r: Option<Request>)
    ensures r == Parse(words)
    ensures r.Some? ==> WellFormed(r.value)
  {
    if words == [] {
      return None;
    }
    var found := Find(words[0]);
    if found == None {
      return None;
    }
    var c := found.value;
    if |words| - 1 != Arity(c) {
      return None;
    }
    if Arity(c) == 0 {
      return Some(Bare(c));
    }
    r := ParseArgument(c, words[1]);
  }

  /** The request carries what its command takes, within its bounds, and nothing else. */
  predicate WellFormed(r: Request) {
    match r.command
    case Volume => r.volume.Some? && r.volume.value <= 100 && r == Bare(Volume).(volume := r.volume)
    case Delay => r.delay.Some? && r.delay.value <= MAX_STATIC_DELAY_MS && r == Bare(Delay).(delay := r.delay)
    case Seek => r.position.Some? && r.position.value <= MAX_POSITION_MS && r == Bare(Seek).(position := r.position)
    case SeekRelative =>
      r.offset.Some? && -2147483648 <= r.offset.value <= 2147483647 && r == Bare(SeekRelative).(offset := r.offset)
    case Repeat => r.repeat.Some? && r == Bare(Repeat).(repeat := r.repeat)
    case Mute => r.flag.Some? && r == Bare(Mute).(flag := r.flag)
    case Shuffle => r.flag.Some? && r == Bare(Shuffle).(flag := r.flag)
    case _ => r == Bare(r.command)
  }

  function EncodedWords(r: Request): seq<string> {
    match Argument(r)
    case None => [Name(r.command)]
    case Some(a) => [Name(r.command), a]
  }

  /** Everything a request can say survives, seek-rel -2147483648 included. */
  lemma EncodedParses(r: Request)
    requires WellFormed(r)
    ensures Parse(EncodedWords(r)) == Some(r)
  {
    hide Digits, Signed, ParseUnsigned, ParseInt32;
    LookupName(r.command);
    if r.volume.Some? {
      PrintedUnsignedParses(r.volume.value, 100);
    }
    if r.position.Some? {
      PrintedUnsignedParses(r.position.value, MAX_POSITION_MS);
    }
    if r.delay.Some? {
      PrintedUnsignedParses(r.delay.value, MAX_STATIC_DELAY_MS);
    }
    if r.offset.Some? {
      PrintedInt32Parses(r.offset.value);
    }
  }

  /** The words that ask for `r`. */
  ghost predicate Spells(words: seq<string>, r: Request) {
    && words != [] && words[0] == Name(r.command)
    && match r.command
       case Volume => |words| == 2 && r.volume.Some? && NumberText(words[1], r.volume.value)
       case Delay => |words| == 2 && r.delay.Some? && NumberText(words[1], r.delay.value)
       case Seek => |words| == 2 && r.position.Some? && NumberText(words[1], r.position.value)
       case SeekRelative => |words| == 2 && r.offset.Some? && SignedText(words[1], r.offset.value)
       case Repeat =>
         && |words| == 2 && r.repeat.Some?
         && words[1] == (match r.repeat.value case RepeatOff => "off" case RepeatOne => "one" case RepeatAll => "all")
       case Mute => |words| == 2 && r.flag.Some? && words[1] == if r.flag.value then "on" else "off"
       case Shuffle => |words| == 2 && r.flag.Some? && words[1] == if r.flag.value then "on" else "off"
       case _ => |words| == 1
  }

  lemma ArgumentAcceptedIff(value: string, r: Request)
    requires Arity(r.command) == 1
    ensures ParseArgument(r.command, value) == Some(r) <==> WellFormed(r) && Spells([Name(r.command), value], r)
  {
    hide Name, ParseUnsigned, ParseInt32, NumberText, SignedText;
    if r.volume.Some? {
      UnsignedAcceptedIff(value, 100, r.volume.value);
    }
    if r.delay.Some? {
      UnsignedAcceptedIff(value, MAX_STATIC_DELAY_MS, r.delay.value);
    }
    if r.position.Some? {
      UnsignedAcceptedIff(value, MAX_POSITION_MS, r.position.value);
    }
    if r.offset.Some? {
      Int32AcceptedIff(value, r.offset.value);
    }
  }

  /** What is accepted is exactly a well-formed request spelled out: its command's name and as many
      words as it takes, a number in its range with zeros in front if need be, "on" or "off", a mode.
      Everything else is refused. */
  lemma AcceptedIff(words: seq<string>, r: Request)
    ensures Parse(words) == Some(r) <==> WellFormed(r) && Spells(words, r)
  {
    hide Name, ParseArgument;
    LookupName(r.command);
    if words != [] {
      LookupIsByName(words[0]);
      if |words| == 2 && Arity(r.command) == 1 && words[0] == Name(r.command) {
        assert words == [Name(r.command), words[1]];
        ArgumentAcceptedIff(words[1], r);
      } else {
        ParsedKeepsCommand(words);
      }
    }
    hide Spells, WellFormed;
  }

  lemma LookupIsByName(name: string)
    ensures Lookup(name).Some? ==> Name(Lookup(name).value) == name
  {
  }

  lemma ParsedKeepsCommand(words: seq<string>)
    ensures Parse(words).Some? ==> words != [] && Lookup(words[0]) == Some(Parse(words).value.command)
  {
    hide Lookup;
  }

  /** The names as they are typed. */
  lemma NamesAreAsTyped()
    ensures Lookup("status") == Some(Status) && Lookup("play") == Some(Play) && Lookup("pause") == Some(Pause)
    ensures Lookup("stop") == Some(Stop) && Lookup("next") == Some(Next) && Lookup("prev") == Some(Previous)
    ensures Lookup("vol") == Some(Volume) && Lookup("mute") == Some(Mute) && Lookup("seek") == Some(Seek)
    ensures Lookup("seek-rel") == Some(SeekRelative) && Lookup("repeat") == Some(Repeat)
    ensures Lookup("shuffle") == Some(Shuffle) && Lookup("switch") == Some(Switch) && Lookup("delay") == Some(Delay)
  {
    forall c: Command ensures Lookup(Name(c)) == Some(c) {
      LookupName(c);
    }
    assert forall c: Command :: c in TABLE ==> Lookup(Name(c)) == Some(c);
    assert Name(Status) == "status" && Name(Play) == "play" && Name(Pause) == "pause" && Name(Stop) == "stop";
    assert Name(Next) == "next" && Name(Previous) == "prev" && Name(Volume) == "vol" && Name(Mute) == "mute";
    assert Name(Seek) == "seek" && Name(SeekRelative) == "seek-rel" && Name(Repeat) == "repeat";
    assert Name(Shuffle) == "shuffle" && Name(Switch) == "switch" && Name(Delay) == "delay";
  }

  // ----------------------------------------------------------- split_control_line

  predicate Blank(c: char) {
    c == ' ' || c == '\t'
  }

  predicate Word(w: string) {
    w != "" && forall i :: 0 <= i < |w| ==> !Blank(w[i])
  }

  function FirstBlank(s: string): (n: nat)
    ensures n <= |s| && (forall i :: 0 <= i < n ==> !Blank(s[i])) && (n < |s| ==> Blank(s[n]))
  {
    if s == "" || Blank(s[0]) then 0 else 1 + FirstBlank(s[1..])
  }

  function Words(line: string): seq<string>
    decreases |line|
  {
    if line == "" then []
    else if Blank(line[0]) then Words(line[1..])
    else [line[..FirstBlank(line)]] + Words(line[FirstBlank(line)..])
  }

  /** The first word becomes the name, the others the arguments. */
  method SplitControlLine(line: string) returns (words: seq<string>)
    ensures words == Words(line)
  {
    words := [];
    var position := 0;
    while position < |line|
      invariant position <= |line|
      invariant words + Words(line[position..]) == Words(line)
    {
      hide Words;
      var start, end := NextWord(line, position);
      if start == |line| {
        position := end;
        break;
      }
      words := words + [line[start..end]];
      position := end;
    }
    assert line[|line|..] == "";
  }

  /** find_first_not_of, then find_first_of. */
  method NextWord(line: string, position: nat) returns (start: nat, end: nat)
    requires position < |line|
    ensures position <= start <= end <= |line| && position < end
    ensures Words(line[position..]) == (if start == |line| then [] else [line[start..end]]) + Words(line[end..])
  {
    hide Words;
    start := position;
    while start < |line| && Blank(line[start])
      invariant position <= start <= |line|
      invariant Words(line[start..]) == Words(line[position..])
    {
      BlankSkipped(line[start], line[start + 1..]);
      assert [line[start]] + line[start + 1..] == line[start..];
      start := start + 1;
    }
    end := start;
    while end < |line| && !Blank(line[end])
      invariant start <= end <= |line|
      invariant forall i :: start <= i < end ==> !Blank(line[i])
    {
      end := end + 1;
    }
    if start < |line| {
      FirstWordOf(line[start..end], line[end..]);
      assert line[start..end] + line[end..] == line[start..];
    } else {
      assert line[start..] == "";
      NoWords();
    }
  }

  lemma {:induction false} FirstBlankIs(s: string, n: nat)
    requires n <= |s| && (forall i :: 0 <= i < n ==> !Blank(s[i])) && (n < |s| ==> Blank(s[n]))
    ensures FirstBlank(s) == n
  {
  }

  /** A word ends at a blank or the end of the line, and blanks around it do not matter:
      with this every line's words are determined. */
  lemma FirstWordOf(w: string, rest: string)
    requires Word(w) && (rest == "" || Blank(rest[0]))
    ensures Words(w + rest) == [w] + Words(rest)
  {
    FirstBlankIs(w + rest, |w|);
    assert (w + rest)[..|w|] == w && (w + rest)[|w|..] == rest;
  }

  lemma BlankSkipped(c: char, rest: string)
    requires Blank(c)
    ensures Words([c] + rest) == Words(rest)
  {
    assert ([c] + rest)[1..] == rest;
  }

  // -------------------------------------------------- from request to request

  /** Printable ASCII without the space: no blank, no CR, no newline, no NUL. */
  predicate Visible(s: string) {
    forall i :: 0 <= i < |s| ==> '!' <= s[i] <= '~'
  }

  lemma NameIsVisible(c: Command)
    ensures Visible(Name(c)) && 3 <= |Name(c)| <= 8
  {
  }

  lemma ArgumentIsVisible(r: Request)
    requires WellFormed(r) && Argument(r).Some?
    ensures Visible(Argument(r).value) && 0 < |Argument(r).value| <= 11
  {
    hide Digits;
    if r.volume.Some? {
      NumberIsVisible(r.volume.value);
    } else if r.position.Some? {
      NumberIsVisible(r.position.value);
    } else if r.offset.Some? {
      NumberIsVisible(if r.offset.value < 0 then -r.offset.value else r.offset.value);
    } else if r.delay.Some? {
      NumberIsVisible(r.delay.value);
    }
  }

  lemma NumberIsVisible(n: nat)
    requires n <= 4294967295
    ensures Visible(Digits(n)) && 0 < |Digits(n)| <= 10
  {
    assert Pow10(10) == 10000000000 by {
      assert Pow10(5) == 100000;
    }
    DigitsAreShort(n, 10, Pow10(10));
    assert forall i :: 0 <= i < |Digits(n)| ==> IsDigit(Digits(n)[i]);
  }

  lemma EncodedSplits(r: Request)
    requires WellFormed(r)
    ensures Words(Encode(r)) == EncodedWords(r)
    ensures |Encode(r)| <= 20 && Encode(r) != "" && forall i :: 0 <= i < |Encode(r)| ==> ' ' <= Encode(r)[i] <= '~'
  {
    hide Name, Argument, WellFormed, Words;
    NameIsVisible(r.command);
    match Argument(r)
    case None =>
      FirstWordOf(Name(r.command), "");
      assert Name(r.command) + "" == Name(r.command);
      NoWords();
    case Some(a) =>
      ArgumentIsVisible(r);
      FirstWordOf(Name(r.command), " " + a);
      BlankSkipped(' ', a);
      FirstWordOf(a, "");
      assert a + "" == a && Name(r.command) + (" " + a) == Encode(r);
      NoWords();
  }

  lemma NoWords()
    ensures Words("") == []
  {
  }

  /** The whole way: printed, cut into any chunks, assembled at a newline or at the end of
      input, split and parsed, a request comes out as it went in. */
  lemma RequestArrives(r: Request, chunks: seq<string>, newline: bool)
    requires WellFormed(r)
    requires Flatten(chunks) == Encode(r) + if newline then "\n" else ""
    ensures var fed := FeedAll(EMPTY, chunks);
            var done := if newline then fed else Finish(fed);
            done.state == Ready && Parse(Words(done.line)) == Some(r)
  {
    hide Words, Parse, Encode;
    var text := Encode(r);
    EncodedSplits(r);
    EncodedParses(r);
    ChunkingIsInvisible(EMPTY, chunks);
    PlainAccumulates(EMPTY, text, if newline then "\n" else "");
    assert "" + text == text;
    assert WithoutCr(text) == text;
  }

  // ------------------------------------------------------------------- replies

  datatype ReplyStatus = Ok | Usage | NotConnected | Unsupported | Failed | NoDaemon

  function Token(s: ReplyStatus): string
    requires !s.Ok?
  {
    match s
    case Usage => "usage"
    case NotConnected => "not-connected"
    case Unsupported => "unsupported"
    case _ => "failed"   // NoDaemon has no token of its own and never crosses the wire
  }

  /** Line breaks turned to spaces. */
  function OneLine(reason: string): string {
    seq(|reason|, i requires 0 <= i < |reason| => if reason[i] == '\n' || reason[i] == '\r' then ' ' else reason[i])
  }

  function EncodeReply(s: ReplyStatus, reason: string, payload: string): string {
    if s.Ok? then "ok\n" + payload
    else "error " + Token(s) + ": " + OneLine(reason) + "\n" + payload
  }

  /** The first `c` at or after `from`, or the length if there is none. */
  function Index(s: string, c: char, from: nat): (k: nat)
    requires from <= |s|
    ensures from <= k <= |s| && (forall i :: from <= i < k ==> s[i] != c) && (k < |s| ==> s[k] == c)
    decreases |s| - from
  {
    if from == |s| || s[from] == c then from else Index(s, c, from + 1)
  }

  /** Everything up to the first newline, and everything after it. */
  function SplitFirstLine(reply: string): (string, string) {
    var k := Index(reply, '\n', 0);
    if k == |reply| then (reply, "") else (reply[..k], reply[k + 1..])
  }

  const PREFIX := "error "

  /** decode_control_reply(): None for a line no daemon of ours sends. */
  function DecodeReply(line: string): Option<(ReplyStatus, string)> {
    if line == "ok" then Some((Ok, ""))
    else if |line| < |PREFIX| || line[..|PREFIX|] != PREFIX then None
    else
      var colon := Index(line, ':', |PREFIX|);
      if colon == |line| then None
      else
        var after := line[colon + 1..];
        var reason := if after != "" && after[0] == ' ' then after[1..] else after;
        Some((StatusOf(line[|PREFIX|..colon]), reason))
  }

  /** A token this build does not know degrades to a plain failure. */
  function StatusOf(token: string): ReplyStatus {
    if token == "usage" then Usage
    else if token == "not-connected" then NotConnected
    else if token == "unsupported" then Unsupported
    else Failed
  }

  lemma IndexIs(s: string, c: char, from: nat, k: nat)
    requires from <= k <= |s| && (forall i :: from <= i < k ==> s[i] != c) && (k < |s| ==> s[k] == c)
    ensures Index(s, c, from) == k
  {
  }

  lemma FirstLineOf(line: string, payload: string)
    requires forall i :: 0 <= i < |line| ==> line[i] != '\n'
    ensures SplitFirstLine(line + "\n" + payload) == (line, payload)
  {
    var all := line + "\n" + payload;
    assert forall i :: 0 <= i < |line| ==> all[i] == line[i];
    IndexIs(all, '\n', 0, |line|);
    assert all[..|line|] == line && all[|line| + 1..] == payload;
  }

  lemma TokenIsPlain(s: ReplyStatus)
    requires !s.Ok?
    ensures forall i :: 0 <= i < |Token(s)| ==> Token(s)[i] != ':' && Token(s)[i] != '\n'
    ensures StatusOf(Token(s)) == if s.NoDaemon? then Failed else s
  {
  }

  lemma ErrorLineDecodes(token: string, reason: string)
    requires forall i :: 0 <= i < |token| ==> token[i] != ':'
    ensures DecodeReply(PREFIX + token + ": " + reason) == Some((StatusOf(token), reason))
  {
    hide StatusOf;
    var line := PREFIX + token + ": " + reason;
    var colon := |PREFIX| + |token|;
    assert forall i :: |PREFIX| <= i < colon ==> line[i] == token[i - |PREFIX|];
    assert line[colon] == ':' && line[0] == 'e';
    IndexIs(line, ':', |PREFIX|, colon);
    assert line[..|PREFIX|] == PREFIX;
    assert line[|PREFIX|..colon] == token;
    assert line[colon + 1..] == " " + reason;
    assert (" " + reason)[1..] == reason;
  }

  /** The client gets back the status, the reason on one line and the payload byte for byte.
      Ok carries no reason; NoDaemon, which nothing sends, would arrive as a failure. */
  lemma ReplyArrives(s: ReplyStatus, reason: string, payload: string)
    ensures var (line, rest) := SplitFirstLine(EncodeReply(s, reason, payload));
            && rest == payload
            && DecodeReply(line) ==
               Some(if s.Ok? then (Ok, "") else (if s.NoDaemon? then Failed else s, OneLine(reason)))
  {
    hide DecodeReply, SplitFirstLine, StatusOf, Token;
    if s.Ok? {
      FirstLineOf("ok", payload);
      assert "ok" + "\n" + payload == "ok\n" + payload;
      OkDecodes();
    } else {
      TokenIsPlain(s);
      var line := PREFIX + Token(s) + ": " + OneLine(reason);
      assert forall i :: 0 <= i < |line| ==> line[i] != '\n' by {
        forall i | 0 <= i < |line| ensures line[i] != '\n' {
          var k, m := |PREFIX| + |Token(s)|, |PREFIX| + |Token(s)| + 2;
          assert |PREFIX| <= i < k ==> line[i] == Token(s)[i - |PREFIX|];
          assert m <= i ==> line[i] == OneLine(reason)[i - m];
        }
      }
      FirstLineOf(line, payload);
      ErrorLineDecodes(Token(s), OneLine(reason));
    }
  }

  lemma OkDecodes()
    ensures DecodeReply("ok") == Some((Ok, ""))
  {
  }

  predicate IsError(line: string, token: string, rest: string) {
    (forall i :: 0 <= i < |token| ==> token[i] != ':') && line == PREFIX + token + ":" + rest
  }

  /** A line is refused exactly if it is not "ok" and not "error ", a token, a colon and the rest. */
  lemma RefusedLine(line: string)
    ensures DecodeReply(line) == None <==> line != "ok" && forall token, rest :: !IsError(line, token, rest)
  {
    if DecodeReply(line).Some? && line != "ok" {
      DecodedIsError(line);
    }
    forall token, rest | IsError(line, token, rest) ensures DecodeReply(line).Some? {
      ColonAt(token, rest);
    }
    hide IsError, DecodeReply;
  }

  lemma DecodedIsError(line: string)
    requires DecodeReply(line).Some? && line != "ok"
    ensures exists token, rest :: IsError(line, token, rest)
  {
    hide StatusOf;
    var colon := Index(line, ':', |PREFIX|);
    var token, rest := line[|PREFIX|..colon], line[colon + 1..];
    assert line == PREFIX + token + ":" + rest;
    assert IsError(line, token, rest);
  }

  lemma ColonAt(token: string, rest: string)
    requires forall i :: 0 <= i < |token| ==> token[i] != ':'
    ensures var line := PREFIX + token + ":" + rest;
            |line| > |PREFIX| && line[..|PREFIX|] == PREFIX && Index(line, ':', |PREFIX|) == |PREFIX| + |token| < |line|
  {
    var line := PREFIX + token + ":" + rest;
    var colon := |PREFIX| + |token|;
    assert forall i :: |PREFIX| <= i < colon ==> line[i] == token[i - |PREFIX|];
    IndexIs(line, ':', |PREFIX|, colon);
  }
}
