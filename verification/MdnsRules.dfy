/** The pure rules of discovery: src/mdns_common.cpp. */
module MdnsRules {
  import opened Machine
  import opened Decimal

  datatype AddressKind = IPv4 | IPv6 | Unusable | Invalid

  /** An address literal and what classify_address() makes of it. */
  datatype Address = Address(text: string, kind: AddressKind)

  datatype Server = Server(instance: string, name: string, path: string, port: nat, addresses: seq<Address>)

  // ------------------------------------------------------ discovered_server_url

  /** The addresses a URL may be built from. */
  predicate Routable(a: Address) {
    a.kind.IPv4? || a.kind.IPv6?
  }

  predicate Dialable(s: Server) {
    |s.path| > 0 && s.path[0] == '/' && s.port != 0
    && exists k :: 0 <= k < |s.addresses| && Routable(s.addresses[k])
  }

  /** The first IPv4 address, or the first IPv6 one if there is no IPv4 at all. */
  ghost predicate Preferred(addresses: seq<Address>, k: nat) {
    k < |addresses| && Routable(addresses[k])
    && forall j :: 0 <= j < |addresses| && Routable(addresses[j]) && j != k ==>
         if addresses[k].kind.IPv4? then k < j || addresses[j].kind.IPv6?
         else k < j && addresses[j].kind.IPv6?
  }

  function Url(a: Address, port: nat, path: string): string {
    (if a.kind.IPv4? then "ws://" + a.text + ":" else "ws://[" + a.text + "]:") + Digits(port) + path
  }

  predicate Lacks(s: string, c: char) {
    forall i :: 0 <= i < |s| ==> s[i] != c
  }

  /** An address as it is written: an IPv4 one has no colon and no bracket, an IPv6 one no bracket. */
  predicate Written(a: Address) {
    Routable(a) && Lacks(a.text, '[') && Lacks(a.text, ']') && (a.kind.IPv4? ==> Lacks(a.text, ':'))
  }

  lemma CutAt(x: string, y: string, x': string, y': string, c: char)
    requires Lacks(x, c) && Lacks(x', c) && x + [c] + y == x' + [c] + y'
    ensures x == x' && y == y'
  {
    var s := x + [c] + y;
    assert s[|x|] == c && s[|x'|] == c;
    assert forall i :: 0 <= i < |x| ==> s[i] == x[i];
    assert forall i :: 0 <= i < |x'| ==> s[i] == x'[i];
    assert |x| == |x'|;
    assert x == s[..|x|] && y == s[|x| + 1..];
  }

  lemma PortAndPath(p: nat, path: string, p': nat, path': string)
    requires path != "" && path[0] == '/' && path' != "" && path'[0] == '/'
    requires Digits(p) + path == Digits(p') + path'
    ensures p == p' && path == path'
  {
    assert Digits(p) + "/" + path[1..] == Digits(p) + path && Digits(p') + "/" + path'[1..] == Digits(p') + path';
    CutAt(Digits(p), path[1..], Digits(p'), path'[1..], '/');
    ValueOfDigits(p);
    ValueOfDigits(p');
    assert path == "/" + path[1..] && path' == "/" + path'[1..];
  }

  /** What a URL was built from can be read back from it: two servers have one URL only if they have
      the address, the port and the path in common. This is what the brackets are for. */
  lemma UrlTellsWhere(a: Address, p: nat, path: string, b: Address, q: nat, path': string)
    requires Written(a) && Written(b)
    requires path != "" && path[0] == '/' && path' != "" && path'[0] == '/'
    requires Url(a, p, path) == Url(b, q, path')
    ensures a.text == b.text && a.kind == b.kind && p == q && path == path'
  {
    var x, y := Digits(p) + path, Digits(q) + path';
    AfterScheme(a, p, path);
    AfterScheme(b, q, path');
    hide Digits, Url;
    if a.kind.IPv4? {
      CutAt(a.text, x, b.text, y, ':');
    } else {
      Bracketed(a.text, ":" + x, b.text, ":" + y);
      assert x == (":" + x)[1..] && y == (":" + y)[1..];
    }
    PortAndPath(p, path, q, path');
  }

  /** What follows "ws://": a bracket exactly for an IPv6 address. */
  lemma AfterScheme(a: Address, p: nat, path: string)
    requires Written(a)
    ensures var u, x := Url(a, p, path), Digits(p) + path;
            && |u| > 5 && (u[5] == '[' <==> a.kind.IPv6?)
            && (a.kind.IPv4? ==> u[5..] == a.text + [':'] + x)
            && (a.kind.IPv6? ==> u[5..] == "[" + (a.text + [']'] + (":" + x)))
  {
    hide Digits;
    var u, x := Url(a, p, path), Digits(p) + path;
    if a.kind.IPv4? {
      assert u == "ws://" + (a.text + [':'] + x);
    } else {
      assert u == "ws://" + ("[" + (a.text + [']'] + (":" + x)));
    }
  }

  lemma Bracketed(x: string, y: string, x': string, y': string)
    requires Lacks(x, ']') && Lacks(x', ']') && "[" + (x + [']'] + y) == "[" + (x' + [']'] + y')
    ensures x == x' && y == y'
  {
    var s, s' := x + [']'] + y, x' + [']'] + y';
    assert s == ("[" + s)[1..] && s' == ("[" + s')[1..];
    CutAt(x, y, x', y', ']');
  }

  lemma PreferredIsUnique(addresses: seq<Address>, j: nat, k: nat)
    requires Preferred(addresses, j) && Preferred(addresses, k)
    ensures j == k
  {
  }

  /** A URL exists exactly for a dialable server, and is built from the preferred address. */
  method DiscoveredServerUrl(s: Server) returns (url: Option<string>)
    ensures url.Some? <==> Dialable(s)
    ensures url.Some? ==> exists k: nat :: Preferred(s.addresses, k) && url.value == Url(s.addresses[k], s.port, s.path)
  {
    if |s.path| == 0 || s.path[0] != '/' || s.port == 0 {
      return None;
    }
    var firstV6: Option<nat> := None;
    for i := 0 to |s.addresses|
      invariant forall j :: 0 <= j < i ==> !s.addresses[j].kind.IPv4?
      invariant firstV6 == None ==> forall j :: 0 <= j < i ==> !Routable(s.addresses[j])
      invariant firstV6.Some? ==> firstV6.value < i && s.addresses[firstV6.value].kind.IPv6?
      invariant firstV6.Some? ==> forall j :: 0 <= j < firstV6.value ==> !Routable(s.addresses[j])
    {
      match s.addresses[i].kind
      case IPv4 =>
        assert Routable(s.addresses[i]);
        assert Preferred(s.addresses, i);
        return Some(Url(s.addresses[i], s.port, s.path));
      case IPv6 =>
        if firstV6 == None {
          firstV6 := Some(i);
        }
      case Unusable =>
      case Invalid =>
    }
    if firstV6.Some? {
      assert Preferred(s.addresses, firstV6.value);
      return Some(Url(s.addresses[firstV6.value], s.port, s.path));
    }
    return None;
  }

  // ------------------------------------------------------------- select_server

  predicate Passes(s: Server, filter: string) {
    filter == "" || s.name == filter
  }

  predicate Remembered(s: Server, remembered: string) {
    remembered != "" && s.instance == remembered
  }

  /** The remembered server wins wherever it stands; otherwise the earliest that passes the filter. */
  ghost predicate Selected(servers: seq<Server>, filter: string, remembered: string, k: nat) {
    k < |servers| && Passes(servers[k], filter)
    && forall j :: 0 <= j < |servers| && Passes(servers[j], filter) && j != k ==>
         if Remembered(servers[k], remembered) then k < j || !Remembered(servers[j], remembered)
         else k < j && !Remembered(servers[j], remembered)
  }

  method SelectServer(servers: seq<Server>, filter: string, remembered: string) returns (chosen: Option<nat>)
    ensures chosen.Some? ==> Selected(servers, filter, remembered, chosen.value)
    ensures chosen == None ==> forall j :: 0 <= j < |servers| ==> !Passes(servers[j], filter)
  {
    chosen := None;
    for i := 0 to |servers|
      invariant forall j :: 0 <= j < i && Passes(servers[j], filter) ==> !Remembered(servers[j], remembered)
      invariant chosen == None ==> forall j :: 0 <= j < i ==> !Passes(servers[j], filter)
      invariant chosen.Some? ==> chosen.value < i && Passes(servers[chosen.value], filter)
      invariant chosen.Some? ==> forall j :: 0 <= j < chosen.value ==> !Passes(servers[j], filter)
    {
      if Passes(servers[i], filter) {
        if Remembered(servers[i], remembered) {
          return Some(i);
        }
        if chosen == None {
          chosen := Some(i);
        }
      }
    }
  }

  // ------------------------------------------------------------- truncate_utf8

  predicate Continuation(b: byte) {
    0x80 <= b < 0xC0
  }

  /** Back up from `max` off any continuation byte. */
  method TruncateUtf8(text: seq<byte>, max: nat) returns (cut: nat)
    ensures cut <= |text| && cut <= max
    ensures |text| <= max ==> cut == |text|
    ensures |text| > max ==> Boundary(text, cut) && forall i :: cut < i <= max ==> Continuation(text[i])
  {
    if |text| <= max {
      return |text|;
    }
    cut := max;
    while cut > 0 && Continuation(text[cut])
      invariant cut <= max
      invariant forall i :: cut < i <= max ==> Continuation(text[i])
    {
      cut := cut - 1;
    }
  }

  predicate Boundary(text: seq<byte>, cut: nat)
    requires cut < |text|
  {
    cut == 0 || !Continuation(text[cut])
  }

  /** One encoded character: a lead byte and its continuation bytes. */
  predicate Character(c: seq<byte>) {
    |c| > 0 && !Continuation(c[0]) && forall i :: 0 < i < |c| ==> Continuation(c[i])
  }

  function Text(chars: seq<seq<byte>>): seq<byte> {
    if chars == [] then [] else chars[0] + Text(chars[1..])
  }

  ghost predicate Characters(chars: seq<seq<byte>>) {
    forall i :: 0 <= i < |chars| ==> Character(chars[i])
  }

  /** The cut keeps whole characters, as many of them as fit: the text is the kept
      ones followed by the rest, and keeping one more would exceed the limit. */
  lemma {:induction false} CutKeepsWholeCharacters(chars: seq<seq<byte>>, max: nat, cut: nat) returns (kept: nat)
    requires Characters(chars) && |Text(chars)| > max && cut <= max
    requires Boundary(Text(chars), cut) && forall i :: cut < i <= max ==> Continuation(Text(chars)[i])
    ensures kept < |chars|
    ensures Text(chars)[..cut] == Text(chars[..kept]) && |Text(chars[..kept])| == cut
    ensures |Text(chars[..kept + 1])| > max
    decreases |chars|
  {
    var head, tail := chars[0], chars[1..];
    var text, rest := Text(chars), Text(tail);
    assert text == head + rest && Character(head);
    assert forall i :: 0 <= i < |head| ==> text[i] == head[i];
    assert forall i :: 0 <= i < |rest| ==> rest[i] == text[i + |head|];
    if cut == 0 {
      kept := 0;
      assert chars[..1] == [head] && chars[..1][1..] == tail[..0] && Text(chars[..1]) == head + Text(tail[..0]);
      assert tail != [] ==> Character(tail[0]) && rest[0] == tail[0][0];
    } else {
      var c := cut - |head|;
      assert |rest| > max - |head|;
      assert c != 0 ==> rest[c] == text[cut];
      forall i | c < i <= max - |head| ensures Continuation(rest[i]) {
        assert rest[i] == text[i + |head|];
      }
      var k := CutKeepsWholeCharacters(tail, max - |head|, c);
      kept := k + 1;
      assert chars[..kept][1..] == tail[..k] && chars[..kept + 1][1..] == tail[..k + 1];
      assert Text(chars[..kept]) == head + Text(tail[..k]);
      assert Text(chars[..kept + 1]) == head + Text(tail[..k + 1]);
      assert text[..cut] == head + rest[..c];
    }
  }
}
