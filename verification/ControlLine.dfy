/** One request line out of however many reads it takes: LineAssembler of
    src/control_common.cpp. Text is bytes, one `char` each. */
module ControlLine {
  const MAX_CONTROL_LINE_BYTES := 256
  const NUL := 0 as char

  datatype LineState = Incomplete | Ready | TooLong | Invalid

  /** The verdict so far, what is buffered, and the line once there is one. */
  datatype Assembly = Assembly(state: LineState, buffer: string, line: string)

  const EMPTY := Assembly(Incomplete, "", "")

  function WithoutCr(s: string): string {
    if s != "" && s[|s| - 1] == '\r' then s[..|s| - 1] else s
  }

  function Feed(a: Assembly, data: string): Assembly
    decreases |data|
  {
    if data == "" then a.(state := Incomplete)
    else if data[0] == NUL then a.(state := Invalid)
    else if data[0] == '\n' then Assembly(Ready, "", WithoutCr(a.buffer))
    else if |a.buffer| >= MAX_CONTROL_LINE_BYTES then a.(state := TooLong)
    else Feed(a.(buffer := a.buffer + [data[0]]), data[1..])
  }

  function Finish(a: Assembly): Assembly {
    if a.buffer == "" then a.(state := Incomplete) else Assembly(Ready, "", WithoutCr(a.buffer))
  }

  class LineAssembler {
    var buffer: string
    var line: string

    constructor ()
      ensures buffer == "" && line == ""
    {
      buffer, line := "", "";
    }

    method FeedBytes(data: string) returns (state: LineState)
      modifies this
      ensures Assembly(state, buffer, line) == Feed(Assembly(Incomplete, old(buffer), old(line)), data)
    {
      ghost var start := Assembly(Incomplete, buffer, line);
      var index := 0;
      while index < |data|
        invariant index <= |data|
        invariant Feed(Assembly(Incomplete, buffer, line), data[index..]) == Feed(start, data)
      {
        if data[index] == NUL {
          return Invalid;
        }
        if data[index] == '\n' {
          line := WithoutCr(buffer);
          buffer := "";
          return Ready;
        }
        if |buffer| >= MAX_CONTROL_LINE_BYTES {
          return TooLong;
        }
        assert data[index..][1..] == data[index + 1..];
        buffer := buffer + [data[index]];
        index := index + 1;
      }
      return Incomplete;
    }

    method FinishInput() returns (state: LineState)
      modifies this
      ensures Assembly(state, buffer, line) == Finish(Assembly(Incomplete, old(buffer), old(line)))
    {
      if buffer == "" {
        return Incomplete;
      }
      line := WithoutCr(buffer);
      buffer := "";
      return Ready;
    }
  }

  // ------------------------------------------------------- chunks do not matter

  function Flatten(chunks: seq<string>): string {
    if chunks == [] then "" else chunks[0] + Flatten(chunks[1..])
  }

  /** Reading stops at the first verdict. */
  function FeedAll(a: Assembly, chunks: seq<string>): Assembly
    decreases |chunks|
  {
    if chunks == [] || a.state != Incomplete then a else FeedAll(Feed(a, chunks[0]), chunks[1..])
  }

  lemma {:induction false} FeedSplit(a: Assembly, x: string, y: string)
    requires a.state == Incomplete
    ensures Feed(a, x + y) == if Feed(a, x).state == Incomplete then Feed(Feed(a, x), y) else Feed(a, x)
    decreases |x|
  {
    if x == "" {
      assert x + y == y;
    } else {
      assert (x + y)[0] == x[0] && (x + y)[1..] == x[1..] + y;
      if x[0] != NUL && x[0] != '\n' && |a.buffer| < MAX_CONTROL_LINE_BYTES {
        FeedSplit(a.(buffer := a.buffer + [x[0]]), x[1..], y);
      }
    }
  }

  /** The verdict, the line and what is left buffered are those of the bytes in one piece,
      however the reads cut them. */
  lemma {:induction false} ChunkingIsInvisible(a: Assembly, chunks: seq<string>)
    requires a.state == Incomplete
    ensures FeedAll(a, chunks) == Feed(a, Flatten(chunks))
    decreases |chunks|
  {
    if chunks != [] {
      FeedSplit(a, chunks[0], Flatten(chunks[1..]));
      if Feed(a, chunks[0]).state == Incomplete {
        ChunkingIsInvisible(Feed(a, chunks[0]), chunks[1..]);
      }
    }
  }

  // ------------------------------------------------------- what the verdict says

  predicate Plain(s: string) {
    forall i :: 0 <= i < |s| ==> s[i] != NUL && s[i] != '\n'
  }

  lemma {:induction false} PlainAccumulates(a: Assembly, text: string, rest: string)
    requires a.state == Incomplete && Plain(text) && |a.buffer| + |text| <= MAX_CONTROL_LINE_BYTES
    ensures Feed(a, text + rest) == Feed(a.(buffer := a.buffer + text), rest)
    decreases |text|
  {
    if text == "" {
      assert text + rest == rest && a.buffer + text == a.buffer;
    } else {
      assert (text + rest)[0] == text[0] && (text + rest)[1..] == text[1..] + rest;
      PlainAccumulates(a.(buffer := a.buffer + [text[0]]), text[1..], rest);
      assert a.buffer + [text[0]] + text[1..] == a.buffer + text;
    }
  }

  /** Where the first newline or NUL stands, or the end. */
  function FirstSpecial(data: string): (k: nat)
    ensures k <= |data| && Plain(data[..k]) && (k < |data| ==> data[k] == NUL || data[k] == '\n')
  {
    if data == "" || data[0] == NUL || data[0] == '\n' then 0
    else
      var k := FirstSpecial(data[1..]);
      assert forall i :: 0 < i < k + 1 ==> data[i] == data[1..][..k][i - 1];
      k + 1
  }

  /** Ready exactly when a newline comes first and within the limit, with the bytes before it
      (less one CR) as the line; Invalid when a NUL does; TooLong when 257 plain bytes do. */
  lemma VerdictIsDecidedByFirstSpecial(data: string)
    ensures var k, r := FirstSpecial(data), Feed(EMPTY, data);
            && (r.state == Ready <==> k <= MAX_CONTROL_LINE_BYTES && k < |data| && data[k] == '\n')
            && (r.state == Ready ==> r.line == WithoutCr(data[..k]))
            && (r.state == Invalid <==> k <= MAX_CONTROL_LINE_BYTES && k < |data| && data[k] == NUL)
            && (r.state == TooLong <==> k > MAX_CONTROL_LINE_BYTES)
            && (r.state == Incomplete <==> k == |data| <= MAX_CONTROL_LINE_BYTES)
            && (r.state == Incomplete ==> r.buffer == data)
  {
    hide Feed, FirstSpecial, Plain;
    var k := FirstSpecial(data);
    if k > MAX_CONTROL_LINE_BYTES {
      PlainOverflows(data[..k]);
      assert data == data[..k] + data[k..];
      FeedSplit(EMPTY, data[..k], data[k..]);
    } else {
      var text, rest := data[..k], data[k..];
      assert data == text + rest;
      PlainAccumulates(EMPTY, text, rest);
      assert "" + text == text;
      LastStep(Assembly(Incomplete, text, ""), rest);
      assert rest == "" ==> data == text;
    }
  }

  lemma PlainOverflows(text: string)
    requires Plain(text) && |text| > MAX_CONTROL_LINE_BYTES
    ensures Feed(EMPTY, text).state == TooLong
  {
    var n := MAX_CONTROL_LINE_BYTES;
    assert text == text[..n] + text[n..];
    PlainAccumulates(EMPTY, text[..n], text[n..]);
    assert text[n..][0] == text[n];
  }

  lemma LastStep(a: Assembly, rest: string)
    requires rest != "" ==> rest[0] == NUL || rest[0] == '\n'
    ensures Feed(a, rest) == if rest == "" then a.(state := Incomplete)
                             else if rest[0] == NUL then a.(state := Invalid)
                             else Assembly(Ready, "", WithoutCr(a.buffer))
  {
  }
}
