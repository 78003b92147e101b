/** One HTTP exchange: the request text and the head of the response, around the
    body decoders. */
module HttpExchange {
  import opened Common
  import opened Numbers
  import opened HttpUrl
  import opened HttpBody
  import HttpRedirect

  type Header = HttpRedirect.Header
  type Request = HttpRedirect.Request

  const NO_HTTP_SERVER: int := -7

  // ---- Lines on the wire --------------------------------------------------

  /** The lines, each ended by CR LF, in front of `rest`. */
  function Terminated(lines: seq<string>, rest: string): string {
    if lines == [] then rest else lines[0] + CRLF + Terminated(lines[1..], rest)
  }

  /** A head: its lines and the empty one, in front of `rest`. */
  function HeadText(lines: seq<string>, rest: string): string { Terminated(lines, CRLF + rest) }

  /** The lines up to the empty one, and what follows it. */
  function ReadLines(wire: string): (seq<string>, string)
    decreases |wire|
  {
    LineShrinks(wire);
    var (line, rest) := Line(wire);
    if line == "" then ([], rest)
    else
      var (more, left) := ReadLines(rest);
      ([line] + more, left)
  }

  predicate OneLine(s: string) { '\n' !in s }

  predicate AreLines(lines: seq<string>) { forall i :: 0 <= i < |lines| ==> lines[i] != "" && OneLine(lines[i]) }

  lemma {:induction false} LinesRoundTrip(lines: seq<string>, rest: string)
    requires AreLines(lines)
    ensures ReadLines(HeadText(lines, rest)) == (lines, rest)
  {
    if lines == [] {
      assert CRLF + rest == "" + CRLF + rest;
      LineOf("", rest);
    } else {
      LineOf(lines[0], HeadText(lines[1..], rest));
      LinesRoundTrip(lines[1..], rest);
      assert [lines[0]] + lines[1..] == lines;
    }
  }

  lemma {:induction false} TerminatedAppend(lines: seq<string>, last: string)
    ensures Terminated(lines + [last], "") == Terminated(lines, "") + last + CRLF
  {
    if lines == [] {
      assert Terminated([last][1..], "") == "";
      assert last + CRLF + "" == "" + last + CRLF;
    } else {
      TerminatedAppend(lines[1..], last);
      assert (lines + [last])[1..] == lines[1..] + [last];
      assert lines[0] + CRLF + (Terminated(lines[1..], "") + last + CRLF)
          == lines[0] + CRLF + Terminated(lines[1..], "") + last + CRLF;
    }
  }

  lemma {:induction false} TerminatedInFront(lines: seq<string>, rest: string)
    ensures Terminated(lines, "") + rest == Terminated(lines, rest)
  {
    if lines != [] {
      TerminatedInFront(lines[1..], rest);
      assert lines[0] + CRLF + Terminated(lines[1..], "") + rest
          == lines[0] + CRLF + (Terminated(lines[1..], "") + rest);
    } else {
      assert "" + rest == rest;
    }
  }

  // ---- The request --------------------------------------------------------

  const AGENT := "host-arduino-core/1"

  function HeaderLine(h: Header): string { h.name + ": " + h.value }

  function HeaderLines(hs: seq<Header>): (lines: seq<string>)
    ensures |lines| == |hs| && forall i :: 0 <= i < |hs| ==> lines[i] == HeaderLine(hs[i])
  {
    seq(|hs|, i requires 0 <= i < |hs| => HeaderLine(hs[i]))
  }

  function RequestLine(verb: string, uri: string): string { verb + " " + (if uri != "" then uri else "/") + " HTTP/1.1" }

  function HostLine(u: Url): string { "Host: " + u.host + PortPart(u.https, u.port) }

  function AgentLine(agent: string): string { "User-Agent: " + (if agent != "" then agent else AGENT) }

  function LengthLine(n: nat): string { "Content-Length: " + Digits(n, 10) }

  const CLOSE := "Connection: close"

  function FixedLines(q: Request, agent: string): seq<string> {
    [RequestLine(q.verb, q.target.uri), HostLine(q.target), AgentLine(agent), CLOSE]
    + if q.payload != "" then [LengthLine(|q.payload|)] else []
  }

  lemma FixedAre(q: Request, agent: string)
    ensures var fixed := FixedLines(q, agent);
            && |fixed| == (if q.payload == "" then 4 else 5)
            && fixed[0] == RequestLine(q.verb, q.target.uri) && fixed[1] == HostLine(q.target)
            && fixed[2] == AgentLine(agent) && fixed[3] == CLOSE
            && (q.payload != "" ==> fixed[4] == LengthLine(|q.payload|))
  {
  }

  function RequestLines(q: Request, agent: string): seq<string> { FixedLines(q, agent) + HeaderLines(q.headers) }

  lemma FourLines(a: string, b: string, c: string, d: string)
    ensures Terminated([a, b, c, d], "") == a + CRLF + b + CRLF + c + CRLF + d + CRLF
  {
    TerminatedAppend([], a);
    TerminatedAppend([a], b);
    TerminatedAppend([a, b], c);
    TerminatedAppend([a, b, c], d);
    assert [] + [a] == [a] && [a] + [b] == [a, b] && [a, b] + [c] == [a, b, c] && [a, b, c] + [d] == [a, b, c, d];
    assert "" + a + CRLF == a + CRLF;
  }

  method BuildRequest(q: Request, agent: string) returns (req: string)
    ensures req == HeadText(RequestLines(q, agent), "")
  {
    ghost var fixed, all := FixedLines(q, agent), HeaderLines(q.headers);
    FourLines(fixed[0], fixed[1], fixed[2], fixed[3]);
    req := q.verb + " " + (if q.target.uri != "" then q.target.uri else "/") + " HTTP/1.1" + CRLF;
    req := req + ("Host: " + q.target.host + PortPart(q.target.https, q.target.port)) + CRLF;
    req := req + ("User-Agent: " + (if agent != "" then agent else AGENT)) + CRLF + "Connection: close" + CRLF;
    assert fixed[..4] == [fixed[0], fixed[1], fixed[2], fixed[3]];
    if |q.payload| > 0 {
      TerminatedAppend(fixed[..4], fixed[4]);
      req := req + ("Content-Length: " + Digits(|q.payload|, 10)) + CRLF;
    }
    assert fixed == (if |q.payload| > 0 then fixed[..4] + [fixed[4]] else fixed[..4]);
    assert fixed + all[..0] == fixed;
    for i := 0 to |q.headers|
      invariant req == Terminated(fixed + all[..i], "")
    {
      TerminatedAppend(fixed + all[..i], all[i]);
      assert fixed + all[..i + 1] == (fixed + all[..i]) + [all[i]];
      req := req + (q.headers[i].name + ": " + q.headers[i].value) + CRLF;
    }
    assert fixed + all[..|q.headers|] == RequestLines(q, agent);
    TerminatedInFront(RequestLines(q, agent), CRLF);
    assert CRLF + "" == CRLF;
    req := req + CRLF;
  }

  predicate PlainRequest(q: Request, agent: string) {
    && OneLine(q.verb) && OneLine(q.target.uri) && OneLine(q.target.host) && OneLine(agent)
    && forall h :: h in q.headers ==> OneLine(h.name) && OneLine(h.value)
  }

  lemma FixedAreLines(q: Request, agent: string)
    requires PlainRequest(q, agent)
    ensures AreLines(FixedLines(q, agent))
  {
    DigitsAreOneLine(q.target.port);
    DigitsAreOneLine(|q.payload|);
  }

  lemma AddedAreLines(hs: seq<Header>)
    requires forall i :: 0 <= i < |hs| ==> OneLine(hs[i].name) && OneLine(hs[i].value)
    ensures AreLines(HeaderLines(hs))
  {
  }

  /** A server that reads lines up to the empty one sees the request line, the fixed
      headers, the length of the payload when there is one, and the added headers in
      order; what follows is the payload. */
  lemma RequestIsRead(q: Request, agent: string)
    requires PlainRequest(q, agent)
    ensures ReadLines(HeadText(RequestLines(q, agent), q.payload)) == (RequestLines(q, agent), q.payload)
  {
    FixedAreLines(q, agent);
    forall i | 0 <= i < |q.headers| ensures OneLine(q.headers[i].name) && OneLine(q.headers[i].value) {
      assert q.headers[i] in q.headers;
    }
    AddedAreLines(q.headers);
    LinesRoundTrip(RequestLines(q, agent), q.payload);
  }

  lemma DigitsAreOneLine(n: nat)
    ensures OneLine(Digits(n, 10))
  {
    PrintedValue(n, 10);
    forall i | 0 <= i < |Digits(n, 10)| ensures Digits(n, 10)[i] != '\n' {
      assert DigitValue(Digits(n, 10)[i]) < DigitValue('\n');
    }
  }

  // ---- The head of the response -------------------------------------------

  /** What the headers said; -1 and "" when they did not. */
  datatype Head = Head(contentLength: int, chunked: bool, location: string)

  const NOTHING: Head := Head(-1, false, "")

  predicate SameName(a: string, b: string) {
    |a| == |b| && forall i :: 0 <= i < |a| ==> LowerChar(a[i]) == LowerChar(b[i])
  }

  function SkipSpacesBack(s: string): string {
    if s != [] && IsSpace(s[|s| - 1]) then SkipSpacesBack(s[..|s| - 1]) else s
  }

  /** String::trim. */
  function Trim(s: string): string { SkipSpacesBack(SkipSpaces(s)) }

  /** One header line taken in; a line without a colon is passed over. */
  function Absorb(h: Head, line: string): Head {
    var colon := Find(line, ':');
    if colon < 0 then h
    else
      var name, value := line[..colon], Trim(line[colon + 1..]);
      if SameName(name, "Content-Length") then h.(contentLength := ToInt(value))
      else if SameName(name, "Transfer-Encoding") then
        h.(chunked := h.chunked || FindString(Lower(value), "chunked") >= 0)
      else if SameName(name, "Location") then h.(location := value)
      else h
  }

  function AbsorbAll(h: Head, lines: seq<string>): Head
    decreases |lines|
  {
    if lines == [] then h else AbsorbAll(Absorb(h, lines[0]), lines[1..])
  }

  /** static_cast<int>(long). */
  function Narrow(v: int): int { (v + 0x8000_0000) % UINT32 - 0x8000_0000 }

  /** A positive code, or NO_HTTP_SERVER. */
  function CodeIn(word: string): int {
    var code := Narrow(ToInt(word));
    if code <= 0 then NO_HTTP_SERVER else code
  }

  /** The status of a status line, NO_HTTP_SERVER when it is none. */
  function StatusOf(line: string): int {
    if !("HTTP/" <= line) then NO_HTTP_SERVER
    else
      var sp1 := Find(line, ' ');
      if sp1 < 0 then NO_HTTP_SERVER
      else
        var rest := line[sp1 + 1..];
        var sp2 := Find(rest, ' ');
        CodeIn(if sp2 < 0 then rest else rest[..sp2])
  }

  /** The code, what the headers said, and the wire after them; on a bad status line
      nothing more is read. */
  function ReadHead(wire: string): (int, Head, string) {
    var (status, rest) := Line(wire);
    var code := StatusOf(status);
    if code == NO_HTTP_SERVER then (code, NOTHING, rest)
    else
      var (lines, left) := ReadLines(rest);
      (code, AbsorbAll(NOTHING, lines), left)
  }

  method EqualsIgnoreCase(a: string, b: string) returns (same: bool)
    ensures same == SameName(a, b)
  {
    if |a| != |b| {
      return false;
    }
    for i := 0 to |a|
      invariant forall j :: 0 <= j < i ==> LowerChar(a[j]) == LowerChar(b[j])
    {
      var ca, cb := a[i], b[i];
      if 'A' <= ca <= 'Z' {
        ca := (ca as int - 'A' as int + 'a' as int) as char;
      }
      if 'A' <= cb <= 'Z' {
        cb := (cb as int - 'A' as int + 'a' as int) as char;
      }
      if ca != cb {
        return false;
      }
    }
    return true;
  }

  lemma FirstNonSpace(s: string, i: nat)
    requires i <= |s| && (forall k :: 0 <= k < i ==> IsSpace(s[k])) && (i < |s| ==> !IsSpace(s[i]))
    ensures SkipSpaces(s) == s[i..]
  {
    if i > 0 {
      FirstNonSpace(s[1..], i - 1);
    }
  }

  lemma DropLast(s: string, first: nat, last: nat)
    requires first < last <= |s|
    ensures s[first..last][..last - first - 1] == s[first..last - 1]
    ensures s[first..last][last - first - 1] == s[last - 1]
  {
  }

  method TrimInPlace(s: string) returns (r: string)
    ensures r == Trim(s)
  {
    var first := 0;
    while first < |s| && IsSpace(s[first])
      invariant first <= |s| && forall k :: 0 <= k < first ==> IsSpace(s[k])
    {
      first := first + 1;
    }
    FirstNonSpace(s, first);
    var last := |s|;
    assert s[first..last] == s[first..];
    while last > first && IsSpace(s[last - 1])
      invariant first <= last <= |s|
      invariant SkipSpacesBack(s[first..last]) == SkipSpacesBack(s[first..])
    {
      DropLast(s, first, last);
      last := last - 1;
    }
    r := s[first..last];
  }

  /** The client's fields for the response, over its connection. */
  class Reply {
    const client: Client
    var contentLength: int
    var chunked: bool
    var location: string

    function Said(): Head
      reads this
    {
      Head(contentLength, chunked, location)
    }

    constructor (connection: Client)
      ensures client == connection && Said() == NOTHING
    {
      client, contentLength, chunked, location := connection, -1, false, "";
    }

    method ReadResponseHead() returns (code: int)
      modifies this, client
      ensures (code, Said(), client.unread) == ReadHead(old(client.unread))
    {
      contentLength, chunked, location := -1, false, "";
      var status := client.ReadHTTPLine();
      code := ParseStatus(status);
      if code == NO_HTTP_SERVER {
        return;
      }
      ghost var all := ReadLines(client.unread);
      while true
        invariant AbsorbAll(Said(), ReadLines(client.unread).0) == AbsorbAll(NOTHING, all.0)
        invariant ReadLines(client.unread).1 == all.1
        decreases |client.unread|
      {
        LineShrinks(client.unread);
        ghost var before := client.unread;
        var line := client.ReadHTTPLine();
        if |line| == 0 {
          break;
        }
        assert ReadLines(before).0 == [line] + ReadLines(client.unread).0;
        TakeIn(line);
      }
    }

    method ParseStatus(status: string) returns (code: int)
      ensures code == StatusOf(status)
    {
      if !("HTTP/" <= status) {
        return NO_HTTP_SERVER;
      }
      var sp1 := Find(status, ' ');
      if sp1 < 0 {
        return NO_HTTP_SERVER;
      }
      var rest := status[sp1 + 1..];
      var sp2 := Find(rest, ' ');
      var codeStr := if sp2 < 0 then rest else rest[..sp2];
      code := Narrow(ToInt(codeStr));
      if code <= 0 {
        return NO_HTTP_SERVER;
      }
    }

    method TakeIn(line: string)
      modifies this
      ensures Said() == Absorb(old(Said()), line)
    {
      var colon := Find(line, ':');
      if colon < 0 {
        return;
      }
      var name := line[..colon];
      var value := TrimInPlace(line[colon + 1..]);
      var isLength := EqualsIgnoreCase(name, "Content-Length");
      var isCoding := EqualsIgnoreCase(name, "Transfer-Encoding");
      var isLocation := EqualsIgnoreCase(name, "Location");
      if isLength {
        contentLength := ToInt(value);
      } else if isCoding {
        if FindString(Lower(value), "chunked") >= 0 {
          chunked := true;
        }
      } else if isLocation {
        location := value;
      }
    }

    /** The body by whichever decoder the headers chose. */
    method GetString() returns (body: string)
      modifies client
      ensures NulFree(body)
      ensures chunked ==> client.unread == Decode(old(client.unread)).1
      ensures chunked && NulFree(Decode(old(client.unread)).0) ==> body == Decode(old(client.unread)).0
      ensures !chunked ==>
                var n := if 0 <= contentLength < |old(client.unread)| then contentLength else |old(client.unread)|;
                client.unread == old(client.unread)[n..]
                && (NulFree(old(client.unread)[..n]) ==> body == old(client.unread)[..n])
    {
      if chunked {
        body := client.GetStringChunked();
      } else {
        body := client.GetStringSized(contentLength);
      }
    }
  }

  // ---- What a server wrote is what is understood --------------------------

  predicate Trimmed(v: string) { v == "" || (!IsSpace(v[0]) && !IsSpace(v[|v| - 1])) }

  predicate GoodHeader(h: Header) {
    ':' !in h.name && OneLine(h.name) && OneLine(h.value) && Trimmed(h.value)
  }

  /** The value of the last header of that name. */
  function LastValue(hs: seq<Header>, name: string): Option<string> {
    if hs == [] then None
    else if SameName(hs[|hs| - 1].name, name) then Some(hs[|hs| - 1].value)
    else LastValue(hs[..|hs| - 1], name)
  }

  predicate AsksChunked(h: Header) {
    SameName(h.name, "Transfer-Encoding") && FindString(Lower(h.value), "chunked") >= 0
  }

  predicate AnyChunked(hs: seq<Header>) {
    hs != [] && (AnyChunked(hs[..|hs| - 1]) || AsksChunked(hs[|hs| - 1]))
  }

  /** What a list of headers declares. */
  function Declared(hs: seq<Header>): Head {
    var length, location := LastValue(hs, "Content-Length"), LastValue(hs, "Location");
    Head(if length.Some? then ToInt(length.value) else -1,
         AnyChunked(hs),
         if location.Some? then location.value else "")
  }

  /** One more header. */
  function Adding(h: Head, f: Header): Head {
    if SameName(f.name, "Content-Length") then h.(contentLength := ToInt(f.value))
    else if SameName(f.name, "Transfer-Encoding") then h.(chunked := h.chunked || AsksChunked(f))
    else if SameName(f.name, "Location") then h.(location := f.value)
    else h
  }

  lemma DeclaredAppend(hs: seq<Header>, f: Header)
    ensures Declared(hs + [f]) == Adding(Declared(hs), f)
  {
    assert (hs + [f])[..|hs + [f]| - 1] == hs;
  }

  lemma ValueIsTrimmed(v: string)
    requires Trimmed(v)
    ensures Trim(" " + v) == v
  {
    assert (" " + v)[1..] == v;
    if v != "" {
      assert (" " + v)[1] == v[0];
    }
    FirstNonSpace(" " + v, 1);
  }

  lemma HeaderIsAbsorbed(h: Head, f: Header)
    requires GoodHeader(f)
    ensures Absorb(h, HeaderLine(f)) == Adding(h, f)
  {
    var line := HeaderLine(f);
    assert line == f.name + [':'] + (" " + f.value);
    FindAfter(f.name, ':', " " + f.value);
    assert line[..|f.name|] == f.name && line[|f.name| + 1..] == " " + f.value;
    ValueIsTrimmed(f.value);
  }

  lemma {:induction false} AbsorbAppend(h: Head, lines: seq<string>, last: string)
    ensures AbsorbAll(h, lines + [last]) == Absorb(AbsorbAll(h, lines), last)
    decreases |lines|
  {
    if lines == [] {
      assert [last][1..] == [] && [] + [last] == [last];
    } else {
      assert (lines + [last])[1..] == lines[1..] + [last];
      AbsorbAppend(Absorb(h, lines[0]), lines[1..], last);
    }
  }

  lemma OneMoreHeader(hs: seq<Header>, f: Header)
    requires AbsorbAll(NOTHING, HeaderLines(hs)) == Declared(hs) && GoodHeader(f)
    ensures AbsorbAll(NOTHING, HeaderLines(hs + [f])) == Declared(hs + [f])
  {
    assert HeaderLines(hs + [f]) == HeaderLines(hs) + [HeaderLine(f)];
    AbsorbAppend(NOTHING, HeaderLines(hs), HeaderLine(f));
    HeaderIsAbsorbed(Declared(hs), f);
    DeclaredAppend(hs, f);
  }

  lemma {:induction false} HeadersAreUnderstood(hs: seq<Header>)
    requires forall i :: 0 <= i < |hs| ==> GoodHeader(hs[i])
    ensures AbsorbAll(NOTHING, HeaderLines(hs)) == Declared(hs)
  {
    if hs != [] {
      var n := |hs| - 1;
      HeadersAreUnderstood(hs[..n]);
      OneMoreHeader(hs[..n], hs[n]);
      assert hs == hs[..n] + [hs[n]];
    }
  }

  function StatusLine(version: string, code: nat, reason: string): string {
    "HTTP/" + version + " " + Digits(code, 10) + " " + reason
  }

  predicate GoodStatus(version: string, code: nat, reason: string) {
    ' ' !in version && OneLine(version) && OneLine(reason) && 0 < code < 0x8000_0000
  }

  lemma NarrowIsExact(v: int)
    requires -0x8000_0000 <= v < 0x8000_0000
    ensures Narrow(v) == v
  {
  }

  lemma StatusParts(version: string, digits: string, reason: string)
    requires ' ' !in version && ' ' !in digits
    ensures var line := "HTTP/" + version + " " + digits + " " + reason;
            && "HTTP/" <= line && Find(line, ' ') == 5 + |version|
            && Find(line[6 + |version|..], ' ') == |digits| && line[6 + |version|..][..|digits|] == digits
  {
    var line, tail := "HTTP/" + version + " " + digits + " " + reason, digits + [' '] + reason;
    assert line == ("HTTP/" + version) + [' '] + tail;
    FindAfter("HTTP/" + version, ' ', tail);
    assert line[6 + |version|..] == tail;
    FindAfter(digits, ' ', reason);
  }

  lemma StatusIsUnderstood(version: string, code: nat, reason: string)
    requires GoodStatus(version, code, reason)
    ensures StatusOf(StatusLine(version, code, reason)) == code
  {
    var digits := Digits(code, 10);
    DigitsHaveNoSpace(code);
    StatusParts(version, digits, reason);
    ParsedPositiveDecimal(code, "");
    assert digits + "" == digits;
    NarrowIsExact(code);
  }

  lemma DigitsHaveNoSpace(n: nat)
    ensures ' ' !in Digits(n, 10)
  {
    PrintedValue(n, 10);
    forall i | 0 <= i < |Digits(n, 10)| ensures Digits(n, 10)[i] != ' ' {
      assert DigitValue(Digits(n, 10)[i]) < DigitValue(' ');
    }
  }

  lemma StatusIsOneLine(version: string, code: nat, reason: string)
    requires GoodStatus(version, code, reason)
    ensures OneLine(StatusLine(version, code, reason))
  {
    DigitsAreOneLine(code);
  }

  /** Reading a head undoes writing it: the code, what the headers declare whatever
      the case of their names, the last one of a name counting, and exactly the body
      left. */
  lemma HeadRoundTrip(version: string, code: nat, reason: string, hs: seq<Header>, body: string)
    requires GoodStatus(version, code, reason) && forall i :: 0 <= i < |hs| ==> GoodHeader(hs[i])
    ensures ReadHead(HeadText([StatusLine(version, code, reason)] + HeaderLines(hs), body))
         == (code, Declared(hs), body)
  {
    var status, lines := StatusLine(version, code, reason), HeaderLines(hs);
    assert ([status] + lines)[1..] == lines;
    StatusIsUnderstood(version, code, reason);
    StatusIsOneLine(version, code, reason);
    LineOf(status, HeadText(lines, body));
    AddedAreLines(hs);
    LinesRoundTrip(lines, body);
    HeadersAreUnderstood(hs);
  }

  /** A whole chunked response, for every fragmentation: its code and its payload, and
      what follows it left on the wire. */
  method ReceiveChunked(version: string, code: nat, reason: string, hs: seq<Header>,
                        cs: seq<Chunk>, last: string, ext: string, ts: seq<string>, tail: string)
    returns (status: int, location: string, body: string, left: string)
    requires GoodStatus(version, code, reason) && (forall i :: 0 <= i < |hs| ==> GoodHeader(hs[i])) && AnyChunked(hs)
    requires (forall i :: 0 <= i < |cs| ==> GoodChunk(cs[i])) && SizeLine(last, ext, 0) && NulFree(Payload(cs))
    requires forall i :: 0 <= i < |ts| ==> ts[i] != "" && '\n' !in ts[i]
    ensures status == code && location == Declared(hs).location && body == Payload(cs) && left == tail
  {
    var coded := Encode(cs, last, ext, ts, tail);
    HeadRoundTrip(version, code, reason, hs, coded);
    DecodeUndoesEncode(cs, last, ext, ts, tail);
    var client := new Client(HeadText([StatusLine(version, code, reason)] + HeaderLines(hs), coded));
    var reply := new Reply(client);
    status := reply.ReadResponseHead();
    body := reply.GetString();
    location, left := reply.location, client.unread;
  }

  /** And one whose length is declared. */
  method ReceiveSized(version: string, code: nat, reason: string, hs: seq<Header>, text: string, tail: string)
    returns (status: int, location: string, body: string, left: string)
    requires GoodStatus(version, code, reason) && (forall i :: 0 <= i < |hs| ==> GoodHeader(hs[i])) && !AnyChunked(hs)
    requires Declared(hs).contentLength == |text| && NulFree(text)
    ensures status == code && location == Declared(hs).location && body == text && left == tail
  {
    HeadRoundTrip(version, code, reason, hs, text + tail);
    assert (text + tail)[..|text|] == text && (text + tail)[|text|..] == tail;
    var client := new Client(HeadText([StatusLine(version, code, reason)] + HeaderLines(hs), text + tail));
    var reply := new Reply(client);
    status := reply.ReadResponseHead();
    body := reply.GetString();
    location, left := reply.location, client.unread;
  }
}
