/** The other end of the wire: what a server gets out of a request, and what the
    client gets out of a server's head, each read independently of how it is written. */
module HttpServer {
  import opened Common
  import opened Numbers
  import opened HttpUrl
  import opened HttpBody
  import opened HttpExchange

  // ---- A server's reader --------------------------------------------------

  /** The pieces between the spaces. */
  function Words(s: string): seq<string>
    decreases |s|
  {
    var i := Find(s, ' ');
    if i < 0 then [s] else [s[..i]] + Words(s[i + 1..])
  }

  datatype Field = Field(name: string, value: string)

  /** A header line taken apart at its first colon. */
  function FieldOf(line: string): Field {
    var colon := Find(line, ':');
    if colon < 0 then Field(line, "") else Field(line[..colon], Trim(line[colon + 1..]))
  }

  function FieldsOf(lines: seq<string>): (fields: seq<Field>)
    ensures |fields| == |lines| && forall i :: 0 <= i < |lines| ==> fields[i] == FieldOf(lines[i])
  {
    seq(|lines|, i requires 0 <= i < |lines| => FieldOf(lines[i]))
  }

  datatype Received = Received(words: seq<string>, fields: seq<Field>, payload: string)

  function Receive(wire: string): Received {
    var (lines, payload) := ReadLines(wire);
    if lines == [] then Received([], [], payload)
    else Received(Words(lines[0]), FieldsOf(lines[1..]), payload)
  }

  lemma OneMoreWord(word: string, rest: string)
    requires ' ' !in word
    ensures Words(word + [' '] + rest) == [word] + Words(rest)
  {
    FindAfter(word, ' ', rest);
    var s := word + [' '] + rest;
    assert s[..|word|] == word && s[|word| + 1..] == rest;
    assert Words(s) == [s[..|word|]] + Words(s[|word| + 1..]);
  }

  lemma ThreeWords(a: string, b: string, c: string)
    requires ' ' !in a && ' ' !in b && ' ' !in c
    ensures Words(a + [' '] + (b + [' '] + c)) == [a, b, c]
  {
    OneMoreWord(a, b + [' '] + c);
    OneMoreWord(b, c);
    assert [a] + ([b] + [c]) == [a, b, c];
  }

  lemma FieldIsRead(name: string, value: string)
    requires ':' !in name && Trimmed(value)
    ensures FieldOf(name + ": " + value) == Field(name, value)
  {
    var line := name + ": " + value;
    assert line == name + [':'] + (" " + value);
    FindAfter(name, ':', " " + value);
    assert line[..|name|] == name && line[|name| + 1..] == " " + value;
    ValueIsTrimmed(value);
  }

  // ---- The request --------------------------------------------------------

  /** A request whose parts can be told apart on the wire. */
  predicate Plain(q: Request, agent: string) {
    && ' ' !in q.verb && ' ' !in q.target.uri && Trimmed(q.target.host) && Trimmed(agent)
    && GoodHost(q.target.host) && q.target.port < 0x1_0000
    && PlainRequest(q, agent)
    && forall h :: h in q.headers ==> ':' !in h.name && Trimmed(h.value)
  }

  lemma DigitsAreTrimmed(n: nat)
    ensures Trimmed(Digits(n, 10))
  {
    PrintedValue(n, 10);
    var s := Digits(n, 10);
    SpacesAre(s[0]);
    SpacesAre(s[|s| - 1]);
  }

  lemma HostIsTrimmed(host: string, https: bool, port: nat)
    requires GoodHost(host) && Trimmed(host)
    ensures Trimmed(host + PortPart(https, port))
    ensures ':' in host + PortPart(https, port) <==> port != if https then 443 else 80
  {
    DigitsAreTrimmed(port);
    PrintedValue(port, 10);
  }

  predicate HostSays(q: Request, f: Field) {
    && f.name == "Host"
    && SplitAuthority(q.target.https, f.value) == (q.target.host, q.target.port)
    && (':' in f.value <==> q.target.port != if q.target.https then 443 else 80)
  }

  predicate AgentSays(agent: string, f: Field) {
    f == Field("User-Agent", if agent != "" then agent else "host-arduino-core/1")
  }

  predicate LengthSays(n: nat, f: Field) {
    f.name == "Content-Length" && AllDigits(f.value, 10) && Value(f.value, 10) == n
  }

  /** What the header lines say, in their order. */
  predicate Says(q: Request, agent: string, fields: seq<Field>) {
    var fixed := if q.payload == "" then 3 else 4;
    && |fields| == fixed + |q.headers|
    && HostSays(q, fields[0])
    && AgentSays(agent, fields[1])
    && fields[2] == Field("Connection", "close")
    && (q.payload != "" ==> LengthSays(|q.payload|, fields[3]))
    && forall i :: 0 <= i < |q.headers| ==> fields[fixed + i] == Field(q.headers[i].name, q.headers[i].value)
  }

  /** The whole request, as it should reach a server. */
  predicate Understood(q: Request, agent: string, r: Received) {
    && r.words == [q.verb, if q.target.uri != "" then q.target.uri else "/", "HTTP/1.1"]
    && Says(q, agent, r.fields)
    && r.payload == q.payload
  }

  predicate FixedSays(q: Request, agent: string, fixed: seq<string>) {
    && |fixed| == (if q.payload == "" then 4 else 5)
    && HostSays(q, FieldOf(fixed[1])) && AgentSays(agent, FieldOf(fixed[2]))
    && FieldOf(fixed[3]) == Field("Connection", "close")
    && (q.payload != "" ==> LengthSays(|q.payload|, FieldOf(fixed[4])))
  }

  lemma HostField(v: string)
    requires Trimmed(v)
    ensures FieldOf("Host: " + v) == Field("Host", v)
  {
    assert "Host: " + v == "Host" + ": " + v;
    FieldIsRead("Host", v);
  }

  lemma AgentField(v: string)
    requires Trimmed(v)
    ensures FieldOf("User-Agent: " + v) == Field("User-Agent", v)
  {
    assert "User-Agent: " + v == "User-Agent" + ": " + v;
    FieldIsRead("User-Agent", v);
  }

  lemma CloseField()
    ensures FieldOf(CLOSE) == Field("Connection", "close")
  {
    assert CLOSE == "Connection" + ": " + "close";
    FieldIsRead("Connection", "close");
  }

  lemma LengthField(v: string)
    requires Trimmed(v)
    ensures FieldOf("Content-Length: " + v) == Field("Content-Length", v)
  {
    assert "Content-Length: " + v == "Content-Length" + ": " + v;
    FieldIsRead("Content-Length", v);
  }

  lemma HostLineIs(u: Url)
    ensures HostLine(u) == "Host: " + (u.host + PortPart(u.https, u.port))
  {
  }

  lemma HostIsRead(q: Request, agent: string)
    requires Plain(q, agent)
    ensures HostSays(q, FieldOf(HostLine(q.target)))
  {
    var authority := q.target.host + PortPart(q.target.https, q.target.port);
    HostIsTrimmed(q.target.host, q.target.https, q.target.port);
    AuthorityIsSplit(q.target.https, q.target.host, q.target.port);
    HostLineIs(q.target);
    HostField(authority);
  }

  lemma AgentIsRead(agent: string)
    requires Trimmed(agent)
    ensures AgentSays(agent, FieldOf(AgentLine(agent)))
  {
    AgentField(if agent != "" then agent else AGENT);
  }

  lemma LengthIsRead(n: nat)
    ensures LengthSays(n, FieldOf(LengthLine(n)))
  {
    DigitsAreTrimmed(n);
    PrintedValue(n, 10);
    LengthField(Digits(n, 10));
  }

  lemma FixedIsRead(q: Request, agent: string, fixed: seq<string>)
    requires Plain(q, agent) && |fixed| == (if q.payload == "" then 4 else 5)
    requires fixed[1] == HostLine(q.target) && fixed[2] == AgentLine(agent) && fixed[3] == CLOSE
    requires q.payload != "" ==> fixed[4] == LengthLine(|q.payload|)
    ensures FixedSays(q, agent, fixed)
  {
    HostIsRead(q, agent);
    AgentIsRead(agent);
    CloseField();
    if q.payload != "" {
      LengthIsRead(|q.payload|);
    }
  }

  lemma LinesSay(q: Request, agent: string, fixed: seq<string>, added: seq<string>)
    requires Plain(q, agent) && FixedSays(q, agent, fixed) && added == HeaderLines(q.headers)
    ensures Says(q, agent, FieldsOf((fixed + added)[1..]))
  {
    var fields := FieldsOf((fixed + added)[1..]);
    forall k | 1 <= k < |fixed| ensures fields[k - 1] == FieldOf(fixed[k]) {
      assert (fixed + added)[1..][k - 1] == fixed[k];
    }
    forall i | 0 <= i < |q.headers|
      ensures fields[|fixed| - 1 + i] == Field(q.headers[i].name, q.headers[i].value)
    {
      assert (fixed + added)[1..][|fixed| - 1 + i] == added[i];
      assert q.headers[i] in q.headers;
      FieldIsRead(q.headers[i].name, q.headers[i].value);
    }
  }

  lemma FirstLineIs(verb: string, uri: string)
    requires ' ' !in verb && ' ' !in uri
    ensures Words(RequestLine(verb, uri)) == [verb, if uri != "" then uri else "/", "HTTP/1.1"]
  {
    var path, version := if uri != "" then uri else "/", "HTTP/1.1";
    assert RequestLine(verb, uri) == verb + [' '] + (path + [' '] + version);
    ThreeWords(verb, path, version);
  }

  lemma PayloadFollows(lines: seq<string>, payload: string)
    ensures HeadText(lines, "") + payload == HeadText(lines, payload)
  {
    TerminatedInFront(lines, CRLF);
    TerminatedInFront(lines, CRLF + payload);
    assert CRLF + "" == CRLF;
    assert Terminated(lines, "") + CRLF + payload == Terminated(lines, "") + (CRLF + payload);
  }

  lemma LinesAreUnderstood(q: Request, agent: string, fixed: seq<string>, added: seq<string>)
    requires Plain(q, agent) && FixedSays(q, agent, fixed) && added == HeaderLines(q.headers)
    requires Words(fixed[0]) == [q.verb, if q.target.uri != "" then q.target.uri else "/", "HTTP/1.1"]
    requires ReadLines(HeadText(fixed + added, q.payload)) == (fixed + added, q.payload)
    ensures Understood(q, agent, Receive(HeadText(fixed + added, q.payload)))
  {
    LinesSay(q, agent, fixed, added);
  }

  /** The request and its payload on the wire: a server that splits the first line at
      its spaces gets exactly the verb, the uri and the version; one that splits the
      others at their first colon gets the host and the port, the agent, the wish to
      close, the length of the payload exactly when there is one, and the added headers
      in their order; what follows the empty line is the payload. */
  method SendRequest(q: Request, agent: string) returns (wire: string)
    requires Plain(q, agent)
    ensures Understood(q, agent, Receive(wire))
  {
    wire := BuildRequest(q, agent);
    PayloadFollows(RequestLines(q, agent), q.payload);
    if |q.payload| > 0 {
      wire := wire + q.payload;
    } else {
      assert wire + q.payload == wire;
    }
    RequestIsRead(q, agent);
    FixedAre(q, agent);
    FixedIsRead(q, agent, FixedLines(q, agent));
    FirstLineIs(q.verb, q.target.uri);
    LinesAreUnderstood(q, agent, FixedLines(q, agent), HeaderLines(q.headers));
  }

  // ---- The head of the response -------------------------------------------

  /** Names are compared in any case of their letters. */
  lemma SameNameIffLower(a: string, b: string)
    ensures SameName(a, b) <==> Lower(a) == Lower(b)
  {
    forall i | 0 <= i < |a| && i < |b| ensures Lower(a)[i] == LowerChar(a[i]) && Lower(b)[i] == LowerChar(b[i]) {
      LowerAt(a, i);
      LowerAt(b, i);
    }
  }

  /** trim drops exactly the white space at both ends. */
  lemma TrimIs(pre: string, v: string, post: string)
    requires v != "" && Trimmed(v)
    requires (forall i :: 0 <= i < |pre| ==> IsSpace(pre[i])) && forall i :: 0 <= i < |post| ==> IsSpace(post[i])
    ensures Trim(pre + v + post) == v
  {
    var s := pre + v + post;
    assert s[|pre|] == v[0];
    FirstNonSpace(s, |pre|);
    assert s[|pre|..] == v + post;
    TrailingSpaces(v, post);
  }

  lemma {:induction false} TrailingSpaces(v: string, post: string)
    requires v != "" && !IsSpace(v[|v| - 1])
    requires forall i :: 0 <= i < |post| ==> IsSpace(post[i])
    ensures SkipSpacesBack(v + post) == v
    decreases |post|
  {
    if post == "" {
      assert v + post == v;
    } else {
      var n := |post| - 1;
      assert (v + post)[..|v + post| - 1] == v + post[..n];
      TrailingSpaces(v, post[..n]);
    }
  }

  lemma {:induction false} LastOneCounts(pre: seq<Header>, f: Header, post: seq<Header>, name: string)
    requires Lower(f.name) == Lower(name) && forall h :: h in post ==> Lower(h.name) != Lower(name)
    ensures LastValue(pre + [f] + post, name) == Some(f.value)
    decreases |post|
  {
    var hs := pre + [f] + post;
    if post == [] {
      assert hs == pre + [f];
      SameNameIffLower(f.name, name);
    } else {
      var n := |post| - 1;
      assert hs[..|hs| - 1] == pre + [f] + post[..n] && hs[|hs| - 1] == post[n];
      SameNameIffLower(post[n].name, name);
      LastOneCounts(pre, f, post[..n], name);
    }
  }

  lemma {:induction false} NoneCounts(hs: seq<Header>, name: string)
    requires forall h :: h in hs ==> Lower(h.name) != Lower(name)
    ensures LastValue(hs, name) == None
    decreases |hs|
  {
    if hs != [] {
      var n := |hs| - 1;
      SameNameIffLower(hs[n].name, name);
      NoneCounts(hs[..n], name);
    }
  }

  ghost predicate SaysChunked(h: Header) {
    Lower(h.name) == Lower("Transfer-Encoding") && exists k: nat :: OccursAt(Lower(h.value), "chunked", k)
  }

  lemma AsksIffSays(h: Header)
    ensures AsksChunked(h) <==> SaysChunked(h)
  {
    SameNameIffLower(h.name, "Transfer-Encoding");
    FindStringIsFirst(Lower(h.value), "chunked");
  }

  lemma {:induction false} AnyIffSome(hs: seq<Header>)
    ensures AnyChunked(hs) <==> exists i :: 0 <= i < |hs| && AsksChunked(hs[i])
    decreases |hs|
  {
    if hs != [] {
      var n := |hs| - 1;
      AnyIffSome(hs[..n]);
      if i :| 0 <= i < |hs[..n]| && AsksChunked(hs[..n][i]) {
        assert AsksChunked(hs[i]);
      }
      if i :| 0 <= i < |hs| && AsksChunked(hs[i]) {
        assert i == n || AsksChunked(hs[..n][i]);
      }
    }
  }

  /** What was last said counts, by whatever case of its name. */
  lemma LastSaid(pre: seq<Header>, f: Header, post: seq<Header>)
    requires forall h :: h in post ==> Lower(h.name) != Lower(f.name)
    ensures Lower(f.name) == Lower("Content-Length") ==> Declared(pre + [f] + post).contentLength == ToInt(f.value)
    ensures Lower(f.name) == Lower("Location") ==> Declared(pre + [f] + post).location == f.value
  {
    if Lower(f.name) == Lower("Content-Length") {
      LastOneCounts(pre, f, post, "Content-Length");
    }
    if Lower(f.name) == Lower("Location") {
      LastOneCounts(pre, f, post, "Location");
    }
  }

  /** No header of that name among them. */
  predicate Without(hs: seq<Header>, name: string) { forall h :: h in hs ==> Lower(h.name) != Lower(name) }

  /** Silence is -1 and "". */
  lemma NotSaid(hs: seq<Header>)
    ensures Without(hs, "Content-Length") ==> Declared(hs).contentLength == -1
    ensures Without(hs, "Location") ==> Declared(hs).location == ""
  {
    if Without(hs, "Content-Length") {
      NoneCounts(hs, "Content-Length");
    }
    if Without(hs, "Location") {
      NoneCounts(hs, "Location");
    }
  }

  /** One mention of chunks is enough, and needed. */
  lemma ChunkedIffSaid(hs: seq<Header>)
    ensures Declared(hs).chunked <==> exists i :: 0 <= i < |hs| && SaysChunked(hs[i])
  {
    AnyIffSome(hs);
    forall i | 0 <= i < |hs| ensures AsksChunked(hs[i]) <==> SaysChunked(hs[i]) {
      AsksIffSays(hs[i]);
    }
  }

  /** A line without a colon among the headers is passed over. */
  lemma NoiseIsPassedOver(h: Head, line: string)
    requires ':' !in line
    ensures Absorb(h, line) == h
  {
  }

  /** A reason phrase may be missing. */
  lemma StatusWithoutReason(version: string, code: nat)
    requires ' ' !in version && 0 < code < 0x8000_0000
    ensures StatusOf("HTTP/" + version + " " + Digits(code, 10)) == code
  {
    var digits := Digits(code, 10);
    var line := "HTTP/" + version + " " + digits;
    DigitsHaveNoSpace(code);
    assert line == ("HTTP/" + version) + [' '] + digits;
    FindAfter("HTTP/" + version, ' ', digits);
    assert line[|"HTTP/" + version| + 1..] == digits;
    ParsedPositiveDecimal(code, "");
    assert digits + "" == digits;
    NarrowIsExact(code);
  }

  /** Anything else is no HTTP server, -7: a line that does not begin with "HTTP/",
      one without a space, and one whose code is not positive. The rest of the wire
      is left alone. */
  lemma NoServer(line: string, rest: string)
    requires OneLine(line)
    requires line[..if |line| < 5 then |line| else 5] != "HTTP/" || ' ' !in line
    ensures ReadHead(line + CRLF + rest) == (-7, Head(-1, false, ""), rest)
  {
    LineOf(line, rest);
    if "HTTP/" <= line {
      assert line[..5] == "HTTP/";
    }
  }

  /** So is one whose code is not positive. */
  lemma NoCode(version: string, word: string, tail: string)
    requires ' ' !in version && ' ' !in word && -0x8000_0000 <= ToInt(word) <= 0
    ensures StatusOf("HTTP/" + version + " " + word + " " + tail) == -7
  {
    StatusParts(version, word, tail);
    var line := "HTTP/" + version + " " + word + " " + tail;
    assert StatusOf(line) == CodeIn(word);
    NarrowIsExact(ToInt(word));
  }

  /** Without a length and without chunks the body is all there is until the close. */
  method ReceiveToClose(version: string, code: nat, reason: string, hs: seq<Header>, text: string)
    returns (status: int, body: string, left: string)
    requires GoodStatus(version, code, reason) && forall i :: 0 <= i < |hs| ==> GoodHeader(hs[i])
    requires Declared(hs).contentLength < 0 && !AnyChunked(hs) && NulFree(text)
    ensures status == code && body == text && left == ""
  {
    HeadRoundTrip(version, code, reason, hs, text);
    var client := new Client(HeadText([StatusLine(version, code, reason)] + HeaderLines(hs), text));
    var reply := new Reply(client);
    status := reply.ReadResponseHead();
    assert text[..|text|] == text;
    body := reply.GetString();
    left := client.unread;
  }
}
