/** HTTPClient::sendRequest: the redirect loop with its uint16 hop counter, for
    every sequence of server responses. */
module HttpRedirect {
  import opened Common
  import opened HttpUrl

  const NOT_CONNECTED: int := -4
  const CONNECTION_REFUSED: int := -1
  const CONNECTION_LOST: int := -5

  datatype Follow = Disabled | Strict | Force

  datatype Header = Header(name: string, value: string)

  /** What one exchange yields: a status or a negative error, and the Location
      header ("" when there is none). */
  datatype Response = Response(code: int, location: string)

  datatype Request = Request(verb: string, payload: string, headers: seq<Header>, target: Url)

  predicate IsRedirect(code: int) { code == 301 || code == 302 || code == 303 || code == 307 || code == 308 }

  predicate ShouldFollow(mode: Follow, verb: string) {
    match mode
    case Disabled => false
    case Strict => verb == "GET" || verb == "HEAD"
    case Force => true
  }

  predicate BecomesGet(mode: Follow, code: int, verb: string) {
    mode.Force? && (code == 301 || code == 302 || code == 303) && verb != "GET" && verb != "HEAD"
  }

  /** The n-th answer; a server that has no more to say closes the connection. */
  function Answer(server: seq<Response>, n: nat): Response {
    if n < |server| then server[n] else Response(CONNECTION_LOST, "")
  }

  /** What stays fixed over one call; `connect` takes the current URL and a
      Location to the URL connected to next, None when that cannot be done. */
  datatype Setup = Setup(mode: Follow, limit: nat, owned: bool, connect: (Url, string) -> Option<Url>)

  /** Resolving, parsing and connecting in a build with or without TLS. */
  function Connect(tls: bool): (Url, string) -> Option<Url> {
    (base: Url, location: string) =>
      var (parsed, u) := Parse(Resolve(base, location));
      if !parsed || (u.https && !tls) then None else Some(u)
  }

  class HttpClient {
    const tls: bool
    const setup: Setup
    var connected: bool            // client_ is not null
    var url: Url                   // use_https_, host_, port_, uri_
    var headers: seq<Header>
    var location: string
    const server: seq<Response>    // the answers, in order
    var sent: seq<Request>

    constructor (mode: Follow, limit: nat, owned: bool, tls: bool, url: Url, headers: seq<Header>, server: seq<Response>)
      ensures this.setup == Setup(mode, limit, owned, Connect(tls)) && this.tls == tls && this.url == url && this.headers == headers && this.server == server
      ensures connected && sent == []
    {
      this.setup, this.tls := Setup(mode, limit, owned, Connect(tls)), tls;
      this.url, this.headers, this.server := url, headers, server;
      connected, location, sent := true, "", [];
    }

    /** Clears the added headers, whatever the URL turns out to be. */
    method Begin(to: string) returns (ok: bool)
      modifies this`connected, this`url, this`headers, this`location
      ensures ok <==> Parse(to).0 && (Parse(to).1.https ==> tls)
      ensures url == Parse(to).1 && headers == [] && location == "" && connected == ok
    {
      connected, headers, location := false, [], "";
      var (parsed, u) := Parse(to);
      url := u;
      if !parsed {
        return false;
      }
      if u.https && !tls {
        return false;
      }
      connected := true;
      return true;
    }

    method SendOnce(verb: string, payload: string) returns (code: int)
      modifies this`sent, this`location
      ensures sent == old(sent) + [Request(verb, payload, headers, url)]
      ensures code == Answer(server, |old(sent)|).code && location == Answer(server, |old(sent)|).location
    {
      var r := Answer(server, |sent|);
      sent := sent + [Request(verb, payload, headers, url)];
      location := r.location;
      code := r.code;
    }

    ghost predicate Valid() { setup.connect == Connect(tls) }

    /** The body of the loop: one exchange and, when it is to be followed, the
        connection for the next. */
    method OneHop(verb: string, payload: string, hop: nat)
      returns (code: int, again: bool, nextVerb: string, nextPayload: string)
      requires Valid() && hop <= setup.limit
      modifies this`connected, this`url, this`headers, this`location, this`sent
      ensures var q := Request(verb, payload, old(headers), old(url));
              var r := Answer(server, |old(sent)|);
              && sent == old(sent) + [q]
              && (again <==> !Stops(setup, hop, verb, r) && NextRequest(setup, q, r).Some?)
              && (again ==> NextRequest(setup, q, r) == Some(Request(nextVerb, nextPayload, headers, url)))
              && (!again ==> code == if Stops(setup, hop, verb, r) then r.code else CONNECTION_REFUSED)
    {
      nextVerb, nextPayload, again := verb, payload, false;
      code := SendOnce(verb, payload);
      if code < 0 || !IsRedirect(code) || !ShouldFollow(setup.mode, verb) {
        return;
      }
      if location == "" || !setup.owned || hop == setup.limit {
        return;
      }
      if BecomesGet(setup.mode, code, verb) {
        nextVerb, nextPayload := "GET", "";
      }
      var resolved := Resolve(url, location);
      ResolvedIsNotEmpty(url, location);
      if resolved == "" {
        return;
      }
      again := Begin(resolved);
      if !again {
        code := CONNECTION_REFUSED;
      }
    }

    method SendRequest(verb: string, payload: string) returns (code: int)
      requires Valid() && setup.limit < 0x1_0000
      modifies this`connected, this`url, this`headers, this`location, this`sent
      ensures !old(connected) ==> code == -4 && sent == old(sent)
      ensures old(connected) ==>
                (sent, code) == Chain(setup, server, old(sent), 0, Request(verb, payload, old(headers), old(url)))
    {
      if !connected {
        return NOT_CONNECTED;
      }
      var currentVerb, currentPayload := verb, payload;
      code := CONNECTION_LOST;
      var hop := 0;
      ghost var goal := Chain(setup, server, sent, 0, Request(verb, payload, headers, url));
      while hop <= setup.limit
        invariant hop <= setup.limit
        invariant Chain(setup, server, sent, hop, Request(currentVerb, currentPayload, headers, url)) == goal
        decreases setup.limit - hop
      {
        ghost var before, q := sent, Request(currentVerb, currentPayload, headers, url);
        ChainUnfold(setup, server, before, hop, q);
        var again;
        code, again, currentVerb, currentPayload := OneHop(currentVerb, currentPayload, hop);
        if !again {
          return;
        }
        hop := if hop == 0xFFFF then 0 else hop + 1;   // uint16_t
      }
    }
  }

  // ---- The chain of requests as one function ------------------------------

  predicate Stops(setup: Setup, hop: nat, verb: string, r: Response) {
    || r.code < 0 || !IsRedirect(r.code) || !ShouldFollow(setup.mode, verb)
    || r.location == "" || !setup.owned || hop == setup.limit
  }

  /** The request after `q` was answered `r`, None when no connection is made. */
  function NextRequest(setup: Setup, q: Request, r: Response): Option<Request> {
    match setup.connect(q.target, r.location)
    case None => None
    case Some(u) =>
      if BecomesGet(setup.mode, r.code, q.verb) then Some(Request("GET", "", [], u))
      else Some(Request(q.verb, q.payload, [], u))
  }

  /** Everything sent once `q` and what follows from it has been, and the code. */
  function Chain(setup: Setup, server: seq<Response>, sent: seq<Request>, hop: nat, q: Request): (seq<Request>, int)
    requires hop <= setup.limit
    decreases setup.limit - hop
  {
    var r := Answer(server, |sent|);
    if Stops(setup, hop, q.verb, r) then (sent + [q], r.code)
    else match NextRequest(setup, q, r)
      case None => (sent + [q], CONNECTION_REFUSED)
      case Some(next) => Chain(setup, server, sent + [q], hop + 1, next)
  }

  lemma ChainUnfold(setup: Setup, server: seq<Response>, sent: seq<Request>, hop: nat, q: Request)
    requires hop <= setup.limit
    ensures var r := Answer(server, |sent|);
            Chain(setup, server, sent, hop, q) ==
              if Stops(setup, hop, q.verb, r) then (sent + [q], r.code)
              else match NextRequest(setup, q, r)
                case None => (sent + [q], CONNECTION_REFUSED)
                case Some(next) => Chain(setup, server, sent + [q], hop + 1, next)
  {
  }

  lemma ResolvedIsNotEmpty(base: Url, loc: string)
    requires loc != ""
    ensures Resolve(base, loc) != ""
  {
  }

  lemma {:induction false} ChainKeepsPrefix(setup: Setup, server: seq<Response>, sent: seq<Request>, hop: nat, q: Request)
    requires hop <= setup.limit
    ensures sent + [q] <= Chain(setup, server, sent, hop, q).0
    ensures |Chain(setup, server, sent, hop, q).0| <= |sent| + 1 + setup.limit - hop
    decreases setup.limit - hop
  {
    var r := Answer(server, |sent|);
    if !Stops(setup, hop, q.verb, r) && NextRequest(setup, q, r).Some? {
      ChainKeepsPrefix(setup, server, sent + [q], hop + 1, NextRequest(setup, q, r).value);
    }
  }

  /** At least one and at most limit + 1 requests, for every limit up to 65535,
      at which hop <= limit never fails, and every server. */
  lemma AtMostLimitPlusOne(setup: Setup, server: seq<Response>, q: Request)
    ensures 1 <= |Chain(setup, server, [], 0, q).0| <= setup.limit + 1
  {
    ChainKeepsPrefix(setup, server, [], 0, q);
  }

  /** The chain from the i-th request on: it is the one the call started with
      when i is 0, and what the i-th answer made of it otherwise. */
  lemma {:induction false} ChainLinks(setup: Setup, server: seq<Response>, sent: seq<Request>, hop: nat, q: Request, i: nat)
    requires hop <= setup.limit
    requires |sent| <= i && i + 1 < |Chain(setup, server, sent, hop, q).0|
    ensures var all := Chain(setup, server, sent, hop, q).0;
            && !Stops(setup, hop + i - |sent|, all[i].verb, Answer(server, i))
            && NextRequest(setup, all[i], Answer(server, i)) == Some(all[i + 1])
    decreases setup.limit - hop
  {
    var all := Chain(setup, server, sent, hop, q).0;
    ChainKeepsPrefix(setup, server, sent, hop, q);
    assert all[|sent|] == (sent + [q])[|sent|];
    var next := NextRequest(setup, q, Answer(server, |sent|)).value;
    ChainKeepsPrefix(setup, server, sent + [q], hop + 1, next);
    if i == |sent| {
      assert all[i + 1] == (sent + [q] + [next])[i + 1];
    } else {
      ChainLinks(setup, server, sent + [q], hop + 1, next, i);
    }
  }

  /** Each request to the next: only the redirect statuses with a Location are
      followed; the verb and with it the payload change only to a GET without
      one, never in STRICT mode and never for 307 and 308; what was added to the
      first request's headers is gone. */
  predicate Linked(setup: Setup, a: Request, r: Response, b: Request) {
    && IsRedirect(r.code) && r.location != "" && !setup.mode.Disabled? && setup.owned
    && b.headers == []
    && setup.connect(a.target, r.location) == Some(b.target)
    && (if BecomesGet(setup.mode, r.code, a.verb) then b.verb == "GET" && b.payload == ""
        else b.verb == a.verb && b.payload == a.payload)
  }

  lemma EachLink(setup: Setup, server: seq<Response>, q: Request, i: nat)
    requires i + 1 < |Chain(setup, server, [], 0, q).0|
    ensures var all := Chain(setup, server, [], 0, q).0; Linked(setup, all[i], Answer(server, i), all[i + 1])
  {
    ChainLinks(setup, server, [], 0, q, i);
  }

  /** Where each follow-up goes: a relative Location stays on the same server. */
  lemma LinkTarget(setup: Setup, tls: bool, a: Request, r: Response, b: Request)
    requires setup.connect == Connect(tls) && Linked(setup, a, r, b) && Canonical(a.target)
    ensures Canonical(b.target)
    ensures FindString(r.location, "://") <= 0 ==> b.target == a.target.(uri := Target(a.target, r.location))
  {
    ParsedIsCanonical(Resolve(a.target, r.location));
    if FindString(r.location, "://") <= 0 {
      RelativeResolves(a.target, r.location);
    }
  }

  /** How many leading requests carry the original verb. */
  function Kept(all: seq<Request>, verb: string): (k: nat)
    ensures k <= |all| && forall j :: 0 <= j < k ==> all[j].verb == verb
    ensures k < |all| ==> all[k].verb != verb
  {
    if all == [] || all[0].verb != verb then 0 else
      var k := Kept(all[1..], verb);
      assert forall j :: 0 < j < k + 1 ==> all[j] == all[1..][j - 1];
      k + 1
  }

  predicate AllLinked(setup: Setup, server: seq<Response>, all: seq<Request>) {
    forall i: nat :: i + 1 < |all| ==> Linked(setup, all[i], Answer(server, i), all[i + 1])
  }

  lemma {:induction false} VerbsUpTo(setup: Setup, server: seq<Response>, all: seq<Request>, i: nat)
    requires AllLinked(setup, server, all) && i < |all|
    ensures var k := Kept(all, all[0].verb);
            if i < k then all[i].verb == all[0].verb && all[i].payload == all[0].payload
            else all[i].verb == "GET" && all[i].payload == ""
  {
    if i > 0 {
      VerbsUpTo(setup, server, all, i - 1);
      assert Linked(setup, all[i - 1], Answer(server, i - 1), all[i - 1 + 1]);
    }
  }

  /** The verbs sent are the original one repeated and then GETs, the payload
      going with the original verb and dropped with it; only the first request
      carries added headers. */
  lemma VerbsAndPayloads(setup: Setup, server: seq<Response>, q: Request)
    ensures var all := Chain(setup, server, [], 0, q).0;
            var k := Kept(all, q.verb);
            && k >= 1 && all[0] == q
            && (forall i :: 0 <= i < k ==> all[i].verb == q.verb && all[i].payload == q.payload)
            && (forall i :: k <= i < |all| ==> all[i].verb == "GET" && all[i].payload == "")
            && (forall i :: 1 <= i < |all| ==> all[i].headers == [])
            && (setup.mode.Strict? || q.verb == "GET" || q.verb == "HEAD" ==> k == |all|)
  {
    var all := Chain(setup, server, [], 0, q).0;
    ChainKeepsPrefix(setup, server, [], 0, q);
    assert all[0] == ([] + [q])[0];
    forall i: nat | i + 1 < |all| ensures Linked(setup, all[i], Answer(server, i), all[i + 1]) {
      EachLink(setup, server, q, i);
    }
    LinkedVerbs(setup, server, all);
  }

  lemma LinkedVerbs(setup: Setup, server: seq<Response>, all: seq<Request>)
    requires AllLinked(setup, server, all) && all != []
    ensures var k := Kept(all, all[0].verb);
            && (forall i :: 0 <= i < k ==> all[i].verb == all[0].verb && all[i].payload == all[0].payload)
            && (forall i :: k <= i < |all| ==> all[i].verb == "GET" && all[i].payload == "")
            && (forall i :: 1 <= i < |all| ==> all[i].headers == [])
            && (setup.mode.Strict? || all[0].verb == "GET" || all[0].verb == "HEAD" ==> k == |all|)
  {
    var k := Kept(all, all[0].verb);
    forall i: nat | i < |all|
      ensures i < k ==> all[i].verb == all[0].verb && all[i].payload == all[0].payload
      ensures i >= k ==> all[i].verb == "GET" && all[i].payload == ""
      ensures i >= 1 ==> all[i].headers == []
    {
      VerbsUpTo(setup, server, all, i);
      assert i >= 1 ==> Linked(setup, all[i - 1], Answer(server, i - 1), all[i - 1 + 1]);
    }
    assert 1 <= k < |all| ==> Linked(setup, all[k - 1], Answer(server, k - 1), all[k - 1 + 1]);
  }

  // ---- When a redirect is followed, and what it does to the request -------

  /** A redirect with somewhere to go, in a mode that admits the verb, of a client of
      the object's own. */
  predicate ToBeFollowed(setup: Setup, verb: string, r: Response) {
    && (r.code == 301 || r.code == 302 || r.code == 303 || r.code == 307 || r.code == 308)
    && r.location != "" && setup.owned
    && (setup.mode == Force || (setup.mode == Strict && (verb == "GET" || verb == "HEAD")))
  }

  lemma {:induction false} ChainGoesOn(setup: Setup, server: seq<Response>, sent: seq<Request>, hop: nat, q: Request, i: nat)
    requires hop <= setup.limit
    requires |sent| <= i < |Chain(setup, server, sent, hop, q).0|
    ensures var all := Chain(setup, server, sent, hop, q).0;
            i + 1 < |all| <==>
              && ToBeFollowed(setup, all[i].verb, Answer(server, i)) && hop + i - |sent| < setup.limit
              && setup.connect(all[i].target, Answer(server, i).location).Some?
    ensures var (all, code) := Chain(setup, server, sent, hop, q);
            i + 1 == |all| ==>
              code == if ToBeFollowed(setup, all[i].verb, Answer(server, i)) && hop + i - |sent| < setup.limit
                      then -1 else Answer(server, i).code
    decreases setup.limit - hop
  {
    var all := Chain(setup, server, sent, hop, q).0;
    var r := Answer(server, |sent|);
    ChainKeepsPrefix(setup, server, sent, hop, q);
    assert all[|sent|] == (sent + [q])[|sent|];
    if !Stops(setup, hop, q.verb, r) && NextRequest(setup, q, r).Some? {
      var next := NextRequest(setup, q, r).value;
      ChainKeepsPrefix(setup, server, sent + [q], hop + 1, next);
      if i > |sent| {
        ChainGoesOn(setup, server, sent + [q], hop + 1, next, i);
      }
    }
  }

  /** The i-th answer is followed exactly when it is a 301, 302, 303, 307 or 308 with a
      Location, the mode admits the verb, the client is the object's own, the limit is
      not reached and the connection can be made. */
  lemma FollowedIff(setup: Setup, server: seq<Response>, q: Request, i: nat)
    requires i < |Chain(setup, server, [], 0, q).0|
    ensures var all := Chain(setup, server, [], 0, q).0;
            var r := Answer(server, i);
            i + 1 < |all| <==>
              && (r.code == 301 || r.code == 302 || r.code == 303 || r.code == 307 || r.code == 308)
              && r.location != "" && setup.owned && i < setup.limit
              && (setup.mode == Force || (setup.mode == Strict && (all[i].verb == "GET" || all[i].verb == "HEAD")))
              && setup.connect(all[i].target, r.location).Some?
  {
    ChainGoesOn(setup, server, [], 0, q, i);
  }

  /** What the follow-up is: a 307 or 308 keeps verb and payload; a 301, 302 or 303
      keeps them too, but in FORCE mode after a verb other than GET and HEAD it makes a
      GET without a payload. It goes where the Location leads, without added headers. */
  lemma FollowUpIs(setup: Setup, server: seq<Response>, q: Request, i: nat)
    requires i + 1 < |Chain(setup, server, [], 0, q).0|
    ensures var all := Chain(setup, server, [], 0, q).0;
            var (r, a, b) := (Answer(server, i), all[i], all[i + 1]);
            && (r.code == 307 || r.code == 308 ==> b.verb == a.verb && b.payload == a.payload)
            && (r.code == 301 || r.code == 302 || r.code == 303 ==>
                  setup.mode == Force && a.verb != "GET" && a.verb != "HEAD" ==> b.verb == "GET" && b.payload == "")
            && (setup.mode == Strict || a.verb == "GET" || a.verb == "HEAD" ==>
                  b.verb == a.verb && b.payload == a.payload)
            && b.headers == [] && setup.connect(a.target, r.location) == Some(b.target)
  {
    ChainLinks(setup, server, [], 0, q, i);
    FollowedIff(setup, server, q, i);
  }

  /** The code returned: the last answer's, unless that one was to be followed below the
      limit and no connection could be made, which is HTTPC_ERROR_CONNECTION_REFUSED. */
  lemma LastCode(setup: Setup, server: seq<Response>, q: Request)
    ensures var (all, code) := Chain(setup, server, [], 0, q);
            var last := |all| - 1;
            && |all| > 0
            && code == if ToBeFollowed(setup, all[last].verb, Answer(server, last)) && last < setup.limit
                       then -1 else Answer(server, last).code
  {
    ChainKeepsPrefix(setup, server, [], 0, q);
    ChainGoesOn(setup, server, [], 0, q, |Chain(setup, server, [], 0, q).0| - 1);
  }

  /** Where an absolute Location leads is connected to, unless it is https and there is
      no TLS. */
  lemma AbsoluteTarget(tls: bool, base: Url, u: Url)
    requires Canonical(u)
    ensures Connect(tls)(base, Build(u)) == if u.https && !tls then None else Some(u)
  {
    AbsoluteResolves(base, u);
  }
}
