/** HTTPClient's URL builder, parser and reference resolver. */
module HttpUrl {
  import opened Common
  import opened Numbers

  datatype Url = Url(https: bool, host: string, port: nat, uri: string)

  // ---- String::indexOf, lastIndexOf and the like --------------------------

  /** First index of c, -1 when there is none. */
  function Find(s: string, c: char): (i: int)
    ensures -1 <= i < |s|
    ensures i < 0 <==> c !in s
    ensures i >= 0 ==> s[i] == c && c !in s[..i]
  {
    if s == [] then -1
    else if s[0] == c then 0
    else
      var i := Find(s[1..], c);
      assert s == [s[0]] + s[1..];
      assert i >= 0 ==> s[..i + 1] == [s[0]] + s[1..][..i];
      if i < 0 then -1 else i + 1
  }

  /** First index at which the (non-empty) pattern occurs, -1 if nowhere. */
  function FindString(s: string, p: string): (i: int)
    requires p != []
    ensures -1 <= i && (i >= 0 ==> i + |p| <= |s|)
  {
    if |s| < |p| then -1
    else if s[..|p|] == p then 0
    else
      var i := FindString(s[1..], p);
      if i < 0 then -1 else i + 1
  }

  /** Last index of c, -1 when there is none. */
  function FindLast(s: string, c: char): (i: int)
    ensures -1 <= i < |s|
    ensures i < 0 <==> c !in s
    ensures i >= 0 ==> s[i] == c && c !in s[i + 1..]
  {
    if s == [] then -1
    else if s[|s| - 1] == c then |s| - 1
    else
      assert s == s[..|s| - 1] + [s[|s| - 1]];
      var i := FindLast(s[..|s| - 1], c);
      assert i >= 0 ==> s[i + 1..] == s[..|s| - 1][i + 1..] + [s[|s| - 1]];
      i
  }

  function LowerChar(c: char): char { if 'A' <= c <= 'Z' then (c as int + 32) as char else c }

  function Lower(s: string): (r: string)
    ensures |r| == |s|
  {
    if s == [] then [] else [LowerChar(s[0])] + Lower(s[1..])
  }

  // ---- The three operations -----------------------------------------------

  function Scheme(https: bool): string { if https then "https://" else "http://" }

  /** The port is left out when it is the scheme's own. */
  function PortPart(https: bool, port: nat): string {
    if (https && port != 443) || (!https && port != 80) then ":" + Digits(port, 10) else ""
  }

  function Origin(https: bool, host: string, port: nat): string {
    Scheme(https) + (host + PortPart(https, port))
  }

  /** What begin(host, port, uri, https) parses. */
  function Build(u: Url): string { Origin(u.https, u.host, u.port) + u.uri }

  const BLANK: Url := Url(false, "", 80, "")

  function SplitAuthority(https: bool, authority: string): (string, nat) {
    var colon := Find(authority, ':');
    if colon >= 0 then (authority[..colon], ToInt(authority[colon + 1..]) % 0x1_0000)
    else (authority, if https then 443 else 80)
  }

  function SplitRest(https: bool, rest: string): Url {
    var slash := Find(rest, '/');
    var authority := if slash < 0 then rest else rest[..slash];
    var uri := if slash < 0 then "/" else rest[slash..];
    var (host, port) := SplitAuthority(https, authority);
    Url(https, host, port, uri)
  }

  /** Success, and the fields parseURL leaves behind in either case. */
  function Parse(url: string): (bool, Url) {
    var end := FindString(url, "://");
    if end < 0 then (false, BLANK)
    else
      var scheme := Lower(url[..end]);
      if scheme != "https" && scheme != "http" then (false, BLANK)
      else
        var u := SplitRest(scheme == "https", url[end + 3..]);
        (u.host != "", u)
  }

  function Directory(uri: string): string {
    var slash := FindLast(uri, '/');
    if slash >= 0 then uri[..slash + 1] else "/"
  }

  function Resolve(base: Url, loc: string): string {
    if loc == "" then ""
    else if FindString(loc, "://") > 0 then loc
    else if loc[0] == '/' then Origin(base.https, base.host, base.port) + loc
    else Origin(base.https, base.host, base.port) + Directory(base.uri) + loc
  }

  class Fields {
    var useHttps: bool
    var host: string
    var port: nat
    var uri: string

    constructor ()
      ensures Current() == BLANK
    {
      useHttps, host, port, uri := false, "", 80, "";
    }

    function Current(): Url
      reads this
    {
      Url(useHttps, host, port, uri)
    }

    method ParseURL(url: string) returns (ok: bool)
      modifies this
      ensures (ok, Current()) == Parse(url)
    {
      host, uri, port, useHttps := "", "", 80, false;
      var end := FindString(url, "://");
      if end < 0 {
        return false;
      }
      var scheme := Lower(url[..end]);
      if scheme == "https" {
        useHttps := true;
        port := 443;
      } else if scheme != "http" {
        return false;
      }
      TakeRest(url[end + 3..]);
      return host != "";
    }

    method TakeRest(rest: string)
      requires port == if useHttps then 443 else 80
      modifies this`host, this`port, this`uri
      ensures Current() == SplitRest(useHttps, rest)
    {
      var slash := Find(rest, '/');
      uri := if slash < 0 then "/" else rest[slash..];
      TakeAuthority(if slash < 0 then rest else rest[..slash]);
    }

    method TakeAuthority(authority: string)
      requires port == if useHttps then 443 else 80
      modifies this`host, this`port
      ensures (host, port) == SplitAuthority(useHttps, authority)
    {
      var colon := Find(authority, ':');
      if colon >= 0 {
        host := authority[..colon];
        port := ToInt(authority[colon + 1..]) % 0x1_0000;
      } else {
        host := authority;
      }
    }
  }

  // ---- Round trips --------------------------------------------------------

  predicate GoodHost(host: string) { host != "" && '/' !in host && ':' !in host }

  predicate Canonical(u: Url) {
    GoodHost(u.host) && u.uri != "" && u.uri[0] == '/' && u.port < 0x1_0000
  }

  /** What a successful parse yields always has this shape. */
  lemma ParsedIsCanonical(url: string)
    requires Parse(url).0
    ensures Canonical(Parse(url).1)
  {
    var u := Parse(url).1;
    var rest := url[FindString(url, "://") + 3..];
    var slash := Find(rest, '/');
    var authority := if slash < 0 then rest else rest[..slash];
    var colon := Find(authority, ':');
    assert '/' !in authority;
    assert colon >= 0 ==> '/' !in authority[..colon];
  }

  lemma {:induction false} FindAfter(pre: string, c: char, post: string)
    requires c !in pre
    ensures Find(pre + [c] + post, c) == |pre|
  {
    if pre != [] {
      assert (pre + [c] + post)[1..] == pre[1..] + [c] + post;
      FindAfter(pre[1..], c, post);
    }
  }

  /** The pattern's first occurrence, when its first character is not before. */
  lemma {:induction false} FindStringAfter(pre: string, p: string, post: string)
    requires p != [] && p[0] !in pre
    ensures FindString(pre + p + post, p) == |pre|
  {
    var s := pre + p + post;
    if pre == [] {
      assert s[..|p|] == p;
    } else {
      assert s[0] == pre[0] && s[..|p|][0] != p[0];
      assert s[1..] == pre[1..] + p + post;
      FindStringAfter(pre[1..], p, post);
    }
  }

  lemma SchemeIsFound(https: bool, rest: string)
    ensures FindString(Scheme(https) + rest, "://") == |Scheme(https)| - 3
    ensures Parse(Scheme(https) + rest) == (SplitRest(https, rest).host != "", SplitRest(https, rest))
  {
    var name := if https then "https" else "http";
    var url := Scheme(https) + rest;
    assert url == name + "://" + rest;
    FindStringAfter(name, "://", rest);
    assert url[..|name|] == name && url[|name| + 3..] == rest;
    LowerFixed(name);
  }

  lemma LowerFixed(s: string)
    requires forall i :: 0 <= i < |s| ==> !('A' <= s[i] <= 'Z')
    ensures Lower(s) == s
  {
  }

  lemma PortParses(port: nat)
    requires port < 0x1_0000
    ensures ToInt(Digits(port, 10)) % 0x1_0000 == port
  {
    ParsedPositiveDecimal(port, "");
    assert Digits(port, 10) + "" == Digits(port, 10);
  }

  lemma ColonSplits(https: bool, host: string, digits: string)
    requires ':' !in host
    ensures SplitAuthority(https, host + (":" + digits)) == (host, ToInt(digits) % 0x1_0000)
  {
    var authority := host + (":" + digits);
    assert authority == host + [':'] + digits;
    FindAfter(host, ':', digits);
    assert authority[|host| + 1..] == digits && authority[..|host|] == host;
  }

  lemma AuthorityIsSplit(https: bool, host: string, port: nat)
    requires GoodHost(host) && port < 0x1_0000
    ensures '/' !in host + PortPart(https, port)
    ensures SplitAuthority(https, host + PortPart(https, port)) == (host, port)
  {
    if PortPart(https, port) == "" {
      assert host + PortPart(https, port) == host;
    } else {
      DigitsAreTokens(port);
      PortParses(port);
      ColonSplits(https, host, Digits(port, 10));
    }
  }

  lemma RestIsSplit(authority: string, uri: string)
    requires '/' !in authority && uri != "" && uri[0] == '/'
    ensures Find(authority + uri, '/') == |authority|
    ensures (authority + uri)[..|authority|] == authority && (authority + uri)[|authority|..] == uri
  {
    assert authority + uri == authority + ['/'] + uri[1..];
    FindAfter(authority, '/', uri[1..]);
  }

  lemma BuiltFrom(u: Url, authority: string)
    requires authority == u.host + PortPart(u.https, u.port)
    ensures Build(u) == Scheme(u.https) + (authority + u.uri)
  {
    assert (Scheme(u.https) + authority) + u.uri == Scheme(u.https) + (authority + u.uri);
  }

  /** Any canonical URL put together is taken apart into the same four parts. */
  lemma ParseOrigin(u: Url)
    requires Canonical(u)
    ensures Parse(Build(u)) == (true, u)
  {
    var authority := u.host + PortPart(u.https, u.port);
    AuthorityIsSplit(u.https, u.host, u.port);
    RestIsSplit(authority, u.uri);
    SchemeIsFound(u.https, authority + u.uri);
    BuiltFrom(u, authority);
  }

  /** begin(host, port, uri, https) recovers all four parts exactly for the hosts
      that are non-empty and free of '/' and ':', and the uris that start with
      '/'; the port is any uint16_t. */
  lemma UrlRoundTrip(u: Url)
    requires u.port < 0x1_0000
    ensures Parse(Build(u)) == (true, u) <==> GoodHost(u.host) && u.uri != "" && u.uri[0] == '/'
  {
    if Parse(Build(u)) == (true, u) {
      ParsedIsCanonical(Build(u));
    }
    if Canonical(u) {
      ParseOrigin(u);
    }
  }

  /** The uri a reference means, resolved against the base's uri. */
  function Target(base: Url, loc: string): string
    requires loc != ""
  {
    if loc[0] == '/' then loc else Directory(base.uri) + loc
  }

  /** What an absolute reference parses to is never the reference itself. */
  lemma AbsoluteIsSplit(loc: string)
    requires Parse(loc).0 && FindString(loc, "://") > 0
    ensures |Parse(loc).1.uri| < |loc|
  {
  }

  lemma DirectoryIsRooted(uri: string)
    requires uri != "" && uri[0] == '/'
    ensures Directory(uri) != "" && Directory(uri)[0] == '/'
  {
  }

  lemma RelativeResolves(base: Url, loc: string)
    requires Canonical(base) && loc != "" && FindString(loc, "://") <= 0
    ensures Parse(Resolve(base, loc)) == (true, base.(uri := Target(base, loc)))
  {
    var target := base.(uri := Target(base, loc));
    DirectoryIsRooted(base.uri);
    var origin := Origin(base.https, base.host, base.port);
    assert (origin + Directory(base.uri)) + loc == origin + (Directory(base.uri) + loc);
    assert Resolve(base, loc) == Build(target);
    ParseOrigin(target);
  }

  /** A redirect's Location keeps scheme, host and port and names a uri on the
      same server exactly when it holds no "://" past its start: the code takes
      every other one as absolute, a root-relative "/a?next=http://b" too. */
  lemma ResolveRoundTrip(base: Url, loc: string)
    requires Canonical(base) && loc != ""
    ensures Parse(Resolve(base, loc)) == (true, base.(uri := Target(base, loc))) <==> FindString(loc, "://") <= 0
  {
    if FindString(loc, "://") <= 0 {
      RelativeResolves(base, loc);
    } else if Parse(loc).0 {
      AbsoluteIsSplit(loc);
      assert |Target(base, loc)| >= |loc|;
    }
  }

  /** What then happens to a root-relative Location with "://" in its query: the
      parse fails, so the redirect ends in HTTPC_ERROR_CONNECTION_REFUSED. */
  lemma RootRelativeWithSchemeFails(base: Url, loc: string)
    requires Canonical(base) && loc != "" && loc[0] == '/' && FindString(loc, "://") > 0
    ensures !Parse(Resolve(base, loc)).0
  {
    var scheme := Lower(loc[..FindString(loc, "://")]);
    assert scheme[0] == '/';
  }

  /** Whatever the base, an absolute Location leads where it says. */
  lemma AbsoluteResolves(base: Url, u: Url)
    requires Canonical(u)
    ensures Parse(Resolve(base, Build(u))) == (true, u)
  {
    var rest := (u.host + PortPart(u.https, u.port)) + u.uri;
    assert Build(u) == Scheme(u.https) + rest;
    SchemeIsFound(u.https, rest);
    ParseOrigin(u);
  }

  /** A path-relative Location replaces what follows the last '/' of the current uri. */
  lemma RelativeReplacesName(base: Url, dir: string, name: string, loc: string)
    requires dir != "" && dir[|dir| - 1] == '/' && '/' !in name && base.uri == dir + name
    requires loc != "" && loc[0] != '/'
    ensures Target(base, loc) == dir + loc
  {
    var slash := FindLast(base.uri, '/');
    assert base.uri[|dir| - 1] == '/';
    forall k | |dir| <= k < |base.uri| ensures base.uri[k] != '/' {
      assert base.uri[k] == name[k - |dir|];
    }
    forall k | slash < k < |base.uri| ensures base.uri[k] != '/' {
      assert base.uri[k] == base.uri[slash + 1..][k - slash - 1];
    }
    assert slash == |dir| - 1;
    assert base.uri[..|dir|] == dir;
  }

  // ---- The pieces, one by one ---------------------------------------------

  predicate OccursAt(s: string, p: string, k: nat) { k + |p| <= |s| && s[k..k + |p|] == p }

  lemma OccursLater(s: string, p: string, k: nat)
    requires s != []
    ensures OccursAt(s, p, k + 1) <==> OccursAt(s[1..], p, k)
  {
    assert k + 1 + |p| <= |s| ==> s[k + 1..k + 1 + |p|] == s[1..][k..k + |p|];
  }

  /** indexOf of a string: there, and nowhere before; or nowhere. */
  lemma {:induction false} FindStringIsFirst(s: string, p: string)
    requires p != []
    ensures FindString(s, p) >= 0 ==> OccursAt(s, p, FindString(s, p))
    ensures forall k: nat :: OccursAt(s, p, k) ==> 0 <= FindString(s, p) <= k
  {
    if |s| >= |p| && s[..|p|] != p {
      FindStringIsFirst(s[1..], p);
      var i := FindString(s, p);
      if i >= 0 {
        OccursLater(s, p, i - 1);
      }
      assert s[0..0 + |p|] == s[..|p|];
      forall k: nat | OccursAt(s, p, k) ensures 0 <= i <= k {
        if k > 0 {
          OccursLater(s, p, k - 1);
        }
      }
    }
  }

  /** Lower case letter by letter. */
  lemma LettersAreLowered(i: nat)
    requires i < 26
    ensures LowerChar("ABCDEFGHIJKLMNOPQRSTUVWXYZ"[i]) == "abcdefghijklmnopqrstuvwxyz"[i]
  {
  }

  lemma OthersAreNotLowered(c: char)
    requires c < 'A' || c > 'Z'
    ensures LowerChar(c) == c
  {
  }

  lemma {:induction false} LowerAt(s: string, i: nat)
    requires i < |s|
    ensures Lower(s)[i] == LowerChar(s[i])
  {
    if i > 0 {
      LowerAt(s[1..], i - 1);
    }
  }

  /** A scheme is known in any case of its letters. */
  lemma SchemeInAnyCase(scheme: string, https: bool, rest: string)
    requires Lower(scheme) == if https then "https" else "http"
    ensures Parse(scheme + "://" + rest) == Parse(Scheme(https) + rest)
  {
    forall i | 0 <= i < |scheme| ensures scheme[i] != ':' {
      LowerAt(scheme, i);
    }
    FindStringAfter(scheme, "://", rest);
    var url := scheme + "://" + rest;
    assert url[..|scheme|] == scheme && url[|scheme| + 3..] == rest;
    SchemeIsFound(https, rest);
  }

  /** Without a port it is 80 for http and 443 for https; without a path it is "/". */
  lemma DefaultsAre(host: string, uri: string)
    requires GoodHost(host) && uri != "" && uri[0] == '/'
    ensures Parse("http://" + host + uri) == (true, Url(false, host, 80, uri))
    ensures Parse("https://" + host + uri) == (true, Url(true, host, 443, uri))
    ensures Parse("http://" + host) == (true, Url(false, host, 80, "/"))
    ensures Parse("https://" + host) == (true, Url(true, host, 443, "/"))
  {
    var plain, secure := Url(false, host, 80, uri), Url(true, host, 443, uri);
    assert host + "" == host;
    ParseOrigin(plain);
    ParseOrigin(secure);
    SchemeIsFound(false, host);
    SchemeIsFound(true, host);
  }
}
