/** HTTPClient::getString: the chunked and the Content-Length body decoders, for
    every fragmentation of the wire into reads. */
module HttpBody {
  import opened Common
  import opened Numbers
  import opened HttpUrl

  const NUL: char := '\0'

  predicate NulFree(s: string) { NUL !in s }

  /** What a C string built over these bytes holds. */
  function UpToNul(s: string): string {
    var i := Find(s, NUL);
    if i < 0 then s else s[..i]
  }

  const STAGE: nat := 256

  /** What appendBytes adds for one read: its stages, each cut at its first NUL. */
  function Staged(buf: string): string
    decreases |buf|
  {
    if |buf| <= STAGE then UpToNul(buf) else UpToNul(buf[..STAGE]) + Staged(buf[STAGE..])
  }

  // ---- What is decoded, as functions of the bytes on the wire -------------

  function StripCr(s: string): string {
    if s != "" && s[|s| - 1] == '\r' then s[..|s| - 1] else s
  }

  /** A line without its terminator, and what follows it; at the end of the wire
      whatever is there, unstripped. */
  function Line(wire: string): (string, string) {
    var i := Find(wire, '\n');
    if i < 0 then (wire, "")
    else (StripCr(wire[..i]), wire[i + 1..])
  }

  lemma LineShrinks(wire: string)
    ensures |Line(wire).1| <= |wire|
    ensures wire != "" ==> |Line(wire).1| < |wire|
  {
  }

  lemma LineIs(s: string, rest: string)
    requires '\n' !in s
    ensures Line(s + ['\n'] + rest) == (StripCr(s), rest)
    ensures Line(s) == (s, "")
  {
    var wire := s + ['\n'] + rest;
    FindAfter(s, '\n', rest);
    assert wire[..|s|] == s && wire[|s| + 1..] == rest;
  }

  function AfterTrailers(wire: string): string
    decreases |wire|
  {
    LineShrinks(wire);
    var (line, rest) := Line(wire);
    if line == "" then rest else AfterTrailers(rest)
  }

  /** The payload of a chunked body and what is left on the wire after it. */
  function Decode(wire: string): (string, string)
    decreases |wire|
  {
    LineShrinks(wire);
    var (line, rest) := Line(wire);
    if line == "" then ("", rest)
    else
      var size := Strtol(line, 16);
      if size <= 0 then ("", AfterTrailers(rest))
      else if |rest| < size then (rest, "")
      else
        LineShrinks(rest[size..]);
        var (more, left) := Decode(Line(rest[size..]).1);
        (rest[..size] + more, left)
  }

  // ---- The client ---------------------------------------------------------

  /** A connection on which no wait times out: data comes until the peer closes,
      in pieces of any size. */
  class Client {
    var unread: string

    constructor (wire: string)
      ensures unread == wire
    {
      unread := wire;
    }

    method WaitData() returns (ready: bool)
      ensures ready <==> unread != ""
    {
      ready := unread != "";
    }

    method ReadByte() returns (c: Option<char>)
      modifies this
      ensures old(unread) == "" ==> c == None && unread == ""
      ensures old(unread) != "" ==> c == Some(old(unread)[0]) && unread == old(unread)[1..]
    {
      if unread == "" {
        return None;
      }
      c := Some(unread[0]);
      unread := unread[1..];
    }

    /** At least one byte when there is any, at most `want`: how many arrived
        together is the network's choice. */
    method ReadSome(want: nat) returns (got: string)
      requires want > 0
      modifies this
      ensures got + unread == old(unread) && |got| <= want
      ensures old(unread) != "" ==> got != ""
    {
      if unread == "" {
        return "";
      }
      var n :| 1 <= n <= want && n <= |unread|;
      got := unread[..n];
      unread := unread[n..];
    }

    method ReadHTTPLine() returns (out: string)
      modifies this
      ensures (out, unread) == Line(old(unread))
    {
      out := "";
      ghost var wire := unread;
      while true
        invariant out + unread == wire && '\n' !in out
        decreases |unread|
      {
        var ready := WaitData();
        if !ready {
          assert out + "" == out;
          LineIs(out, "");
          break;
        }
        ghost var before := unread;
        var c := ReadByte();
        assert before == [c.value] + unread;
        if c == Some('\n') {
          assert wire == out + ['\n'] + unread;
          LineIs(out, unread);
          if |out| > 0 && out[|out| - 1] == '\r' {
            out := out[..|out| - 1];
          }
          break;
        }
        assert out + ([c.value] + unread) == (out + [c.value]) + unread;
        out := out + [c.value];
      }
    }

    /** Copies through a 256-byte staging buffer and a NUL-terminated concat. */
    static method AppendBytes(dst: string, buf: string) returns (r: string)
      ensures r == dst + Staged(buf)
    {
      r := dst;
      var rest := buf;
      while rest != ""
        invariant r + Staged(rest) == dst + Staged(buf)
        decreases |rest|
      {
        var take := if |rest| < STAGE then |rest| else STAGE;
        StagedStep(rest, take);
        ghost var cut, more := UpToNul(rest[..take]), Staged(rest[take..]);
        assert r + (cut + more) == (r + cut) + more;
        r := r + UpToNul(rest[..take]);
        rest := rest[take..];
      }
      assert Staged("") == "";
    }

    /** The data of one chunk, or as much of it as the peer sent. */
    method ReadChunk(body: string, size: nat) returns (r: string, complete: bool)
      modifies this
      ensures complete <==> size <= |old(unread)|
      ensures unread == if complete then old(unread)[size..] else ""
      ensures NulFree(body) ==> NulFree(r)
      ensures var data := if complete then old(unread)[..size] else old(unread);
              NulFree(data) ==> r == body + data
    {
      r := body;
      var remaining := size;
      ghost var seen := "";
      while remaining > 0
        invariant seen + unread == old(unread) && |seen| + remaining == size && remaining >= 0
        invariant NulFree(body) ==> NulFree(r)
        invariant NulFree(seen) ==> r == body + seen
        decreases remaining
      {
        var ready := WaitData();
        if !ready {
          assert seen == old(unread);
          return r, false;
        }
        var got := ReadSome(if remaining < 256 then remaining else 256);
        if |got| == 0 {
          return r, false;
        }
        r := AppendBytes(r, got);
        StagedOnce(got);
        remaining := remaining - |got|;
        seen := seen + got;
      }
      assert (seen + unread)[..size] == seen && (seen + unread)[size..] == unread;
      complete := true;
    }

    method SkipTrailers()
      modifies this
      ensures unread == AfterTrailers(old(unread))
    {
      while true
        invariant AfterTrailers(unread) == AfterTrailers(old(unread))
        decreases |unread|
      {
        LineShrinks(unread);
        var line := ReadHTTPLine();
        if |line| == 0 {
          break;
        }
      }
    }

    method GetStringChunked() returns (body: string)
      modifies this
      ensures unread == Decode(old(unread)).1
      ensures NulFree(body)
      ensures NulFree(Decode(old(unread)).0) ==> body == Decode(old(unread)).0
    {
      body := "";
      ghost var goal := Decode(unread);
      while true
        invariant Decode(unread).1 == goal.1
        invariant NulFree(body)
        invariant NulFree(goal.0) ==> NulFree(Decode(unread).0) && body + Decode(unread).0 == goal.0
        decreases |unread|
      {
        LineShrinks(unread);
        var line := ReadHTTPLine();
        if |line| == 0 {
          break;
        }
        var size := Strtol(line, 16);
        if size <= 0 {
          SkipTrailers();
          break;
        }
        ghost var rest := unread;
        LineShrinks(if size <= |rest| then rest[size..] else "");
        var before, complete := body, false;
        body, complete := ReadChunk(body, size);
        if !complete {
          return;
        }
        var crlf := ReadHTTPLine();
        DecodedChunk(body, before, rest[..size], Decode(unread).0, goal.0);
      }
    }

    /** Content-Length n, or everything up to the close when n is negative. */
    method GetStringSized(contentLength: int) returns (body: string)
      modifies this
      ensures NulFree(body)
      ensures var n := if 0 <= contentLength < |old(unread)| then contentLength else |old(unread)|;
              unread == old(unread)[n..] && (NulFree(old(unread)[..n]) ==> body == old(unread)[..n])
    {
      body := "";
      var remaining := contentLength;
      ghost var seen := "";
      while remaining != 0
        invariant seen + unread == old(unread) && NulFree(body)
        invariant contentLength < 0 ==> remaining == contentLength
        invariant contentLength >= 0 ==> remaining >= 0 && |seen| + remaining == contentLength
        invariant NulFree(seen) ==> body == seen
        decreases |unread|
      {
        var ready := WaitData();
        if !ready {
          break;
        }
        var got := ReadSome(if 0 < remaining < 256 then remaining else 256);
        body := AppendBytes(body, got);
        StagedOnce(got);
        seen := seen + got;
        if remaining > 0 {
          remaining := remaining - |got|;
        }
      }
      assert seen == old(unread)[..|seen|];
      assert |seen| == if 0 <= contentLength < |old(unread)| then contentLength else |old(unread)|;
    }
  }

  lemma DecodedChunk(body: string, before: string, data: string, more: string, goal: string)
    requires NulFree(goal) ==> NulFree(data + more) && before + (data + more) == goal
    requires NulFree(data) ==> body == before + data
    ensures NulFree(goal) ==> NulFree(more) && body + more == goal
  {
    if NulFree(goal) {
      assert forall c :: c in data ==> c in data + more;
      assert forall c :: c in more ==> c in data + more;
      assert before + (data + more) == (before + data) + more;
    }
  }

  lemma StagedStep(s: string, take: nat)
    requires take == if |s| < STAGE then |s| else STAGE
    ensures Staged(s) == UpToNul(s[..take]) + Staged(s[take..])
  {
    if |s| <= STAGE {
      assert s[..take] == s && s[take..] == "";
      assert UpToNul("") == "";
    }
  }

  lemma StagedOnce(got: string)
    requires |got| <= STAGE
    ensures NulFree(Staged(got))
    ensures NulFree(got) ==> Staged(got) == got
  {
  }

  // ---- Chunked coding (section 7.1 of RFC 9112) ---------------------------

  /** One chunk: its size in hexadecimal, a chunk extension, its data. */
  datatype Chunk = Chunk(size: string, ext: string, data: string)

  predicate SizeLine(size: string, ext: string, value: nat) {
    && size != "" && AllDigits(size, 16) && Value(size, 16) == value
    && (ext == "" || (DigitValue(ext[0]) >= 16 && ext[0] != 'x' && ext[0] != 'X'))
    && '\n' !in ext
  }

  predicate GoodChunk(c: Chunk) {
    SizeLine(c.size, c.ext, |c.data|) && 0 < |c.data| <= LONG_MAX
  }

  const CRLF: string := ['\r', '\n']

  /** The chunks on the wire in front of `rest`. */
  function EncodeChunks(cs: seq<Chunk>, rest: string): string {
    if cs == [] then rest
    else (cs[0].size + cs[0].ext) + CRLF + (cs[0].data + CRLF + EncodeChunks(cs[1..], rest))
  }

  /** The trailer lines and the empty one that ends them, in front of `rest`. */
  function EncodeTrailers(ts: seq<string>, rest: string): string {
    if ts == [] then CRLF + rest else ts[0] + CRLF + EncodeTrailers(ts[1..], rest)
  }

  /** A chunked body with a last chunk of size `last`, in front of `rest`. */
  function Encode(cs: seq<Chunk>, last: string, ext: string, ts: seq<string>, rest: string): string {
    EncodeChunks(cs, (last + ext) + CRLF + EncodeTrailers(ts, rest))
  }

  function Payload(cs: seq<Chunk>): string {
    if cs == [] then "" else cs[0].data + Payload(cs[1..])
  }

  lemma LineOf(s: string, rest: string)
    requires '\n' !in s
    ensures Line(s + CRLF + rest) == (s, rest)
  {
    var raw := s + ['\r'];
    assert s + CRLF + rest == raw + ['\n'] + rest;
    LineIs(raw, rest);
    assert raw[..|s|] == s;
  }

  lemma SizeParses(size: string, ext: string, value: nat)
    requires SizeLine(size, ext, value) && value <= LONG_MAX
    ensures Strtol(size + ext, 16) == value
    ensures '\n' !in size + ext && size + ext != ""
  {
    ParsedDigits(size, ext, 16);
    forall i | 0 <= i < |size| ensures size[i] != '\n' {
      assert DigitValue(size[i]) < DigitValue('\n');
    }
  }

  lemma {:induction false} TrailersSkipped(ts: seq<string>, tail: string)
    requires forall i :: 0 <= i < |ts| ==> ts[i] != "" && '\n' !in ts[i]
    ensures AfterTrailers(EncodeTrailers(ts, tail)) == tail
  {
    if ts == [] {
      assert CRLF + tail == "" + CRLF + tail;
      LineOf("", tail);
    } else {
      LineOf(ts[0], EncodeTrailers(ts[1..], tail));
      TrailersSkipped(ts[1..], tail);
    }
  }

  /** Decoding undoes encoding: for every list of non-empty chunks with any
      spelling of their sizes and any extensions, any last chunk of size zero
      and any trailer lines, the payload is recovered and exactly the encoding is
      consumed, whatever follows it. */
  lemma {:induction false} DecodeUndoesEncode(cs: seq<Chunk>, last: string, ext: string, ts: seq<string>, tail: string)
    requires forall i :: 0 <= i < |cs| ==> GoodChunk(cs[i])
    requires SizeLine(last, ext, 0)
    requires forall i :: 0 <= i < |ts| ==> ts[i] != "" && '\n' !in ts[i]
    ensures Decode(Encode(cs, last, ext, ts, tail)) == (Payload(cs), tail)
    decreases |cs|
  {
    if cs == [] {
      SizeParses(last, ext, 0);
      LineOf(last + ext, EncodeTrailers(ts, tail));
      TrailersSkipped(ts, tail);
    } else {
      DecodeUndoesEncode(cs[1..], last, ext, ts, tail);
      DecodeChunk(cs[0], Encode(cs[1..], last, ext, ts, tail));
    }
  }

  lemma DecodeStep(wire: string, line: string, rest: string, size: nat, after: string)
    requires Line(wire) == (line, rest) && line != "" && Strtol(line, 16) == size
    requires 0 < size <= |rest| && Line(rest[size..]).1 == after
    ensures Decode(wire) == (rest[..size] + Decode(after).0, Decode(after).1)
  {
  }

  lemma DataThenCrlf(data: string, next: string)
    ensures var rest := data + CRLF + next;
            |rest| >= |data| && rest[..|data|] == data && Line(rest[|data|..]).1 == next
  {
    var rest := data + CRLF + next;
    assert rest[|data|..] == "" + CRLF + next;
    LineOf("", next);
  }

  lemma DecodeChunk(c: Chunk, next: string)
    requires GoodChunk(c)
    ensures Decode((c.size + c.ext) + CRLF + (c.data + CRLF + next)) == (c.data + Decode(next).0, Decode(next).1)
  {
    var rest := c.data + CRLF + next;
    SizeParses(c.size, c.ext, |c.data|);
    LineOf(c.size + c.ext, rest);
    DataThenCrlf(c.data, next);
    DecodeStep((c.size + c.ext) + CRLF + rest, c.size + c.ext, rest, |c.data|, next);
  }

  /** The two together: getString on the encoding of NUL-free chunks returns their
      data however the reads fragment it, and leaves what follows it unread. */
  method ReceiveEncoded(cs: seq<Chunk>, last: string, ext: string, ts: seq<string>, tail: string)
    returns (body: string, left: string)
    requires forall i :: 0 <= i < |cs| ==> GoodChunk(cs[i])
    requires SizeLine(last, ext, 0)
    requires forall i :: 0 <= i < |ts| ==> ts[i] != "" && '\n' !in ts[i]
    requires NulFree(Payload(cs))
    ensures body == Payload(cs) && left == tail
  {
    DecodeUndoesEncode(cs, last, ext, ts, tail);
    var client := new Client(Encode(cs, last, ext, ts, tail));
    body := client.GetStringChunked();
    left := client.unread;
  }

  lemma PartOfAChunk(size: string, ext: string, value: nat, part: string)
    requires SizeLine(size, ext, value) && |part| < value <= LONG_MAX
    ensures Decode((size + ext) + CRLF + part) == (part, "")
  {
    SizeParses(size, ext, value);
    LineOf(size + ext, part);
  }

  /** When the peer closes inside a chunk, what has arrived of it is kept. */
  lemma {:induction false} TruncatedIsKept(cs: seq<Chunk>, size: string, ext: string, value: nat, part: string)
    requires forall i :: 0 <= i < |cs| ==> GoodChunk(cs[i])
    requires SizeLine(size, ext, value) && |part| < value <= LONG_MAX
    ensures Decode(EncodeChunks(cs, (size + ext) + CRLF + part)) == (Payload(cs) + part, "")
    decreases |cs|
  {
    if cs == [] {
      PartOfAChunk(size, ext, value, part);
      assert "" + part == part;
    } else {
      TruncatedIsKept(cs[1..], size, ext, value, part);
      DecodeChunk(cs[0], EncodeChunks(cs[1..], (size + ext) + CRLF + part));
      assert cs[0].data + (Payload(cs[1..]) + part) == Payload(cs) + part;
    }
  }

  /** When it closes between chunks, the chunks that came are the body. */
  lemma {:induction false} ChunksAreKept(cs: seq<Chunk>)
    requires forall i :: 0 <= i < |cs| ==> GoodChunk(cs[i])
    ensures Decode(EncodeChunks(cs, "")) == (Payload(cs), "")
    decreases |cs|
  {
    if cs != [] {
      ChunksAreKept(cs[1..]);
      DecodeChunk(cs[0], EncodeChunks(cs[1..], ""));
    }
  }

  /** An empty line in place of a chunk size ends the body there. */
  lemma BlankLineEnds(rest: string)
    ensures Decode(CRLF + rest) == ("", rest)
  {
    assert CRLF + rest == "" + CRLF + rest;
    LineOf("", rest);
  }

  lemma DataThenLine(data: string, junk: string, next: string)
    requires '\n' !in junk
    ensures var rest := data + (junk + CRLF + next);
            |rest| >= |data| && rest[..|data|] == data && Line(rest[|data|..]).1 == next
  {
    var rest := data + (junk + CRLF + next);
    assert rest[|data|..] == junk + CRLF + next;
    LineOf(junk, next);
  }

  /** Whatever line follows the data of a chunk is dropped. */
  lemma LineAfterChunkIsDropped(c: Chunk, junk: string, next: string)
    requires GoodChunk(c) && '\n' !in junk
    ensures Decode((c.size + c.ext) + CRLF + (c.data + (junk + CRLF + next))) == (c.data + Decode(next).0, Decode(next).1)
  {
    var rest := c.data + (junk + CRLF + next);
    SizeParses(c.size, c.ext, |c.data|);
    LineOf(c.size + c.ext, rest);
    DataThenLine(c.data, junk, next);
    DecodeStep((c.size + c.ext) + CRLF + rest, c.size + c.ext, rest, |c.data|, next);
  }

  /** A line may also end in a bare newline. */
  lemma BareNewline(s: string, rest: string)
    requires '\n' !in s && (s == "" || s[|s| - 1] != '\r')
    ensures Line(s + ['\n'] + rest) == (s, rest)
  {
    LineIs(s, rest);
  }

  // ---- NULs and fragmentation ---------------------------------------------

  function Joined(parts: seq<string>): string {
    if parts == [] then "" else parts[0] + Joined(parts[1..])
  }

  function Appended(parts: seq<string>): string {
    if parts == [] then "" else Staged(parts[0]) + Appended(parts[1..])
  }

  lemma {:induction false} AppendedIsNulFree(parts: seq<string>)
    requires forall i :: 0 <= i < |parts| ==> |parts[i]| <= STAGE
    ensures NulFree(Appended(parts))
    ensures NulFree(Joined(parts)) ==> Appended(parts) == Joined(parts)
  {
    if parts != [] {
      AppendedIsNulFree(parts[1..]);
      StagedOnce(parts[0]);
      assert forall c :: c in parts[0] ==> c in Joined(parts);
      assert forall c :: c in Joined(parts[1..]) ==> c in Joined(parts);
    }
  }

  /** However the body arrives, appending the reads gives its bytes back exactly
      when it holds no NUL. */
  lemma BodyExactIffNulFree(parts: seq<string>)
    requires forall i :: 0 <= i < |parts| ==> |parts[i]| <= STAGE
    ensures Appended(parts) == Joined(parts) <==> NulFree(Joined(parts))
  {
    AppendedIsNulFree(parts);
  }

  /** A read with a NUL in it counts up to the NUL. */
  lemma CutAtNul(pre: string, post: string)
    requires NulFree(pre) && |pre| + 1 + |post| <= 256
    ensures Staged(pre + [NUL] + post) == pre
  {
    FindAfter(pre, NUL, post);
    assert (pre + [NUL] + post)[..|pre|] == pre;
  }

  /** Longer data goes through in stages of 256 bytes, each on its own. */
  lemma StagesAre(first: string, more: string)
    requires |first| == 256
    ensures Staged(first + more) == Staged(first) + Staged(more)
  {
    assert (first + more)[..256] == first && (first + more)[256..] == more;
    assert Staged("") == "";
    if more == "" {
      assert first + more == first;
    }
  }

  /** With a NUL in it the result even depends on the fragmentation. */
  lemma FragmentationShows()
    ensures Joined([['a', NUL, 'b']]) == Joined([['a', NUL], ['b']])
    ensures Appended([['a', NUL, 'b']]) != Appended([['a', NUL], ['b']])
  {
    var w, p, q := ['a', NUL, 'b'], ['a', NUL], ['b'];
    assert [w][1..] == [] && [p, q][1..] == [q] && [q][1..] == [];
    assert Joined([w]) == w + Joined([]) && Joined([q]) == q + Joined([]);
    assert Joined([p, q]) == p + Joined([q]);
    FindAfter(['a'], NUL, ['b']);
    FindAfter(['a'], NUL, []);
    assert w == ['a'] + [NUL] + ['b'] && p == ['a'] + [NUL] + [];
    assert Appended([w]) == Staged(w) + Appended([]) && Appended([q]) == Staged(q) + Appended([]);
    assert Appended([p, q]) == Staged(p) + Appended([q]);
    assert |Appended([w])| == 1 && |Appended([p, q])| == 2;
  }
}
