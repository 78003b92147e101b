/** Stream::find and findUntil: two incremental matchers over one stream, each
    of which falls back to its first character only. */
module StreamFind {

  /** Bytes as read are 0..255; the characters of a C string are signed, so one
      beyond 127 equals no byte. */
  type Text = seq<int>

  predicate Bytes(s: Text) { forall i :: 0 <= i < |s| ==> 0 <= s[i] < 256 }

  /** How much of the pattern is matched once c has been read. */
  function Next(p: Text, matched: nat, c: int): nat
    requires matched < |p|
  {
    if c == p[matched] then matched + 1 else if c == p[0] then 1 else 0
  }

  /** The terminator's matcher; there may be no terminator. */
  function NextOf(p: Text, i: nat, c: int): nat
    requires i < |p| || p == []
  {
    if p == [] then 0 else Next(p, i, c)
  }

  /** The answer, reading w from position n on, and the position reached. */
  function Scan(w: Text, n: nat, target: Text, terminator: Text, ti: nat, gi: nat): (r: (bool, nat))
    requires n <= |w| && ti < |target| && (gi < |terminator| || (terminator == [] && gi == 0))
    ensures n <= r.1 <= |w|
    decreases |w| - n
  {
    if n == |w| then (false, n)
    else
      var gj := NextOf(terminator, gi, w[n]);
      var tj := Next(target, ti, w[n]);
      if terminator != [] && gj == |terminator| then (false, n + 1)
      else if tj == |target| then (true, n + 1)
      else Scan(w, n + 1, target, terminator, tj, gj)
  }

  /** A stream and how much of what will ever arrive has been read. */
  class Stream {
    const data: Text
    var position: nat

    constructor (input: Text)
      ensures data == input && position == 0
    {
      data, position := input, 0;
    }

    /** -1 once the wait for another byte has timed out. */
    method TimedRead() returns (c: int)
      requires position <= |data|
      modifies this
      ensures old(position) == |data| ==> c == -1 && position == |data|
      ensures old(position) < |data| ==> c == data[old(position)] && position == old(position) + 1
    {
      if position == |data| {
        return -1;
      }
      c := data[position];
      position := position + 1;
    }

    /** An empty target (or a null one) is found without reading. */
    method FindUntil(target: Text, terminator: Text) returns (found: bool)
      requires Bytes(data) && position <= |data|
      modifies this
      ensures target == [] ==> found && position == old(position)
      ensures target != [] ==> (found, position) == Scan(data, old(position), target, terminator, 0, 0)
    {
      if target == [] {
        return true;
      }
      var targetIndex, terminatorIndex := 0, 0;
      while true
        invariant targetIndex < |target| && position <= |data|
        invariant terminatorIndex < |terminator| || (terminator == [] && terminatorIndex == 0)
        invariant Scan(data, position, target, terminator, targetIndex, terminatorIndex)
               == Scan(data, old(position), target, terminator, 0, 0)
        decreases |data| - position
      {
        var c := TimedRead();
        if c < 0 {
          return false;
        }
        if |terminator| > 0 {
          if c == terminator[terminatorIndex] {
            terminatorIndex := terminatorIndex + 1;
            if terminatorIndex == |terminator| {
              return false;
            }
          } else {
            terminatorIndex := if c == terminator[0] then 1 else 0;
          }
        }
        if c == target[targetIndex] {
          targetIndex := targetIndex + 1;
          if targetIndex == |target| {
            return true;
          }
        } else {
          targetIndex := if c == target[0] then 1 else 0;
        }
      }
    }
  }

  // ---- Occurrences --------------------------------------------------------

  /** The last characters of x are p. */
  predicate Ends(x: Text, p: Text) { |p| <= |x| && x[|x| - |p|..] == p }

  /** An occurrence of p in w ends at n. */
  predicate EndsAt(w: Text, p: Text, n: nat) { n <= |w| && Ends(w[..n], p) }

  lemma EndsAppend(x: Text, c: int, p: Text)
    requires p != []
    ensures Ends(x + [c], p) <==> Ends(x, p[..|p| - 1]) && p[|p| - 1] == c
  {
    var q := p[..|p| - 1];
    if |p| <= |x| + 1 {
      var tail := (x + [c])[|x| + 1 - |p|..];
      assert tail == x[|x| - |q|..] + [c];
      assert p == q + [p[|p| - 1]];
      assert tail[..|q|] == x[|x| - |q|..] && tail[|q|] == c;
    }
  }

  lemma EndsShorter(x: Text, p: Text, q: Text)
    requires Ends(x, p) && Ends(x, q) && |q| <= |p|
    ensures Ends(p, q)
  {
    assert x[|x| - |p|..][|p| - |q|..] == x[|x| - |q|..];
  }

  /** i characters are matched after x: p[..i] ends x and, when there was no
      fallback to lose them, no longer part of p does. */
  predicate Longest(x: Text, p: Text, i: nat) {
    i < |p| && Ends(x, p[..i]) && forall k :: i < k <= |p| ==> !Ends(x, p[..k])
  }

  // ---- Soundness, for every target ----------------------------------------

  lemma SuffixGrows(w: Text, n: nat, p: Text, i: nat)
    requires n < |w| && i < |p| && EndsAt(w, p[..i], n)
    ensures EndsAt(w, p[..Next(p, i, w[n])], n + 1)
    ensures Next(p, i, w[n]) == |p| ==> EndsAt(w, p, n + 1)
  {
    assert w[..n + 1] == w[..n] + [w[n]];
    NextEnds(w[..n], p, i, w[n]);
    assert p[..|p|] == p;
  }

  lemma {:induction false} MatchedIsSuffix(w: Text, n: nat, target: Text, terminator: Text, ti: nat, gi: nat)
    requires n <= |w| && ti < |target| && (gi < |terminator| || (terminator == [] && gi == 0))
    requires EndsAt(w, target[..ti], n)
    ensures Scan(w, n, target, terminator, ti, gi).0 ==> EndsAt(w, target, Scan(w, n, target, terminator, ti, gi).1)
    decreases |w| - n
  {
    if n < |w| {
      var tj, gj := Next(target, ti, w[n]), NextOf(terminator, gi, w[n]);
      SuffixGrows(w, n, target, ti);
      if terminator != [] && gj == |terminator| {
        assert !Scan(w, n, target, terminator, ti, gi).0;
      } else if tj == |target| {
        assert Scan(w, n, target, terminator, ti, gi) == (true, n + 1);
      } else {
        MatchedIsSuffix(w, n + 1, target, terminator, tj, gj);
        assert Scan(w, n, target, terminator, ti, gi) == Scan(w, n + 1, target, terminator, tj, gj);
      }
    }
  }

  /** What was read before position n does not matter. */
  lemma {:induction false} ScanShifts(w: Text, n: nat, m: nat, target: Text, terminator: Text, ti: nat, gi: nat)
    requires n + m <= |w| && ti < |target| && (gi < |terminator| || (terminator == [] && gi == 0))
    ensures var (found, end) := Scan(w[n..], m, target, terminator, ti, gi);
            Scan(w, n + m, target, terminator, ti, gi) == (found, end + n)
    decreases |w| - n - m
  {
    if n + m < |w| {
      assert w[n..][m] == w[n + m];
      var tj, gj := Next(target, ti, w[n + m]), NextOf(terminator, gi, w[n + m]);
      if !(terminator != [] && gj == |terminator|) && tj < |target| {
        ScanShifts(w, n, m + 1, target, terminator, tj, gj);
      }
    }
  }

  /** When findUntil returns true, the last of the bytes it consumed are the target. */
  lemma FoundIsThere(w: Text, n: nat, target: Text, terminator: Text)
    requires n <= |w| && target != []
    ensures var (found, end) := Scan(w, n, target, terminator, 0, 0);
            found ==> n + |target| <= end <= |w| && w[end - |target|..end] == target
  {
    var (found, end) := Scan(w[n..], 0, target, terminator, 0, 0);
    ScanShifts(w, n, 0, target, terminator, 0, 0);
    assert target[..0] == [];
    MatchedIsSuffix(w[n..], 0, target, terminator, 0, 0);
    if found {
      assert w[n..][..end][end - |target|..] == w[n + end - |target|..n + end];
    }
  }

  // ---- Exactness ----------------------------------------------------------

  /** Wherever a proper part of the pattern repeats its beginning it goes on the
      same way, so falling back to the first character loses nothing. */
  predicate Repeats(p: Text) {
    forall i, j :: 0 < j < i < |p| && Ends(p[..i], p[..j]) ==> p[j] == p[i]
  }

  /** In particular when the first character does not recur. */
  lemma DistinctFirstRepeats(p: Text)
    requires p != [] && p[0] !in p[1..]
    ensures Repeats(p)
  {
    forall i, j | 0 < j < i < |p| ensures !Ends(p[..i], p[..j]) {
      assert p[..i][i - j..][0] == p[i - j] && p[i - j] in p[1..] by {
        assert p[1..][i - j - 1] == p[i - j];
      }
    }
  }

  lemma NothingLonger(x: Text, p: Text, i: nat, c: int, k: nat)
    requires Longest(x, p, i) && Repeats(p) && Next(p, i, c) < k <= |p|
    ensures !Ends(x + [c], p[..k])
  {
    EndsAppend(x, c, p[..k]);
    assert p[..k][..k - 1] == p[..k - 1] && p[..k][k - 1] == p[k - 1];
    if k - 1 < i && Ends(x, p[..k - 1]) {
      EndsShorter(x, p[..i], p[..k - 1]);
      assert k > 1 ==> p[k - 1] == p[i];
    }
  }

  lemma NextEnds(x: Text, p: Text, i: nat, c: int)
    requires i < |p| && Ends(x, p[..i])
    ensures Ends(x + [c], p[..Next(p, i, c)])
  {
    EndsAppend(x, c, p[..i + 1]);
    assert p[..i + 1][..i] == p[..i];
    EndsAppend(x, c, p[..1]);
  }

  lemma NextIsLongest(x: Text, p: Text, i: nat, c: int)
    requires Longest(x, p, i) && Repeats(p)
    ensures var k := Next(p, i, c);
            if k == |p| then Ends(x + [c], p) else Longest(x + [c], p, k)
  {
    NextEnds(x, p, i, c);
    assert p[..|p|] == p;
    forall k | Next(p, i, c) < k <= |p| ensures !Ends(x + [c], p[..k]) {
      NothingLonger(x, p, i, c, k);
    }
  }

  /** Nothing of the terminator, if there is one, ends between n and m. */
  predicate Untouched(w: Text, terminator: Text, n: nat, m: nat) {
    terminator == [] || forall k :: n < k <= m ==> !EndsAt(w, terminator, k)
  }

  /** From position n on: found just when an occurrence of the target comes with
      none of the terminator up to it, and then the first one. */
  predicate Exact(w: Text, n: nat, target: Text, terminator: Text, found: bool, end: nat) {
    if found then
      && n < end <= |w| && EndsAt(w, target, end)
      && (forall k :: n < k < end ==> !EndsAt(w, target, k))
      && Untouched(w, terminator, n, end)
    else forall m :: n < m <= |w| && EndsAt(w, target, m) ==> !Untouched(w, terminator, n, m)
  }

  lemma ExactStep(w: Text, n: nat, target: Text, terminator: Text, found: bool, end: nat)
    requires n < |w| && Exact(w, n + 1, target, terminator, found, end)
    requires !EndsAt(w, target, n + 1) && Untouched(w, terminator, n, n + 1)
    ensures Exact(w, n, target, terminator, found, end)
  {
    if !found && terminator != [] {
      forall m | n < m <= |w| && EndsAt(w, target, m) ensures !Untouched(w, terminator, n, m) {
        assert !Untouched(w, terminator, n + 1, m);
        var k :| n + 1 < k <= m && EndsAt(w, terminator, k);
      }
    }
  }

  lemma StoppedIsExact(w: Text, n: nat, target: Text, terminator: Text)
    requires n < |w| && terminator != [] && EndsAt(w, terminator, n + 1)
    ensures Exact(w, n, target, terminator, false, n + 1)
  {
  }

  lemma HitIsExact(w: Text, n: nat, target: Text, terminator: Text)
    requires n < |w| && EndsAt(w, target, n + 1) && Untouched(w, terminator, n, n + 1)
    ensures Exact(w, n, target, terminator, true, n + 1)
  {
  }

  lemma EndIsExact(w: Text, target: Text, terminator: Text)
    ensures Exact(w, |w|, target, terminator, false, |w|)
  {
  }

  /** Where both matchers stand, as far as the text before n goes. */
  predicate Standing(w: Text, n: nat, target: Text, terminator: Text, ti: nat, gi: nat)
    requires n <= |w|
  {
    && Longest(w[..n], target, ti)
    && (if terminator == [] then gi == 0 else Longest(w[..n], terminator, gi))
  }

  lemma StandingStep(w: Text, n: nat, target: Text, terminator: Text, ti: nat, gi: nat)
    requires n < |w| && Repeats(target) && Repeats(terminator)
    requires Standing(w, n, target, terminator, ti, gi)
    ensures var tj, gj := Next(target, ti, w[n]), NextOf(terminator, gi, w[n]);
            && (EndsAt(w, target, n + 1) <==> tj == |target|)
            && (terminator != [] ==> (EndsAt(w, terminator, n + 1) <==> gj == |terminator|))
            && (terminator == [] || gj < |terminator| ==> Untouched(w, terminator, n, n + 1))
            && (tj < |target| && (terminator == [] || gj < |terminator|) ==> Standing(w, n + 1, target, terminator, tj, gj))
  {
    OneMoreByte(w, n, target, ti);
    if terminator != [] {
      OneMoreByte(w, n, terminator, gi);
    }
  }

  lemma {:induction false} ScanIsExact(w: Text, n: nat, target: Text, terminator: Text, ti: nat, gi: nat)
    requires n <= |w| && Repeats(target) && Repeats(terminator)
    requires Standing(w, n, target, terminator, ti, gi)
    ensures var (found, end) := Scan(w, n, target, terminator, ti, gi); Exact(w, n, target, terminator, found, end)
    decreases |w| - n
  {
    if n == |w| {
      EndIsExact(w, target, terminator);
    } else {
      StandingStep(w, n, target, terminator, ti, gi);
      var tj, gj := Next(target, ti, w[n]), NextOf(terminator, gi, w[n]);
      if terminator != [] && gj == |terminator| {
        StoppedIsExact(w, n, target, terminator);
      } else if tj == |target| {
        HitIsExact(w, n, target, terminator);
      } else {
        ScanIsExact(w, n + 1, target, terminator, tj, gj);
        var (found, end) := Scan(w, n + 1, target, terminator, tj, gj);
        assert Scan(w, n, target, terminator, ti, gi) == (found, end);
        ExactStep(w, n, target, terminator, found, end);
      }
    }
  }

  lemma OneMoreByte(w: Text, n: nat, p: Text, i: nat)
    requires n < |w| && Repeats(p) && Longest(w[..n], p, i)
    ensures var k := Next(p, i, w[n]);
            && (EndsAt(w, p, n + 1) <==> k == |p|)
            && (k < |p| ==> Longest(w[..n + 1], p, k))
  {
    assert w[..n + 1] == w[..n] + [w[n]];
    NextIsLongest(w[..n], p, i, w[n]);
    assert p[..|p|] == p;
  }

  lemma NothingMatchedYet(p: Text)
    requires p != []
    ensures Longest([], p, 0)
  {
    assert p[..0] == [];
  }

  /** For patterns that lose nothing to the fallback, findUntil is exact on what is
      still to be read: it returns true just when the first occurrence of the target
      ends strictly before the first one of the terminator, having consumed up to its
      end. */
  lemma FindUntilIsExact(input: Text, n: nat, target: Text, terminator: Text)
    requires n <= |input| && target != [] && Repeats(target) && Repeats(terminator)
    ensures var rest := input[n..];
            var (found, end) := Scan(input, n, target, terminator, 0, 0);
            && (found <==> exists m :: 0 < m <= |rest| && EndsAt(rest, target, m) && Untouched(rest, terminator, 0, m))
            && (found ==> EndsAt(rest, target, end - n) && forall k :: 0 < k < end - n ==> !EndsAt(rest, target, k))
  {
    var rest := input[n..];
    assert rest[..0] == [];
    NothingMatchedYet(target);
    if terminator != [] {
      NothingMatchedYet(terminator);
    }
    ScanIsExact(rest, 0, target, terminator, 0, 0);
    ScanShifts(input, n, 0, target, terminator, 0, 0);
  }

  // ---- And no others ------------------------------------------------------

  lemma {:induction false} TooFewLeft(w: Text, n: nat, target: Text, ti: nat)
    requires n <= |w| && ti < |target| && |w| - n < |target| - ti
    ensures !Scan(w, n, target, [], ti, 0).0
    decreases |w| - n
  {
    if n < |w| {
      var tj := Next(target, ti, w[n]);
      if tj < |target| {
        TooFewLeft(w, n + 1, target, tj);
      }
    }
  }

  lemma {:induction false} PrefixMatches(w: Text, target: Text, i: nat, n: nat)
    requires n <= i < |target| && i <= |w| && w[..i] == target[..i]
    ensures Scan(w, n, target, [], n, 0) == Scan(w, i, target, [], i, 0)
    decreases i - n
  {
    if n < i {
      assert w[n] == w[..i][n] == target[..i][n] == target[n];
      PrefixMatches(w, target, i, n + 1);
    }
  }

  /** The input on which a pattern that does not repeat is missed. */
  function Missed(target: Text, i: nat, j: nat): Text
    requires 0 < j < i < |target|
  {
    target[..i] + target[j..]
  }

  lemma MissedHoldsTarget(target: Text, i: nat, j: nat)
    requires 0 < j < i < |target| && Ends(target[..i], target[..j])
    ensures EndsAt(Missed(target, i, j), target, |Missed(target, i, j)|)
  {
    var w := Missed(target, i, j);
    assert w[..|w|] == w;
    assert w[|w| - |target|..] == target[..i][i - j..] + target[j..];
    assert target[..j] + target[j..] == target;
  }

  lemma MissedIsMissed(target: Text, i: nat, j: nat)
    requires 0 < j < i < |target| && target[j] != target[i]
    ensures !Scan(Missed(target, i, j), 0, target, [], 0, 0).0
  {
    var w := Missed(target, i, j);
    PrefixMatches(w, target, i, 0);
    assert w[i] == target[j];
    TooFewLeft(w, i + 1, target, Next(target, i, w[i]));
  }

  /** find(target) finds a 7-bit target in every input that contains it exactly
      when the target is one that repeats; "aab" in "aaab" is missed. */
  lemma FindIsCompleteIffRepeats(target: Text)
    requires target != [] && Bytes(target)
    ensures (forall input: Text :: Bytes(input) ==>
               (Scan(input, 0, target, [], 0, 0).0 <==> exists m :: 0 < m <= |input| && EndsAt(input, target, m)))
            <==> Repeats(target)
  {
    if Repeats(target) {
      forall input: Text | Bytes(input)
        ensures Scan(input, 0, target, [], 0, 0).0 <==> exists m :: 0 < m <= |input| && EndsAt(input, target, m)
      {
        FindUntilIsExact(input, 0, target, []);
        assert input[0..] == input;
      }
    } else {
      var i, j :| 0 < j < i < |target| && Ends(target[..i], target[..j]) && target[j] != target[i];
      MissedHoldsTarget(target, i, j);
      MissedIsMissed(target, i, j);
      var w := Missed(target, i, j);
      assert Bytes(w);
      assert 0 < |w| <= |w| && EndsAt(w, target, |w|);
    }
  }
}
