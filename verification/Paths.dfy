/** Sketch paths made relative and harmless: an index scan that drops empty and "."
    components, refuses "..", and joins the rest, against splitting, filtering and
    joining. (POSIX branch; a null path is the empty one.) */
module Paths {

  predicate IsSeparator(c: char) { c == '/' || c == '\\' }

  predicate IsName(part: string) { forall c :: c in part ==> !IsSeparator(c) }

  /** The stretches between separators, empty ones included. */
  function Split(s: string): (parts: seq<string>)
    ensures |parts| > 0
  {
    if s == "" then [""]
    else
      var parts := Split(s[..|s| - 1]);
      var n := |parts| - 1;
      if IsSeparator(s[|s| - 1]) then parts + [""] else parts[..n] + [parts[n] + [s[|s| - 1]]]
  }

  predicate Counts(part: string) { part != "" && part != "." }

  function Kept(parts: seq<string>): seq<string> {
    if parts == [] then []
    else
      var n := |parts| - 1;
      Kept(parts[..n]) + if Counts(parts[n]) then [parts[n]] else []
  }

  function Join(parts: seq<string>): string {
    if parts == [] then ""
    else if |parts| == 1 then parts[0]
    else Join(parts[..|parts| - 1]) + "/" + parts[|parts| - 1]
  }

  function Sanitize(s: string): string {
    if ".." in Split(s) then "" else Join(Kept(Split(s)))
  }

  /** A plain list of directory names. */
  predicate Plain(parts: seq<string>) {
    forall p :: p in parts ==> IsName(p) && p != "" && p != "." && p != ".."
  }

  // --- splitting -----------------------------------------------------------

  lemma {:induction false} SplitsAreNames(s: string)
    ensures forall p :: p in Split(s) ==> IsName(p)
  {
    if s != "" {
      SplitsAreNames(s[..|s| - 1]);
      var parts := Split(s[..|s| - 1]);
      assert IsName(parts[|parts| - 1]);
      assert !IsSeparator(s[|s| - 1]) ==> IsName(parts[|parts| - 1] + [s[|s| - 1]]);
    }
  }

  function Lengthened(parts: seq<string>, tail: string): seq<string>
    requires parts != []
  {
    parts[..|parts| - 1] + [parts[|parts| - 1] + tail]
  }

  lemma LengthenedTwice(parts: seq<string>, a: string, b: string)
    requires parts != []
    ensures Lengthened(Lengthened(parts, a), b) == Lengthened(parts, a + b)
  {
    assert parts[|parts| - 1] + a + b == parts[|parts| - 1] + (a + b);
    assert Lengthened(parts, a)[..|parts| - 1] == parts[..|parts| - 1];
  }

  /** A name put at the end lengthens the last component. */
  lemma {:induction false} SplitName(s: string, name: string)
    requires IsName(name)
    ensures Split(s + name) == Lengthened(Split(s), name)
  {
    if name == "" {
      assert s + name == s && Split(s)[|Split(s)| - 1] + name == Split(s)[|Split(s)| - 1];
    } else {
      var m := |name| - 1;
      SplitName(s, name[..m]);
      assert (s + name)[..|s + name| - 1] == s + name[..m];
      assert name[..m] + [name[m]] == name;
      LengthenedTwice(Split(s), name[..m], [name[m]]);
    }
  }

  lemma SplitSeparator(s: string, c: char)
    requires IsSeparator(c)
    ensures Split(s + [c]) == Split(s) + [""]
  {
    assert (s + [c])[..|s + [c]| - 1] == s;
  }

  /** What is split off before a separator stays split off. */
  lemma {:induction false} SplitPrefix(s: string, i: nat)
    requires i <= |s| && (i == |s| || IsSeparator(s[i]))
    ensures Split(s[..i]) <= Split(s)
    decreases |s|
  {
    if i == |s| {
      assert s[..i] == s;
    } else if i == |s| - 1 {
    } else {
      var t := s[..|s| - 1];
      SplitPrefix(t, i);
      assert t[..i] == s[..i];
      SeparatorSplits(t, i);
    }
  }

  lemma {:induction false} SeparatorSplits(s: string, i: nat)
    requires i < |s| && IsSeparator(s[i])
    ensures |Split(s[..i])| < |Split(s)|
    decreases |s|
  {
    if i == |s| - 1 {
    } else {
      var t := s[..|s| - 1];
      assert t[..i] == s[..i];
      SeparatorSplits(t, i);
    }
  }

  /** A separator at either end leaves an empty component there. */
  lemma {:induction false} EdgesShow(s: string)
    ensures s == "" || IsSeparator(s[0]) ==> Split(s)[0] == ""
    ensures s == "" || IsSeparator(s[|s| - 1]) ==> Split(s)[|Split(s)| - 1] == ""
    ensures s != "" && IsSeparator(s[0]) ==> |Split(s)| > 1
  {
    if s != "" {
      EdgesShow(s[..|s| - 1]);
    }
  }

  // --- round trip ----------------------------------------------------------

  lemma SplitJoined(base: string, name: string)
    requires IsName(name)
    ensures Split(base + "/" + name) == Split(base) + [name]
  {
    var parts := Split(base);
    SplitSeparator(base, '/');
    SplitName(base + "/", name);
    assert (parts + [""])[..|parts|] == parts && "" + name == name;
  }

  lemma {:induction false} SplitUndoesJoin(parts: seq<string>)
    requires parts != [] && forall p :: p in parts ==> IsName(p)
    ensures Split(Join(parts)) == parts
  {
    var n := |parts| - 1;
    assert IsName(parts[n]) && parts[..n] + [parts[n]] == parts;
    if n == 0 {
      SplitName("", parts[0]);
      assert "" + parts[0] == parts[0] && Split("") == [""];
    } else {
      SplitUndoesJoin(parts[..n]);
      SplitJoined(Join(parts[..n]), parts[n]);
    }
  }

  lemma {:induction false} KeptArePlain(parts: seq<string>)
    requires ".." !in parts && forall p :: p in parts ==> IsName(p)
    ensures Plain(Kept(parts))
  {
    if parts != [] {
      KeptArePlain(parts[..|parts| - 1]);
    }
  }

  lemma {:induction false} PlainIsKept(parts: seq<string>)
    requires Plain(parts)
    ensures Kept(parts) == parts
  {
    if parts != [] {
      var n := |parts| - 1;
      PlainIsKept(parts[..n]);
      assert parts[n] in parts && Counts(parts[n]);
      assert parts[..n] + [parts[n]] == parts;
    }
  }

  /** The result is empty, because of a ".." or for want of a name, or its components
      are exactly the names of the input in order: none empty, "." or "..", and no
      separator at either end. */
  lemma SanitizedIsPlain(s: string)
    ensures var out := Sanitize(s);
            && (out == "" <==> ".." in Split(s) || Kept(Split(s)) == [])
            && (out != "" ==> Split(out) == Kept(Split(s)) && Plain(Split(out)))
            && (out != "" ==> !IsSeparator(out[0]) && !IsSeparator(out[|out| - 1]))
  {
    var names := Kept(Split(s));
    if ".." !in Split(s) && names != [] {
      SplitsAreNames(s);
      KeptArePlain(Split(s));
      SplitUndoesJoin(names);
      EdgesShow(Join(names));
      assert names[0] in names && names[|names| - 1] in names;
    }
  }

  lemma SanitizeIsIdempotent(s: string)
    ensures Sanitize(Sanitize(s)) == Sanitize(s)
  {
    var out := Sanitize(s);
    SanitizedIsPlain(s);
    if out == "" {
      assert Split("") == [""] && Kept([""]) == [];
    } else {
      PlainIsKept(Split(out));
    }
  }

  /** Two spellings with the same names are one path, and no others are. */
  lemma SameNamesSamePath(s: string, t: string)
    requires ".." !in Split(s) && ".." !in Split(t)
    ensures Sanitize(s) == Sanitize(t) <==> Kept(Split(s)) == Kept(Split(t))
  {
    SanitizedIsPlain(s);
    SanitizedIsPlain(t);
  }

  // --- the scan ------------------------------------------------------------

  function JoinPath(base: string, name: string): string {
    if base == "" then name
    else if name == "" then base
    else if IsSeparator(base[|base| - 1]) then base + name
    else base + "/" + name
  }

  /** The names found so far. */
  function Names(s: string): seq<string> { Kept(Split(s)) }

  lemma KeptAppend(parts: seq<string>, part: string)
    ensures Kept(parts + [part]) == if Counts(part) then Kept(parts) + [part] else Kept(parts)
  {
    assert (parts + [part])[..|parts|] == parts;
  }

  lemma NamesIgnoreSeparator(s: string, i: nat)
    requires i < |s| && IsSeparator(s[i])
    ensures Names(s[..i + 1]) == Names(s[..i])
    ensures ".." in Split(s[..i + 1]) <==> ".." in Split(s[..i])
  {
    assert s[..i + 1] == s[..i] + [s[i]];
    SplitSeparator(s[..i], s[i]);
    KeptAppend(Split(s[..i]), "");
  }

  /** Where a component may begin, the last one is still empty. */
  lemma ComponentBegins(s: string, start: nat) returns (parts: seq<string>)
    requires start <= |s| && (start == 0 || IsSeparator(s[start - 1]))
    ensures Split(s[..start]) == parts + [""]
  {
    var all := Split(s[..start]);
    parts := all[..|all| - 1];
    if start > 0 {
      assert s[..start] == s[..start - 1] + [s[start - 1]];
      SplitSeparator(s[..start - 1], s[start - 1]);
    }
  }

  lemma SplitOfPart(s: string, start: nat, i: nat) returns (parts: seq<string>)
    requires start <= i <= |s| && IsName(s[start..i]) && (start == 0 || IsSeparator(s[start - 1]))
    ensures Split(s[..start]) == parts + [""] && Split(s[..i]) == parts + [s[start..i]]
  {
    parts := ComponentBegins(s, start);
    SplitName(s[..start], s[start..i]);
    assert s[..start] + s[start..i] == s[..i];
    assert (parts + [""])[..|parts|] == parts && "" + s[start..i] == s[start..i];
  }

  lemma NamesOfPart(s: string, start: nat, i: nat)
    requires start <= i <= |s| && IsName(s[start..i]) && (start == 0 || IsSeparator(s[start - 1]))
    ensures var part := s[start..i];
            && Names(s[..i]) == (if Counts(part) then Names(s[..start]) + [part] else Names(s[..start]))
            && (".." in Split(s[..i]) <==> ".." in Split(s[..start]) || part == "..")
  {
    var parts := SplitOfPart(s, start, i);
    KeptAppend(parts, "");
    KeptAppend(parts, s[start..i]);
  }

  lemma JoinOneMore(names: seq<string>, part: string)
    requires Plain(names) && Counts(part) && IsName(part)
    ensures Join(names + [part]) == if Join(names) == "" then part else JoinPath(Join(names), part)
    ensures Join(names) == "" <==> names == []
  {
    assert (names + [part])[..|names|] == names;
    if names != [] {
      SplitUndoesJoin(names);
      EdgesShow(Join(names));
      assert names[0] in names && names[|names| - 1] in names;
    }
  }

  lemma NamesArePlain(s: string)
    requires ".." !in Split(s)
    ensures Plain(Names(s))
  {
    SplitsAreNames(s);
    KeptArePlain(Split(s));
  }

  /** The scan has produced what sanitizing the part read so far gives. */
  predicate Produced(s: string, i: nat, out: string)
    requires i <= |s|
  {
    ".." !in Split(s[..i]) && out == Join(Names(s[..i]))
  }

  function Extended(out: string, part: string): string {
    if !Counts(part) then out else if out == "" then part else JoinPath(out, part)
  }

  /** At the start, or next to a separator. */
  predicate MayBegin(s: string, i: nat)
    requires i < |s|
  {
    i == 0 || IsSeparator(s[i - 1]) || IsSeparator(s[i])
  }

  /** One more component, from a place where one may begin. */
  lemma PartProduces(s: string, start: nat, i: nat, out: string)
    requires start <= i <= |s| && IsName(s[start..i]) && (start == 0 || IsSeparator(s[start - 1]))
    requires i == |s| || IsSeparator(s[i])
    requires Produced(s, start, out)
    ensures s[start..i] == ".." ==> Sanitize(s) == ""
    ensures s[start..i] != ".." ==>
              Produced(s, i, Extended(out, s[start..i]))
  {
    var part := s[start..i];
    NamesOfPart(s, start, i);
    if part == ".." {
      SplitPrefix(s, i);
      assert ".." in Split(s[..i]);
    } else if Counts(part) {
      NamesArePlain(s[..start]);
      JoinOneMore(Names(s[..start]), part);
    }
  }

  lemma {:induction false} SeparatorsProduce(s: string, from: nat, i: nat, out: string)
    requires from <= i <= |s| && Produced(s, from, out)
    requires forall k :: from <= k < i ==> IsSeparator(s[k])
    ensures Produced(s, i, out)
    decreases i
  {
    if from < i {
      SeparatorsProduce(s, from, i - 1, out);
      NamesIgnoreSeparator(s, i - 1);
    }
  }

  method SanitizePath(input: string) returns (out: string)
    ensures out == Sanitize(input)
  {
    out := "";
    assert Split("") == [""] && Kept([""]) == [] && input[..0] == "";
    var index := SkipSeparators(input, 0, out);
    while index < |input|
      invariant index <= |input| && Produced(input, index, out)
      invariant index == |input| || MayBegin(input, index)
    {
      var part: string;
      index, part := NextPart(input, index, out);
      if part == "" || part == "." {
        continue;
      }
      if part == ".." {
        return "";
      }
      out := if out == "" then part else JoinPath(out, part);
    }
    assert input[..index] == input;
  }

  /** The component after the separators at `from`, and where it ends. */
  method NextPart(input: string, from: nat, ghost out: string) returns (index: nat, part: string)
    requires from < |input| && Produced(input, from, out) && MayBegin(input, from)
    ensures from < index <= |input| && (index == |input| || MayBegin(input, index))
    ensures part == ".." ==> Sanitize(input) == ""
    ensures part != ".." ==> Produced(input, index, Extended(out, part))
  {
    var start := SkipSeparators(input, from, out);
    index := SkipName(input, start);
    part := input[start..index];
    if start < |input| {
      PartProduces(input, start, index, out);
    }
  }

  method SkipName(input: string, from: nat) returns (index: nat)
    requires from <= |input|
    ensures from <= index <= |input| && IsName(input[from..index])
    ensures index == |input| || IsSeparator(input[index])
  {
    index := from;
    while index < |input| && !IsSeparator(input[index])
      invariant from <= index <= |input| && IsName(input[from..index])
    {
      assert input[from..index + 1] == input[from..index] + [input[index]];
      index := index + 1;
    }
  }

  method SkipSeparators(input: string, from: nat, ghost out: string) returns (index: nat)
    requires from <= |input| && Produced(input, from, out)
    ensures from <= index <= |input| && (index == |input| || !IsSeparator(input[index]))
    ensures Produced(input, index, out)
    ensures from < index ==> IsSeparator(input[index - 1])
  {
    index := from;
    while index < |input| && IsSeparator(input[index])
      invariant from <= index <= |input| && forall k :: from <= k < index ==> IsSeparator(input[k])
    {
      index := index + 1;
    }
    SeparatorsProduce(input, from, index, out);
  }

  // --- any spelling --------------------------------------------------------

  lemma SplitLast(s: string, c: char)
    ensures Split(s + [c]) == if c == '/' || c == '\\' then Split(s) + [""] else Lengthened(Split(s), [c])
  {
    assert (s + [c])[..|s + [c]| - 1] == s;
  }

  lemma LengthenedAfter(parts: seq<string>, more: seq<string>, tail: string)
    requires more != []
    ensures Lengthened(parts + more, tail) == parts + Lengthened(more, tail)
    ensures (parts + more) + [""] == parts + (more + [""])
  {
    assert (parts + more)[..|parts + more| - 1] == parts + more[..|more| - 1];
  }

  /** Slashes and backslashes both separate. */
  lemma {:induction false} SplitAround(s: string, c: char, t: string)
    requires c == '/' || c == '\\'
    ensures Split(s + [c] + t) == Split(s) + Split(t)
    decreases |t|
  {
    if t == "" {
      assert s + [c] + t == s + [c];
      SplitLast(s, c);
    } else {
      var init, d := t[..|t| - 1], t[|t| - 1];
      SplitAround(s, c, init);
      assert t == init + [d];
      assert s + [c] + t == (s + [c] + init) + [d];
      SplitLast(s + [c] + init, d);
      SplitLast(init, d);
      LengthenedAfter(Split(s), Split(init), [d]);
    }
  }

  lemma {:induction false} KeptConcat(a: seq<string>, b: seq<string>)
    ensures Kept(a + b) == Kept(a) + Kept(b)
    decreases |b|
  {
    if b == [] {
      assert a + b == a;
    } else {
      var n := |b| - 1;
      KeptConcat(a, b[..n]);
      assert (a + b)[..|a + b| - 1] == a + b[..n];
    }
  }

  /** Only the empty component and "." are dropped. */
  lemma KeptAround(a: seq<string>, part: string, b: seq<string>)
    ensures Kept(a + [part] + b) == if part == "" || part == "." then Kept(a) + Kept(b) else Kept(a) + [part] + Kept(b)
  {
    KeptConcat(a + [part], b);
    KeptAppend(a, part);
  }

  /** The components with a separator between each two. */
  function Glue(parts: seq<string>, separators: string): string
    requires |parts| == |separators| + 1
  {
    if separators == "" then parts[0]
    else
      var n := |separators| - 1;
      Glue(parts[..n + 1], separators[..n]) + [separators[n]] + parts[n + 1]
  }

  /** Components free of separators, and separators. */
  predicate Spelt(parts: seq<string>, separators: string) {
    && |parts| == |separators| + 1
    && (forall i :: 0 <= i < |parts| ==> '/' !in parts[i] && '\\' !in parts[i])
    && (forall i :: 0 <= i < |separators| ==> separators[i] == '/' || separators[i] == '\\')
  }

  lemma SplitOne(part: string)
    requires '/' !in part && '\\' !in part
    ensures Split(part) == [part]
  {
    assert IsName(part);
    SplitName("", part);
    assert "" + part == part && Split("") == [""];
  }

  lemma {:induction false} SplitUndoesGlue(parts: seq<string>, separators: string)
    requires Spelt(parts, separators)
    ensures Split(Glue(parts, separators)) == parts
    decreases |separators|
  {
    var n := |separators|;
    SplitOne(parts[n]);
    if n == 0 {
      assert parts == [parts[0]];
    } else {
      SplitUndoesGlue(parts[..n], separators[..n - 1]);
      SplitAround(Glue(parts[..n], separators[..n - 1]), separators[n - 1], parts[n]);
      assert parts[..n] + [parts[n]] == parts;
    }
  }

  /** However a path is spelt, with slashes or backslashes, doubled or not: the result is
      empty if a component is "..", and otherwise the components that are neither empty
      nor "." with one slash between each two; no backslash is left. */
  lemma AnySpelling(parts: seq<string>, separators: string)
    requires Spelt(parts, separators)
    ensures Sanitize(Glue(parts, separators)) == if ".." in parts then "" else Join(Kept(parts))
    ensures '\\' !in Sanitize(Glue(parts, separators))
  {
    SplitUndoesGlue(parts, separators);
    KeptHasNoBackslash(parts);
    JoinHasNoBackslash(Kept(parts));
  }

  lemma {:induction false} KeptHasNoBackslash(parts: seq<string>)
    requires forall p :: p in parts ==> '\\' !in p
    ensures forall p :: p in Kept(parts) ==> '\\' !in p
  {
    if parts != [] {
      KeptHasNoBackslash(parts[..|parts| - 1]);
    }
  }

  lemma {:induction false} JoinHasNoBackslash(parts: seq<string>)
    requires forall p :: p in parts ==> '\\' !in p
    ensures '\\' !in Join(parts)
  {
    if |parts| > 1 {
      JoinHasNoBackslash(parts[..|parts| - 1]);
    }
  }

  /** joinPath puts the names of the second path after those of the first, adding a
      slash only where none of either kind ends the first. */
  lemma JoinPathNames(base: string, name: string)
    ensures Names(JoinPath(base, name)) == Names(base) + Names(name)
    ensures base != "" && name != "" ==>
              |JoinPath(base, name)| == |base| + |name|
                                        + (if base[|base| - 1] == '/' || base[|base| - 1] == '\\' then 0 else 1)
  {
    assert Split("") == [""] && Kept([""]) == [];
    if base != "" && name != "" {
      var n := |base| - 1;
      if IsSeparator(base[n]) {
        assert base == base[..n] + [base[n]];
        SplitAround(base[..n], base[n], name);
        SplitSeparator(base[..n], base[n]);
        KeptAppend(Split(base[..n]), "");
        KeptConcat(Split(base[..n]), Split(name));
      } else {
        SplitAround(base, '/', name);
        KeptConcat(Split(base), Split(name));
      }
    }
  }
}
