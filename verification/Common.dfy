/** What several modules share: machine words, the tick argument of a blocking
    call, runs of a labelled state machine, and counting the elements of a sequence
    that satisfy a predicate. */
module Common {

  datatype Option<+T> = None | Some(value: T)

  const UINT32: nat := 0x1_0000_0000
  const UINT64: nat := 0x1_0000_0000_0000_0000

  type Octet = n: nat | n < 256
  type Word = n: nat | n < UINT32

  /** ++ on a uint32_t. */
  function Incremented(n: Word): Word { if n == UINT32 - 1 then 0 else n + 1 }

  function Min(a: nat, b: nat): nat { if a < b then a else b }

  function Unit(b: bool): nat { if b then 1 else 0 }

  /** `ticks_to_wait` of 0, a finite number, or portMAX_DELAY. */
  datatype Wait = NoWait | Bounded | Forever

  // ---- Runs ---------------------------------------------------------------

  /** Any interleaving: the labels run in order, None once one is not enabled. */
  function Run<S, L>(step: (S, L) -> Option<S>, s: S, ls: seq<L>): Option<S>
    decreases |ls|
  {
    if ls == [] then Some(s)
    else match step(s, ls[0])
      case None => None
      case Some(s') => Run(step, s', ls[1..])
  }

  lemma {:induction false} RunSplit<S, L>(step: (S, L) -> Option<S>, s: S, ls: seq<L>, ms: seq<L>)
    ensures Run(step, s, ls + ms) ==
              match Run(step, s, ls) case None => None case Some(s') => Run(step, s', ms)
    decreases |ls|
  {
    if ls == [] {
      assert ls + ms == ms;
    } else {
      assert (ls + ms)[1..] == ls[1..] + ms;
      if step(s, ls[0]).Some? {
        RunSplit(step, step(s, ls[0]).value, ls[1..], ms);
      }
    }
  }

  lemma RunJoin<S, L>(step: (S, L) -> Option<S>, a: S, ls: seq<L>, b: S, ms: seq<L>, c: S)
    requires Run(step, a, ls) == Some(b) && Run(step, b, ms) == Some(c)
    ensures Run(step, a, ls + ms) == Some(c)
  {
    RunSplit(step, a, ls, ms);
  }

  lemma RunFirst<S, L>(step: (S, L) -> Option<S>, a: S, l: L, b: S, ls: seq<L>, c: S)
    requires step(a, l) == Some(b) && Run(step, b, ls) == Some(c)
    ensures Run(step, a, [l] + ls) == Some(c)
  {
    assert ([l] + ls)[1..] == ls;
  }

  lemma RunOne<S, L>(step: (S, L) -> Option<S>, s: S, l: L)
    ensures Run(step, s, [l]) == step(s, l)
  {
    assert [l][1..] == [];
  }

  lemma RunThree<S, L>(step: (S, L) -> Option<S>, s: S, l: L, a: S, m: L, b: S, n: L, c: S)
    requires step(s, l) == Some(a) && step(a, m) == Some(b) && step(b, n) == Some(c)
    ensures Run(step, s, [l, m, n]) == Some(c)
  {
    assert [l, m, n][1..] == [m, n] && [m, n][1..] == [n];
    RunOne(step, b, n);
    assert Run(step, a, [m, n]) == Run(step, b, [n]);
  }

  // ---- Counting -----------------------------------------------------------

  function Count<T>(s: seq<T>, p: T -> bool): (n: nat)
    ensures n <= |s|
  {
    if s == [] then 0 else Unit(p(s[0])) + Count(s[1..], p)
  }

  /** Replacing one element moves the count by that element alone. */
  lemma {:induction false} CountUpdate<T>(s: seq<T>, i: nat, x: T, p: T -> bool)
    requires i < |s|
    ensures Count(s[i := x], p) == Count(s, p) - Unit(p(s[i])) + Unit(p(x))
  {
    if i == 0 {
      assert s[i := x][1..] == s[1..];
    } else {
      CountUpdate(s[1..], i - 1, x, p);
      assert s[i := x][1..] == s[1..][i - 1 := x];
    }
  }

  /** A count is positive exactly when some element is counted. */
  lemma {:induction false} CountPositive<T>(s: seq<T>, p: T -> bool)
    ensures Count(s, p) > 0 <==> exists i :: 0 <= i < |s| && p(s[i])
  {
    if s != [] {
      CountPositive(s[1..], p);
      if i :| 0 <= i < |s[1..]| && p(s[1..][i]) {
        assert p(s[i + 1]);
      }
      if i :| 0 <= i < |s| && p(s[i]) {
        assert i == 0 || p(s[1..][i - 1]);
      }
    }
  }

  /** A count depends only on which elements are counted. */
  lemma {:induction false} CountPointwise<T>(s: seq<T>, u: seq<T>, p: T -> bool)
    requires |s| == |u|
    requires forall i :: 0 <= i < |s| ==> p(s[i]) == p(u[i])
    ensures Count(s, p) == Count(u, p)
  {
    if s != [] {
      CountPointwise(s[1..], u[1..], p);
    }
  }
}
