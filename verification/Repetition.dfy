// Steps that may be repeated: what a run becomes when each of its steps is taken once more, or
// several times more, before the next.

module Repetition {

  // One step after the other.
  ghost function Fold<S, E>(step: (S, E) -> S, base: S, items: seq<E>): S {
    if items == [] then base else step(Fold(step, base, items[..|items| - 1]), items[|items| - 1])
  }

  // One step, and then the same that many times again.
  ghost function Again<S, E>(step: (S, E) -> S, s: S, item: E, times: nat): S {
    step(if times == 0 then s else Again(step, s, item, times - 1), item)
  }

  // The same steps, each repeated so many times.
  ghost function FoldAgain<S, E>(step: (S, E) -> S, base: S, items: seq<E>, times: seq<nat>): S
    requires |times| == |items|
  {
    if items == [] then base
    else Again(step, FoldAgain(step, base, items[..|items| - 1], times[..|items| - 1]), items[|items| - 1], times[|items| - 1])
  }

  // The state comes from these steps, some of them repeated.
  ghost predicate Repeats<S, E>(step: (S, E) -> S, base: S, items: seq<E>, s: S) {
    exists times :: |times| == |items| && s == FoldAgain(step, base, items, times)
  }

  lemma FoldMore<S, E>(step: (S, E) -> S, base: S, items: seq<E>, item: E)
    ensures Fold(step, base, items + [item]) == step(Fold(step, base, items), item)
  {
    assert (items + [item])[..|items|] == items;
  }

  lemma FoldAgainMore<S, E>(step: (S, E) -> S, base: S, items: seq<E>, times: seq<nat>, item: E, n: nat)
    requires |times| == |items|
    ensures FoldAgain(step, base, items + [item], times + [n]) == Again(step, FoldAgain(step, base, items, times), item, n)
  {
    assert (items + [item])[..|items|] == items && (times + [n])[..|items|] == times;
  }

  lemma FirstTime<S, E>(step: (S, E) -> S, base: S, items: seq<E>, s: S, item: E)
    requires Repeats(step, base, items, s)
    ensures Repeats(step, base, items + [item], step(s, item))
  {
    var times :| |times| == |items| && s == FoldAgain(step, base, items, times);
    FoldAgainMore(step, base, items, times, item, 0);
    assert |times + [0]| == |items + [item]|;
  }

  lemma OnceMore<S, E>(step: (S, E) -> S, base: S, items: seq<E>, s: S, item: E)
    requires Repeats(step, base, items + [item], s)
    ensures Repeats(step, base, items + [item], step(s, item))
  {
    var times :| |times| == |items + [item]| && s == FoldAgain(step, base, items + [item], times);
    var front, last := times[..|items|], times[|items|];
    assert times == front + [last];
    FoldAgainMore(step, base, items, front, item, last);
    FoldAgainMore(step, base, items, front, item, last + 1);
    assert |front + [last + 1]| == |items + [item]|;
  }

  // Repeating this step right after it changes nothing.
  ghost predicate StableAt<S, E>(step: (S, E) -> S, base: S, items: seq<E>, n: nat)
    requires n < |items|
  {
    var s := Fold(step, base, items[..n + 1]);
    step(s, items[n]) == s
  }

  ghost predicate Stable<S, E>(step: (S, E) -> S, base: S, items: seq<E>) {
    forall n: nat :: n < |items| ==> StableAt(step, base, items, n)
  }

  lemma StablePrefix<S, E>(step: (S, E) -> S, base: S, items: seq<E>, n: nat)
    requires n <= |items| && Stable(step, base, items)
    ensures Stable(step, base, items[..n])
  {
    forall i: nat | i < n
      ensures StableAt(step, base, items[..n], i)
    {
      assert StableAt(step, base, items, i);
      assert items[..n][..i + 1] == items[..i + 1];
    }
  }

  lemma {:induction false} AgainStays<S, E>(step: (S, E) -> S, s: S, item: E, times: nat)
    requires step(step(s, item), item) == step(s, item)
    ensures Again(step, s, item, times) == step(s, item)
  {
    if times > 0 {
      AgainStays(step, s, item, times - 1);
    }
  }

  // Stable steps may be repeated at will.
  lemma {:induction false} StableStays<S, E>(step: (S, E) -> S, base: S, items: seq<E>, times: seq<nat>)
    requires Stable(step, base, items) && |times| == |items|
    ensures FoldAgain(step, base, items, times) == Fold(step, base, items)
  {
    if items != [] {
      var n := |items| - 1;
      StablePrefix(step, base, items, n);
      StableStays(step, base, items[..n], times[..n]);
      assert items[..n + 1] == items && StableAt(step, base, items, n);
      AgainStays(step, Fold(step, base, items[..n]), items[n], times[n]);
    }
  }

  lemma {:induction false} NeverAgain<S, E>(step: (S, E) -> S, base: S, items: seq<E>)
    ensures FoldAgain(step, base, items, seq(|items|, _ => 0)) == Fold(step, base, items)
  {
    if items != [] {
      var n := |items| - 1;
      NeverAgain(step, base, items[..n]);
      assert seq(|items|, _ => 0)[..n] == seq(n, _ => 0);
    }
  }

  // Only the last of `n + 1` steps is repeated, and once.
  function OnlyLast(n: nat): seq<nat> {
    seq(n, _ => 0) + [1]
  }

  lemma RepeatedOnce<S, E>(step: (S, E) -> S, base: S, items: seq<E>, n: nat)
    requires n < |items|
    ensures FoldAgain(step, base, items[..n + 1], OnlyLast(n)) == step(Fold(step, base, items[..n + 1]), items[n])
  {
    assert items[..n + 1] == items[..n] + [items[n]];
    NeverAgain(step, base, items[..n]);
    FoldAgainMore(step, base, items[..n], seq(n, _ => 0), items[n], 1);
    FoldMore(step, base, items[..n], items[n]);
    assert Again(step, Fold(step, base, items[..n]), items[n], 0) == Fold(step, base, items[..n + 1]);
  }

  // Repetitions never show at any point exactly when every step is stable.
  lemma StableIff<S, E>(step: (S, E) -> S, base: S, items: seq<E>)
    ensures Stable(step, base, items) <==>
            forall n: nat, times: seq<nat> :: n <= |items| && |times| == n ==>
              FoldAgain(step, base, items[..n], times) == Fold(step, base, items[..n])
    ensures forall n: nat :: n < |items| && !StableAt(step, base, items, n) ==>
              FoldAgain(step, base, items[..n + 1], OnlyLast(n)) != Fold(step, base, items[..n + 1])
  {
    if Stable(step, base, items) {
      forall n: nat, times: seq<nat> | n <= |items| && |times| == n
        ensures FoldAgain(step, base, items[..n], times) == Fold(step, base, items[..n])
      {
        StablePrefix(step, base, items, n);
        StableStays(step, base, items[..n], times);
      }
    }
    forall n: nat | n < |items|
      ensures FoldAgain(step, base, items[..n + 1], OnlyLast(n)) == Fold(step, base, items[..n + 1]) <==> StableAt(step, base, items, n)
    {
      RepeatedOnce(step, base, items, n);
    }
  }
}
