/** Runs of any step function, and when a property that single moves can break holds throughout one. */
module Runs {

  function Fold<S, E>(step: (S, E) -> S, s: S, events: seq<E>): S
    decreases |events|
  {
    if events == [] then s else Fold(step, step(s, events[0]), events[1..])
  }

  lemma {:induction false} FoldLast<S, E>(step: (S, E) -> S, s: S, events: seq<E>, i: nat)
    requires i < |events|
    ensures Fold(step, s, events[..i + 1]) == step(Fold(step, s, events[..i]), events[i])
    decreases i
  {
    if i == 0 {
      assert events[..1] == [events[0]] && events[..1][1..] == [] && events[..0] == [];
    } else {
      assert events[..i + 1][1..] == events[1..][..i] && events[..i][1..] == events[1..][..i - 1];
      FoldLast(step, step(s, events[0]), events[1..], i - 1);
    }
  }

  /** Among the states that meet `inv`, which every step keeps, a good one turns bad exactly by a `bad` step. */
  ghost predicate Breaks<S(!new), E(!new)>(step: (S, E) -> S, inv: S -> bool, good: S -> bool, bad: (S, E) -> bool) {
    && (forall s, e :: inv(s) ==> inv(step(s, e)))
    && (forall s, e :: inv(s) && good(s) ==> (good(step(s, e)) <==> !bad(s, e)))
  }

  ghost predicate AlwaysGood<S, E>(step: (S, E) -> S, good: S -> bool, s: S, events: seq<E>) {
    forall i :: 0 <= i <= |events| ==> good(Fold(step, s, events[..i]))
  }

  ghost predicate NeverBad<S, E>(step: (S, E) -> S, bad: (S, E) -> bool, s: S, events: seq<E>) {
    forall i :: 0 <= i < |events| ==> !bad(Fold(step, s, events[..i]), events[i])
  }

  lemma {:induction false} InvUpTo<S(!new), E(!new)>(step: (S, E) -> S, inv: S -> bool, good: S -> bool,
                                                   bad: (S, E) -> bool, s: S, events: seq<E>, i: nat)
    requires Breaks(step, inv, good, bad) && inv(s) && i <= |events|
    ensures inv(Fold(step, s, events[..i]))
    decreases i
  {
    if i == 0 {
      assert events[..0] == [];
    } else {
      InvUpTo(step, inv, good, bad, s, events, i - 1);
      FoldLast(step, s, events, i - 1);
    }
  }

  lemma {:induction false} GoodUpTo<S(!new), E(!new)>(step: (S, E) -> S, inv: S -> bool, good: S -> bool,
                                                    bad: (S, E) -> bool, s: S, events: seq<E>, i: nat)
    requires Breaks(step, inv, good, bad) && inv(s) && good(s) && i <= |events| && NeverBad(step, bad, s, events)
    ensures good(Fold(step, s, events[..i]))
    decreases i
  {
    if i == 0 {
      assert events[..0] == [];
    } else {
      GoodUpTo(step, inv, good, bad, s, events, i - 1);
      InvUpTo(step, inv, good, bad, s, events, i - 1);
      FoldLast(step, s, events, i - 1);
      assert !bad(Fold(step, s, events[..i - 1]), events[i - 1]);
    }
  }

  /** Main result: throughout a run all is good if and only if no step of it is bad. */
  lemma AlwaysGoodIff<S(!new), E(!new)>(step: (S, E) -> S, inv: S -> bool, good: S -> bool, bad: (S, E) -> bool,
                                        s: S, events: seq<E>)
    requires Breaks(step, inv, good, bad) && inv(s) && good(s)
    ensures AlwaysGood(step, good, s, events) <==> NeverBad(step, bad, s, events)
  {
    if NeverBad(step, bad, s, events) {
      forall i | 0 <= i <= |events| ensures good(Fold(step, s, events[..i])) {
        GoodUpTo(step, inv, good, bad, s, events, i);
      }
    }
    if AlwaysGood(step, good, s, events) {
      forall i | 0 <= i < |events| ensures !bad(Fold(step, s, events[..i]), events[i]) {
        InvUpTo(step, inv, good, bad, s, events, i);
        FoldLast(step, s, events, i);
        assert good(Fold(step, s, events[..i])) && good(Fold(step, s, events[..i + 1]));
      }
    }
  }
}
