/**
 What has been carried out: a list of actions, each with the number of the task, signal or callback that it belongs to.
 Actions of different numbers may be interleaved, as the ones of an inner task are with those of the outer one.
 */
module Histories {
  import opened Common

  /** An action that was carried out, and whose it is: that of a number, or nobody's of them. */
  datatype Done<A> = Done(who: Option<nat>, action: A)

  /** What number `k` has done, in order. */
  function By<A>(history: seq<Done<A>>, k: nat): seq<A> {
    if history == [] then []
    else
      var d := history[|history| - 1];
      By(history[..|history| - 1], k) + if d.who == Some(k) then [d.action] else []
  }

  lemma OneMoreDone<A>(history: seq<Done<A>>, d: Done<A>, k: nat)
    ensures By(history + [d], k) == By(history, k) + if d.who == Some(k) then [d.action] else []
  {
    assert (history + [d])[..|history|] == history;
  }

  /** Numbers from `n` on have done nothing yet. */
  ghost predicate NothingFrom<A>(history: seq<Done<A>>, n: nat) {
    forall k: nat :: k >= n ==> By(history, k) == []
  }

  /** What a number has planned to do. */
  function Planned<A>(plan: seq<seq<A>>, k: nat): seq<A> {
    if k < |plan| then plan[k] else []
  }

  /** Every number from `first` to before `next` has done all that it had planned, in order and nothing else, and those
      before `first` nothing more. */
  ghost predicate Performed<A>(plan: seq<seq<A>>, before: seq<Done<A>>, first: nat, after: seq<Done<A>>, next: nat) {
    && first <= next
    && (forall k: nat :: k < first ==> By(after, k) == By(before, k))
    && (forall k: nat :: first <= k < next ==> By(after, k) == Planned(plan, k))
  }

  /** The same, with one action more of number `who`, which is under way. */
  ghost predicate PerformedAnd<A>(plan: seq<seq<A>>, before: seq<Done<A>>, first: nat, after: seq<Done<A>>, next: nat,
                                  d: Done<A>)
  {
    && first <= next && (d.who.Some? ==> d.who.value < first)
    && (forall k: nat :: k < first ==> By(after, k) == By(before, k) + if d.who == Some(k) then [d.action] else [])
    && (forall k: nat :: first <= k < next ==> By(after, k) == Planned(plan, k))
  }

  lemma NothingPerformed<A>(plan: seq<seq<A>>, history: seq<Done<A>>, n: nat)
    ensures Performed(plan, history, n, history, n)
  {
  }

  /** Without a plan, starting is all. */
  lemma NothingPlanned<A>(plan: seq<seq<A>>, history: seq<Done<A>>, n: nat)
    requires NothingFrom(history, n) && n >= |plan|
    ensures Performed(plan, history, n, history, n + 1) && NothingFrom(history, n + 1)
  {
  }

  lemma PerformedThen<A>(plan: seq<seq<A>>, a: seq<Done<A>>, i: nat, b: seq<Done<A>>, j: nat, c: seq<Done<A>>, k: nat)
    requires Performed(plan, a, i, b, j) && Performed(plan, b, j, c, k)
    ensures Performed(plan, a, i, c, k)
  {
  }

  /** An action is recorded, and then others are carried out. */
  lemma RecordedThen<A>(plan: seq<seq<A>>, a: seq<Done<A>>, i: nat, d: Done<A>, c: seq<Done<A>>, k: nat)
    requires NothingFrom(a, i) && (d.who.Some? ==> d.who.value < i) && Performed(plan, a + [d], i, c, k)
    ensures PerformedAnd(plan, a, i, c, k, d)
  {
    forall n: nat
      ensures By(a + [d], n) == By(a, n) + if d.who == Some(n) then [d.action] else []
    {
      OneMoreDone(a, d, n);
    }
  }

  lemma RecordedNothingFrom<A>(a: seq<Done<A>>, i: nat, d: Done<A>)
    requires NothingFrom(a, i) && (d.who.Some? ==> d.who.value < i)
    ensures NothingFrom(a + [d], i)
  {
    forall n: nat
      ensures By(a + [d], n) == By(a, n) + if d.who == Some(n) then [d.action] else []
    {
      OneMoreDone(a, d, n);
    }
  }

  /** Number `n` has started, and carried out the first `i` of its actions. */
  ghost predicate Performing<A>(plan: seq<seq<A>>, before: seq<Done<A>>, n: nat, after: seq<Done<A>>, next: nat,
                                i: nat)
  {
    && n < next && n < |plan| && i <= |plan[n]|
    && (forall k: nat :: k < n ==> By(after, k) == By(before, k))
    && By(after, n) == plan[n][..i]
    && (forall k: nat :: n < k < next ==> By(after, k) == Planned(plan, k))
  }

  lemma StartsPerforming<A>(plan: seq<seq<A>>, history: seq<Done<A>>, n: nat)
    requires NothingFrom(history, n) && n < |plan|
    ensures Performing(plan, history, n, history, n + 1, 0) && NothingFrom(history, n + 1)
  {
  }

  lemma PerformsOneMore<A>(plan: seq<seq<A>>, before: seq<Done<A>>, n: nat, a: seq<Done<A>>, j: nat, i: nat,
                           b: seq<Done<A>>, k: nat)
    requires Performing(plan, before, n, a, j, i) && i < |plan[n]|
    requires PerformedAnd(plan, a, j, b, k, Done(Some(n), plan[n][i]))
    ensures Performing(plan, before, n, b, k, i + 1)
  {
    assert plan[n][..i + 1] == plan[n][..i] + [plan[n][i]];
  }

  lemma HasPerformed<A>(plan: seq<seq<A>>, before: seq<Done<A>>, n: nat, after: seq<Done<A>>, next: nat)
    requires n < |plan| && Performing(plan, before, n, after, next, |plan[n]|)
    ensures Performed(plan, before, n, after, next)
  {
    assert plan[n][..|plan[n]|] == plan[n];
  }
}
