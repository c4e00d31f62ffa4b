/** Choosing one allocator among the arms that passed the guardrails. */
module Ranking {
  import opened Options

  /** An arm as the ranking sees it; `median` is absent when the target was
      reached too seldom for the median time to be finite. */
  datatype Arm = Arm(eligible: bool, mean: real, lower: real, median: Option<real>)

  /** An absent median time counts as infinite. */
  predicate Sooner(a: Option<real>, b: Option<real>) {
    a.Some? && (b.None? || a.value < b.value)
  }

  /** Arm `i` ranks before arm `j`: mean, then lower bound, then time to the
      target, then registry order. */
  predicate Outranks(arms: seq<Arm>, i: nat, j: nat)
    requires i < |arms| && j < |arms|
  {
    var a, b := arms[i], arms[j];
    || a.mean > b.mean
    || (a.mean == b.mean
        && (|| a.lower > b.lower
            || (a.lower == b.lower && (Sooner(a.median, b.median) || (a.median == b.median && i < j)))))
  }

  lemma OutranksTotal(arms: seq<Arm>, i: nat, j: nat)
    requires i < |arms| && j < |arms|
    ensures i == j || Outranks(arms, i, j) || Outranks(arms, j, i)
    ensures !(Outranks(arms, i, j) && Outranks(arms, j, i))
  {
  }

  lemma OutranksTransitive(arms: seq<Arm>, i: nat, j: nat, k: nat)
    requires i < |arms| && j < |arms| && k < |arms|
    requires Outranks(arms, i, j) && Outranks(arms, j, k)
    ensures Outranks(arms, i, k)
  {
  }

  /** The eligible arm that outranks every other eligible one. */
  predicate Wins(arms: seq<Arm>, i: nat) {
    && i < |arms| && arms[i].eligible
    && forall j :: 0 <= j < |arms| && arms[j].eligible && j != i ==> Outranks(arms, i, j)
  }

  lemma WinnerIsUnique(arms: seq<Arm>, i: nat, j: nat)
    requires Wins(arms, i) && Wins(arms, j)
    ensures i == j
  {
    if i != j { OutranksTotal(arms, i, j); }
  }

  /** The head of the ranked eligible arms; none exactly when no arm is eligible. */
  method Select(arms: seq<Arm>) returns (selected: Option<nat>)
    ensures selected.Some? ==> Wins(arms, selected.value)
    ensures selected.None? <==> forall i :: 0 <= i < |arms| ==> !arms[i].eligible
  {
    selected := None;
    var i := 0;
    while i < |arms|
      invariant i <= |arms|
      invariant selected.None? ==> forall j :: 0 <= j < i ==> !arms[j].eligible
      invariant selected.Some? ==>
                  && selected.value < i && arms[selected.value].eligible
                  && forall j :: 0 <= j < i && arms[j].eligible && j != selected.value ==> Outranks(arms, selected.value, j)
    {
      if arms[i].eligible {
        if selected.None? {
          selected := Some(i);
        } else if Outranks(arms, i, selected.value) {
          forall j | 0 <= j < i && arms[j].eligible && j != selected.value ensures Outranks(arms, i, j) {
            OutranksTransitive(arms, i, selected.value, j);
          }
          selected := Some(i);
        } else {
          OutranksTotal(arms, i, selected.value);
        }
      }
      i := i + 1;
    }
  }

  /** An arm that fails its guardrails never affects the choice: whatever its
      scores, the same arm wins. */
  lemma IneligibleArmsAreIrrelevant(arms: seq<Arm>, i: nat, k: nat, other: Arm)
    requires Wins(arms, i) && k < |arms| && !arms[k].eligible && !other.eligible
    ensures Wins(arms[k := other], i)
  {
    var changed := arms[k := other];
    forall j | 0 <= j < |changed| && changed[j].eligible && j != i ensures Outranks(changed, i, j) {
      assert Outranks(arms, i, j);
    }
  }

  /** Disqualifying a losing arm leaves the winner in place. */
  lemma LosingArmsAreIrrelevant(arms: seq<Arm>, i: nat, k: nat)
    requires Wins(arms, i) && k < |arms| && k != i
    ensures Wins(arms[k := arms[k].(eligible := false)], i)
  {
    var changed := arms[k := arms[k].(eligible := false)];
    forall j | 0 <= j < |changed| && changed[j].eligible && j != i ensures Outranks(changed, i, j) {
      assert Outranks(arms, i, j);
    }
  }
}
