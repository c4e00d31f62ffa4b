/** Cyclic scans over a fixed-length order, shared by the round-robin choosers. */
module Cyclic {
  import opened Options

  /** How many steps after `start` a cyclic scan of `n` places reaches `i`. */
  function Turn(n: nat, start: nat, i: nat): (turn: nat)
    requires start < n && i < n
    ensures turn < n
  {
    if i >= start then i - start else i + n - start
  }

  lemma ModWrap(n: nat, x: nat)
    requires 0 < n && x < 2 * n
    ensures x % n == if x < n then x else x - n
  {
    if x >= n {
      assert x == n * 1 + (x - n);
    }
  }

  /** The scan position after `offset` steps is the place whose turn it is. */
  lemma TurnAt(n: nat, start: nat, offset: nat)
    requires start < n && offset < n
    ensures (start + offset) % n < n && Turn(n, start, (start + offset) % n) == offset
  {
    ModWrap(n, start + offset);
  }

  lemma AtTurn(n: nat, start: nat, i: nat)
    requires start < n && i < n
    ensures (start + Turn(n, start, i)) % n == i
  {
    ModWrap(n, start + Turn(n, start, i));
  }

  /** `i` is the first marked place at or after `start`, cyclically. */
  predicate FirstInTurn(marked: seq<bool>, start: nat, i: nat) {
    && start < |marked| && i < |marked| && marked[i]
    && forall j :: 0 <= j < |marked| && marked[j] ==> Turn(|marked|, start, i) <= Turn(|marked|, start, j)
  }

  /** Places scanned so far, none of them marked. */
  predicate NoneBefore(marked: seq<bool>, start: nat, offset: nat) {
    && start < |marked|
    && forall j :: 0 <= j < |marked| && Turn(|marked|, start, j) < offset ==> !marked[j]
  }

  lemma ScanStep(marked: seq<bool>, start: nat, offset: nat)
    requires offset < |marked| && NoneBefore(marked, start, offset)
    ensures var i := (start + offset) % |marked|;
            && i < |marked|
            && (marked[i] ==> FirstInTurn(marked, start, i))
            && (!marked[i] ==> NoneBefore(marked, start, offset + 1))
  {
    TurnAt(|marked|, start, offset);
    var i := (start + offset) % |marked|;
    forall j | 0 <= j < |marked| && Turn(|marked|, start, j) == offset ensures j == i {
      AtTurn(|marked|, start, j);
    }
  }

  /** Moving the start just past `i` brings every other place nearer, unless it
      was passed over. */
  lemma TurnAfter(n: nat, start: nat, i: nat, j: nat)
    requires start < n && i < n && j < n && i != j
    requires Turn(n, start, i) < Turn(n, start, j)
    ensures (i + 1) % n < n
    ensures Turn(n, (i + 1) % n, j) == Turn(n, start, j) - Turn(n, start, i) - 1
  {
    ModWrap(n, i + 1);
  }

  /** Scan cyclically from `start` for the first marked place. */
  method ScanFrom(marked: seq<bool>, start: nat) returns (found: Option<nat>)
    requires start < |marked|
    ensures found.Some? ==> FirstInTurn(marked, start, found.value)
    ensures found.None? ==> forall j :: 0 <= j < |marked| ==> !marked[j]
  {
    var offset := 0;
    while offset < |marked|
      invariant offset <= |marked| && NoneBefore(marked, start, offset)
    {
      ScanStep(marked, start, offset);
      if marked[(start + offset) % |marked|] {
        return Some((start + offset) % |marked|);
      }
      offset := offset + 1;
    }
    return None;
  }
}
