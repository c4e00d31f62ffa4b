/** Sorting, replay suppression, and why neither order nor repetition of rows matters. */
module TraceOrder {
  import opened Lexicographic
  import opened TraceRecords

  /** The stable sort by sequence and identity. */
  function Sort(rows: seq<Record>): seq<Record> {
    if rows == [] then [] else Insert(Sort(rows[..|rows|-1]), rows[|rows|-1])
  }

  function Insert(rows: seq<Record>, r: Record): seq<Record> {
    if rows == [] then [r]
    else if RowLess(r, rows[0]) then [r] + rows
    else [rows[0]] + Insert(rows[1..], r)
  }

  ghost predicate InOrder(rows: seq<Record>) {
    forall i, j :: 0 <= i < j < |rows| ==> !RowLess(rows[j], rows[i])
  }

  ghost predicate Ascending(rows: seq<Record>) {
    forall i, j :: 0 <= i < j < |rows| ==> RowLess(rows[i], rows[j])
  }

  ghost predicate SameElements(a: seq<Record>, b: seq<Record>) {
    forall r :: r in a <==> r in b
  }

  lemma {:induction false} InsertElements(rows: seq<Record>, r: Record)
    ensures multiset(Insert(rows, r)) == multiset(rows) + multiset{r}
  {
    if rows != [] && !RowLess(r, rows[0]) {
      InsertElements(rows[1..], r);
      assert rows == [rows[0]] + rows[1..];
    }
  }

  lemma NotLessThrough(a: Record, b: Record, c: Record)
    requires !RowLess(b, a) && !RowLess(c, b)
    ensures !RowLess(c, a)
  {
    RowLessTotal(a, b);
    if RowLess(c, a) {
      if RowLess(a, b) { RowLessTransitive(c, a, b); }
    }
  }

  lemma {:induction false} InsertInOrder(rows: seq<Record>, r: Record)
    requires InOrder(rows)
    ensures InOrder(Insert(rows, r))
  {
    if rows == [] {
    } else if RowLess(r, rows[0]) {
      var all := [r] + rows;
      RowLessTotal(r, rows[0]);
      forall j | 0 <= j < |rows| ensures !RowLess(rows[j], r) {
        if j > 0 { NotLessThrough(r, rows[0], rows[j]); }
      }
    } else {
      InsertInOrder(rows[1..], r);
      InsertElements(rows[1..], r);
      var tail := Insert(rows[1..], r);
      forall x | x in tail ensures !RowLess(x, rows[0]) {
        assert x in multiset(tail);
      }
    }
  }

  /** Sorting yields the same rows, as often as before, in order. */
  lemma {:induction false} Sorts(rows: seq<Record>)
    ensures multiset(Sort(rows)) == multiset(rows) && InOrder(Sort(rows))
  {
    if rows != [] {
      var n := |rows| - 1;
      Sorts(rows[..n]);
      InsertElements(Sort(rows[..n]), rows[n]);
      InsertInOrder(Sort(rows[..n]), rows[n]);
      assert rows == rows[..n] + [rows[n]];
    }
  }

  // ---------------------------------------------------------------------
  // Replay suppression
  // ---------------------------------------------------------------------

  function Identities(rows: seq<Record>): set<seq<string>> {
    set r <- rows :: Identity(r)
  }

  /** The first row of each identity among the rows of the given tasks. */
  function Kept(rows: seq<Record>, tasks: seq<string>): seq<Record> {
    if rows == [] then []
    else
      var front, r := Kept(rows[..|rows|-1], tasks), rows[|rows|-1];
      if r.taskId in tasks && Identity(r) !in Identities(front) then front + [r] else front
  }

  /** No row of the same identity comes earlier in sequence. */
  ghost predicate Leading(rows: seq<Record>, r: Record) {
    r in rows && forall x :: x in rows && Identity(x) == Identity(r) ==> r.sequence <= x.sequence
  }

  /** Two different rows lead the same identity. */
  ghost predicate Rivals(a: seq<Record>, tasks: seq<string>, x: Record, y: Record) {
    Leading(a, x) && Leading(a, y) && Identity(x) == Identity(y) && x.taskId in tasks && x != y
  }

  /** Among the rows of the given tasks, each identity has a single leading row. */
  ghost predicate OneLeader(rows: seq<Record>, tasks: seq<string>) {
    forall x, y :: !Rivals(rows, tasks, x, y)
  }

  lemma IdentityNamesTask(a: Record, b: Record)
    requires Identity(a) == Identity(b)
    ensures a.taskId == b.taskId
  {
    assert Identity(a)[0] == Identity(b)[0] && Identity(a)[1] == Identity(b)[1];
    if a.recordId == "" {
      assert Identity(a)[0] == "semantic";
      assert Identity(a)[2] == Identity(b)[2];
    } else {
      assert Identity(a)[0] == "id";
    }
  }

  lemma {:induction false} KeptIsSubset(rows: seq<Record>, tasks: seq<string>)
    ensures forall r :: r in Kept(rows, tasks) ==> r in rows && r.taskId in tasks
    ensures forall r :: r in rows && r.taskId in tasks ==> Identity(r) in Identities(Kept(rows, tasks))
    ensures forall i, j :: 0 <= i < j < |Kept(rows, tasks)| ==> Identity(Kept(rows, tasks)[i]) != Identity(Kept(rows, tasks)[j])
  {
    if rows != [] {
      var n := |rows| - 1;
      KeptIsSubset(rows[..n], tasks);
      assert rows == rows[..n] + [rows[n]];
    }
  }

  lemma {:induction false} KeptInOrder(rows: seq<Record>, tasks: seq<string>)
    requires InOrder(rows)
    ensures InOrder(Kept(rows, tasks))
  {
    if rows != [] {
      var n := |rows| - 1;
      KeptInOrder(rows[..n], tasks);
      KeptIsSubset(rows[..n], tasks);
      forall x | x in rows[..n] ensures !RowLess(rows[n], x) {
        var i :| 0 <= i < n && rows[..n][i] == x;
        assert rows[i] == x;
      }
    }
  }

  /** A kept row of ordered rows leads its identity. */
  lemma {:induction false} KeptLeads(rows: seq<Record>, tasks: seq<string>)
    requires InOrder(rows)
    ensures forall r :: r in Kept(rows, tasks) ==> Leading(rows, r)
  {
    if rows != [] {
      var n := |rows| - 1;
      var front, last := rows[..n], rows[n];
      KeptLeads(front, tasks);
      KeptIsSubset(front, tasks);
      assert rows == front + [last];
      forall r | r in Kept(rows, tasks) ensures Leading(rows, r) {
        assert r in front || r == last;
        forall x | x in rows && Identity(x) == Identity(r) ensures r.sequence <= x.sequence {
          IdentityNamesTask(x, r);
          if r in front && x == last {
            LastNotLess(rows, r);
          }
        }
      }
    }
  }

  lemma LastNotLess(rows: seq<Record>, r: Record)
    requires InOrder(rows) && rows != [] && r in rows[..|rows|-1]
    ensures !RowLess(rows[|rows|-1], r)
  {
    var i :| 0 <= i < |rows| - 1 && rows[..|rows|-1][i] == r;
    assert rows[i] == r;
  }

  /** With one leader per identity, what is kept of the sorted rows is strictly
      ascending and consists of exactly the leading rows of the given tasks. */
  lemma KeptIsCanonical(rows: seq<Record>, tasks: seq<string>)
    requires OneLeader(rows, tasks)
    ensures Ascending(Kept(Sort(rows), tasks))
    ensures forall r :: r in Kept(Sort(rows), tasks) <==> Leading(rows, r) && r.taskId in tasks
  {
    Sorts(rows);
    var sorted := Sort(rows);
    var kept := Kept(sorted, tasks);
    KeptIsSubset(sorted, tasks);
    KeptInOrder(sorted, tasks);
    KeptLeads(sorted, tasks);
    forall r ensures r in sorted <==> r in rows {
      assert r in multiset(sorted) <==> r in multiset(rows);
    }
    forall i, j | 0 <= i < j < |kept| ensures RowLess(kept[i], kept[j]) {
      RowLessTotal(kept[i], kept[j]);
    }
    forall r | Leading(rows, r) && r.taskId in tasks ensures r in kept {
      assert Identity(r) in Identities(kept);
      var x :| x in kept && Identity(x) == Identity(r);
      assert Leading(sorted, x);
      assert Leading(rows, x) && !Rivals(rows, tasks, r, x);
    }
  }

  lemma {:induction false} AscendingUnique(a: seq<Record>, b: seq<Record>)
    requires Ascending(a) && Ascending(b) && SameElements(a, b)
    ensures a == b
  {
    EmptyTogether(a, b);
    if a != [] {
      assert a[0] in b && b[0] in a;
      HeadsAgree(a, b);
      TailsAgree(a, b);
      AscendingUnique(a[1..], b[1..]);
      assert a == [a[0]] + a[1..] && b == [b[0]] + b[1..];
    }
  }

  lemma EmptyTogether(a: seq<Record>, b: seq<Record>)
    requires SameElements(a, b)
    ensures a == [] <==> b == []
  {
    if a != [] { assert a[0] in b; }
    if b != [] { assert b[0] in a; }
  }

  lemma HeadsAgree(a: seq<Record>, b: seq<Record>)
    requires Ascending(a) && Ascending(b) && a != [] && b != [] && a[0] in b && b[0] in a
    ensures a[0] == b[0]
  {
    RowLessTotal(a[0], b[0]);
  }

  lemma TailsAgree(a: seq<Record>, b: seq<Record>)
    requires Ascending(a) && Ascending(b) && a != [] && b != [] && SameElements(a, b) && a[0] == b[0]
    ensures SameElements(a[1..], b[1..])
  {
    RowLessTotal(a[0], a[0]);
    assert a[0] !in a[1..] && b[0] !in b[1..];
    assert a == [a[0]] + a[1..] && b == [b[0]] + b[1..];
    forall r ensures r in a[1..] <==> r in b[1..] {
      if r != a[0] {
        assert r in a[1..] <==> r in a;
        assert r in b[1..] <==> r in b;
      }
    }
  }

  lemma LeadingDependsOnSet(a: seq<Record>, b: seq<Record>, r: Record)
    requires SameElements(a, b)
    ensures Leading(a, r) <==> Leading(b, r)
  {
  }

  /** With one leader per identity, the kept rows depend on the set of rows alone. */
  lemma KeptDependsOnSet(a: seq<Record>, b: seq<Record>, tasks: seq<string>)
    requires OneLeader(a, tasks) && SameElements(a, b)
    ensures Kept(Sort(a), tasks) == Kept(Sort(b), tasks)
  {
    forall r ensures Leading(a, r) <==> Leading(b, r) {
      LeadingDependsOnSet(a, b, r);
    }
    forall x, y ensures !Rivals(b, tasks, x, y) {
      assert !Rivals(a, tasks, x, y);
    }
    KeptIsCanonical(a, tasks);
    KeptIsCanonical(b, tasks);
    AscendingUnique(Kept(Sort(a), tasks), Kept(Sort(b), tasks));
  }

  // ---------------------------------------------------------------------
  // The condition is exact
  // ---------------------------------------------------------------------

  /** Everything sorted before position `k` is strictly less than the row there. */
  ghost predicate FirstAt(sorted: seq<Record>, r: Record, k: nat) {
    k < |sorted| && sorted[k] == r && forall i :: 0 <= i < k ==> RowLess(sorted[i], r)
  }

  lemma {:induction false} InsertKeepsFirst(sorted: seq<Record>, x: Record, r: Record, k: nat) returns (k': nat)
    requires FirstAt(sorted, r, k)
    ensures FirstAt(Insert(sorted, x), r, k')
  {
    if RowLess(x, sorted[0]) {
      k' := k + 1;
      if k > 0 { RowLessTransitive(x, sorted[0], r); }
      var longer := [x] + sorted;
      assert forall i :: 0 < i < k' ==> longer[i] == sorted[i - 1];
    } else if k == 0 {
      k' := 0;
    } else {
      assert FirstAt(sorted[1..], r, k - 1);
      var j := InsertKeepsFirst(sorted[1..], x, r, k - 1);
      k' := j + 1;
      var longer := [sorted[0]] + Insert(sorted[1..], x);
      assert forall i :: 0 < i < k' ==> longer[i] == Insert(sorted[1..], x)[i - 1];
    }
  }

  /** The sort is stable: the first input row precedes every row it ties with. */
  lemma {:induction false} FirstStaysFirst(rows: seq<Record>) returns (k: nat)
    requires rows != []
    ensures FirstAt(Sort(rows), rows[0], k)
  {
    var n := |rows| - 1;
    if n == 0 {
      assert Sort(rows[..0]) == [];
      return 0;
    }
    k := FirstStaysFirst(rows[..n]);
    assert rows[..n][0] == rows[0];
    k := InsertKeepsFirst(Sort(rows[..n]), rows[n], rows[0], k);
  }

  lemma {:induction false} KeptPrefix(rows: seq<Record>, tasks: seq<string>, k: nat)
    requires k <= |rows|
    ensures forall r :: r in Kept(rows[..k], tasks) ==> r in Kept(rows, tasks)
  {
    if k < |rows| {
      KeptPrefix(rows[..|rows|-1], tasks, k);
      assert rows[..|rows|-1][..k] == rows[..k];
    } else {
      assert rows[..k] == rows;
    }
  }

  lemma LessIsOther(rows: seq<Record>, x: Record, r: Record)
    requires Leading(rows, r) && x in rows && RowLess(x, r)
    ensures Identity(x) != Identity(r)
  {
    TextsIrreflexive(Identity(r));
  }

  /** A leading row placed first in the input is kept. */
  lemma FirstLeaderIsKept(rows: seq<Record>, tasks: seq<string>)
    requires rows != [] && Leading(rows, rows[0]) && rows[0].taskId in tasks
    ensures rows[0] in Kept(Sort(rows), tasks)
  {
    var sorted, r := Sort(rows), rows[0];
    Sorts(rows);
    var k := FirstStaysFirst(rows);
    forall x | x in sorted[..k] ensures Identity(x) != Identity(r) {
      assert x in multiset(sorted);
      LessIsOther(rows, x, r);
    }
    NewIsKept(sorted, tasks, k);
    KeptPrefix(sorted, tasks, k + 1);
  }

  /** A row whose identity is new at its place is kept. */
  lemma NewIsKept(rows: seq<Record>, tasks: seq<string>, k: nat)
    requires k < |rows| && rows[k].taskId in tasks
    requires forall x :: x in rows[..k] ==> Identity(x) != Identity(rows[k])
    ensures rows[k] in Kept(rows[..k + 1], tasks)
  {
    KeptIsSubset(rows[..k], tasks);
    assert rows[..k + 1][..k] == rows[..k];
  }

  /** Putting either of two rival leaders first decides which one is kept. */
  lemma RivalsDecideByOrder(a: seq<Record>, tasks: seq<string>, x: Record, y: Record)
    requires Rivals(a, tasks, x, y)
    ensures SameElements(a, [x] + a) && x in Kept(Sort([x] + a), tasks) && y !in Kept(Sort([x] + a), tasks)
  {
    var first := [x] + a;
    assert SameElements(a, first);
    LeadingDependsOnSet(a, first, x);
    FirstLeaderIsKept(first, tasks);
    KeptIsSubset(Sort(first), tasks);
  }

  /** Every arrangement and repetition of the rows keeps the same rows. */
  ghost predicate OrderIndependent(a: seq<Record>, tasks: seq<string>) {
    forall b :: SameElements(a, b) ==> Kept(Sort(b), tasks) == Kept(Sort(a), tasks)
  }

  lemma RivalsBreakIt(a: seq<Record>, tasks: seq<string>, x: Record, y: Record)
    requires Rivals(a, tasks, x, y)
    ensures !OrderIndependent(a, tasks)
  {
    IdentityNamesTask(x, y);
    RivalsDecideByOrder(a, tasks, x, y);
    RivalsDecideByOrder(a, tasks, y, x);
    TwoArrangementsDiffer(a, tasks, [x] + a, [y] + a, x);
  }

  lemma TwoArrangementsDiffer(a: seq<Record>, tasks: seq<string>, b: seq<Record>, c: seq<Record>, x: Record)
    requires SameElements(a, b) && SameElements(a, c)
    requires x in Kept(Sort(b), tasks) && x !in Kept(Sort(c), tasks)
    ensures !OrderIndependent(a, tasks)
  {
    assert Kept(Sort(b), tasks) != Kept(Sort(c), tasks);
  }

  /** What is kept is independent of order and repetition exactly when each
      identity has a single leading row. */
  lemma OrderIndependentExactly(a: seq<Record>, tasks: seq<string>)
    ensures OneLeader(a, tasks) <==> OrderIndependent(a, tasks)
  {
    if OneLeader(a, tasks) {
      forall b | SameElements(a, b) ensures Kept(Sort(b), tasks) == Kept(Sort(a), tasks) {
        KeptDependsOnSet(a, b, tasks);
      }
    } else if x, y :| Rivals(a, tasks, x, y) {
      RivalsBreakIt(a, tasks, x, y);
    }
  }
}
