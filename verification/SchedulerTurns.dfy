/** Who is served when: quotas before the policy, and the turns of round robin. */
module SchedulerTurns {
  import opened Cyclic
  import opened Options
  import opened SchedulerHistory
  import opened SchedulerBook
  import opened Scheduler

  // ---------------------------------------------------------------------
  // Quotas come first
  // ---------------------------------------------------------------------

  /** A task that may still be leased and has admitted fewer than its quota. */
  predicate Unfilled(s: TaskState) {
    !s.solved && s.retired.None? && s.initialAdmitted < s.initialAgents
  }

  /** A task that may still be leased and runs fewer leases than its quota. */
  predicate Understaffed(s: TaskState, load: nat) {
    !s.solved && s.retired.None? && load < s.initialAgents
  }

  /** While some open task has admitted fewer than its quota such a task is
      served, the first from the initial cursor; then one that runs fewer than its
      quota, the first from the spare cursor.  The cursor used moves past it. */
  lemma QuotasComeFirst(b: Book, policy: Policy, at: Cursors, i: nat, next: Cursors)
    requires TasksOk(b) && Selects(Rows(b), policy, at, Some(i), next)
    ensures i < |b.order| && at.initial < |b.order| && at.spare < |b.order|
    ensures forall k :: 0 <= k < |b.order| ==> b.order[k] in b.tasks && b.order[k] in b.byTask
    ensures (exists k :: 0 <= k < |b.order| && Unfilled(b.tasks[b.order[k]])) ==>
              && Unfilled(b.tasks[b.order[i]]) && next == Cursors((i + 1) % |b.order|, at.spare)
              && forall k :: 0 <= k < |b.order| && Unfilled(b.tasks[b.order[k]]) ==>
                   Turn(|b.order|, at.initial, i) <= Turn(|b.order|, at.initial, k)
    ensures (forall k :: 0 <= k < |b.order| ==> !Unfilled(b.tasks[b.order[k]]))
            && (exists k :: 0 <= k < |b.order| && Understaffed(b.tasks[b.order[k]], |b.byTask[b.order[k]]|)) ==>
              && Understaffed(b.tasks[b.order[i]], |b.byTask[b.order[i]]|)
              && next == Cursors(at.initial, (i + 1) % |b.order|)
              && forall k :: 0 <= k < |b.order| && Understaffed(b.tasks[b.order[k]], |b.byTask[b.order[k]]|) ==>
                   Turn(|b.order|, at.spare, i) <= Turn(|b.order|, at.spare, k)
  {
    var rows := Rows(b);
    forall k | 0 <= k < |b.order|
      ensures b.order[k] in b.tasks && b.order[k] in b.byTask
      ensures Pending(rows)[k] == rows[k].pending == Unfilled(b.tasks[b.order[k]])
      ensures Short(rows)[k] == rows[k].short == Understaffed(b.tasks[b.order[k]], |b.byTask[b.order[k]]|)
    {
      assert b.order[k] in b.order;
    }
  }

  // ---------------------------------------------------------------------
  // Least active
  // ---------------------------------------------------------------------

  /** With every quota met the least-active rule serves an open task with the fewest
      leases, among those the lowest generation, among those the nearest from the
      spare cursor, which moves past it. */
  lemma LeastActiveServes(rows: seq<Row>, at: Cursors, i: nat, next: Cursors)
    requires Selects(rows, LeastActive, at, Some(i), next) && QuotasMet(rows)
    ensures i < |rows| && rows[i].open && at.spare < |rows| && next == Cursors(at.initial, (i + 1) % |rows|)
    ensures forall j :: 0 <= j < |rows| && rows[j].open && j != i ==>
              || rows[i].load < rows[j].load
              || (rows[i].load == rows[j].load
                  && (|| rows[i].generation < rows[j].generation
                      || (rows[i].generation == rows[j].generation
                          && Turn(|rows|, at.spare, i) < Turn(|rows|, at.spare, j))))
  {
    forall j | 0 <= j < |rows| && rows[j].open && j != i ensures Turn(|rows|, at.spare, i) != Turn(|rows|, at.spare, j) {
      AtTurn(|rows|, at.spare, i);
      AtTurn(|rows|, at.spare, j);
    }
  }

  /** A granted claim is one new lease for the selected task, open until then, at
      the next of its generations; everything running goes on. */
  lemma GrantIsSelectedLease(b: Book, at: Cursors, policy: Policy, now: real, lease: Assignment, b': Book, at': Cursors)
    requires TasksOk(b) && Claimed(b, at, policy, false, now, Granted(lease), b', at')
    ensures exists i: nat {:trigger b.order[i]} :: i < |b.order| && b.order[i] == lease.task && Selects(Rows(b), policy, at, Some(i), at')
    ensures lease.task in b.tasks && !b.tasks[lease.task].solved && b.tasks[lease.task].retired.None?
    ensures lease.generation == b.tasks[lease.task].nextGeneration && lease.admittedAt == now
    ensures b'.leases == b.leases + [lease] && b'.history == b.history + [AgentAdmitted(lease)] && b'.held == b.held
    ensures forall t :: t in b.tasks && t != lease.task ==> t in b'.tasks && b'.tasks[t] == b.tasks[t]
  {
    var i: nat :| ServedAt(b, at, policy, i, now, Granted(lease), b', at');
    ServedIsSelected(b, at, policy, i, now, lease, b', at');
  }

  lemma ServedIsSelected(b: Book, at: Cursors, policy: Policy, i: nat, now: real, lease: Assignment, b': Book, at': Cursors)
    requires TasksOk(b) && ServedAt(b, at, policy, i, now, Granted(lease), b', at')
    ensures i < |b.order| && b.order[i] == lease.task && Selects(Rows(b), policy, at, Some(i), at')
    ensures lease.task in b.tasks && Open(b.tasks[lease.task])
    ensures lease == NextLease(b, lease.task, now) && b' == Admit(b, lease.task, now)
  {
    SelectedIsOpen(b, policy, at, i, at');
  }

  // ---------------------------------------------------------------------
  // Round robin
  // ---------------------------------------------------------------------

  /** How many of the first `i` tasks are open. */
  function OpenBefore(rows: seq<Row>, i: nat): (n: nat)
    requires i <= |rows|
    ensures n <= i
  {
    if i == 0 then 0 else OpenBefore(rows, i - 1) + if rows[i - 1].open then 1 else 0
  }

  lemma {:induction false} OpenBeforeGrows(rows: seq<Row>, i: nat, j: nat)
    requires i < j <= |rows| && rows[i].open
    ensures OpenBefore(rows, i) < OpenBefore(rows, j)
  {
    if i + 1 < j {
      OpenBeforeGrows(rows, i, j - 1);
    }
  }

  lemma {:induction false} OpenBeforeSame(rows: seq<Row>, others: seq<Row>, i: nat)
    requires i <= |rows| && i <= |others| && forall k :: 0 <= k < i ==> rows[k].open == others[k].open
    ensures OpenBefore(rows, i) == OpenBefore(others, i)
  {
    if i > 0 {
      OpenBeforeSame(rows, others, i - 1);
    }
  }

  /** The open tasks are listed in task order. */
  lemma {:induction false} OpenInOrder(rows: seq<Row>)
    ensures |OpenIndices(rows)| == OpenBefore(rows, |rows|)
    ensures forall k :: 0 <= k < |OpenIndices(rows)| ==>
              OpenIndices(rows)[k] < |rows| && OpenBefore(rows, OpenIndices(rows)[k]) == k
  {
    if rows != [] {
      var n := |rows| - 1;
      OpenInOrder(rows[..n]);
      OpenBeforeSame(rows[..n], rows, n);
      forall k | 0 <= k < |OpenIndices(rows[..n])| ensures OpenBefore(rows, OpenIndices(rows[..n])[k]) == k {
        OpenBeforeSame(rows[..n], rows, OpenIndices(rows[..n])[k]);
      }
    }
  }

  predicate QuotasMet(rows: seq<Row>) {
    forall i :: 0 <= i < |rows| ==> !rows[i].pending && !rows[i].short
  }

  /** Round robin serves the open task with as many open tasks before it as the
      cursor says, counted cyclically, and moves the cursor to the next one. */
  lemma RoundRobinTurn(rows: seq<Row>, at: Cursors, i: nat, next: Cursors)
    requires Selects(rows, RoundRobin, at, Some(i), next) && QuotasMet(rows)
    ensures i < |rows| && rows[i].open
    ensures NextInTurn(rows, at, i, next)
  {
    SparePick(rows, at, i, next);
    TurnTaken(rows, at, i, next);
  }

  /** The task has as many open tasks before it as the cursor says, cyclically. */
  predicate NextInTurn(rows: seq<Row>, at: Cursors, i: nat, next: Cursors) {
    var n := OpenBefore(rows, |rows|);
    && i < |rows| && n > 0
    && OpenBefore(rows, i) == at.spare % n
    && next == Cursors(at.initial, (OpenBefore(rows, i) + 1) % n)
  }

  lemma TurnTaken(rows: seq<Row>, at: Cursors, i: nat, next: Cursors)
    requires TakesTurn(rows, at, i, next)
    ensures NextInTurn(rows, at, i, next)
  {
    OpenInOrder(rows);
  }

  lemma SparePick(rows: seq<Row>, at: Cursors, i: nat, next: Cursors)
    requires Selects(rows, RoundRobin, at, Some(i), next) && QuotasMet(rows)
    ensures i < |rows| && rows[i].open && TakesTurn(rows, at, i, next)
  {
  }

  /** Consecutive round-robin selections over the same open tasks. */
  ghost predicate RoundRobinRun(run: seq<seq<Row>>, at: seq<Cursors>, picks: seq<nat>) {
    && |at| == |picks| + 1 && |run| == |picks|
    && forall j :: 0 <= j < |picks| ==> Turned(run, at, picks, j)
  }

  ghost predicate Turned(run: seq<seq<Row>>, at: seq<Cursors>, picks: seq<nat>, j: nat)
    requires j < |picks| == |run| && |at| == |picks| + 1
  {
    && SameOpen(run[0], run[j]) && QuotasMet(run[j])
    && Selects(run[j], RoundRobin, at[j], Some(picks[j]), at[j + 1])
  }

  predicate SameOpen(a: seq<Row>, b: seq<Row>) {
    |a| == |b| && forall i :: 0 <= i < |a| ==> a[i].open == b[i].open
  }

  lemma ModNext(n: nat, x: nat)
    requires n > 0
    ensures (x % n + 1) % n == (x + 1) % n
  {
    var q, r := x / n, x % n;
    assert x == q * n + r;
    if r + 1 == n {
      assert x + 1 == (q + 1) * n;
      ModOf(q + 1, 0, n);
      ModOf(1, 0, n);
    } else {
      ModOf(q, r + 1, n);
      ModOf(0, r + 1, n);
    }
  }

  lemma ModOf(q: nat, r: nat, n: nat)
    requires r < n
    ensures (q * n + r) % n == r
  {
    var x := q * n + r;
    assert x == (x / n) * n + x % n;
    assert (x / n - q) * n == r - x % n;
    Multiples(x / n - q, n);
  }

  lemma Multiples(d: int, n: nat)
    ensures d >= 1 ==> d * n >= n
    ensures d <= 0 ==> d * n <= 0
    ensures d <= -1 ==> d * n <= 0 - n
  {
  }

  /** The j-th of them serves the open task j places after the cursor's. */
  lemma {:induction false} RoundRobinInTurn(run: seq<seq<Row>>, at: seq<Cursors>, picks: seq<nat>, j: nat)
    requires RoundRobinRun(run, at, picks) && j < |picks|
    ensures var n := OpenBefore(run[0], |run[0]|);
            && n > 0 && picks[j] < |run[0]| && run[0][picks[j]].open
            && OpenBefore(run[0], picks[j]) == (at[0].spare + j) % n
            && at[j + 1].spare == (at[0].spare + j + 1) % n
  {
    var n := OpenBefore(run[0], |run[0]|);
    assert Turned(run, at, picks, j);
    OpenBeforeSame(run[0], run[j], |run[0]|);
    RoundRobinTurn(run[j], at[j], picks[j], at[j + 1]);
    OpenBeforeSame(run[0], run[j], picks[j]);
    if j > 0 {
      RoundRobinInTurn(run, at, picks, j - 1);
      ModTwice(n, at[0].spare + j);
    }
    ModNext(n, at[0].spare + j);
  }

  lemma ModTwice(n: nat, x: nat)
    requires n > 0
    ensures x % n % n == x % n
  {
    ModOf(0, x % n, n);
  }

  lemma ModsDiffer(n: nat, c: nat, i: nat, j: nat)
    requires n > 0 && i < j < i + n
    ensures (c + i) % n != (c + j) % n
  {
    var a, b := (c + i) / n, (c + j) / n;
    assert c + i == a * n + (c + i) % n && c + j == b * n + (c + j) % n;
    Multiples(b - a, n);
    assert (c + i) % n == (c + j) % n ==> j - i == (b - a) * n;
  }

  /** Some turn among any n consecutive ones has the given remainder. */
  lemma ModReached(n: nat, c: nat, r: nat) returns (j: nat)
    requires r < n
    ensures j < n && (c + j) % n == r
  {
    var s := c % n;
    j := if r >= s then r - s else r + n - s;
    assert c == (c / n) * n + s;
    if r >= s {
      assert c + j == (c / n) * n + r;
      ModOf(c / n, r, n);
    } else {
      assert c + j == (c / n + 1) * n + r;
      ModOf(c / n + 1, r, n);
    }
  }

  /** As many consecutive selections as there are open tasks serve every open
      task exactly once, in task order from the cursor. */
  lemma RoundRobinServesEachOnce(run: seq<seq<Row>>, at: seq<Cursors>, picks: seq<nat>, i: nat)
    requires RoundRobinRun(run, at, picks) && picks != []
    requires |picks| == OpenBefore(run[0], |run[0]|) && i < |run[0]| && run[0][i].open
    ensures exists j :: 0 <= j < |picks| && picks[j] == i && forall k :: 0 <= k < |picks| && picks[k] == i ==> k == j
  {
    var n := |picks|;
    OpenBeforeGrows(run[0], i, |run[0]|);
    var j := ModReached(n, at[0].spare, OpenBefore(run[0], i));
    RoundRobinInTurn(run, at, picks, j);
    SameCountSameTask(run[0], i, picks[j]);
    forall k | 0 <= k < n && picks[k] == i ensures k == j {
      RoundRobinInTurn(run, at, picks, k);
      if k < j { ModsDiffer(n, at[0].spare, k, j); }
      if j < k { ModsDiffer(n, at[0].spare, j, k); }
    }
  }

  lemma SameCountSameTask(rows: seq<Row>, i: nat, j: nat)
    requires i < |rows| && j < |rows| && rows[i].open && rows[j].open
    requires OpenBefore(rows, i) == OpenBefore(rows, j)
    ensures i == j
  {
    if i < j { OpenBeforeGrows(rows, i, j); }
    if j < i { OpenBeforeGrows(rows, j, i); }
  }
}
