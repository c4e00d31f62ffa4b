/** What holds in every state the elastic scheduler can reach. */
module SchedulerTheorems {
  import opened Cyclic
  import opened Options
  import opened SchedulerHistory
  import opened SchedulerBook
  import opened Scheduler
  import opened Sequences

  // ---------------------------------------------------------------------
  // Whole runs
  // ---------------------------------------------------------------------

  /** One locked operation that changed the books. */
  datatype Move =
    | Claim(task: string, at: real)
    | Reserve(slots: nat, purpose: string, at: real)
    | GiveBack(held: Held, reason: string, at: real)
    | ConvertOne(held: Held, task: string, at: real)
    | FinishOne(lease: Assignment, solved: bool, retireReason: Option<string>, at: real)
    | MarkSolved(task: string)
    | MarkRetired(task: string, reason: string)
    | CancelAll(task: string)
    | AddOne(task: string, quota: nat)

  predicate Allowed(b: Book, m: Move)
  {
    && b.byTask.Keys == b.tasks.Keys
    && match m
       case Claim(task, _) =>
         task in b.tasks && Open(b.tasks[task]) && |b.leases| + HeldSlots(b.held) < b.capacity
       case Reserve(slots, _, _) => slots >= 1 && |b.leases| + HeldSlots(b.held) + slots <= b.capacity
       case GiveBack(h, _, _) => h in b.held
       case ConvertOne(h, task, _) => h in b.held && h.remaining >= 1 && task in b.tasks && Open(b.tasks[task])
       case FinishOne(a, solved, reason, _) => a in b.leases && a.task in b.tasks && !(solved && reason.Some?)
       case MarkSolved(task) => task in b.tasks
       case MarkRetired(task, _) => task in b.tasks
       case CancelAll(task) => task in b.tasks
       case AddOne(task, _) => task !in b.tasks
  }

  function After(b: Book, m: Move): Book
    requires Allowed(b, m)
  {
    match m
    case Claim(task, at) => Admit(b, task, at)
    case Reserve(slots, purpose, at) => Acquire(b, slots, purpose, at)
    case GiveBack(h, reason, at) => Release(b, h, reason, at)
    case ConvertOne(h, task, at) => Convert(b, h, task, at)
    case FinishOne(a, solved, reason, at) => Finished(b, a, solved, reason, at)
    case MarkSolved(task) => SolveOnce(b, task)
    case MarkRetired(task, reason) => RetireOnce(b, task, reason)
    case CancelAll(task) => Cancel(b, task)
    case AddOne(task, quota) => AddTask(b, task, quota)
  }

  lemma SettleOnceKeeps(b: Book, task: string, reason: string)
    requires Ok(b) && task in b.tasks
    ensures Ok(SolveOnce(b, task)) && Ok(RetireOnce(b, task, reason))
  {
    if !b.tasks[task].solved {
      SettleTaskKeeps(b, task, TaskSolved(task));
      if b.tasks[task].retired == None { SettleTaskKeeps(b, task, TaskRetired(task, reason)); }
    }
  }

  lemma FinishKeeps(b: Book, a: Assignment, solved: bool, reason: Option<string>, at: real)
    requires Ok(b) && a in b.leases
    ensures Ok(Finished(b, a, solved, reason, at))
  {
    CloseKeeps(b, a, solved, reason, at);
    SettleOnceKeeps(Close(b, a, solved, reason, at), a.task, reason.GetOrElse(""));
  }

  lemma MoveKeeps(b: Book, m: Move)
    requires Ok(b) && Allowed(b, m)
    ensures Ok(After(b, m))
  {
    match m
    case Claim(task, at) => AdmitKeeps(b, task, at);
    case Reserve(slots, purpose, at) => AcquireKeeps(b, slots, purpose, at);
    case GiveBack(h, reason, at) => ReleaseKeeps(b, h, reason, at);
    case ConvertOne(h, task, at) => ConvertKeeps(b, h, task, at);
    case FinishOne(a, solved, reason, at) => FinishKeeps(b, a, solved, reason, at);
    case MarkSolved(task) => SettleOnceKeeps(b, task, "");
    case MarkRetired(task, reason) => SettleOnceKeeps(b, task, reason);
    case CancelAll(task) => CancelKeeps(b, task);
    case AddOne(task, quota) => AddTaskKeeps(b, task, quota);
  }

  predicate Runs(b: Book, moves: seq<Move>)
    decreases |moves|
  {
    moves == [] || (Allowed(b, moves[0]) && Runs(After(b, moves[0]), moves[1..]))
  }

  function AfterRun(b: Book, moves: seq<Move>): Book
    requires Runs(b, moves)
    decreases |moves|
  {
    if moves == [] then b else AfterRun(After(b, moves[0]), moves[1..])
  }

  lemma {:induction false} RunKeeps(b: Book, moves: seq<Move>)
    requires Ok(b) && Runs(b, moves)
    ensures Ok(AfterRun(b, moves))
    decreases |moves|
  {
    if moves != [] {
      MoveKeeps(b, moves[0]);
      RunKeeps(After(b, moves[0]), moves[1..]);
    }
  }

  /** Every run from an empty scheduler: capacity holds, the lease table is the
      disjoint union of the per-task ones, the history replays to the tables,
      every reserved slot is held or completed, no prefix of the history
      over-counts by more than the slot being converted, no agent id is issued
      twice, and closed tasks get no further lease. */
  lemma EveryRun(capacity: nat, moves: seq<Move>)
    requires Runs(EmptyBook(capacity), moves)
    ensures var b := AfterRun(EmptyBook(capacity), moves);
            && |b.leases| + HeldSlots(b.held) <= b.capacity
            && (forall t :: t in b.byTask ==> b.byTask[t] == OfTask(b.leases, t))
            && ReplaySlots(b.history) == Slots(b.leases, b.held)
            && (forall t :: t in b.tasks ==> b.tasks[t] == ReplayTask(t, b.tasks[t].initialAgents, b.history))
            && SlotsConserved(b.history)
            && PrefixesFit(b.history, b.capacity)
            && AgentsUnique(b.history)
            && NoLateLeases(b.history)
  {
    EmptyOk(capacity);
    RunKeeps(EmptyBook(capacity), moves);
  }

  // ---------------------------------------------------------------------
  // Exported counts
  // ---------------------------------------------------------------------

  function ExportedFree(b: Book): nat {
    var used := |b.leases| + HeldSlots(b.held);
    if used > b.capacity then 0 else b.capacity - used
  }

  function ActiveAllocations(b: Book, order: seq<string>): nat
    requires forall t :: t in order ==> t in b.byTask
  {
    if order == [] then 0 else |b.byTask[order[0]]| + ActiveAllocations(b, order[1..])
  }

  lemma {:induction false} ActiveIsCount(b: Book, order: seq<string>)
    requires LeasesOk(b) && forall t :: t in order ==> t in b.byTask
    ensures ActiveAllocations(b, order) == LeaseCount(order, b.leases)
  {
    if order != [] {
      ActiveIsCount(b, order[1..]);
    }
  }

  /** The counts handed to an allocation snapshot satisfy its two equations. */
  lemma ExportedCounts(b: Book)
    requires Ok(b)
    ensures ActiveAllocations(b, b.order) == |b.leases|
    ensures |b.leases| + HeldSlots(b.held) + ExportedFree(b) == b.capacity
  {
    ActiveIsCount(b, b.order);
    CountsPartition(b.order, b.leases);
  }

  // ---------------------------------------------------------------------
  // Balance of the least-active rule
  // ---------------------------------------------------------------------

  function Load(b: Book, i: nat): nat
    requires TasksOk(b) && i < |b.order|
  {
    assert b.order[i] in b.order;
    |b.byTask[b.order[i]]|
  }

  /** Every load is `level` or one more; while quotas are still being filled,
      exactly the tasks behind the initial cursor have the extra one. */
  ghost predicate Level(b: Book, at: Cursors, quota: nat, level: nat) {
    && TasksOk(b)
    && at.initial < |b.order| && at.spare < |b.order|
    && (forall i :: 0 <= i < |b.order| ==> Even(b, at, quota, level, i))
  }

  predicate Even(b: Book, at: Cursors, quota: nat, level: nat, i: nat)
    requires i < |b.order|
  {
    var t := b.order[i];
    && t in b.tasks && t in b.byTask
    && var load := |b.byTask[t]|;
       && level <= load <= level + 1
       && (level < quota ==> (load == level + 1 <==> i < at.initial))
       && b.tasks[t].initialAgents == quota && Open(b.tasks[t])
       && b.tasks[t].initialAdmitted == if load < quota then load else quota
  }

  lemma RowsOfLevel(b: Book, at: Cursors, quota: nat, level: nat)
    requires Level(b, at, quota, level)
    ensures forall i :: 0 <= i < |b.order| ==>
              var row := Rows(b)[i];
              row.open && row.load == Load(b, i) && (row.pending <==> row.load < quota) && (row.short <==> row.load < quota)
  {
    forall i | 0 <= i < |b.order|
      ensures var row := Rows(b)[i];
              row.open && row.load == Load(b, i) && (row.pending <==> row.load < quota) && (row.short <==> row.load < quota)
    {
      assert b.order[i] in b.order;
      assert Even(b, at, quota, level, i);
    }
  }

  /** The task served is at the lower level, and in quota order while quotas last. */
  lemma ServedTask(b: Book, at: Cursors, quota: nat, level: nat, i: nat, next: Cursors)
    requires Level(b, at, quota, level)
    requires Selects(Rows(b), LeastActive, at, Some(i), next)
    ensures i < |b.order| && next.initial < |b.order| && next.spare < |b.order|
    ensures level < quota ==> i == at.initial && next.initial == (i + 1) % |b.order| && Load(b, i) == level
    ensures level >= quota ==> next.initial == at.initial && forall j :: 0 <= j < |b.order| ==> Load(b, i) <= Load(b, j)
  {
    RowsOfLevel(b, at, quota, level);
    var rows, c := Rows(b), at.initial;
    SelectsInRange(rows, LeastActive, at, Some(i), next);
    if level < quota {
      assert Even(b, at, quota, level, c);
      assert Pending(rows)[c];
      assert Turn(|rows|, c, c) == 0;
    } else {
      forall j | 0 <= j < |b.order| ensures !rows[j].pending && !rows[j].short && rows[j].load == Load(b, j) {
        assert Even(b, at, quota, level, j);
      }
    }
  }

  lemma AdmitLoads(b: Book, i: nat, now: real)
    requires TasksOk(b) && i < |b.order| && b.order[i] in b.tasks && b.order[i] in b.byTask
    ensures var b' := Admit(b, b.order[i], now);
            && b'.order == b.order
            && TasksOk(b')
            && (forall j :: 0 <= j < |b.order| ==>
                  && b.order[j] in b.tasks
                  && Load(b', j) == Load(b, j) + (if j == i then 1 else 0)
                  && (j != i ==> b'.tasks[b.order[j]] == b.tasks[b.order[j]]))
  {
    forall j | 0 <= j < |b.order| ensures b.order[j] in b.tasks && b.order[j] in b.byTask {
      assert b.order[j] in b.order;
    }
  }

  lemma LevelAfter(b: Book, at: Cursors, quota: nat, level: nat, i: nat, next: Cursors, now: real)
    returns (level': nat)
    requires Level(b, at, quota, level)
    requires Selects(Rows(b), LeastActive, at, Some(i), next)
    requires i < |b.order| && b.order[i] in b.tasks
    ensures Level(Admit(b, b.order[i], now), next, quota, level')
  {
    ServedTask(b, at, quota, level, i, next);
    ModWrap(|b.order|, i + 1);
    level' := LevelAdvanced(b, at, quota, level, i, next, now);
  }

  lemma LevelAdvanced(b: Book, at: Cursors, quota: nat, level: nat, i: nat, next: Cursors, now: real)
    returns (level': nat)
    requires Level(b, at, quota, level) && i < |b.order| && b.order[i] in b.tasks
    requires next.initial < |b.order| && next.spare < |b.order|
    requires if level < quota
             then i == at.initial && next.initial == (if i + 1 == |b.order| then 0 else i + 1) && Load(b, i) == level
             else next.initial == at.initial && forall j :: 0 <= j < |b.order| ==> Load(b, i) <= Load(b, j)
    ensures Level(Admit(b, b.order[i], now), next, quota, level')
  {
    AdmitLoads(b, i, now);
    assert Even(b, at, quota, level, i);
    level' := if level < quota then (if i + 1 == |b.order| then level + 1 else level) else Load(b, i);
    forall j | 0 <= j < |b.order| ensures Even(Admit(b, b.order[i], now), next, quota, level', j) {
      assert Even(b, at, quota, level, j);
      EvenAfter(b, at, quota, level, level', i, next, now, j);
    }
  }

  /** One place of the order after serving the task at place `i`. */
  lemma EvenAfter(b: Book, at: Cursors, quota: nat, level: nat, level': nat, i: nat, next: Cursors, now: real, j: nat)
    requires TasksOk(b) && i < |b.order| && j < |b.order| && b.order[i] in b.tasks && b.order[i] in b.byTask
    requires Even(b, at, quota, level, i) && Even(b, at, quota, level, j)
    requires if level < quota
             then i == at.initial && |b.byTask[b.order[i]]| == level
                  && next.initial == (if i + 1 == |b.order| then 0 else i + 1)
                  && level' == (if i + 1 == |b.order| then level + 1 else level)
             else level' == |b.byTask[b.order[i]]| <= |b.byTask[b.order[j]]|
    ensures Even(Admit(b, b.order[i], now), next, quota, level', j)
  {
  }

  /** One admission-only step: serve the selected task, or move reserved slots. */
  datatype Admission =
    | Serve(index: nat, next: Cursors, at: real)
    | Hold(slots: nat, purpose: string, at: real)
    | Free(held: Held, reason: string, at: real)

  ghost predicate Admits(b: Book, at: Cursors, a: Admission) {
    && TasksOk(b)
    && match a
       case Serve(i, next, _) =>
         i < |b.order| && b.order[i] in b.tasks && Selects(Rows(b), LeastActive, at, Some(i), next)
       case _ => true
  }

  ghost function Admitted(b: Book, at: Cursors, a: Admission): (Book, Cursors)
    requires Admits(b, at, a)
  {
    match a
    case Serve(i, next, now) => (Admit(b, b.order[i], now), next)
    case Hold(slots, purpose, now) => (Acquire(b, slots, purpose, now), at)
    case Free(h, reason, now) => (Release(b, h, reason, now), at)
  }

  ghost predicate AdmissionRun(b: Book, at: Cursors, run: seq<Admission>)
    decreases |run|
  {
    run == [] || (Admits(b, at, run[0])
                   && AdmissionRun(Admitted(b, at, run[0]).0, Admitted(b, at, run[0]).1, run[1..]))
  }

  ghost function AdmissionEnd(b: Book, at: Cursors, run: seq<Admission>): (Book, Cursors)
    requires AdmissionRun(b, at, run)
    decreases |run|
  {
    if run == [] then (b, at)
    else AdmissionEnd(Admitted(b, at, run[0]).0, Admitted(b, at, run[0]).1, run[1..])
  }

  lemma LevelHeld(b: Book, b': Book, at: Cursors, quota: nat, level: nat)
    requires Level(b, at, quota, level)
    requires b'.order == b.order && b'.tasks == b.tasks && b'.byTask == b.byTask
    ensures Level(b', at, quota, level)
  {
    forall i | 0 <= i < |b.order| ensures Even(b', at, quota, level, i) {
      assert Even(b, at, quota, level, i);
    }
  }

  lemma LevelStep(b: Book, at: Cursors, quota: nat, level: nat, a: Admission) returns (level': nat)
    requires Level(b, at, quota, level) && Admits(b, at, a)
    ensures Level(Admitted(b, at, a).0, Admitted(b, at, a).1, quota, level')
  {
    match a
    case Serve(i, next, now) => level' := LevelAfter(b, at, quota, level, i, next, now);
    case _ =>
      level' := level;
      LevelHeld(b, Admitted(b, at, a).0, at, quota, level);
  }

  lemma SameOrder(b: Book, at: Cursors, a: Admission)
    requires Admits(b, at, a)
    ensures Admitted(b, at, a).0.order == b.order
  {
  }

  lemma {:induction false} LevelThroughout(b: Book, at: Cursors, quota: nat, level: nat, run: seq<Admission>)
    returns (level': nat)
    requires Level(b, at, quota, level) && AdmissionRun(b, at, run)
    ensures AdmissionEnd(b, at, run).0.order == b.order
    ensures Level(AdmissionEnd(b, at, run).0, AdmissionEnd(b, at, run).1, quota, level')
    decreases |run|
  {
    if run == [] { return level; }
    var l := LevelStep(b, at, quota, level, run[0]);
    SameOrder(b, at, run[0]);
    level' := LevelThroughout(Admitted(b, at, run[0]).0, Admitted(b, at, run[0]).1, quota, l, run[1..]);
  }

  lemma LevelBalanced(b: Book, at: Cursors, quota: nat, level: nat, i: nat, j: nat)
    requires Level(b, at, quota, level) && i < |b.order| && j < |b.order|
    ensures b.order[i] in b.byTask && b.order[j] in b.byTask
    ensures |b.byTask[b.order[i]]| <= |b.byTask[b.order[j]]| + 1
  {
    assert Even(b, at, quota, level, i) && Even(b, at, quota, level, j);
  }

  lemma FreshLevel(capacity: nat, ids: seq<string>, quotas: seq<nat>, quota: nat)
    requires |ids| == |quotas| && Distinct(ids) && ids != [] && forall q :: q in quotas ==> q == quota
    ensures FreshBook(capacity, ids, quotas).order == ids
    ensures Level(FreshBook(capacity, ids, quotas), Cursors(0, 0), quota, 0)
  {
    FreshTasks(capacity, ids, quotas);
    var b := FreshBook(capacity, ids, quotas);
    forall k | 0 <= k < |ids| ensures Even(b, Cursors(0, 0), quota, 0, k) {
      assert ids[k] in ids;
    }
  }

  /** With equal quotas and nothing finishing, least-active admission keeps the
      tasks' lease counts within one of each other, at every moment. */
  lemma LeastActiveBalanced(capacity: nat, ids: seq<string>, quotas: seq<nat>, quota: nat, run: seq<Admission>,
                            i: nat, j: nat)
    requires |ids| == |quotas| && Distinct(ids) && forall q :: q in quotas ==> q == quota
    requires AdmissionRun(FreshBook(capacity, ids, quotas), Cursors(0, 0), run)
    requires i < |ids| && j < |ids|
    ensures var b := AdmissionEnd(FreshBook(capacity, ids, quotas), Cursors(0, 0), run).0;
            b.order == ids && ids[i] in b.byTask && ids[j] in b.byTask
            && |b.byTask[ids[i]]| <= |b.byTask[ids[j]]| + 1
  {
    FreshLevel(capacity, ids, quotas, quota);
    var b, at := FreshBook(capacity, ids, quotas), Cursors(0, 0);
    var level := LevelThroughout(b, at, quota, 0, run);
    LevelBalanced(AdmissionEnd(b, at, run).0, AdmissionEnd(b, at, run).1, quota, level, i, j);
  }
}
