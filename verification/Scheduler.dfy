/** The elastic scheduler: leases, reservations, selection and history behind one lock. */
module Scheduler {
  import opened Cyclic
  import opened Names
  import opened Options
  import opened SchedulerHistory
  import opened SchedulerBook

  datatype Policy = LeastActive | RoundRobin

  /** What a call answers: a value, `None` in the original, a KeyError or a ValueError. */
  datatype Reply<+T> = Granted(value: T) | Refused | UnknownTask | BadArgument

  /** A task after one more admission. */
  function CountedIn(state: TaskState): TaskState {
    state.(nextGeneration := state.nextGeneration + 1,
           initialAdmitted := if state.initialAdmitted < state.initialAgents then state.initialAdmitted + 1
                              else state.initialAdmitted)
  }

  /** What task selection reads of one task. */
  datatype Row = Row(open: bool, pending: bool, short: bool, load: nat, generation: nat)

  function RowOf(s: TaskState, load: nat): Row {
    Row(Open(s), Open(s) && s.initialAdmitted < s.initialAgents, Open(s) && load < s.initialAgents,
        load, s.nextGeneration)
  }

  function Rows(b: Book): (rows: seq<Row>)
    requires forall t :: t in b.order ==> t in b.tasks && t in b.byTask
    ensures |rows| == |b.order|
    ensures forall i :: 0 <= i < |rows| && (rows[i].pending || rows[i].short) ==> rows[i].open
  {
    seq(|b.order|, i requires 0 <= i < |b.order| =>
      assert b.order[i] in b.order;
      RowOf(b.tasks[b.order[i]], |b.byTask[b.order[i]]|))
  }

  function Pending(rows: seq<Row>): seq<bool> {
    seq(|rows|, i requires 0 <= i < |rows| => rows[i].pending)
  }

  function Short(rows: seq<Row>): seq<bool> {
    seq(|rows|, i requires 0 <= i < |rows| => rows[i].short)
  }

  /** The indices of the open tasks, in order. */
  function OpenIndices(rows: seq<Row>): (indices: seq<nat>)
    ensures forall k :: 0 <= k < |indices| ==> indices[k] < |rows| && rows[indices[k]].open
    ensures forall i :: 0 <= i < |rows| && rows[i].open ==> i in indices
    ensures |indices| <= |rows|
  {
    if rows == [] then []
    else
      var front := OpenIndices(rows[..|rows|-1]);
      if rows[|rows|-1].open then front + [|rows|-1] else front
  }

  /** `a` is served before `b` by the least-active rule with cursor `start`. */
  predicate Before(rows: seq<Row>, start: nat, a: nat, b: nat)
    requires start < |rows| && a < |rows| && b < |rows|
  {
    || rows[a].load < rows[b].load
    || (rows[a].load == rows[b].load && rows[a].generation < rows[b].generation)
    || (rows[a].load == rows[b].load && rows[a].generation == rows[b].generation
        && Turn(|rows|, start, a) <= Turn(|rows|, start, b))
  }

  /** The `min` of the open tasks under the least-active key. */
  method LeastActiveOf(rows: seq<Row>, start: nat, candidates: seq<nat>) returns (best: nat)
    requires start < |rows| && candidates == OpenIndices(rows) && candidates != []
    ensures best < |rows| && rows[best].open
    ensures forall j :: 0 <= j < |rows| && rows[j].open ==> Before(rows, start, best, j)
  {
    best := candidates[0];
    var i := 1;
    while i < |candidates|
      invariant 1 <= i <= |candidates| && best in candidates
      invariant forall k :: 0 <= k < i ==> Before(rows, start, best, candidates[k])
    {
      if !Before(rows, start, best, candidates[i]) {
        best := candidates[i];
      }
      i := i + 1;
    }
  }

  datatype Cursors = Cursors(initial: nat, spare: nat)

  /** The cursor counts the open tasks; it serves the one it points at. */
  predicate TakesTurn(rows: seq<Row>, at: Cursors, pick: nat, next: Cursors) {
    var open := OpenIndices(rows);
    && |open| > 0
    && pick == open[at.spare % |open|]
    && next == Cursors(at.initial, (at.spare % |open| + 1) % |open|)
  }

  /** Which task is served next and where the cursors move: first the initial
      quotas in turn, then tasks below their quota in turn, then the policy. */
  predicate Selects(rows: seq<Row>, policy: Policy, at: Cursors, pick: Option<nat>, next: Cursors) {
    var n := |rows|;
    if n == 0 then pick == None && next == at
    else
      && at.initial < n && at.spare < n
      && if exists i :: 0 <= i < n && rows[i].pending then
           pick.Some? && FirstInTurn(Pending(rows), at.initial, pick.value)
           && next == Cursors((pick.value + 1) % n, at.spare)
         else if exists i :: 0 <= i < n && rows[i].short then
           pick.Some? && FirstInTurn(Short(rows), at.spare, pick.value)
           && next == Cursors(at.initial, (pick.value + 1) % n)
         else if exists i :: 0 <= i < n && rows[i].open then
           pick.Some? && pick.value < n && rows[pick.value].open
           && match policy
              case LeastActive =>
                && (forall j :: 0 <= j < n && rows[j].open ==> Before(rows, at.spare, pick.value, j))
                && next == Cursors(at.initial, (pick.value + 1) % n)
              case RoundRobin => TakesTurn(rows, at, pick.value, next)
         else pick == None && next == at
  }

  lemma SelectsInRange(rows: seq<Row>, policy: Policy, at: Cursors, pick: Option<nat>, next: Cursors)
    requires Selects(rows, policy, at, pick, next)
    requires forall i :: 0 <= i < |rows| && (rows[i].pending || rows[i].short) ==> rows[i].open
    ensures rows == [] || pick.None? ==> next == at
    ensures rows != [] ==> next.initial < |rows| && next.spare < |rows|
    ensures pick.Some? ==> pick.value < |rows| && rows[pick.value].open
  {
  }

  method ChooseTask(rows: seq<Row>, policy: Policy, at: Cursors) returns (pick: Option<nat>, next: Cursors)
    requires rows != [] ==> at.initial < |rows| && at.spare < |rows|
    requires forall i :: 0 <= i < |rows| && (rows[i].pending || rows[i].short) ==> rows[i].open
    ensures Selects(rows, policy, at, pick, next)
  {
    var n := |rows|;
    if n == 0 {
      return None, at;
    }
    pick := ScanFrom(Pending(rows), at.initial);
    if pick.Some? {
      next := Cursors((pick.value + 1) % n, at.spare);
      return;
    }
    assert forall j :: 0 <= j < n ==> Pending(rows)[j] == rows[j].pending;
    pick := ScanFrom(Short(rows), at.spare);
    if pick.Some? {
      next := Cursors(at.initial, (pick.value + 1) % n);
      return;
    }
    assert forall j :: 0 <= j < n ==> Short(rows)[j] == rows[j].short;
    pick, next := ChooseSpare(rows, policy, at);
  }

  /** Once every quota is met the policy chooses among the open tasks. */
  method ChooseSpare(rows: seq<Row>, policy: Policy, at: Cursors) returns (pick: Option<nat>, next: Cursors)
    requires at.initial < |rows| && at.spare < |rows|
    requires forall i :: 0 <= i < |rows| ==> !rows[i].pending && !rows[i].short
    ensures Selects(rows, policy, at, pick, next)
  {
    var candidates := OpenIndices(rows);
    if candidates == [] {
      return None, at;
    }
    if policy == LeastActive {
      var best := LeastActiveOf(rows, at.spare, candidates);
      return Some(best), Cursors(at.initial, (best + 1) % |rows|);
    }
    var k := at.spare % |candidates|;
    return Some(candidates[k]), Cursors(at.initial, (k + 1) % |candidates|);
  }

  // ---------------------------------------------------------------------
  // What the operations answer
  // ---------------------------------------------------------------------

  ghost predicate Full(b: Book) {
    |b.leases| + HeldSlots(b.held) >= b.capacity
  }

  /** `NextAssignment`: refused and unchanged, or exactly the selected task's next lease. */
  ghost predicate Claimed(b: Book, at: Cursors, policy: Policy, closed: bool, now: real,
                          reply: Reply<Assignment>, b': Book, at': Cursors)
    requires TasksOk(b)
  {
    if closed then reply == Refused && b' == b && at' == at
    else if reply == Refused then b' == b && at' == at && Selects(Rows(b), policy, at, None, at)
    else exists i: nat {:trigger b.order[i]} :: ServedAt(b, at, policy, i, now, reply, b', at')
  }

  ghost predicate ServedAt(b: Book, at: Cursors, policy: Policy, i: nat, now: real,
                           reply: Reply<Assignment>, b': Book, at': Cursors)
    requires TasksOk(b)
  {
    && i < |b.order| && b.order[i] in b.tasks
    && Selects(Rows(b), policy, at, Some(i), at')
    && reply == Granted(NextLease(b, b.order[i], now)) && b' == Admit(b, b.order[i], now)
  }

  lemma ClaimServed(b: Book, at: Cursors, policy: Policy, i: nat, now: real, lease: Assignment, b': Book, at': Cursors)
    requires TasksOk(b) && i < |b.order| && b.order[i] in b.tasks
    requires Selects(Rows(b), policy, at, Some(i), at')
    requires lease == NextLease(b, b.order[i], now) && b' == Admit(b, b.order[i], now)
    ensures Claimed(b, at, policy, false, now, Granted(lease), b', at')
  {
    assert ServedAt(b, at, policy, i, now, Granted(lease), b', at');
  }

  lemma SelectedIsOpen(b: Book, policy: Policy, at: Cursors, i: nat, next: Cursors)
    requires TasksOk(b) && Selects(Rows(b), policy, at, Some(i), next)
    ensures i < |b.order| && b.order[i] in b.tasks && Open(b.tasks[b.order[i]])
  {
    SelectsInRange(Rows(b), policy, at, Some(i), next);
    assert b.order[i] in b.order;
  }

  function SolveOnce(b: Book, task: string): Book
    requires task in b.tasks
  {
    if b.tasks[task].solved then b else Solve(b, task)
  }

  function RetireOnce(b: Book, task: string, reason: string): Book
    requires task in b.tasks
  {
    if Open(b.tasks[task]) then Retire(b, task, reason) else b
  }

  function Finished(b: Book, a: Assignment, solved: bool, reason: Option<string>, at: real): Book
    requires a.task in b.tasks && a.task in b.byTask
  {
    var released := Close(b, a, solved, reason, at);
    if solved then SolveOnce(released, a.task)
    else if reason.Some? then RetireOnce(released, a.task, reason.value)
    else released
  }

  lemma SameBooks(b: Book, b': Book)
    requires Ok(b) && b == b'
    ensures Ok(b')
  {
  }

  class ElasticScheduler {
    const maxParallel: nat
    const horizon: Option<real>
    const startedAt: real
    const policy: Policy
    const defaultInitial: nat

    var order: seq<string>
    var tasks: map<string, TaskState>
    var leases: seq<Assignment>
    var byTask: map<string, seq<Assignment>>
    var held: seq<Held>
    var nextReservation: nat
    var initialCursor: nat
    var cursor: nat
    var history: seq<Event>

    function View(): Book
      reads this
    {
      Book(maxParallel, order, tasks, leases, byTask, held, nextReservation, history)
    }

    function At(): Cursors
      reads this
    {
      Cursors(initialCursor, cursor)
    }

    ghost predicate Valid()
      reads this
    {
      && Ok(View())
      && (if order == [] then initialCursor == 0 && cursor == 0
          else initialCursor < |order| && cursor < |order|)
    }

    /** A scheduler without tasks. */
    constructor (maxParallel: nat, horizon: Option<real>, policy: Policy, defaultInitial: nat, startedAt: real)
      ensures Valid() && fresh(this)
      ensures View() == EmptyBook(maxParallel) && At() == Cursors(0, 0)
      ensures this.maxParallel == maxParallel && this.horizon == horizon && this.policy == policy
      ensures this.startedAt == startedAt && this.defaultInitial == defaultInitial
    {
      this.maxParallel := maxParallel;
      this.horizon := horizon;
      this.startedAt := startedAt;
      this.policy := policy;
      this.defaultInitial := defaultInitial;
      this.order, this.tasks, this.leases, this.byTask := [], map[], [], map[];
      this.held, this.nextReservation, this.history := [], 1, [];
      this.initialCursor, this.cursor := 0, 0;
      new;
      EmptyOk(maxParallel);
    }

    /** A scheduler for the given tasks and quotas; a capacity below one, a
        negative horizon, default or quota, and a blank or repeated task id are
        ValueErrors. */
    static method Create(taskIds: seq<string>, quotas: seq<int>, maxParallel: int, horizon: Option<real>,
                         policy: Policy, defaultInitial: int, startedAt: real)
      returns (reply: Reply<ElasticScheduler>)
      requires |taskIds| == |quotas|
      ensures reply.Granted? <==>
                && maxParallel >= 1 && defaultInitial >= 0 && (horizon.Some? ==> horizon.value >= 0.0)
                && Admissible(taskIds, quotas)
      ensures !reply.Granted? ==> reply == BadArgument
      ensures reply.Granted? ==>
                var s := reply.value;
                && fresh(s) && s.Valid() && s.horizon == horizon && s.policy == policy
                && s.startedAt == startedAt && s.defaultInitial == defaultInitial
                && s.View() == FreshBook(maxParallel, taskIds, quotas) && s.At() == Cursors(0, 0)
    {
      if maxParallel < 1 || defaultInitial < 0 || (horizon.Some? && horizon.value < 0.0) {
        return BadArgument;
      }
      var s := new ElasticScheduler(maxParallel, horizon, policy, defaultInitial, startedAt);
      var ok := s.AddAll(taskIds, quotas);
      return if ok then Granted(s) else BadArgument;
    }

    /** Add tasks in order to a scheduler without any, up to the first refusal. */
    method AddAll(taskIds: seq<string>, quotas: seq<int>) returns (ok: bool)
      requires Valid() && View() == EmptyBook(maxParallel) && |taskIds| == |quotas|
      modifies this`order, this`tasks, this`byTask
      ensures Valid()
      ensures ok <==> Admissible(taskIds, quotas)
      ensures ok ==> View() == FreshBook(maxParallel, taskIds, quotas)
    {
      var i := 0;
      while i < |taskIds|
        invariant i <= |taskIds| && Valid() && Admissible(taskIds[..i], quotas[..i])
        invariant View() == FreshBook(maxParallel, taskIds[..i], quotas[..i])
      {
        AdmissibleNext(taskIds, quotas, i);
        var added := AddNext(taskIds, quotas, i);
        if !added {
          return false;
        }
        i := i + 1;
      }
      assert taskIds[..i] == taskIds && quotas[..i] == quotas;
      return true;
    }

    method AddNext(taskIds: seq<string>, quotas: seq<int>, i: nat) returns (ok: bool)
      requires Valid() && i < |taskIds| == |quotas| && forall k :: 0 <= k < i ==> quotas[k] >= 0
      requires View() == FreshBook(maxParallel, taskIds[..i], quotas[..i])
      modifies this`order, this`tasks, this`byTask
      ensures Valid()
      ensures ok <==> taskIds[i] !in taskIds[..i] && taskIds[i] != "" && quotas[i] >= 0
      ensures ok ==> View() == FreshBook(maxParallel, taskIds[..i + 1], quotas[..i + 1])
    {
      FreshBookKnows(maxParallel, taskIds[..i], quotas[..i], taskIds[i]);
      var r := AddTask(taskIds[i], Some(quotas[i]));
      if r.BadArgument? {
        return false;
      }
      FreshBookNext(maxParallel, taskIds, quotas, i);
      return true;
    }

    predicate HorizonReached(now: real)
      ensures HorizonReached(now) <==> horizon.Some? && startedAt + horizon.value <= now
    {
      horizon.Some? && now - startedAt >= horizon.value
    }

    method OccupiedSlots() returns (used: nat)
      ensures used == |leases| + HeldSlots(held)
    {
      used := |leases|;
      var i := 0;
      while i < |held|
        invariant i <= |held|
        invariant used == |leases| + HeldSlots(held) - HeldSlots(held[i..])
      {
        used := used + held[i].remaining;
        i := i + 1;
      }
    }

    /** Add a task with its quota; a blank or known id, or a negative quota, is a
        ValueError. */
    method AddTask(task: string, initialAgents: Option<int>) returns (reply: Reply<string>)
      requires Valid()
      modifies this`order, this`tasks, this`byTask
      ensures Valid()
      ensures
        var count := initialAgents.GetOrElse(defaultInitial);
        if task == "" || count < 0 || task in old(tasks) then reply == BadArgument && View() == old(View())
        else reply == Granted(task) && View() == SchedulerBook.AddTask(old(View()), task, count)
    {
      var count := initialAgents.GetOrElse(defaultInitial);
      if task == "" || count < 0 || task in tasks {
        return BadArgument;
      }
      AddTaskKeeps(View(), task, count);
      order := order + [task];
      tasks := tasks[task := TaskState(count, false, None, 1, 0)];
      byTask := byTask[task := []];
      return Granted(task);
    }

    /** Pick the task to serve next and move the cursors. */
    method SelectTask() returns (pick: Option<nat>)
      requires Valid()
      modifies this`initialCursor, this`cursor
      ensures View() == old(View()) && Valid()
      ensures pick.None? ==> At() == old(At())
      ensures Selects(Rows(View()), policy, old(At()), pick, At())
    {
      var next;
      pick, next := ChooseTask(Rows(View()), policy, At());
      SelectsInRange(Rows(View()), policy, At(), pick, next);
      initialCursor, cursor := next.initial, next.spare;
    }

    /** Claim one slot for the task the policy selects, or nothing at capacity
        or past the horizon. */
    method NextAssignment(now: real) returns (reply: Reply<Assignment>)
      requires Valid()
      modifies this
      ensures Valid()
      ensures Claimed(old(View()), old(At()), policy, Full(old(View())) || HorizonReached(now), now,
                      reply, View(), At())
    {
      var used := OccupiedSlots();
      if used >= maxParallel || HorizonReached(now) {
        return Refused;
      }
      reply := ServeSelected(now);
    }

    /** Serve the selected task from a scheduler that has a slot to give. */
    method ServeSelected(now: real) returns (reply: Reply<Assignment>)
      requires Valid() && !Full(View())
      modifies this
      ensures Valid()
      ensures Claimed(old(View()), old(At()), policy, false, now, reply, View(), At())
    {
      var pick := SelectTask();
      if pick.None? {
        return Refused;
      }
      SelectedIsOpen(View(), policy, old(At()), pick.value, At());
      var lease := AdmitFree(order[pick.value], now);
      ClaimServed(old(View()), old(At()), policy, pick.value, now, lease, View(), At());
      return Granted(lease);
    }

    /** Admit an eligible task into a free slot. */
    method AdmitFree(task: string, now: real) returns (lease: Assignment)
      requires Valid() && task in tasks && Open(tasks[task]) && !Full(View())
      modifies this`tasks, this`leases, this`byTask, this`history
      ensures Valid()
      ensures lease == NextLease(old(View()), task, now) && View() == Admit(old(View()), task, now)
    {
      ghost var after := Admit(View(), task, now);
      AdmitKeeps(View(), task, now);
      lease := AdmitLocked(task, now);
      SameBooks(after, View());
    }

    /** Record a lease.  Taken alone this can exceed the capacity by the slot
        that a conversion is about to give up. */
    method AdmitLocked(task: string, now: real) returns (lease: Assignment)
      requires task in tasks && task in byTask
      modifies this`tasks, this`leases, this`byTask, this`history
      ensures lease == NextLease(old(View()), task, now) && View() == Admit(old(View()), task, now)
    {
      var state := tasks[task];
      lease := Assignment(task, AgentName(task, state.nextGeneration), state.nextGeneration, now);
      tasks := tasks[task := CountedIn(state)];
      leases := leases + [lease];
      byTask := byTask[task := byTask[task] + [lease]];
      history := history + [AgentAdmitted(lease)];
    }

    /** Claim one slot for a task the caller has chosen; here and below a blank
        task id is a ValueError, an unknown one a KeyError. */
    method NextAssignmentFor(task: string, now: real) returns (reply: Reply<Assignment>)
      requires Valid()
      modifies this`tasks, this`leases, this`byTask, this`history
      ensures Valid()
      ensures
        if task == "" then reply == BadArgument && View() == old(View())
        else if Full(old(View())) || HorizonReached(now) then reply == Refused && View() == old(View())
        else if task !in old(tasks) then reply == UnknownTask && View() == old(View())
        else if !Open(old(tasks)[task]) then reply == Refused && View() == old(View())
        else reply == Granted(NextLease(old(View()), task, now)) && View() == Admit(old(View()), task, now)
    {
      if task == "" {
        return BadArgument;
      }
      var used := OccupiedSlots();
      if used >= maxParallel || HorizonReached(now) {
        return Refused;
      }
      if task !in tasks {
        return UnknownTask;
      }
      if !Open(tasks[task]) {
        return Refused;
      }
      var lease := AdmitFree(task, now);
      return Granted(lease);
    }

    /** Hold `slots` slots at once, or none. */
    method AcquireReservation(slots: int, purpose: string, now: real) returns (reply: Reply<Reservation>)
      requires Valid()
      modifies this`held, this`nextReservation, this`history
      ensures Valid()
      ensures
        if slots < 1 || purpose == "" then reply == BadArgument && View() == old(View())
        else if HorizonReached(now) || old(|leases| + HeldSlots(held)) + slots > maxParallel then
          reply == Refused && View() == old(View())
        else reply == Granted(Reservation(ReservationName(old(nextReservation)), slots, purpose, now))
             && View() == Acquire(old(View()), slots, purpose, now)
    {
      if slots < 1 || purpose == "" {
        return BadArgument;
      }
      var used := OccupiedSlots();
      if HorizonReached(now) || used + slots > maxParallel {
        return Refused;
      }
      AcquireKeeps(View(), slots, purpose, now);
      var r := Reservation(ReservationName(nextReservation), slots, purpose, now);
      nextReservation := nextReservation + 1;
      held := held + [Held(r, slots)];
      history := history + [ReservationAcquired(r)];
      return Granted(r);
    }

    /** The place of a reservation among those held. */
    method FindHeld(id: string) returns (at: Option<nat>)
      ensures at.None? ==> forall h :: h in held ==> h.reservation.id != id
      ensures at.Some? ==> at.value < |held| && held[at.value].reservation.id == id
    {
      var i := 0;
      while i < |held|
        invariant i <= |held| && forall k :: 0 <= k < i ==> held[k].reservation.id != id
      {
        if held[i].reservation.id == id {
          return Some(i);
        }
        i := i + 1;
      }
      return None;
    }

    /** Give back every slot a reservation still holds; unknown ids are ignored. */
    method ReleaseReservation(id: string, reason: string, now: real) returns (reply: Reply<bool>)
      requires Valid()
      modifies this`held, this`history
      ensures Valid()
      ensures
        if reason == "" then reply == BadArgument && View() == old(View())
        else if forall h :: h in old(held) ==> h.reservation.id != id then reply == Granted(false) && View() == old(View())
        else reply == Granted(true)
             && exists h :: h in old(held) && h.reservation.id == id && View() == Release(old(View()), h, reason, now)
    {
      if reason == "" {
        return BadArgument;
      }
      var at := FindHeld(id);
      if at.None? {
        return Granted(false);
      }
      var h := held[at.value];
      ReleaseKeeps(View(), h, reason, now);
      held := WithoutReservation(held, id);
      history := history + [ReservationReleased(id, h.reservation.purpose, h.remaining, reason, now)];
      return Granted(true);
    }

    /** Turn one reserved slot into a lease; a refusal leaves the reservation held. */
    method AdmitReserved(id: string, task: string, now: real) returns (reply: Reply<Assignment>)
      requires Valid()
      modifies this`tasks, this`leases, this`byTask, this`held, this`history
      ensures Valid()
      ensures
        if task == "" then reply == BadArgument && View() == old(View())
        else if (forall h :: h in old(held) ==> h.reservation.id != id) || HorizonReached(now) then
          reply == Refused && View() == old(View())
        else if task !in old(tasks) then reply == UnknownTask && View() == old(View())
        else if !Open(old(tasks)[task]) then reply == Refused && View() == old(View())
        else reply == Granted(NextLease(old(View()), task, now))
             && exists h :: h in old(held) && h.reservation.id == id && h.remaining >= 1
                            && View() == Convert(old(View()), h, task, now)
    {
      if task == "" {
        return BadArgument;
      }
      var at := FindHeld(id);
      if at.None? || HorizonReached(now) {
        return Refused;
      }
      if task !in tasks {
        return UnknownTask;
      }
      if !Open(tasks[task]) {
        return Refused;
      }
      var lease := AdmitHeld(held[at.value], task, now);
      return Granted(lease);
    }

    method AdmitHeld(h: Held, task: string, now: real) returns (lease: Assignment)
      requires Valid() && h in held && task in tasks && Open(tasks[task])
      modifies this`tasks, this`leases, this`byTask, this`held, this`history
      ensures Valid() && h.remaining >= 1
      ensures lease == NextLease(old(View()), task, now) && View() == Convert(old(View()), h, task, now)
    {
      ConvertKeeps(View(), h, task, now);
      ghost var after := Convert(View(), h, task, now);
      lease := ConvertHeld(h, task, now);
      SameBooks(after, View());
    }

    /** Record the lease and give up one of the reservation's slots for it. */
    method ConvertHeld(h: Held, task: string, now: real) returns (lease: Assignment)
      requires task in tasks && task in byTask && h.remaining >= 1
      modifies this`tasks, this`leases, this`byTask, this`held, this`history
      ensures lease == NextLease(old(View()), task, now) && View() == Convert(old(View()), h, task, now)
    {
      lease := AdmitLocked(task, now);
      held := TakeSlot(held, h.reservation.id);
      history := history + [ReservationConverted(h.reservation.id, h.reservation.purpose, lease.agent, task,
                                                 h.remaining - 1, now)];
    }

    method FindLease(agent: string) returns (at: Option<nat>)
      ensures at.None? ==> forall a :: a in leases ==> a.agent != agent
      ensures at.Some? ==> at.value < |leases| && leases[at.value].agent == agent
    {
      var i := 0;
      while i < |leases|
        invariant i <= |leases| && forall k :: 0 <= k < i ==> leases[k].agent != agent
      {
        if leases[i].agent == agent {
          return Some(i);
        }
        i := i + 1;
      }
      return None;
    }

    /** Release a worker and, if asked, solve or retire its task. */
    method Finish(agent: string, solved: bool, retireReason: Option<string>, now: real)
      returns (reply: Reply<Assignment>)
      requires Valid()
      modifies this`tasks, this`leases, this`byTask, this`history
      ensures Valid()
      ensures
        if (solved && retireReason.Some?) || retireReason == Some("") then reply == BadArgument && View() == old(View())
        else if forall a :: a in old(leases) ==> a.agent != agent then reply == Refused && View() == old(View())
        else reply.Granted? && reply.value in old(leases) && reply.value.agent == agent
             && reply.value.task in old(tasks) && reply.value.task in old(byTask)
             && View() == Finished(old(View()), reply.value, solved, retireReason, now)
    {
      if (solved && retireReason.Some?) || retireReason == Some("") {
        return BadArgument;
      }
      var at := FindLease(agent);
      if at.None? {
        return Refused;
      }
      var a := leases[at.value];
      CloseLease(a, solved, retireReason, now);
      if solved {
        var _ := SolveLocked(a.task);
      } else if retireReason.Some? {
        var _ := RetireLocked(a.task, retireReason.value);
      }
      return Granted(a);
    }

    /** Remove a lease from both tables and log it. */
    method CloseLease(a: Assignment, solved: bool, retireReason: Option<string>, now: real)
      requires Valid() && a in leases
      modifies this`leases, this`byTask, this`history
      ensures Valid() && a.task in old(tasks) && a.task in old(byTask)
      ensures View() == Close(old(View()), a, solved, retireReason, now)
    {
      CloseKeeps(View(), a, solved, retireReason, now);
      leases := WithoutAgent(leases, a.agent);
      byTask := byTask[a.task := WithoutAgent(byTask[a.task], a.agent)];
      history := history + [AgentFinished(a.task, a.agent, a.generation, solved, retireReason, now)];
    }

    /** Mark a task solved; its running workers keep their slots. */
    method TaskSolved(task: string) returns (reply: Reply<bool>)
      requires Valid()
      modifies this`tasks, this`history
      ensures Valid()
      ensures
        if task == "" then reply == BadArgument && View() == old(View())
        else if task !in old(tasks) then reply == UnknownTask && View() == old(View())
        else reply == Granted(!old(tasks)[task].solved) && View() == SolveOnce(old(View()), task)
    {
      if task == "" {
        return BadArgument;
      }
      reply := SolveLocked(task);
    }

    method SolveLocked(task: string) returns (reply: Reply<bool>)
      requires Valid()
      modifies this`tasks, this`history
      ensures Valid()
      ensures
        if task !in old(tasks) then reply == UnknownTask && View() == old(View())
        else reply == Granted(!old(tasks)[task].solved) && View() == SolveOnce(old(View()), task)
    {
      if task !in tasks {
        return UnknownTask;
      }
      if tasks[task].solved {
        return Granted(false);
      }
      SettleTaskKeeps(View(), task, Event.TaskSolved(task));
      tasks := tasks[task := tasks[task].(solved := true, retired := None)];
      history := history + [Event.TaskSolved(task)];
      return Granted(true);
    }

    /** Stop new leases for a task that is neither solved nor retired. */
    method RetireTask(task: string, reason: string) returns (reply: Reply<bool>)
      requires Valid()
      modifies this`tasks, this`history
      ensures Valid()
      ensures
        if task == "" || reason == "" then reply == BadArgument && View() == old(View())
        else if task !in old(tasks) then reply == UnknownTask && View() == old(View())
        else reply == Granted(Open(old(tasks)[task])) && View() == RetireOnce(old(View()), task, reason)
    {
      if task == "" || reason == "" {
        return BadArgument;
      }
      reply := RetireLocked(task, reason);
    }

    method RetireLocked(task: string, reason: string) returns (reply: Reply<bool>)
      requires Valid() && reason != ""
      modifies this`tasks, this`history
      ensures Valid()
      ensures
        if task !in old(tasks) then reply == UnknownTask && View() == old(View())
        else reply == Granted(Open(old(tasks)[task])) && View() == RetireOnce(old(View()), task, reason)
    {
      if task !in tasks {
        return UnknownTask;
      }
      if !Open(tasks[task]) {
        return Granted(false);
      }
      SettleTaskKeeps(View(), task, TaskRetired(task, reason));
      tasks := tasks[task := tasks[task].(retired := Some(reason))];
      history := history + [TaskRetired(task, reason)];
      return Granted(true);
    }

    /** Drop every lease of a task. */
    method CancelTask(task: string) returns (reply: Reply<seq<Assignment>>)
      requires Valid()
      modifies this`leases, this`byTask, this`history
      ensures Valid()
      ensures
        if task == "" then reply == BadArgument && View() == old(View())
        else if task !in old(tasks) then reply == UnknownTask && View() == old(View())
        else reply == Granted(OfTask(old(leases), task)) && task in old(byTask) && View() == Cancel(old(View()), task)
    {
      if task == "" {
        return BadArgument;
      }
      if task !in tasks {
        return UnknownTask;
      }
      CancelKeeps(View(), task);
      var cancelled := byTask[task];
      leases := NotOfTask(leases, task);
      byTask := byTask[task := []];
      history := history + [TaskCancelled(task, Agents(cancelled))];
      return Granted(cancelled);
    }
  }
}
