/** The scheduler's books: its tables, the event history, and the invariant that
    ties them together.  Each function is one locked update of the tables. */
module SchedulerBook {
  import opened Names
  import opened Options
  import opened SchedulerHistory
  import opened Sequences

  datatype Book = Book(
    capacity: nat,
    order: seq<string>,
    tasks: map<string, TaskState>,
    leases: seq<Assignment>,
    byTask: map<string, seq<Assignment>>,
    held: seq<Held>,
    nextReservation: nat,
    history: seq<Event>)

  predicate Open(s: TaskState) {
    !s.solved && s.retired == None
  }

  // ---------------------------------------------------------------------
  // Invariant
  // ---------------------------------------------------------------------

  ghost predicate TasksOk(b: Book) {
    && (forall i, j :: 0 <= i < j < |b.order| ==> b.order[i] != b.order[j])
    && (forall t :: t in b.order <==> t in b.tasks)
    && b.byTask.Keys == b.tasks.Keys
    && (forall t :: t in b.tasks ==> b.tasks[t].nextGeneration >= 1)
  }

  /** The global lease table is the disjoint union of the per-task ones. */
  ghost predicate LeasesOk(b: Book) {
    && (forall t :: t in b.byTask ==> b.byTask[t] == OfTask(b.leases, t))
    && (forall a :: a in b.leases ==>
          && a.task in b.tasks
          && a.agent == AgentName(a.task, a.generation)
          && a.generation < b.tasks[a.task].nextGeneration)
  }

  ghost predicate HeldOk(b: Book) {
    && DistinctIds(b.held)
    && (forall h :: h in b.held ==> 1 <= h.remaining <= h.reservation.slots)
    && (forall h :: h in b.held ==> IssuedId(h.reservation.id, b.nextReservation))
  }

  ghost predicate IssuedId(id: string, next: nat) {
    exists n: nat :: n < next && id == ReservationName(n)
  }

  /** The tables are exactly what replaying the history rebuilds. */
  ghost predicate Replays(b: Book) {
    && ReplaySlots(b.history) == Slots(b.leases, b.held)
    && (forall t :: t in b.tasks ==> b.tasks[t] == ReplayTask(t, b.tasks[t].initialAgents, b.history))
  }

  /** The history mentions known tasks only, and agrees with the tables on who
      was admitted and what was closed. */
  ghost predicate MentionsOk(b: Book) {
    && (forall i :: 0 <= i < |b.history| && b.history[i].AgentAdmitted? ==>
          var a := b.history[i].lease;
          a.task in b.tasks && a.agent == AgentName(a.task, a.generation)
          && a.generation < b.tasks[a.task].nextGeneration)
    && (forall i :: 0 <= i < |b.history| && (b.history[i].TaskSolved? || b.history[i].TaskRetired?) ==>
          b.history[i].task in b.tasks && !Open(b.tasks[b.history[i].task]))
  }

  ghost predicate HistoryOk(b: Book) {
    && MentionsOk(b)
    && SlotsConserved(b.history)
    && PrefixesFit(b.history, b.capacity)
    && AgentsUnique(b.history)
    && NoLateLeases(b.history)
  }

  ghost predicate Ok(b: Book) {
    && TasksOk(b)
    && LeasesOk(b)
    && HeldOk(b)
    && Replays(b)
    && HistoryOk(b)
    && |b.leases| + HeldSlots(b.held) <= b.capacity
  }

  // ---------------------------------------------------------------------
  // Updates
  // ---------------------------------------------------------------------

  function Log(b: Book, e: Event): Book {
    b.(history := b.history + [e])
  }

  function NextLease(b: Book, task: string, at: real): Assignment
    requires task in b.tasks
  {
    var g := b.tasks[task].nextGeneration;
    Assignment(task, AgentName(task, g), g, at)
  }

  function Admit(b: Book, task: string, at: real): Book
    requires task in b.tasks && task in b.byTask
  {
    var lease := NextLease(b, task, at);
    Log(b.(tasks := b.tasks[task := TaskStep(task, b.tasks[task], AgentAdmitted(lease))],
           leases := b.leases + [lease],
           byTask := b.byTask[task := b.byTask[task] + [lease]]),
        AgentAdmitted(lease))
  }

  function Acquire(b: Book, slots: nat, purpose: string, at: real): Book {
    var r := NextReservation(b, slots, purpose, at);
    Log(b.(held := b.held + [Held(r, slots)], nextReservation := b.nextReservation + 1), ReservationAcquired(r))
  }

  function Release(b: Book, h: Held, reason: string, at: real): Book {
    var r := h.reservation;
    Log(b.(held := WithoutReservation(b.held, r.id)),
        ReservationReleased(r.id, r.purpose, h.remaining, reason, at))
  }

  function Convert(b: Book, h: Held, task: string, at: real): Book
    requires task in b.tasks && task in b.byTask && h.remaining >= 1
  {
    var r := h.reservation;
    var admitted := Admit(b, task, at);
    Log(admitted.(held := TakeSlot(b.held, r.id)),
        ReservationConverted(r.id, r.purpose, NextLease(b, task, at).agent, task, h.remaining - 1, at))
  }

  function Close(b: Book, a: Assignment, solved: bool, reason: Option<string>, at: real): Book
    requires a.task in b.byTask
  {
    Log(b.(leases := WithoutAgent(b.leases, a.agent),
           byTask := b.byTask[a.task := WithoutAgent(b.byTask[a.task], a.agent)]),
        AgentFinished(a.task, a.agent, a.generation, solved, reason, at))
  }

  function Solve(b: Book, task: string): Book
    requires task in b.tasks
  {
    Log(b.(tasks := b.tasks[task := TaskStep(task, b.tasks[task], TaskSolved(task))]), TaskSolved(task))
  }

  function Retire(b: Book, task: string, reason: string): Book
    requires task in b.tasks
  {
    Log(b.(tasks := b.tasks[task := TaskStep(task, b.tasks[task], TaskRetired(task, reason))]),
        TaskRetired(task, reason))
  }

  function Cancel(b: Book, task: string): Book
    requires task in b.byTask
  {
    Log(b.(leases := NotOfTask(b.leases, task), byTask := b.byTask[task := []]),
        TaskCancelled(task, Agents(b.byTask[task])))
  }

  function Agents(leases: seq<Assignment>): seq<string> {
    seq(|leases|, i requires 0 <= i < |leases| => leases[i].agent)
  }

  function AddTask(b: Book, task: string, quota: nat): Book {
    b.(order := b.order + [task],
       tasks := b.tasks[task := TaskState(quota, false, None, 1, 0)],
       byTask := b.byTask[task := []])
  }

  // ---------------------------------------------------------------------
  // Every update keeps the invariant
  // ---------------------------------------------------------------------

  lemma FreshAgent(b: Book, task: string, at: real)
    requires LeasesOk(b) && MentionsOk(b) && task in b.tasks
    ensures forall a :: a in b.leases ==> a.agent != NextLease(b, task, at).agent
    ensures forall i :: 0 <= i < |b.history| && b.history[i].AgentAdmitted? ==>
                          b.history[i].lease.agent != NextLease(b, task, at).agent
  {
    var lease := NextLease(b, task, at);
    forall a | a in b.leases ensures a.agent != lease.agent {
      if a.agent == lease.agent { AgentNameInjective(a.task, a.generation, task, lease.generation); }
    }
    forall i | 0 <= i < |b.history| && b.history[i].AgentAdmitted?
      ensures b.history[i].lease.agent != lease.agent
    {
      var a := b.history[i].lease;
      if a.agent == lease.agent { AgentNameInjective(a.task, a.generation, task, lease.generation); }
    }
  }

  lemma AdmitLeases(b: Book, task: string, at: real)
    requires TasksOk(b) && LeasesOk(b) && task in b.tasks
    ensures TasksOk(Admit(b, task, at)) && LeasesOk(Admit(b, task, at))
  {
    var lease, b' := NextLease(b, task, at), Admit(b, task, at);
    forall t | t in b'.byTask ensures b'.byTask[t] == OfTask(b'.leases, t) {
      OfTaskAppend(b.leases, [lease], t);
      assert OfTask([lease], t) == if t == task then [lease] else [];
    }
  }

  lemma AdmitReplays(b: Book, task: string, at: real)
    requires Replays(b) && task in b.tasks && task in b.byTask
    ensures Replays(Admit(b, task, at))
  {
    Snoc(b.history, AgentAdmitted(NextLease(b, task, at)));
  }

  lemma AdmitTables(b: Book, task: string, at: real)
    requires TasksOk(b) && LeasesOk(b) && Replays(b) && task in b.tasks
    ensures var b' := Admit(b, task, at); TasksOk(b') && LeasesOk(b') && Replays(b')
  {
    AdmitLeases(b, task, at);
    AdmitReplays(b, task, at);
  }

  lemma AdmitMentions(b: Book, task: string, at: real)
    requires LeasesOk(b) && MentionsOk(b) && task in b.tasks && task in b.byTask && Open(b.tasks[task])
    ensures MentionsOk(Admit(b, task, at))
  {
    var b' := Admit(b, task, at);
    assert forall i :: 0 <= i < |b.history| ==> b'.history[i] == b.history[i];
  }

  lemma AdmitUnique(b: Book, task: string, at: real)
    requires LeasesOk(b) && MentionsOk(b) && AgentsUnique(b.history) && task in b.tasks && task in b.byTask
    ensures AgentsUnique(Admit(b, task, at).history)
  {
    FreshAgent(b, task, at);
    var longer := Admit(b, task, at).history;
    assert forall i :: 0 <= i < |b.history| ==> longer[i] == b.history[i];
  }

  lemma AdmitNotLate(b: Book, task: string, at: real)
    requires MentionsOk(b) && NoLateLeases(b.history)
    requires task in b.tasks && task in b.byTask && Open(b.tasks[task])
    ensures NoLateLeases(Admit(b, task, at).history)
  {
    var longer := Admit(b, task, at).history;
    assert forall i :: 0 <= i < |b.history| ==> longer[i] == b.history[i];
  }

  lemma AdmitHistory(b: Book, task: string, at: real)
    requires TasksOk(b) && LeasesOk(b) && task in b.tasks && Open(b.tasks[task])
    requires MentionsOk(b) && AgentsUnique(b.history) && NoLateLeases(b.history) && SlotsConserved(b.history)
    ensures var b' := Admit(b, task, at);
            MentionsOk(b') && AgentsUnique(b'.history) && NoLateLeases(b'.history) && SlotsConserved(b'.history)
  {
    AdmitMentions(b, task, at);
    AdmitUnique(b, task, at);
    AdmitNotLate(b, task, at);
    Snoc(b.history, AgentAdmitted(NextLease(b, task, at)));
  }

  lemma AdmitKeeps(b: Book, task: string, at: real)
    requires Ok(b) && task in b.tasks && Open(b.tasks[task])
    requires |b.leases| + HeldSlots(b.held) < b.capacity
    ensures Ok(Admit(b, task, at))
  {
    AdmitTables(b, task, at);
    AdmitHistory(b, task, at);
    PrefixesSnoc(b.history, AgentAdmitted(NextLease(b, task, at)), b.capacity);
  }

  lemma AcquireKeeps(b: Book, slots: nat, purpose: string, at: real)
    requires Ok(b) && slots >= 1
    requires |b.leases| + HeldSlots(b.held) + slots <= b.capacity
    ensures Ok(Acquire(b, slots, purpose, at))
  {
    AcquireHeld(b, slots, purpose, at);
    AcquireSlots(b, slots, purpose, at);
    QuietHistory(b, ReservationAcquired(NextReservation(b, slots, purpose, at)));
  }

  function NextReservation(b: Book, slots: nat, purpose: string, at: real): Reservation {
    Reservation(ReservationName(b.nextReservation), slots, purpose, at)
  }

  lemma AcquireSlots(b: Book, slots: nat, purpose: string, at: real)
    requires Replays(b) && SlotsConserved(b.history) && PrefixesFit(b.history, b.capacity)
    requires |b.leases| + HeldSlots(b.held) + slots <= b.capacity
    ensures var b' := Acquire(b, slots, purpose, at);
            && Replays(b') && SlotsConserved(b'.history) && PrefixesFit(b'.history, b'.capacity)
            && HeldSlots(b'.held) == HeldSlots(b.held) + slots
  {
    var r := NextReservation(b, slots, purpose, at);
    Snoc(b.history, ReservationAcquired(r));
    HeldSlotsAppend(b.held, [Held(r, slots)]);
    assert [Held(r, slots)][1..] == [];
    assert forall id :: HeldFor([Held(r, slots)], id) == AcquiredBy(ReservationAcquired(r), id);
    PrefixesSnoc(b.history, ReservationAcquired(r), b.capacity);
  }

  lemma AcquireHeld(b: Book, slots: nat, purpose: string, at: real)
    requires HeldOk(b) && slots >= 1
    ensures HeldOk(Acquire(b, slots, purpose, at))
  {
    var r := NextReservation(b, slots, purpose, at);
    var b' := Acquire(b, slots, purpose, at);
    forall h | h in b.held ensures h.reservation.id != r.id && IssuedId(h.reservation.id, b'.nextReservation) {
      var n: nat :| n < b.nextReservation && h.reservation.id == ReservationName(n);
      if h.reservation.id == r.id { ReservationNameInjective(n, b.nextReservation); }
    }
    assert IssuedId(r.id, b'.nextReservation);
    assert HeldOk(b') by {
      forall i, j | 0 <= i < j < |b'.held| ensures b'.held[i].reservation.id != b'.held[j].reservation.id {
        assert b'.held[i] == b.held[i];
        if j < |b.held| { assert b'.held[j] == b.held[j]; } else { assert b.held[i] in b.held; }
      }
    }
  }

  /** An event that admits nobody and closes nothing leaves those claims alone. */
  lemma QuietHistory(b: Book, e: Event)
    requires MentionsOk(b) && AgentsUnique(b.history) && NoLateLeases(b.history)
    requires !e.AgentAdmitted?
    requires e.TaskSolved? || e.TaskRetired? ==> e.task in b.tasks && !Open(b.tasks[e.task])
    ensures MentionsOk(Log(b, e)) && AgentsUnique(Log(b, e).history) && NoLateLeases(Log(b, e).history)
  {
    var longer := b.history + [e];
    assert forall i :: 0 <= i < |b.history| ==> longer[i] == b.history[i];
  }

  lemma ReleaseKeeps(b: Book, h: Held, reason: string, at: real)
    requires Ok(b) && h in b.held
    ensures Ok(Release(b, h, reason, at))
  {
    var e := ReservationReleased(h.reservation.id, h.reservation.purpose, h.remaining, reason, at);
    Snoc(b.history, e);
    ReleaseFrees(b.held, h);
    PrefixesSnoc(b.history, e, b.capacity);
    QuietHistory(b, e);
  }

  lemma TakeKeepsHeld(b: Book, h: Held)
    requires HeldOk(b) && h in b.held
    ensures HeldOk(b.(held := TakeSlot(b.held, h.reservation.id)))
  {
    TakeSlotTakesOne(b.held, h);
  }

  /** The admission half of a conversion keeps everything but the capacity. */
  lemma ConvertTables(b: Book, h: Held, task: string, at: real)
    requires TasksOk(b) && LeasesOk(b) && Replays(b) && h in b.held && h.remaining >= 1 && task in b.tasks
    ensures var b' := Convert(b, h, task, at);
            TasksOk(b') && LeasesOk(b') && Replays(b')
  {
    var mid := Admit(b, task, at);
    AdmitTables(b, task, at);
    var b' := Convert(b, h, task, at);
    Snoc(mid.history, b'.history[|mid.history|]);
  }

  lemma ConvertMentions(b: Book, h: Held, task: string, at: real)
    requires TasksOk(b) && LeasesOk(b) && SlotsConserved(b.history)
    requires MentionsOk(b) && AgentsUnique(b.history) && NoLateLeases(b.history)
    requires h.remaining >= 1 && task in b.tasks && Open(b.tasks[task])
    ensures var b' := Convert(b, h, task, at);
            MentionsOk(b') && AgentsUnique(b'.history) && NoLateLeases(b'.history)
  {
    var mid := Admit(b, task, at);
    AdmitHistory(b, task, at);
    QuietHistory(mid, Convert(b, h, task, at).history[|mid.history|]);
  }

  lemma ConvertSlots(b: Book, h: Held, task: string, at: real)
    requires ReplaySlots(b.history) == Slots(b.leases, b.held)
    requires DistinctIds(b.held) && h.remaining >= 1
    requires SlotsConserved(b.history) && PrefixesFit(b.history, b.capacity)
    requires |b.leases| + HeldSlots(b.held) <= b.capacity
    requires h in b.held && task in b.tasks && task in b.byTask
    ensures var b' := Convert(b, h, task, at);
            SlotsConserved(b'.history) && PrefixesFit(b'.history, b'.capacity)
  {
    var lease := NextLease(b, task, at);
    var a, c := AgentAdmitted(lease), ReservationConverted(h.reservation.id, h.reservation.purpose,
                                                           lease.agent, task, h.remaining - 1, at);
    TakeSlotCounts(b.held, h);
    ConvertedSlots(b.history, a, c, b.held);
    PrefixesConvert(b.history, a, c, b.capacity);
  }

  /** The two rows of a conversion move one slot from held to completed. */
  lemma ConvertedSlots(history: seq<Event>, a: Event, c: Event, held: seq<Held>)
    requires SlotsConserved(history) && ReplaySlots(history).held == held
    requires a.AgentAdmitted? && c.ReservationConverted?
    requires HeldSlots(TakeSlot(held, c.id)) + 1 == HeldSlots(held)
    requires forall id :: HeldFor(TakeSlot(held, c.id), id) == HeldFor(held, id) - if id == c.id then 1 else 0
    ensures SlotsConserved(history + [a] + [c])
    ensures Occupied(ReplaySlots(history + [a] + [c])) == Occupied(ReplaySlots(history))
  {
    Snoc(history, a);
    Snoc(history + [a], c);
  }

  lemma ConvertKeeps(b: Book, h: Held, task: string, at: real)
    requires Ok(b) && h in b.held && task in b.tasks && Open(b.tasks[task])
    ensures Ok(Convert(b, h, task, at))
  {
    ConvertTables(b, h, task, at);
    ConvertMentions(b, h, task, at);
    ConvertSlots(b, h, task, at);
    TakeKeepsHeld(b, h);
    TakeSlotTakesOne(b.held, h);
  }

  lemma CloseTables(b: Book, a: Assignment, solved: bool, reason: Option<string>, at: real)
    requires TasksOk(b) && LeasesOk(b) && a in b.leases
    ensures LeasesOk(Close(b, a, solved, reason, at))
  {
    var b' := Close(b, a, solved, reason, at);
    WithoutAgentMembers(b.leases, a.agent);
    forall t | t in b'.byTask ensures b'.byTask[t] == OfTask(b'.leases, t) {
      OfTaskWithoutAgent(b.leases, a.agent, t);
      if t != a.task { OthersKeepAgent(b, a, t); }
    }
  }

  /** An agent id occurs under its own task only. */
  lemma OthersKeepAgent(b: Book, a: Assignment, t: string)
    requires LeasesOk(b) && a in b.leases && t != a.task
    ensures WithoutAgent(OfTask(b.leases, t), a.agent) == OfTask(b.leases, t)
  {
    TaskMembers(b.leases, t);
    forall x | x in OfTask(b.leases, t) ensures x.agent != a.agent {
      assert x in b.leases;
      if x.agent == a.agent { AgentNameInjective(x.task, x.generation, a.task, a.generation); }
    }
    WithoutAbsentAgent(OfTask(b.leases, t), a.agent);
  }

  /** An event that moves no reserved slot and admits nobody keeps the history. */
  lemma NeutralEvent(b: Book, e: Event)
    requires HistoryOk(b)
    requires e.AgentFinished? || e.TaskCancelled? || e.TaskSolved? || e.TaskRetired?
    requires e.TaskSolved? || e.TaskRetired? ==> e.task in b.tasks && !Open(b.tasks[e.task])
    requires Occupied(SlotStep(ReplaySlots(b.history), e)) <= b.capacity
    ensures HistoryOk(Log(b, e))
  {
    NeutralSlots(b.history, e);
    FittingNext(b.history, e, b.capacity);
    QuietHistory(b, e);
  }

  lemma NeutralSlots(history: seq<Event>, e: Event)
    requires SlotsConserved(history)
    requires e.AgentFinished? || e.TaskCancelled? || e.TaskSolved? || e.TaskRetired?
    ensures SlotsConserved(history + [e])
  {
    Snoc(history, e);
  }

  lemma FittingNext(history: seq<Event>, e: Event, capacity: nat)
    requires PrefixesFit(history, capacity) && Occupied(SlotStep(ReplaySlots(history), e)) <= capacity
    ensures PrefixesFit(history + [e], capacity)
  {
    Snoc(history, e);
    PrefixesSnoc(history, e, capacity);
  }

  /** The replayed tables after one more event. */
  lemma ReplaysNext(b: Book, b': Book, e: Event)
    requires Replays(b) && b'.history == b.history + [e]
    requires SlotStep(Slots(b.leases, b.held), e) == Slots(b'.leases, b'.held)
    requires b'.tasks.Keys == b.tasks.Keys
    requires forall t :: t in b.tasks ==> b'.tasks[t] == TaskStep(t, b.tasks[t], e)
    ensures Replays(b')
  {
    Snoc(b.history, e);
  }

  lemma CloseKeeps(b: Book, a: Assignment, solved: bool, reason: Option<string>, at: real)
    requires Ok(b) && a in b.leases
    ensures Ok(Close(b, a, solved, reason, at))
  {
    var e := AgentFinished(a.task, a.agent, a.generation, solved, reason, at);
    CloseTables(b, a, solved, reason, at);
    WithoutAgentMembers(b.leases, a.agent);
    ReplaysNext(b, Close(b, a, solved, reason, at), e);
    NeutralEvent(b, e);
  }

  /** Closing a task keeps the tables. */
  lemma SettleTables(b: Book, task: string, e: Event)
    requires TasksOk(b) && LeasesOk(b) && HeldOk(b) && task in b.tasks
    ensures var b' := b.(tasks := b.tasks[task := TaskStep(task, b.tasks[task], e)]);
            e.TaskSolved? || e.TaskRetired? ==>
              TasksOk(Log(b', e)) && LeasesOk(Log(b', e)) && HeldOk(Log(b', e))
  {
  }

  lemma SettleReplays(b: Book, task: string, e: Event)
    requires Replays(b) && task in b.tasks && (e == TaskSolved(task) || (e.TaskRetired? && e.task == task))
    ensures Replays(Log(b.(tasks := b.tasks[task := TaskStep(task, b.tasks[task], e)]), e))
  {
    ReplaysNext(b, Log(b.(tasks := b.tasks[task := TaskStep(task, b.tasks[task], e)]), e), e);
  }

  lemma SettleHistory(b: Book, task: string, e: Event)
    requires HistoryOk(b) && Replays(b) && task in b.tasks && |b.leases| + HeldSlots(b.held) <= b.capacity
    requires e == TaskSolved(task) || (e.TaskRetired? && e.task == task)
    ensures HistoryOk(Log(b.(tasks := b.tasks[task := TaskStep(task, b.tasks[task], e)]), e))
  {
    var closed := b.(tasks := b.tasks[task := TaskStep(task, b.tasks[task], e)]);
    assert MentionsOk(closed);
    NeutralEvent(closed, e);
  }

  lemma SettleTaskKeeps(b: Book, task: string, e: Event)
    requires Ok(b) && task in b.tasks && !b.tasks[task].solved
    requires e == TaskSolved(task) || (e.TaskRetired? && e.task == task && b.tasks[task].retired == None)
    ensures Ok(Log(b.(tasks := b.tasks[task := TaskStep(task, b.tasks[task], e)]), e))
  {
    SettleTables(b, task, e);
    SettleHistory(b, task, e);
    SettleReplays(b, task, e);
  }

  lemma CancelTables(b: Book, task: string)
    requires TasksOk(b) && LeasesOk(b) && task in b.tasks
    ensures LeasesOk(Cancel(b, task))
  {
    var b' := Cancel(b, task);
    TaskMembers(b.leases, task);
    forall t | t in b'.byTask ensures b'.byTask[t] == OfTask(b'.leases, t) {
      OfTaskNotOfTask(b.leases, task, t);
    }
  }

  lemma CancelKeeps(b: Book, task: string)
    requires Ok(b) && task in b.tasks
    ensures Ok(Cancel(b, task))
  {
    CancelTables(b, task);
    CancelReplays(b, task);
  }

  lemma CancelReplays(b: Book, task: string)
    requires Ok(b) && task in b.tasks
    ensures Replays(Cancel(b, task)) && HistoryOk(Cancel(b, task)) && |Cancel(b, task).leases| <= |b.leases|
  {
    var e := TaskCancelled(task, Agents(b.byTask[task]));
    OfTaskNotOfTask(b.leases, task, task);
    ReplaysNext(b, Cancel(b, task), e);
    NeutralEvent(b, e);
  }

  lemma {:induction false} NoneOfTask(leases: seq<Assignment>, task: string)
    requires forall i :: 0 <= i < |leases| ==> leases[i].task != task
    ensures OfTask(leases, task) == []
  {
    if leases != [] {
      NoneOfTask(leases[1..], task);
    }
  }

  lemma {:induction false} UnmentionedTask(task: string, quota: nat, history: seq<Event>)
    requires forall i :: 0 <= i < |history| ==>
               && (history[i].AgentAdmitted? ==> history[i].lease.task != task)
               && (history[i].TaskSolved? || history[i].TaskRetired? ==> history[i].task != task)
    ensures ReplayTask(task, quota, history) == TaskState(quota, false, None, 1, 0)
  {
    if history != [] {
      UnmentionedTask(task, quota, history[..|history|-1]);
    }
  }

  lemma AddTaskTables(b: Book, task: string, quota: nat)
    requires TasksOk(b) && LeasesOk(b) && task !in b.tasks
    ensures TasksOk(AddTask(b, task, quota)) && LeasesOk(AddTask(b, task, quota))
  {
    NoneOfTask(b.leases, task);
  }

  lemma AddTaskReplays(b: Book, task: string, quota: nat)
    requires Replays(b) && MentionsOk(b) && task !in b.tasks
    ensures Replays(AddTask(b, task, quota)) && MentionsOk(AddTask(b, task, quota))
  {
    UnmentionedTask(task, quota, b.history);
  }

  lemma AddTaskKeeps(b: Book, task: string, quota: nat)
    requires Ok(b) && task !in b.tasks
    ensures Ok(AddTask(b, task, quota))
  {
    AddTaskTables(b, task, quota);
    AddTaskReplays(b, task, quota);
  }

  // ---------------------------------------------------------------------
  // Fresh books
  // ---------------------------------------------------------------------

  function EmptyBook(capacity: nat): Book {
    Book(capacity, [], map[], [], map[], [], 1, [])
  }

  lemma EmptyOk(capacity: nat)
    ensures Ok(EmptyBook(capacity))
  {
  }

  /** Task ids and quotas a scheduler can start with. */
  ghost predicate Admissible(ids: seq<string>, quotas: seq<int>) {
    Distinct(ids) && "" !in ids && forall i :: 0 <= i < |quotas| ==> quotas[i] >= 0
  }

  /** One more id and quota: either the whole list stands or falls with them. */
  lemma AdmissibleNext(ids: seq<string>, quotas: seq<int>, i: nat)
    requires i < |ids| == |quotas| && Admissible(ids[..i], quotas[..i])
    ensures if ids[i] in ids[..i] || ids[i] == "" || quotas[i] < 0 then !Admissible(ids, quotas)
            else Admissible(ids[..i + 1], quotas[..i + 1])
  {
    assert forall k :: 0 <= k < i ==> ids[..i][k] == ids[k] && quotas[..i][k] == quotas[k];
    assert ids[..i + 1] == ids[..i] + [ids[i]];
  }

  /** The books of a scheduler that has admitted nothing yet. */
  function FreshBook(capacity: nat, ids: seq<string>, quotas: seq<nat>): Book
    requires |ids| == |quotas|
  {
    if ids == [] then EmptyBook(capacity)
    else AddTask(FreshBook(capacity, ids[..|ids|-1], quotas[..|ids|-1]), ids[|ids|-1], quotas[|ids|-1])
  }

  lemma FreshBookNext(capacity: nat, ids: seq<string>, quotas: seq<int>, i: nat)
    requires i < |ids| == |quotas| && forall k :: 0 <= k <= i ==> quotas[k] >= 0
    ensures FreshBook(capacity, ids[..i + 1], quotas[..i + 1])
         == AddTask(FreshBook(capacity, ids[..i], quotas[..i]), ids[i], quotas[i])
  {
    assert ids[..i + 1][..i] == ids[..i] && quotas[..i + 1][..i] == quotas[..i];
  }

  ghost predicate AllFresh(b: Book, capacity: nat, ids: seq<string>, quotas: seq<nat>) {
    && b.order == ids
    && (forall t :: t in b.tasks <==> t in ids)
    && b.byTask.Keys == b.tasks.Keys
    && (forall t :: t in b.tasks ==>
          && b.byTask[t] == []
          && b.tasks[t].initialAgents in quotas
          && b.tasks[t] == TaskState(b.tasks[t].initialAgents, false, None, 1, 0))
    && b.leases == [] && b.history == [] && b.held == [] && b.capacity == capacity
  }

  lemma AddFresh(b: Book, capacity: nat, ids: seq<string>, quotas: seq<nat>, id: string, quota: nat)
    requires AllFresh(b, capacity, ids, quotas)
    ensures AllFresh(AddTask(b, id, quota), capacity, ids + [id], quotas + [quota])
  {
  }

  lemma {:induction false} FreshTasks(capacity: nat, ids: seq<string>, quotas: seq<nat>)
    requires |ids| == |quotas|
    ensures AllFresh(FreshBook(capacity, ids, quotas), capacity, ids, quotas)
  {
    if ids != [] {
      var n := |ids| - 1;
      FreshTasks(capacity, ids[..n], quotas[..n]);
      AddFresh(FreshBook(capacity, ids[..n], quotas[..n]), capacity, ids[..n], quotas[..n], ids[n], quotas[n]);
      assert ids == ids[..n] + [ids[n]] && quotas == quotas[..n] + [quotas[n]];
    }
  }

  lemma FreshBookKnows(capacity: nat, ids: seq<string>, quotas: seq<nat>, t: string)
    requires |ids| == |quotas|
    ensures t in FreshBook(capacity, ids, quotas).tasks <==> t in ids
  {
    FreshTasks(capacity, ids, quotas);
  }
}
