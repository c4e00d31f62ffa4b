/** The event history of the elastic scheduler and what replaying it rebuilds. */
module SchedulerHistory {
  import opened Options

  /** A worker lease. */
  datatype Assignment = Assignment(task: string, agent: string, generation: nat, admittedAt: real)

  datatype Reservation = Reservation(id: string, slots: nat, purpose: string, acquiredAt: real)

  /** A reservation and the slots it still holds. */
  datatype Held = Held(reservation: Reservation, remaining: nat)

  datatype TaskState = TaskState(
    initialAgents: nat, solved: bool, retired: Option<string>, nextGeneration: nat, initialAdmitted: nat)

  datatype Event =
    | AgentAdmitted(lease: Assignment)
    | ReservationAcquired(reservation: Reservation)
    | ReservationReleased(id: string, purpose: string, slots: nat, reason: string, at: real)
    | ReservationConverted(id: string, purpose: string, agent: string, task: string, remaining: nat, at: real)
    | AgentFinished(task: string, agent: string, generation: nat, solved: bool, retireReason: Option<string>, at: real)
    | TaskSolved(task: string)
    | TaskRetired(task: string, reason: string)
    | TaskCancelled(task: string, agents: seq<string>)

  // Insertion-ordered tables, as association lists

  function WithoutAgent(leases: seq<Assignment>, agent: string): seq<Assignment> {
    if leases == [] then []
    else if leases[0].agent == agent then WithoutAgent(leases[1..], agent)
    else [leases[0]] + WithoutAgent(leases[1..], agent)
  }

  /** The leases of one task, in order of admission. */
  function OfTask(leases: seq<Assignment>, task: string): seq<Assignment> {
    if leases == [] then []
    else if leases[0].task == task then [leases[0]] + OfTask(leases[1..], task)
    else OfTask(leases[1..], task)
  }

  function NotOfTask(leases: seq<Assignment>, task: string): seq<Assignment> {
    if leases == [] then []
    else if leases[0].task == task then NotOfTask(leases[1..], task)
    else [leases[0]] + NotOfTask(leases[1..], task)
  }

  function WithoutReservation(held: seq<Held>, id: string): seq<Held> {
    if held == [] then []
    else if held[0].reservation.id == id then WithoutReservation(held[1..], id)
    else [held[0]] + WithoutReservation(held[1..], id)
  }

  /** Take one slot out of the reservation `id`, dropping it when it is empty. */
  function TakeSlot(held: seq<Held>, id: string): seq<Held> {
    if held == [] then []
    else if held[0].reservation.id != id then [held[0]] + TakeSlot(held[1..], id)
    else if held[0].remaining <= 1 then held[1..]
    else [held[0].(remaining := held[0].remaining - 1)] + held[1..]
  }

  function HeldSlots(held: seq<Held>): nat {
    if held == [] then 0 else held[0].remaining + HeldSlots(held[1..])
  }

  // Replay

  datatype Slots = Slots(leases: seq<Assignment>, held: seq<Held>)

  function Occupied(s: Slots): nat {
    |s.leases| + HeldSlots(s.held)
  }

  function SlotStep(s: Slots, e: Event): Slots {
    match e
    case AgentAdmitted(lease) => s.(leases := s.leases + [lease])
    case ReservationAcquired(r) => s.(held := s.held + [Held(r, r.slots)])
    case ReservationReleased(id, _, _, _, _) => s.(held := WithoutReservation(s.held, id))
    case ReservationConverted(id, _, _, _, _, _) => s.(held := TakeSlot(s.held, id))
    case AgentFinished(_, agent, _, _, _, _) => s.(leases := WithoutAgent(s.leases, agent))
    case TaskCancelled(task, _) => s.(leases := NotOfTask(s.leases, task))
    case _ => s
  }

  /** The leases and reservations a history leaves in force. */
  function ReplaySlots(history: seq<Event>): Slots {
    if history == [] then Slots([], [])
    else SlotStep(ReplaySlots(history[..|history|-1]), history[|history|-1])
  }

  function TaskStep(task: string, s: TaskState, e: Event): TaskState {
    match e
    case AgentAdmitted(lease) =>
      if lease.task != task then s
      else s.(nextGeneration := lease.generation + 1,
              initialAdmitted := if s.initialAdmitted < s.initialAgents then s.initialAdmitted + 1
                                 else s.initialAdmitted)
    case TaskSolved(t) => if t == task then s.(solved := true, retired := None) else s
    case TaskRetired(t, reason) => if t == task then s.(retired := Some(reason)) else s
    case _ => s
  }

  /** The state of one task a history leaves behind. */
  function ReplayTask(task: string, quota: nat, history: seq<Event>): TaskState {
    if history == [] then TaskState(quota, false, None, 1, 0)
    else TaskStep(task, ReplayTask(task, quota, history[..|history|-1]), history[|history|-1])
  }

  // Conservation of reserved slots

  function AcquiredBy(e: Event, id: string): nat {
    if e.ReservationAcquired? && e.reservation.id == id then e.reservation.slots else 0
  }

  function CompletedBy(e: Event, id: string): nat {
    match e
    case ReservationReleased(i, _, slots, _, _) => if i == id then slots else 0
    case ReservationConverted(i, _, _, _, _, _) => if i == id then 1 else 0
    case _ => 0
  }

  function AcquiredSlots(history: seq<Event>, id: string): nat {
    if history == [] then 0
    else AcquiredSlots(history[..|history|-1], id) + AcquiredBy(history[|history|-1], id)
  }

  function CompletedSlots(history: seq<Event>, id: string): nat {
    if history == [] then 0
    else CompletedSlots(history[..|history|-1], id) + CompletedBy(history[|history|-1], id)
  }

  function HeldFor(held: seq<Held>, id: string): nat {
    if held == [] then 0
    else (if held[0].reservation.id == id then held[0].remaining else 0) + HeldFor(held[1..], id)
  }

  /** Every slot ever acquired under an id is still held under it or completed. */
  ghost predicate SlotsConserved(history: seq<Event>) {
    forall id :: AcquiredSlots(history, id) == HeldFor(ReplaySlots(history).held, id) + CompletedSlots(history, id)
  }

  /** Replaying any prefix fits the capacity, except that the prefix ending
      between a conversion's admission and its completion counts one too many. */
  ghost predicate PrefixesFit(history: seq<Event>, capacity: nat) {
    forall k :: 0 <= k <= |history| ==> PrefixFits(history, k, capacity)
  }

  predicate PrefixFits(history: seq<Event>, k: nat, capacity: nat)
    requires k <= |history|
  {
    var used := Occupied(ReplaySlots(history[..k]));
    || used <= capacity
    || (&& used == capacity + 1
        && 0 < k < |history|
        && history[k-1].AgentAdmitted? && history[k].ReservationConverted?
        && history[k].agent == history[k-1].lease.agent)
  }

  /** No two admissions in the history carry the same agent id. */
  ghost predicate AgentsUnique(history: seq<Event>) {
    forall i, j :: 0 <= i < j < |history| && history[i].AgentAdmitted? && history[j].AgentAdmitted? ==>
      history[i].lease.agent != history[j].lease.agent
  }

  /** No lease is admitted for a task already solved or retired. */
  ghost predicate NoLateLeases(history: seq<Event>) {
    forall i, j :: 0 <= i < j < |history| && history[j].AgentAdmitted? ==>
      && history[i] != TaskSolved(history[j].lease.task)
      && !(history[i].TaskRetired? && history[i].task == history[j].lease.task)
  }

  // ---------------------------------------------------------------------
  // Appending one event
  // ---------------------------------------------------------------------

  lemma Snoc(history: seq<Event>, e: Event)
    ensures ReplaySlots(history + [e]) == SlotStep(ReplaySlots(history), e)
    ensures forall t, q :: ReplayTask(t, q, history + [e]) == TaskStep(t, ReplayTask(t, q, history), e)
    ensures forall id :: AcquiredSlots(history + [e], id) == AcquiredSlots(history, id) + AcquiredBy(e, id)
    ensures forall id :: CompletedSlots(history + [e], id) == CompletedSlots(history, id) + CompletedBy(e, id)
  {
    assert (history + [e])[..|history|] == history;
  }

  lemma PrefixesSnoc(history: seq<Event>, e: Event, capacity: nat)
    requires PrefixesFit(history, capacity)
    requires Occupied(ReplaySlots(history + [e])) <= capacity
    ensures PrefixesFit(history + [e], capacity)
  {
    var longer := history + [e];
    forall k | 0 <= k <= |longer| ensures PrefixFits(longer, k, capacity) {
      if k <= |history| {
        assert longer[..k] == history[..k];
        assert PrefixFits(history, k, capacity);
      } else {
        assert longer[..k] == longer;
      }
    }
  }

  /** A conversion appends its two rows together. */
  lemma PrefixesConvert(history: seq<Event>, a: Event, c: Event, capacity: nat)
    requires PrefixesFit(history, capacity)
    requires Occupied(ReplaySlots(history)) <= capacity
    requires a.AgentAdmitted? && c.ReservationConverted? && c.agent == a.lease.agent
    requires Occupied(ReplaySlots(history + [a] + [c])) <= capacity
    ensures PrefixesFit(history + [a] + [c], capacity)
  {
    var longer := history + [a] + [c];
    Snoc(history, a);
    forall k | 0 <= k <= |longer| ensures PrefixFits(longer, k, capacity) {
      if k <= |history| {
        assert longer[..k] == history[..k];
        assert PrefixFits(history, k, capacity);
      } else if k == |history| + 1 {
        assert longer[..k] == history + [a];
      } else {
        assert longer[..k] == longer;
      }
    }
  }

  // ---------------------------------------------------------------------
  // The tables
  // ---------------------------------------------------------------------

  lemma {:induction false} TaskMembers(xs: seq<Assignment>, task: string)
    ensures forall a :: a in OfTask(xs, task) <==> a in xs && a.task == task
    ensures forall a :: a in NotOfTask(xs, task) <==> a in xs && a.task != task
  {
    if xs != [] {
      TaskMembers(xs[1..], task);
    }
  }

  lemma {:induction false} OfTaskAppend(xs: seq<Assignment>, ys: seq<Assignment>, task: string)
    ensures OfTask(xs + ys, task) == OfTask(xs, task) + OfTask(ys, task)
  {
    if xs == [] {
      assert xs + ys == ys;
    } else {
      assert (xs + ys)[1..] == xs[1..] + ys;
      OfTaskAppend(xs[1..], ys, task);
    }
  }

  lemma {:induction false} OfTaskWithoutAgent(xs: seq<Assignment>, agent: string, task: string)
    ensures OfTask(WithoutAgent(xs, agent), task) == WithoutAgent(OfTask(xs, task), agent)
  {
    if xs != [] {
      OfTaskWithoutAgent(xs[1..], agent, task);
      assert xs[0].task == task ==> OfTask(xs, task)[1..] == OfTask(xs[1..], task);
      assert xs[0].agent != agent ==> WithoutAgent(xs, agent)[1..] == WithoutAgent(xs[1..], agent);
    }
  }

  lemma {:induction false} WithoutAbsentAgent(xs: seq<Assignment>, agent: string)
    requires forall a :: a in xs ==> a.agent != agent
    ensures WithoutAgent(xs, agent) == xs
  {
    if xs != [] {
      assert xs[0] in xs;
      WithoutAbsentAgent(xs[1..], agent);
    }
  }

  lemma {:induction false} WithoutAgentMembers(xs: seq<Assignment>, agent: string)
    ensures forall a :: a in WithoutAgent(xs, agent) <==> a in xs && a.agent != agent
    ensures |WithoutAgent(xs, agent)| <= |xs|
  {
    if xs != [] {
      WithoutAgentMembers(xs[1..], agent);
    }
  }

  lemma {:induction false} OfTaskNotOfTask(xs: seq<Assignment>, removed: string, task: string)
    ensures OfTask(NotOfTask(xs, removed), task) == if task == removed then [] else OfTask(xs, task)
    ensures |NotOfTask(xs, removed)| + |OfTask(xs, removed)| == |xs|
  {
    if xs != [] {
      OfTaskNotOfTask(xs[1..], removed, task);
    }
  }

  ghost predicate DistinctIds(held: seq<Held>) {
    forall i, j :: 0 <= i < j < |held| ==> held[i].reservation.id != held[j].reservation.id
  }

  lemma {:induction false} HeldSlotsAppend(xs: seq<Held>, ys: seq<Held>)
    ensures HeldSlots(xs + ys) == HeldSlots(xs) + HeldSlots(ys)
    ensures forall id :: HeldFor(xs + ys, id) == HeldFor(xs, id) + HeldFor(ys, id)
  {
    if xs == [] {
      assert xs + ys == ys;
    } else {
      assert (xs + ys)[1..] == xs[1..] + ys;
      HeldSlotsAppend(xs[1..], ys);
    }
  }

  lemma {:induction false} HeldForAbsent(held: seq<Held>, id: string)
    requires forall h :: h in held ==> h.reservation.id != id
    ensures HeldFor(held, id) == 0 && WithoutReservation(held, id) == held && TakeSlot(held, id) == held
  {
    if held != [] {
      assert held[0] in held;
      HeldForAbsent(held[1..], id);
    }
  }

  /** Releasing a reservation frees exactly what it still held. */
  lemma {:induction false} ReleaseFrees(held: seq<Held>, h: Held)
    requires DistinctIds(held) && h in held
    ensures var rest := WithoutReservation(held, h.reservation.id);
            && HeldSlots(rest) + h.remaining == HeldSlots(held)
            && (forall id :: HeldFor(rest, id) == if id == h.reservation.id then 0 else HeldFor(held, id))
            && HeldFor(held, h.reservation.id) == h.remaining
            && (forall x :: x in rest <==> x in held && x.reservation.id != h.reservation.id)
            && DistinctIds(rest)
  {
    var id := h.reservation.id;
    if held[0].reservation.id == id {
      assert forall x :: x in held[1..] ==> x.reservation.id != id;
      HeldForAbsent(held[1..], id);
      assert h == held[0];
    } else {
      assert h in held[1..];
      ReleaseFrees(held[1..], h);
    }
  }

  /** Converting a slot takes exactly one from the reservation and leaves the others. */
  lemma {:induction false} TakeSlotCounts(held: seq<Held>, h: Held)
    requires DistinctIds(held) && h in held && h.remaining >= 1
    ensures var rest := TakeSlot(held, h.reservation.id);
            && HeldSlots(rest) + 1 == HeldSlots(held)
            && (forall id :: HeldFor(rest, id) == HeldFor(held, id) - if id == h.reservation.id then 1 else 0)
  {
    var id := h.reservation.id;
    if held[0].reservation.id == id {
      assert forall x :: x in held[1..] ==> x.reservation.id != id;
      HeldForAbsent(held[1..], id);
      assert h == held[0];
    } else {
      assert h in held[1..];
      TakeSlotCounts(held[1..], h);
      assert TakeSlot(held, id)[1..] == TakeSlot(held[1..], id);
    }
  }

  /** What is left keeps distinct ids, and every reservation left was held. */
  lemma {:induction false} TakeSlotLeaves(held: seq<Held>, h: Held)
    requires DistinctIds(held) && h in held
    requires forall x :: x in held ==> 1 <= x.remaining <= x.reservation.slots
    ensures var rest := TakeSlot(held, h.reservation.id);
            && (forall x :: x in rest ==> 1 <= x.remaining <= x.reservation.slots)
            && (forall x :: x in rest ==> exists y :: y in held && y.reservation == x.reservation)
            && DistinctIds(rest)
  {
    var id := h.reservation.id;
    assert held[0] in held && forall x :: x in held[1..] ==> x in held;
    if held[0].reservation.id != id {
      assert h in held[1..];
      TakeSlotLeaves(held[1..], h);
      var rest := TakeSlot(held[1..], id);
      assert TakeSlot(held, id) == [held[0]] + rest;
      assert forall x :: x in rest ==> x.reservation.id != held[0].reservation.id;
    }
  }

  lemma TakeSlotTakesOne(held: seq<Held>, h: Held)
    requires DistinctIds(held) && h in held && h.remaining >= 1
    requires forall x :: x in held ==> 1 <= x.remaining <= x.reservation.slots
    ensures var rest := TakeSlot(held, h.reservation.id);
            && HeldSlots(rest) + 1 == HeldSlots(held)
            && (forall id :: HeldFor(rest, id) == HeldFor(held, id) - if id == h.reservation.id then 1 else 0)
            && (forall x :: x in rest ==> 1 <= x.remaining <= x.reservation.slots)
            && (forall x :: x in rest ==> exists y :: y in held && y.reservation == x.reservation)
            && DistinctIds(rest)
  {
    TakeSlotCounts(held, h);
    TakeSlotLeaves(held, h);
  }

  // ---------------------------------------------------------------------
  // Per-task counts
  // ---------------------------------------------------------------------

  function LeaseCount(order: seq<string>, leases: seq<Assignment>): nat {
    if order == [] then 0 else |OfTask(leases, order[0])| + LeaseCount(order[1..], leases)
  }

  lemma {:induction false} CountCons(order: seq<string>, leases: seq<Assignment>)
    requires forall i, j :: 0 <= i < j < |order| ==> order[i] != order[j]
    requires leases != []
    ensures LeaseCount(order, leases) == LeaseCount(order, leases[1..]) + if leases[0].task in order then 1 else 0
  {
    if order != [] {
      CountCons(order[1..], leases);
      assert leases[0].task == order[0] ==> leases[0].task !in order[1..];
    }
  }

  lemma {:induction false} CountNone(order: seq<string>)
    ensures LeaseCount(order, []) == 0
  {
    if order != [] {
      CountNone(order[1..]);
    }
  }

  /** The per-task lease tables partition the global one. */
  lemma {:induction false} CountsPartition(order: seq<string>, leases: seq<Assignment>)
    requires forall i, j :: 0 <= i < j < |order| ==> order[i] != order[j]
    requires forall a :: a in leases ==> a.task in order
    ensures LeaseCount(order, leases) == |leases|
  {
    if leases == [] {
      CountNone(order);
    } else {
      CountCons(order, leases);
      CountsPartition(order, leases[1..]);
    }
  }
}
