/** Bounded recovery of a failed agent session. */
module Recovery {
  import opened Options

  datatype AgentResult = AgentResult(returncode: int, timedOut: bool, cancelled: bool, horizonReached: bool)

  /** What an invocation does: return a result, raise, or return something else. */
  datatype Answer = Returned(result: AgentResult) | Raised(timeout: bool) | NotAResult

  datatype Reason =
    | CancelledBeforeStart | HorizonBeforeStart | RestartLimit | NotRecoverable
    | HorizonBeforeBackoff | InsufficientHorizon
    | CancelledDuringBackoff | CancelledBeforeRelaunch | HorizonBeforeRelaunch

  datatype Event =
    | FailureObserved(attempt: nat, recoverable: bool)
    | Scheduled(attempt: nat, delay: real)
    | Started(attempt: nat)
    | Succeeded(attempt: nat)
    | Exhausted(attempt: nat, recoverable: bool, reason: Reason)

  /** How a run ends: with a result, with a TypeError for an invocation that
      returned something else, or with a ValueError before it began. */
  datatype Final = Finished(result: AgentResult) | TypeError | BadArgument

  datatype Status = Success | Failure | Aborted

  function StatusOf(final: Final): Status {
    match final
    case TypeError => Aborted
    case BadArgument => Aborted
    case Finished(result) => if result.returncode == 0 then Success else Failure
  }

  /** One action on the outside world. */
  datatype Act = Check(cancelled: bool, at: real) | Emit(event: Event) | Invoke(attempt: nat)

  // ---------------------------------------------------------------------
  // Backoff
  // ---------------------------------------------------------------------

  function Pow2(n: nat): (p: nat)
    ensures p >= 1
  {
    if n == 0 then 1 else 2 * Pow2(n - 1)
  }

  function Delay(base: real, attempt: nat): real {
    base * Pow2(attempt) as real
  }

  /** The time spent in the first `n` backoffs. */
  function TotalDelay(base: real, n: nat): real {
    if n == 0 then 0.0 else TotalDelay(base, n - 1) + Delay(base, n - 1)
  }

  /** Doubling delays add up to one less than the next power of two. */
  lemma {:induction false} TotalDelayIs(base: real, n: nat)
    ensures TotalDelay(base, n) == base * (Pow2(n) - 1) as real
  {
    if n > 0 {
      TotalDelayIs(base, n - 1);
      var p := Pow2(n - 1);
      assert (Pow2(n) - 1) as real == (p - 1) as real + p as real;
      assert base * ((p - 1) as real + p as real) == base * (p - 1) as real + base * p as real;
    }
  }

  lemma DelayNonnegative(base: real, attempt: nat)
    requires base >= 0.0
    ensures Delay(base, attempt) >= 0.0
  {
  }

  // ---------------------------------------------------------------------
  // The event grammar
  // ---------------------------------------------------------------------

  /** `n` failed attempts, each scheduled for a restart that started. */
  function Rounds(base: real, n: nat): seq<Event> {
    if n == 0 then []
    else Rounds(base, n - 1) + [FailureObserved(n - 1, true), Scheduled(n, Delay(base, n - 1)), Started(n)]
  }

  /** How the log may end after `n` rounds, by the status of the run. */
  predicate LegalEnding(base: real, limit: nat, n: nat, ending: seq<Event>, status: Status) {
    match status
    case Aborted => ending == []
    case Success => ending == if n == 0 then [] else [Succeeded(n)]
    case Failure =>
      || (n == 0 && |ending| == 1 && NotStarted(ending[0], 0))
      || (|ending| == 2 && GaveUp(ending[0], ending[1], limit, n))
      || (|ending| == 3 && n < limit && ending[0] == FailureObserved(n, true)
          && ending[1] == Scheduled(n + 1, Delay(base, n))
          && (NotStarted(ending[2], n + 1) || NotRelaunched(ending[2], n)))
  }

  predicate NotStarted(e: Event, n: nat) {
    e in {Exhausted(n, false, CancelledBeforeStart), Exhausted(n, false, HorizonBeforeStart)}
  }

  predicate NotRelaunched(e: Event, n: nat) {
    e in {Exhausted(n, false, CancelledDuringBackoff), Exhausted(n, false, CancelledBeforeRelaunch),
          Exhausted(n, false, HorizonBeforeRelaunch)}
  }

  predicate GaveUp(failure: Event, last: Event, limit: nat, n: nat) {
    || (failure == FailureObserved(n, false) && last == Exhausted(n, false, NotRecoverable))
    || (failure == FailureObserved(n, true) && n >= limit && last == Exhausted(n, true, RestartLimit))
    || (failure == FailureObserved(n, true) && n < limit
        && last in {Exhausted(n, false, HorizonBeforeBackoff), Exhausted(n, false, InsufficientHorizon)})
  }

  /** The log of a finished run: rounds, then exactly one legal ending. */
  ghost predicate Grammatical(base: real, limit: nat, log: seq<Event>, status: Status) {
    exists n: nat :: n <= limit && EndsAfter(base, limit, n, log, status)
  }

  ghost predicate EndsAfter(base: real, limit: nat, n: nat, log: seq<Event>, status: Status) {
    Rounds(base, n) <= log && LegalEnding(base, limit, n, log[|Rounds(base, n)|..], status)
  }

  // ---------------------------------------------------------------------
  // The world outside
  // ---------------------------------------------------------------------

  function Events(acts: seq<Act>): seq<Event> {
    if acts == [] then []
    else Events(acts[..|acts|-1]) + if acts[|acts|-1].Emit? then [acts[|acts|-1].event] else []
  }

  function Invocations(acts: seq<Act>): seq<nat> {
    if acts == [] then []
    else Invocations(acts[..|acts|-1]) + if acts[|acts|-1].Invoke? then [acts[|acts|-1].attempt] else []
  }

  lemma ActsSnoc(acts: seq<Act>, a: Act)
    ensures Events(acts + [a]) == Events(acts) + if a.Emit? then [a.event] else []
    ensures Invocations(acts + [a]) == Invocations(acts) + if a.Invoke? then [a.attempt] else []
  {
    assert (acts + [a])[..|acts|] == acts;
  }

  /** Every invocation follows a check that found neither cancellation nor the
      deadline, with nothing but the start notice in between. */
  ghost predicate Cleared(acts: seq<Act>, deadline: real) {
    forall i :: 0 <= i < |acts| && acts[i].Invoke? ==> ClearedAt(acts, i, deadline)
  }

  predicate Clear(a: Act, deadline: real) {
    a.Check? && !a.cancelled && a.at < deadline
  }

  predicate ClearedAt(acts: seq<Act>, i: nat, deadline: real)
    requires i < |acts|
  {
    || (i >= 1 && Clear(acts[i - 1], deadline))
    || (i >= 2 && acts[i - 1].Emit? && acts[i - 1].event.Started? && Clear(acts[i - 2], deadline))
  }

  /** The clock, the cancellation event and the invoker, answering by number of call. */
  class World {
    const drift: nat -> real
    const signals: nat -> bool
    const answers: nat -> Answer
    const cancellable: bool

    var now: real
    var readings: nat
    var polls: nat
    ghost var acts: seq<Act>
    ghost var slept: real

    constructor (start: real, drift: nat -> real, signals: nat -> bool, answers: nat -> Answer, cancellable: bool)
      ensures now == start && acts == [] && slept == 0.0
    {
      this.drift, this.signals, this.answers, this.cancellable := drift, signals, answers, cancellable;
      now, readings, polls, acts, slept := start, 0, 0, [], 0.0;
    }

    /** Read the clock, which never goes back. */
    method Monotonic() returns (t: real)
      modifies this`now, this`readings
      ensures t == now && now >= old(now)
    {
      now := now + if drift(readings) > 0.0 then drift(readings) else 0.0;
      readings := readings + 1;
      return now;
    }

    /** Whether cancellation is signalled; a broken adapter answers yes. */
    method EventIsSet() returns (set_: bool)
      modifies this`polls
      ensures set_ <==> cancellable && signals(old(polls))
    {
      set_ := cancellable && signals(polls);
      polls := polls + 1;
    }

    /** Wait out a delay, or be cancelled while waiting. */
    method Wait(delay: real) returns (cancelled: bool)
      requires delay >= 0.0
      modifies this`polls, this`now, this`slept
      ensures now >= old(now)
      ensures !cancelled ==> slept == old(slept) + delay && now >= old(now) + delay
      ensures cancelled ==> slept == old(slept)
    {
      cancelled := EventIsSet();
      if !cancelled {
        now := now + delay;
        slept := slept + delay;
      }
    }

    ghost method Note(a: Act)
      modifies this`acts
      ensures acts == old(acts) + [a]
    {
      acts := acts + [a];
    }

    method Call(attempt: nat) returns (answer: Answer)
      modifies this`acts
      ensures acts == old(acts) + [Invoke(attempt)] && answer == answers(attempt)
    {
      Note(Invoke(attempt));
      return answers(attempt);
    }
  }

  // ---------------------------------------------------------------------
  // Classification
  // ---------------------------------------------------------------------

  /** Whether an outer restart is safe and in budget, at time `now`. */
  function IsRecoverable(result: AgentResult, deadline: real, now: real, cancelled: bool): bool {
    result.returncode != 0 && !result.cancelled && !result.horizonReached && now < deadline && !cancelled
  }

  method ClassifyFailure(world: World, result: AgentResult, deadline: real) returns (recoverable: bool)
    modifies world`now, world`readings, world`polls
    ensures world.now >= old(world.now)
    ensures recoverable <==>
              && result.returncode != 0 && !result.cancelled && !result.horizonReached && world.now < deadline
              && !(world.cancellable && world.signals(old(world.polls)))
  {
    var now := world.Monotonic();
    if result.returncode == 0 || result.cancelled || result.horizonReached || now >= deadline {
      return false;
    }
    var cancelled := world.EventIsSet();
    return IsRecoverable(result, deadline, now, cancelled);
  }

  /** A raised exception becomes a failed attempt. */
  method ExceptionResult(world: World, timeout: bool, deadline: real) returns (result: AgentResult)
    modifies world`now, world`readings, world`polls
    ensures world.now >= old(world.now) && result.returncode == 1
  {
    var now := world.Monotonic();
    var cancelled := world.EventIsSet();
    return AgentResult(1, timeout, cancelled, now >= deadline);
  }

  // ---------------------------------------------------------------------
  // One run
  // ---------------------------------------------------------------------

  function Upto(n: nat): seq<nat> {
    seq(n, i => i)
  }

  /** The log when attempt `k` is about to be checked. */
  function LogAtTop(base: real, k: nat): seq<Event> {
    if k == 0 then [] else Rounds(base, k - 1) + [FailureObserved(k - 1, true), Scheduled(k, Delay(base, k - 1))]
  }

  lemma StartedRound(base: real, k: nat)
    ensures k > 0 ==> LogAtTop(base, k) + [Started(k)] == Rounds(base, k)
    ensures k == 0 ==> LogAtTop(base, k) == Rounds(base, k)
  {
  }

  /** The completed backoffs so far, within the horizon. */
  ghost predicate Slept(base: real, k: nat, start: real, deadline: real, now: real, slept: real) {
    slept == TotalDelay(base, k) && start + slept <= now && (k > 0 ==> start + slept < deadline)
  }

  ghost predicate Logged(acts: seq<Act>, log: seq<Event>, invoked: nat, deadline: real) {
    Events(acts) == log && Invocations(acts) == Upto(invoked) && Cleared(acts, deadline)
  }

  lemma NoteEvent(acts: seq<Act>, log: seq<Event>, invoked: nat, deadline: real, e: Event)
    requires Logged(acts, log, invoked, deadline)
    ensures Logged(acts + [Emit(e)], log + [e], invoked, deadline)
  {
    ActsSnoc(acts, Emit(e));
    ClearedSnoc(acts, Emit(e), deadline);
    assert log + [e] == Events(acts) + [e];
    assert Upto(invoked) + [] == Upto(invoked);
  }

  lemma NoteCheck(acts: seq<Act>, log: seq<Event>, invoked: nat, deadline: real, cancelled: bool, at: real)
    requires Logged(acts, log, invoked, deadline)
    ensures Logged(acts + [Check(cancelled, at)], log, invoked, deadline)
  {
    ActsSnoc(acts, Check(cancelled, at));
    ClearedSnoc(acts, Check(cancelled, at), deadline);
    assert log + [] == log && Upto(invoked) + [] == Upto(invoked);
  }

  lemma NoteInvoke(acts: seq<Act>, log: seq<Event>, k: nat, deadline: real)
    requires Logged(acts, log, k, deadline) && ClearedAt(acts + [Invoke(k)], |acts|, deadline)
    ensures Logged(acts + [Invoke(k)], log, k + 1, deadline)
  {
    ActsSnoc(acts, Invoke(k));
    ClearedSnoc(acts, Invoke(k), deadline);
    assert log + [] == log && Upto(k) + [k] == Upto(k + 1);
  }

  lemma ClearedSnoc(acts: seq<Act>, a: Act, deadline: real)
    requires Cleared(acts, deadline) && (a.Invoke? ==> ClearedAt(acts + [a], |acts|, deadline))
    ensures Cleared(acts + [a], deadline)
  {
    var longer := acts + [a];
    forall i | 0 <= i < |longer| && longer[i].Invoke? ensures ClearedAt(longer, i, deadline) {
      if i < |acts| {
        assert longer[i] == acts[i] && ClearedAt(acts, i, deadline);
        assert i >= 1 ==> longer[i - 1] == acts[i - 1];
        assert i >= 2 ==> longer[i - 2] == acts[i - 2];
      }
    }
  }

  /** The log is complete and grammatical, after `invoked` invocations. */
  ghost predicate LoggedEnding(acts: seq<Act>, base: real, limit: nat, invoked: nat, deadline: real, status: Status) {
    Logged(acts, Events(acts), invoked, deadline) && Grammatical(base, limit, Events(acts), status)
  }

  method EmitEvent(world: World, e: Event, ghost log: seq<Event>, ghost invoked: nat, ghost deadline: real)
    requires Logged(world.acts, log, invoked, deadline)
    modifies world`acts
    ensures Logged(world.acts, log + [e], invoked, deadline) && world.acts == old(world.acts) + [Emit(e)]
  {
    NoteEvent(world.acts, log, invoked, deadline, e);
    world.Note(Emit(e));
  }

  /** Check cancellation and the deadline before an attempt, and announce a restart. */
  method Admit(world: World, k: nat, base: real, deadline: real) returns (blocked: Option<Reason>)
    requires Logged(world.acts, LogAtTop(base, k), k, deadline)
    modifies world`acts, world`now, world`readings, world`polls
    ensures world.now >= old(world.now)
    ensures blocked.Some? ==>
              && blocked.value in {CancelledBeforeStart, HorizonBeforeStart}
              && Logged(world.acts, LogAtTop(base, k) + [Exhausted(k, false, blocked.value)], k, deadline)
    ensures blocked.None? ==>
              Logged(world.acts, Rounds(base, k), k, deadline)
              && ClearedAt(world.acts + [Invoke(k)], |world.acts|, deadline)
  {
    var cancelled := world.EventIsSet();
    var at := world.Monotonic();
    NoteCheck(world.acts, LogAtTop(base, k), k, deadline, cancelled, at);
    world.Note(Check(cancelled, at));
    if cancelled || at >= deadline {
      var reason := if cancelled then CancelledBeforeStart else HorizonBeforeStart;
      EmitEvent(world, Exhausted(k, false, reason), LogAtTop(base, k), k, deadline);
      return Some(reason);
    }
    StartedRound(base, k);
    if k > 0 {
      EmitEvent(world, Started(k), LogAtTop(base, k), k, deadline);
    }
    return None;
  }

  /** Invoke attempt `k` and mark a failure that returned past the deadline. */
  method Attempt(world: World, k: nat, base: real, deadline: real) returns (result: Option<AgentResult>)
    requires Logged(world.acts, Rounds(base, k), k, deadline)
    requires ClearedAt(world.acts + [Invoke(k)], |world.acts|, deadline)
    modifies world`acts, world`now, world`readings, world`polls
    ensures world.now >= old(world.now) && Logged(world.acts, Rounds(base, k), k + 1, deadline)
    ensures result.None? <==> world.answers(k).NotAResult?
  {
    NoteInvoke(world.acts, Rounds(base, k), k, deadline);
    var answer := world.Call(k);
    var r;
    match answer {
      case NotAResult => return None;
      case Returned(given) => r := given;
      case Raised(timeout) => r := ExceptionResult(world, timeout, deadline);
    }
    if r.returncode != 0 && !r.horizonReached {
      var now := world.Monotonic();
      if now >= deadline {
        r := r.(horizonReached := true);
      }
    }
    return Some(r);
  }

  /** After a recoverable failure: wait out the backoff, or give up. */
  method Backoff(world: World, k: nat, base: real, deadline: real, ghost start: real, ghost limit: nat)
    returns (stopped: Option<Reason>)
    requires Logged(world.acts, Rounds(base, k) + [FailureObserved(k, true)], k + 1, deadline)
    requires base >= 0.0 && k < limit && Slept(base, k, start, deadline, world.now, world.slept)
    modifies world`acts, world`now, world`readings, world`polls, world`slept
    ensures stopped.None? ==>
              && Logged(world.acts, LogAtTop(base, k + 1), k + 1, deadline)
              && Slept(base, k + 1, start, deadline, world.now, world.slept)
    ensures stopped.Some? ==>
              && (Slept(base, k, start, deadline, world.now, world.slept) || Slept(base, k + 1, start, deadline, world.now, world.slept))
              && LoggedEnding(world.acts, base, limit, k + 1, deadline, Failure)
  {
    ghost var failed := Rounds(base, k) + [FailureObserved(k, true)];
    var delay := Delay(base, k);
    DelayNonnegative(base, k);
    var now := world.Monotonic();
    if deadline - now <= delay {
      now := world.Monotonic();
      var reason := if now >= deadline then HorizonBeforeBackoff else InsufficientHorizon;
      EmitEvent(world, Exhausted(k, false, reason), failed, k + 1, deadline);
      EndingIs(base, limit, k, world.acts, k + 1, deadline, failed + [Exhausted(k, false, reason)],
               [FailureObserved(k, true), Exhausted(k, false, reason)], Failure);
      return Some(reason);
    }
    EmitEvent(world, Scheduled(k + 1, delay), failed, k + 1, deadline);
    assert failed + [Scheduled(k + 1, delay)] == LogAtTop(base, k + 1);
    if delay > 0.0 {
      var cancelled := world.Wait(delay);
      if cancelled {
        stopped := NotRelaunching(world, k, base, deadline, limit, CancelledDuringBackoff);
        return;
      }
    }
    assert Slept(base, k + 1, start, deadline, world.now, world.slept);
    stopped := Relaunch(world, k, base, deadline, limit);
  }

  /** Check cancellation and the deadline once more before relaunching. */
  method Relaunch(world: World, k: nat, base: real, deadline: real, ghost limit: nat) returns (stopped: Option<Reason>)
    requires Logged(world.acts, LogAtTop(base, k + 1), k + 1, deadline) && k < limit
    modifies world`acts, world`now, world`readings, world`polls
    ensures world.now >= old(world.now)
    ensures stopped.None? ==> Logged(world.acts, LogAtTop(base, k + 1), k + 1, deadline)
    ensures stopped.Some? ==> LoggedEnding(world.acts, base, limit, k + 1, deadline, Failure)
  {
    var cancelled := world.EventIsSet();
    if cancelled {
      stopped := NotRelaunching(world, k, base, deadline, limit, CancelledBeforeRelaunch);
      return;
    }
    var now := world.Monotonic();
    if now >= deadline {
      stopped := NotRelaunching(world, k, base, deadline, limit, HorizonBeforeRelaunch);
      return;
    }
    return None;
  }

  /** Log that a scheduled restart will not happen. */
  method NotRelaunching(world: World, k: nat, base: real, ghost deadline: real, ghost limit: nat, reason: Reason)
    returns (stopped: Option<Reason>)
    requires Logged(world.acts, LogAtTop(base, k + 1), k + 1, deadline) && k < limit
    requires reason in {CancelledDuringBackoff, CancelledBeforeRelaunch, HorizonBeforeRelaunch}
    modifies world`acts
    ensures stopped == Some(reason) && LoggedEnding(world.acts, base, limit, k + 1, deadline, Failure)
  {
    ghost var scheduled := LogAtTop(base, k + 1);
    EmitEvent(world, Exhausted(k, false, reason), scheduled, k + 1, deadline);
    EndingIs(base, limit, k, world.acts, k + 1, deadline, scheduled + [Exhausted(k, false, reason)],
             [FailureObserved(k, true), Scheduled(k + 1, Delay(base, k)), Exhausted(k, false, reason)], Failure);
    return Some(reason);
  }

  /** A logged ending after `n` rounds completes the grammar. */
  lemma EndingIs(base: real, limit: nat, n: nat, acts: seq<Act>, invoked: nat, deadline: real, log: seq<Event>,
                 ending: seq<Event>, status: Status)
    requires Logged(acts, log, invoked, deadline) && log == Rounds(base, n) + ending
    requires n <= limit && LegalEnding(base, limit, n, ending, status)
    ensures LoggedEnding(acts, base, limit, invoked, deadline, status)
  {
    assert log[|Rounds(base, n)|..] == ending;
    assert EndsAfter(base, limit, n, log, status);
  }

  lemma BlockedLegally(base: real, limit: nat, k: nat, acts: seq<Act>, deadline: real, reason: Reason)
    requires k <= limit && reason in {CancelledBeforeStart, HorizonBeforeStart}
    requires Logged(acts, LogAtTop(base, k) + [Exhausted(k, false, reason)], k, deadline)
    ensures LoggedEnding(acts, base, limit, k, deadline, Failure)
  {
    var log := LogAtTop(base, k) + [Exhausted(k, false, reason)];
    if k == 0 {
      EndingIs(base, limit, 0, acts, k, deadline, log, [Exhausted(0, false, reason)], Failure);
    } else {
      EndingIs(base, limit, k - 1, acts, k, deadline, log,
               [FailureObserved(k - 1, true), Scheduled(k, Delay(base, k - 1)), Exhausted(k, false, reason)], Failure);
    }
  }

  /** A finished run: its log is grammatical, its attempts numbered and cleared,
      and the `m` backoffs it completed ended before the deadline. */
  ghost predicate Closed(acts: seq<Act>, base: real, limit: nat, deadline: real, status: Status,
                         start: real, slept: real, m: nat) {
    && Grammatical(base, limit, Events(acts), status)
    && (exists n: nat :: n <= limit + 1 && Invocations(acts) == Upto(n))
    && Cleared(acts, deadline)
    && m <= limit && slept == TotalDelay(base, m) && (m > 0 ==> start + slept < deadline)
  }

  lemma CloseRun(acts: seq<Act>, base: real, limit: nat, invoked: nat, deadline: real, status: Status,
                 start: real, now: real, slept: real, m: nat)
    requires LoggedEnding(acts, base, limit, invoked, deadline, status) && invoked <= limit + 1
    requires Slept(base, m, start, deadline, now, slept) && m <= limit
    ensures Closed(acts, base, limit, deadline, status, start, slept, m)
  {
  }

  /** What one failed attempt leads to: the end of the run, or another round. */
  method AfterFailure(world: World, k: nat, result: AgentResult, base: real, deadline: real, limit: nat, ghost start: real)
    returns (final: Option<AgentResult>, ghost m: nat)
    requires base >= 0.0 && k <= limit && result.returncode != 0
    requires Logged(world.acts, Rounds(base, k), k + 1, deadline)
    requires Slept(base, k, start, deadline, world.now, world.slept)
    modifies world
    ensures final.Some? ==>
              final.value.returncode == result.returncode
              && Closed(world.acts, base, limit, deadline, Failure, start, world.slept, m)
    ensures final.None? ==>
              k < limit && Logged(world.acts, LogAtTop(base, k + 1), k + 1, deadline)
              && Slept(base, k + 1, start, deadline, world.now, world.slept)
  {
    m := k;
    var recoverable := ClassifyFailure(world, result, deadline);
    EmitEvent(world, FailureObserved(k, recoverable), Rounds(base, k), k + 1, deadline);
    if !recoverable || k >= limit {
      var last := Exhausted(k, recoverable, if recoverable then RestartLimit else NotRecoverable);
      EmitEvent(world, last, Rounds(base, k) + [FailureObserved(k, recoverable)], k + 1, deadline);
      EndingIs(base, limit, k, world.acts, k + 1, deadline, Rounds(base, k) + [FailureObserved(k, recoverable)] + [last],
               [FailureObserved(k, recoverable), last], Failure);
      CloseRun(world.acts, base, limit, k + 1, deadline, Failure, start, world.now, world.slept, k);
      return Some(result), k;
    }
    var stopped := Backoff(world, k, base, deadline, start, limit);
    if stopped.None? {
      return None, k;
    }
    m := if Slept(base, k, start, deadline, world.now, world.slept) then k else k + 1;
    CloseRun(world.acts, base, limit, k + 1, deadline, Failure, start, world.now, world.slept, m);
    if stopped.value in {HorizonBeforeBackoff, HorizonBeforeRelaunch} {
      return Some(result.(horizonReached := true)), m;
    }
    return Some(result), m;
  }

  /** One attempt from its check to its end, or to the next round. */
  method Round(world: World, k: nat, base: real, deadline: real, limit: nat, ghost start: real)
    returns (final: Option<Final>, ghost m: nat)
    requires base >= 0.0 && k <= limit
    requires Logged(world.acts, LogAtTop(base, k), k, deadline)
    requires Slept(base, k, start, deadline, world.now, world.slept)
    modifies world
    ensures final.Some? ==>
              final.value != BadArgument
              && Closed(world.acts, base, limit, deadline, StatusOf(final.value), start, world.slept, m)
    ensures final.None? ==>
              k < limit && Logged(world.acts, LogAtTop(base, k + 1), k + 1, deadline)
              && Slept(base, k + 1, start, deadline, world.now, world.slept)
  {
    m := k;
    var blocked := Admit(world, k, base, deadline);
    if blocked.Some? {
      BlockedLegally(base, limit, k, world.acts, deadline, blocked.value);
      CloseRun(world.acts, base, limit, k, deadline, Failure, start, world.now, world.slept, k);
      var cancelled := blocked.value.CancelledBeforeStart?;
      return Some(Finished(AgentResult(if cancelled then 130 else 124, !cancelled, cancelled, !cancelled))), k;
    }
    var attempt := Attempt(world, k, base, deadline);
    if attempt.None? {
      EndingIs(base, limit, k, world.acts, k + 1, deadline, Rounds(base, k), [], Aborted);
      CloseRun(world.acts, base, limit, k + 1, deadline, Aborted, start, world.now, world.slept, k);
      return Some(TypeError), k;
    }
    var result := attempt.value;
    if result.returncode == 0 {
      ghost var ending := if k == 0 then [] else [Succeeded(k)];
      if k > 0 {
        EmitEvent(world, Succeeded(k), Rounds(base, k), k + 1, deadline);
      }
      EndingIs(base, limit, k, world.acts, k + 1, deadline, Rounds(base, k) + ending, ending, Success);
      CloseRun(world.acts, base, limit, k + 1, deadline, Success, start, world.now, world.slept, k);
      return Some(Finished(result)), k;
    }
    var stopped;
    stopped, m := AfterFailure(world, k, result, base, deadline, limit, start);
    final := if stopped.Some? then Some(Finished(stopped.value)) else None;
  }

  /** Run one logical agent with bounded restarts, whatever the clock, the
      cancellation event and the invoker do.  A negative limit or base delay is
      refused before anything happens. */
  method RunWithRecovery(world: World, deadline: real, maxRestarts: int, base: real)
    returns (final: Final, ghost m: nat)
    requires world.acts == [] && world.slept == 0.0
    modifies world
    ensures final == BadArgument <==> maxRestarts < 0 || base < 0.0
    ensures final == BadArgument ==> world.acts == []
    ensures final != BadArgument ==>
              Closed(world.acts, base, maxRestarts, deadline, StatusOf(final), old(world.now), world.slept, m)
  {
    if maxRestarts < 0 || base < 0.0 {
      return BadArgument, 0;
    }
    var limit: nat := maxRestarts;
    var k := 0;
    while true
      invariant k <= limit
      invariant Logged(world.acts, LogAtTop(base, k), k, deadline)
      invariant Slept(base, k, old(world.now), deadline, world.now, world.slept)
      decreases limit - k
    {
      var ended;
      ended, m := Round(world, k, base, deadline, limit, old(world.now));
      if ended.Some? {
        return ended.value, m;
      }
      k := k + 1;
    }
  }
}
