/** The remote-job settlement protocol of the Lean evaluator, as a state machine.

    Any number of evaluations and settlement watchers run side by side.  One
    action is one lock-held region or one observation of the Judge, so every
    interleaving of the threads is a sequence of actions.  What the Judge
    answers, when deadlines pass and which callbacks fail are choices carried
    by the actions; an action whose guard does not hold changes nothing. */
module Settlement {
  import opened Options
  import opened Receipts
  import opened RequestFaults

  /** A remote job the Judge may hold: known by its id, or admitted by a
      submission whose answer never named it. */
  datatype Ticket = Known(job: string) | Nameless(evaluation: nat, submission: nat)

  /** Why the unsettled counter was raised. */
  datatype Mark =
    | LostSubmission(evaluation: nat, submission: nat)
    | UnconfirmedCancel(job: string)
    | WatcherExpired(job: string)
    | CallbackFailed(job: string)

  datatype Verdict = Blocked | NotSubmitted | Rejected | SettledBy(job: string) | DeferredTo(job: string)
                   | NotSettled(job: string) | Lost | Misread | Raised

  /** Where an evaluation stands. */
  datatype EvalPc =
    | Gate
    | Submitting
    | Ambiguous(submission: nat)
    | Holding(job: string, response: Envelope)
    | Reconciling(job: string, last: Envelope, attempted: bool, retryable: bool, polling: bool)
    | Deferring(job: string, last: Envelope)
    | Launching(job: string, watcher: nat)
    | Unconfirmed(job: string)
    | Returned(verdict: Verdict)

  datatype Eval = Eval(pc: EvalPc, retries: nat, submissions: nat, tickets: set<Ticket>)

  /** Where a watcher thread stands. */
  datatype WatchPc =
    | Unstarted | Polling
    | Dead | Expired | ExpiryMarked | TimedOutGone
    | Settled | RunningBatch(batch: seq<nat>) | Drained | Clearing | SettledGone

  /** `regs` lists the callbacks registered with the watcher's record in order,
      `ran` those already called, and `looked` how many were registered at the
      drain loop's last, empty look. */
  datatype Watcher = Watcher(
    job: string, pc: WatchPc, paths: seq<string>, tainted: set<string>,
    failed: bool, regs: seq<nat>, ran: seq<nat>, looked: nat)

  /** An entry of the deferred-settlement table. */
  datatype Record = Record(watcher: nat, callbacks: seq<nat>)

  /** `lost` collects the jobs that an evaluation let go of unaccounted for. */
  datatype State = State(
    unsettled: nat, latch: bool,
    deferred: map<string, Record>,
    evals: map<nat, Eval>,
    watchers: map<nat, Watcher>,
    receipts: map<string, Envelope>,
    ledger: seq<Mark>,
    lost: set<Ticket>)

  const INITIAL := State(0, false, map[], map[], map[], map[], [], {})

  const MAX_POLL_PATHS: nat := 32

  /** Why an exception leaves an evaluation or a watcher: a request let it
      through, the advertised lifecycle budget overflowed, or anything else that
      no handler there catches. */
  datatype Cause = InRequest(site: Site, fault: Fault) | BudgetOverflow | Elsewhere

  predicate Propagates(cause: Cause) {
    cause.InRequest? ==> CanArise(cause.site, cause.fault) && FateOf(cause.site, cause.fault, false) == Uncaught
  }

  datatype Action =
    | Start(e: nat, retries: nat)
    | PassGate(e: nat, admit: bool)
    | SubmitUnsent(e: nat)
    | SubmitRejected(e: nat, again: bool)
    | SubmitTerminalError(e: nat, receipt: Envelope)
    | SubmitAmbiguous(e: nat, admitted: bool)
    | SubmitRaises(e: nat, site: Site, fault: Fault, admitted: bool)
    | SubmitAccepted(e: nat, receipt: Envelope)
    | LatchSubmission(e: nat)
    | Poll(e: nat, reply: Option<Envelope>)
    | Finish(e: nat, resubmit: bool)
    | Abandon(e: nat)
    | Overrun(e: nat)
    | Escape(e: nat, cause: Cause)
    | Cancel(e: nat, reply: Option<Envelope>, resubmit: bool)
    | SkipCancel(e: nat)
    | ReconcilePoll(e: nat, reply: Option<Envelope>, resubmit: bool)
    | GiveUp(e: nat, runnerOwned: bool)
    | Defer(e: nat, w: nat, callback: Option<nat>, paths: seq<string>)
    | Launch(e: nat)
    | LatchCancel(e: nat)
    | WatchPoll(w: nat, path: string, reply: Option<Envelope>, advertised: seq<string>)
    | WatchDie(w: nat, cause: Cause)
    | WatchExpire(w: nat)
    | WatchMark(w: nat)
    | WatchPop(w: nat)
    | DrainLook(w: nat)
    | RunCallback(w: nat, fails: bool)
    | AfterDrain(w: nat)
    | Clear(w: nat)

  predicate IsSubmit(a: Action) {
    a.SubmitUnsent? || a.SubmitRejected? || a.SubmitTerminalError? || a.SubmitAmbiguous?
    || a.SubmitRaises? || a.SubmitAccepted?
  }

  predicate IsEval(a: Action) {
    a.PassGate? || a.LatchSubmission? || a.Poll? || a.Finish? || a.Abandon? || a.Overrun? || a.Escape?
    || a.Cancel? || a.SkipCancel? || a.ReconcilePoll? || a.GiveUp? || a.Defer? || a.Launch? || a.LatchCancel?
  }

  predicate IsWatch(a: Action) {
    a.WatchPoll? || a.WatchDie? || a.WatchExpire? || a.WatchMark? || a.WatchPop? || a.DrainLook?
    || a.RunCallback? || a.AfterDrain? || a.Clear?
  }

  // ---------------------------------------------------------------------
  // State updates
  // ---------------------------------------------------------------------

  function SetEval(s: State, e: nat, eval: Eval): State {
    s.(evals := s.evals[e := eval])
  }

  function SetPc(s: State, e: nat, pc: EvalPc): State
    requires e in s.evals
  {
    SetEval(s, e, s.evals[e].(pc := pc))
  }

  function SetWatcher(s: State, w: nat, watcher: Watcher): State {
    s.(watchers := s.watchers[w := watcher])
  }

  /** Raise the unsettled counter and set the latch in one locked region. */
  function RaiseLatch(s: State, mark: Mark): State {
    s.(unsettled := s.unsettled + 1, latch := true, ledger := s.ledger + [mark])
  }

  /** The job has a terminal receipt bound to its id, or a pending watcher, or
      has been counted by the unsettled counter. */
  predicate Secured(s: State, t: Ticket) {
    match t
    case Known(job) =>
      || job in s.receipts
      || job in s.deferred
      || UnconfirmedCancel(job) in s.ledger
      || WatcherExpired(job) in s.ledger
    case Nameless(e, n) => LostSubmission(e, n) in s.ledger
  }

  function Retryable(u: Rules, e: Envelope): bool {
    NestedValue(e, RetryableKey) == Bool(true)
    || u.note(NestedValue(e, DispositionKey)) in {CancelRequestedNote, CancelUnconfirmedNote}
  }

  predicate RetryableRejection(u: Rules, e: Envelope) {
    && RawLifecycleStatus(u, e) == Some(RejectedOverloaded)
    && NestedValue(e, RetryableKey) == Bool(true)
    && Terminal(u, e)
  }

  function Receive(s: State, job: string, receipt: Envelope): State {
    s.(receipts := s.receipts[job := receipt])
  }

  /** Leave a settled job: return its verdict, or go back to the gate to resubmit. */
  function LeaveJob(s: State, e: nat, job: string, again: bool): State
    requires e in s.evals && (again ==> s.evals[e].retries > 0)
  {
    if again then SetEval(s, e, s.evals[e].(pc := Gate, retries := s.evals[e].retries - 1))
    else SetPc(s, e, Returned(SettledBy(job)))
  }

  /** An evaluation holds a terminal receipt of its job: it returns a verdict,
      or resubmits after a retryable overload. */
  function Settle(u: Rules, s: State, e: nat, job: string, receipt: Envelope, resubmit: bool): State
    requires e in s.evals
  {
    LeaveJob(Receive(s, job, receipt), e, job,
             resubmit && RetryableRejection(u, receipt) && s.evals[e].retries > 0)
  }

  /** What a foreground poll makes of an answer: an unreadable job id is
      replaced by the job's own, a foreign one by a synthetic pending receipt. */
  function PollView(u: Rules, job: string, reply: Envelope): Envelope {
    match SubmissionId(u, reply)
    case None => WithJob(reply, job)
    case Some(id) =>
      if id == job then reply
      else Envelope(map[JobIdKey := Text(job), StatusKey := Text("RUNNING")], None, None)
  }

  /** Extend the bounded path list with advertised capabilities. */
  function AddPaths(paths: seq<string>, advertised: seq<string>): (extended: seq<string>)
    ensures paths <= extended
    ensures |extended| <= if |paths| <= MAX_POLL_PATHS then MAX_POLL_PATHS else |paths|
    decreases |advertised|
  {
    if advertised == [] then paths
    else if advertised[0] in paths then AddPaths(paths, advertised[1..])
    else if |paths| >= MAX_POLL_PATHS then paths
    else AddPaths(paths + [advertised[0]], advertised[1..])
  }

  // ---------------------------------------------------------------------
  // Evaluation actions
  // ---------------------------------------------------------------------

  /** The outcome of a submission is unknown; it is about to be counted. */
  function Doubt(s: State, e: nat, admitted: bool): State
    requires e in s.evals
  {
    var eval := s.evals[e];
    var ticket := Nameless(e, eval.submissions);
    SetEval(s, e, eval.(pc := Ambiguous(eval.submissions), submissions := eval.submissions + 1,
                        tickets := eval.tickets + if admitted then {ticket} else {}))
  }

  /** The evaluation leaves a submission without counting it. */
  function Drop(s: State, e: nat, admitted: bool, verdict: Verdict): State
    requires e in s.evals
  {
    var eval := s.evals[e];
    var tickets := if admitted then {Nameless(e, eval.submissions)} else {};
    SetEval(s.(lost := s.lost + tickets), e,
            eval.(pc := Returned(verdict), submissions := eval.submissions + 1, tickets := eval.tickets + tickets))
  }

  /** Where an exception of this cause can be raised. */
  predicate RaisesAt(u: Rules, pc: EvalPc, cause: Cause) {
    match cause
    case InRequest(_, _) => (pc.Holding? && !Terminal(u, pc.response)) || pc.Reconciling?
    case BudgetOverflow => pc.Holding?
    case Elsewhere => pc.Gate? || pc.Holding? || pc.Reconciling? || pc.Deferring? || pc.Launching?
  }

  /** The evaluation still owes its job a settlement. */
  predicate Owes(u: Rules, pc: EvalPc) {
    (pc.Holding? && !Terminal(u, pc.response)) || pc.Reconciling? || pc.Deferring?
  }

  /** An exception leaves the evaluation.  A job with a terminal receipt in hand
      is settled and one with a watcher is pending; any other is let go of. */
  function Leave(u: Rules, s: State, e: nat, cause: Cause): State
    requires e in s.evals
  {
    var pc := s.evals[e].pc;
    if !Propagates(cause) || !RaisesAt(u, pc, cause) then s
    else if Owes(u, pc) then
      SetPc(if Secured(s, Known(pc.job)) then s else s.(lost := s.lost + {Known(pc.job)}), e, Returned(Raised))
    else if pc.Holding? then SetPc(Receive(s, pc.job, pc.response), e, Returned(Raised))
    else if !pc.Launching? then SetPc(s, e, Returned(Raised))
    else if pc.watcher !in s.watchers || s.watchers[pc.watcher].pc != Unstarted then s
    else SetPc(SetWatcher(s, pc.watcher, s.watchers[pc.watcher].(pc := Dead)), e, Returned(Raised))
  }

  /** The outcomes of one POST. */
  function Submit(u: Rules, s: State, a: Action): State
    requires IsSubmit(a)
  {
    if a.e !in s.evals || s.evals[a.e].pc != Submitting then s
    else
      var eval := s.evals[a.e];
      match a
      case SubmitUnsent(e) => SetPc(s, e, Returned(NotSubmitted))
      case SubmitRejected(e, again) => SetPc(s, e, if again then Gate else Returned(Rejected))
      case SubmitTerminalError(e, receipt) =>
        // A 429 or 5xx answer that still is a terminal receipt naming its job.
        if SubmissionId(u, receipt).None? || !Terminal(u, receipt) then s
        else
          var job := SubmissionId(u, receipt).value;
          SetEval(Receive(s, job, receipt), e,
                  eval.(pc := Returned(Rejected), tickets := eval.tickets + {Known(job)}))
      case SubmitAmbiguous(e, admitted) => Doubt(s, e, admitted)
      case SubmitRaises(e, site, fault, admitted) =>
        if !CanArise(site, fault) then s
        else
          (match FateOf(site, fault, true)
           case Ignored => s
           case Counted => Doubt(s, e, admitted)
           case Refused => Drop(s, e, admitted, Misread)
           case Uncaught => Drop(s, e, admitted, Raised))
      case SubmitAccepted(e, receipt) =>
        if SubmissionId(u, receipt).None? || RetryableRejection(u, receipt) then s
        else
          var job := SubmissionId(u, receipt).value;
          SetEval(s, e, eval.(pc := Holding(job, receipt), tickets := eval.tickets + {Known(job)}))
  }

  /** A DELETE or GET answer seen while reconciling an abandoned job. */
  function Reconcile(u: Rules, s: State, e: nat, reply: Option<Envelope>, delete: bool, resubmit: bool): State
    requires e in s.evals && s.evals[e].pc.Reconciling?
  {
    var pc := s.evals[e].pc;
    if reply.None? then SetPc(s, e, pc.(attempted := pc.attempted || delete, polling := true))
    else
      var current := reply.value;
      var bound := JobBound(u, current, Text(pc.job)) && !Terminal(u, current);
      if Authoritative(u, current, Text(pc.job)) then Settle(u, s, e, pc.job, current, resubmit)
      else SetPc(s, e, pc.(
        attempted := pc.attempted || delete,
        polling := true,
        last := if bound then current else pc.last,
        retryable := pc.retryable || ((delete || bound) && Retryable(u, current))))
  }

  /** Register more callbacks with the record of `job`. */
  function Join(s: State, job: string, added: seq<nat>): State
    requires job in s.deferred && s.deferred[job].watcher in s.watchers
  {
    var record := s.deferred[job];
    var watcher := s.watchers[record.watcher];
    SetWatcher(s.(deferred := s.deferred[job := record.(callbacks := record.callbacks + added)]),
               record.watcher, watcher.(regs := watcher.regs + added))
  }

  /** A new record for `job` with the watcher that will serve it. */
  function OpenRecord(s: State, job: string, w: nat, added: seq<nat>, paths: seq<string>): State {
    SetWatcher(s.(deferred := s.deferred[job := Record(w, added)]),
               w, Watcher(job, Unstarted, paths, {}, false, added, [], 0))
  }

  /** Hand the job to a watcher, joining the one already registered for it. */
  function StartWatcher(u: Rules, s: State, e: nat, w: nat, callback: Option<nat>, paths: seq<string>): State
    requires e in s.evals && s.evals[e].pc.Deferring?
  {
    var job := s.evals[e].pc.job;
    var added := if callback.Some? then [callback.value] else [];
    if IdentityOf(u, s.evals[e].pc.last, Text(job)) != Matching || paths == [] then
      SetPc(s, e, Unconfirmed(job))
    else if job in s.deferred then
      if s.deferred[job].watcher in s.watchers then SetPc(Join(s, job, added), e, Returned(DeferredTo(job)))
      else s
    else if w in s.watchers then s
    else SetPc(OpenRecord(s, job, w, added, Truncated(paths)), e, Launching(job, w))
  }

  function Truncated(paths: seq<string>): (kept: seq<string>)
    ensures |kept| <= MAX_POLL_PATHS && kept <= paths
  {
    if |paths| <= MAX_POLL_PATHS then paths else paths[..MAX_POLL_PATHS]
  }

  function EvalStep(u: Rules, s: State, a: Action): State
    requires IsEval(a)
  {
    if a.e !in s.evals then s
    else
      var pc := s.evals[a.e].pc;
      match a
      case PassGate(e, admit) =>
        if !pc.Gate? then s
        else if s.unsettled > 0 then SetPc(s, e, Returned(Blocked))
        else SetPc(s, e, if admit then Submitting else Returned(NotSubmitted))
      case LatchSubmission(e) =>
        if !pc.Ambiguous? then s
        else SetPc(RaiseLatch(s, LostSubmission(e, pc.submission)), e, Returned(Lost))
      case Poll(e, reply) =>
        if !pc.Holding? || Terminal(u, pc.response) || reply.None? then s
        else SetPc(s, e, Holding(pc.job, PollView(u, pc.job, reply.value)))
      case Finish(e, resubmit) =>
        if !pc.Holding? || !Terminal(u, pc.response) then s
        else Settle(u, s, e, pc.job, pc.response, resubmit)
      case Abandon(e) =>
        if !pc.Holding? || Terminal(u, pc.response) then s
        else SetPc(s, e, Reconciling(pc.job, pc.response, false, Retryable(u, pc.response), false))
      case Overrun(e) =>
        // A budget over the cap, in an evaluation that was cancelled meanwhile.
        if !pc.Holding? || !Terminal(u, pc.response) then s
        else SetPc(s, e, Reconciling(pc.job, pc.response, false, Retryable(u, pc.response), false))
      case Escape(e, cause) => Leave(u, s, e, cause)
      case Cancel(e, reply, resubmit) =>
        if !pc.Reconciling? || pc.polling then s else Reconcile(u, s, e, reply, true, resubmit)
      case SkipCancel(e) =>
        if !pc.Reconciling? || pc.polling then s else SetPc(s, e, pc.(polling := true))
      case ReconcilePoll(e, reply, resubmit) =>
        if !pc.Reconciling? || !pc.polling then s else Reconcile(u, s, e, reply, false, resubmit)
      case GiveUp(e, runnerOwned) =>
        if !pc.Reconciling? || !pc.polling then s
        else if pc.attempted && (runnerOwned || pc.retryable) then SetPc(s, e, Deferring(pc.job, pc.last))
        else SetPc(s, e, Unconfirmed(pc.job))
      case Defer(e, w, callback, paths) =>
        if !pc.Deferring? then s else StartWatcher(u, s, e, w, callback, paths)
      case Launch(e) =>
        if !pc.Launching? || pc.watcher !in s.watchers || s.watchers[pc.watcher].pc != Unstarted then s
        else SetPc(SetWatcher(s, pc.watcher, s.watchers[pc.watcher].(pc := Polling)), e, Returned(DeferredTo(pc.job)))
      case LatchCancel(e) =>
        if !pc.Unconfirmed? then s
        else SetPc(RaiseLatch(s, UnconfirmedCancel(pc.job)), e, Returned(NotSettled(pc.job)))
  }

  // ---------------------------------------------------------------------
  // Watcher actions
  // ---------------------------------------------------------------------

  /** One receipt read through one of the watcher's capabilities. */
  function Observe(u: Rules, s: State, w: nat, path: string, reply: Envelope, advertised: seq<string>): State
    requires w in s.watchers
  {
    var watcher := s.watchers[w];
    var job := Text(watcher.job);
    var identity := IdentityOf(u, reply, job);
    if identity == Invalid then
      SetWatcher(s, w, watcher.(tainted := watcher.tainted + {path}))
    else
      var bound := BindWatcherReceipt(u, reply, job, identity == Missing);
      if bound.None? then s
      else
        var seen := watcher.(paths := AddPaths(watcher.paths, advertised));
        if Authoritative(u, bound.value, job) then
          SetWatcher(Receive(s, watcher.job, bound.value), w, seen.(pc := Settled))
        else SetWatcher(s, w, seen)
  }

  /** An exception ends the watcher's thread; its record stays where it is. */
  function Die(s: State, w: nat, cause: Cause): State {
    if w !in s.watchers || s.watchers[w].pc != Polling || cause.BudgetOverflow? || !Propagates(cause) then s
    else SetWatcher(s, w, s.watchers[w].(pc := Dead))
  }

  /** The watcher ran out of time or of usable capabilities. */
  function Expire(s: State, w: nat): State {
    if w !in s.watchers || s.watchers[w].pc != Polling then s
    else SetWatcher(s, w, s.watchers[w].(pc := Expired))
  }

  /** An unresolved timeout is counted before the pending record goes. */
  function CountExpiry(s: State, w: nat): State {
    if w !in s.watchers || s.watchers[w].pc != Expired then s
    else SetWatcher(RaiseLatch(s, WatcherExpired(s.watchers[w].job)), w, s.watchers[w].(pc := ExpiryMarked))
  }

  function PopExpired(s: State, w: nat): State {
    if w !in s.watchers || s.watchers[w].pc != ExpiryMarked then s
    else SetWatcher(s.(deferred := s.deferred - {s.watchers[w].job}), w, s.watchers[w].(pc := TimedOutGone))
  }

  /** One locked look of the drain loop: take the registered callbacks, if any. */
  function Look(s: State, w: nat): State {
    if w !in s.watchers || s.watchers[w].pc != Settled then s
    else
      var watcher := s.watchers[w];
      var batch := if watcher.job in s.deferred then s.deferred[watcher.job].callbacks else [];
      if batch == [] then SetWatcher(s, w, watcher.(pc := Drained, looked := |watcher.regs|))
      else SetWatcher(s.(deferred := s.deferred[watcher.job := s.deferred[watcher.job].(callbacks := [])]),
                      w, watcher.(pc := RunningBatch(batch)))
  }

  /** The watcher after it called the first callback of its batch. */
  function CalledOne(watcher: Watcher, fails: bool): Watcher
    requires watcher.pc.RunningBatch? && watcher.pc.batch != []
  {
    var batch := watcher.pc.batch;
    watcher.(ran := watcher.ran + [batch[0]], failed := watcher.failed || fails,
             pc := if |batch| == 1 then Settled else RunningBatch(batch[1..]))
  }

  function CallOne(s: State, w: nat, fails: bool): State {
    if w !in s.watchers || !s.watchers[w].pc.RunningBatch? || s.watchers[w].pc.batch == [] then s
    else SetWatcher(s, w, CalledOne(s.watchers[w], fails))
  }

  /** A failed callback is counted while the record is still pending. */
  function CountFailure(s: State, w: nat): State {
    if w !in s.watchers || s.watchers[w].pc != Drained then s
    else
      var watcher := s.watchers[w];
      SetWatcher(if watcher.failed then RaiseLatch(s, CallbackFailed(watcher.job)) else s,
                 w, watcher.(pc := Clearing))
  }

  function ClearRecord(s: State, w: nat): State {
    if w !in s.watchers || s.watchers[w].pc != Clearing then s
    else
      var watcher := s.watchers[w];
      var own := watcher.job in s.deferred && s.deferred[watcher.job].watcher == w;
      SetWatcher(if own then s.(deferred := s.deferred - {watcher.job}) else s, w, watcher.(pc := SettledGone))
  }

  function WatchStep(u: Rules, s: State, a: Action): State
    requires IsWatch(a)
  {
    match a
    case WatchPoll(w, path, reply, advertised) =>
      if w !in s.watchers || s.watchers[w].pc != Polling || path !in s.watchers[w].paths
         || path in s.watchers[w].tainted || reply.None? then s
      else Observe(u, s, w, path, reply.value, advertised)
    case WatchDie(w, cause) => Die(s, w, cause)
    case WatchExpire(w) => Expire(s, w)
    case WatchMark(w) => CountExpiry(s, w)
    case WatchPop(w) => PopExpired(s, w)
    case DrainLook(w) => Look(s, w)
    case RunCallback(w, fails) => CallOne(s, w, fails)
    case AfterDrain(w) => CountFailure(s, w)
    case Clear(w) => ClearRecord(s, w)
  }

  function Apply(u: Rules, s: State, a: Action): State {
    if a.Start? then if a.e in s.evals then s else SetEval(s, a.e, Eval(Gate, a.retries, 0, {}))
    else if IsSubmit(a) then Submit(u, s, a)
    else if IsWatch(a) then WatchStep(u, s, a)
    else EvalStep(u, s, a)
  }

  /** The state after a run of actions from the initial state. */
  function Run(u: Rules, actions: seq<Action>): State {
    if actions == [] then INITIAL else Apply(u, Run(u, actions[..|actions|-1]), actions[|actions|-1])
  }
}
