/** No remote job is ever unaccounted for, and every permit callback is called
    at most once and only after settlement. */
module SettlementProofs {
  import opened Options
  import opened Receipts
  import opened RequestFaults
  import opened Settlement

  // ---------------------------------------------------------------------
  // What it means for a job to be accounted for
  // ---------------------------------------------------------------------

  /** The evaluation at `pc` is still responsible for the job. */
  predicate Holds(pc: EvalPc, e: nat, t: Ticket) {
    match pc
    case Ambiguous(n) => t == Nameless(e, n)
    case Holding(job, _) => t == Known(job)
    case Reconciling(job, _, _, _, _) => t == Known(job)
    case Deferring(job, _) => t == Known(job)
    case Unconfirmed(job) => t == Known(job)
    case _ => false
  }

  ghost predicate LatchOk(s: State) {
    s.unsettled == |s.ledger| && (s.latch <==> s.unsettled > 0)
  }

  ghost predicate TicketsOk(s: State) {
    forall e :: e in s.evals ==>
      forall t :: t in s.evals[e].tickets ==>
        Secured(s, t) || Holds(s.evals[e].pc, e, t) || t in s.lost
  }

  /** The job id a phase works on, if any. */
  function JobOf(pc: EvalPc): Option<string> {
    match pc
    case Holding(job, _) => Some(job)
    case Reconciling(job, _, _, _, _) => Some(job)
    case Deferring(job, _) => Some(job)
    case Launching(job, _) => Some(job)
    case Unconfirmed(job) => Some(job)
    case _ => None
  }

  ghost predicate EvalsOk(u: Rules, s: State) {
    forall e :: e in s.evals ==>
      && (JobOf(s.evals[e].pc).Some? ==>
            && u.clean(Text(JobOf(s.evals[e].pc).value)) == JobOf(s.evals[e].pc)
            && Known(JobOf(s.evals[e].pc).value) in s.evals[e].tickets)
      && (s.evals[e].pc.Holding? ==> JobBound(u, s.evals[e].pc.response, Text(s.evals[e].pc.job)))
  }

  /** Submissions are numbered; a nameless job is counted only by its own mark. */
  ghost predicate NumbersOk(s: State) {
    && (forall m :: m in s.ledger && m.LostSubmission? ==>
          m.evaluation in s.evals && m.submission < s.evals[m.evaluation].submissions)
    && (forall e :: e in s.evals && s.evals[e].pc.Ambiguous? ==>
          s.evals[e].pc.submission < s.evals[e].submissions)
  }

  /** A nameless job that was lost stays lost. */
  ghost predicate LostOk(s: State) {
    forall t :: t in s.lost && t.Nameless? ==>
      && t.evaluation in s.evals
      && t in s.evals[t.evaluation].tickets
      && t.submission < s.evals[t.evaluation].submissions
      && !Secured(s, t)
      && !Holds(s.evals[t.evaluation].pc, t.evaluation, t)
  }

  ghost predicate ReceiptsOk(u: Rules, s: State) {
    forall job :: job in s.receipts ==>
      u.clean(Text(job)) == Some(job) && Authoritative(u, s.receipts[job], Text(job))
  }

  predicate Gone(pc: WatchPc) {
    pc == TimedOutGone || pc == SettledGone
  }

  predicate AfterSettlement(pc: WatchPc) {
    pc == Settled || pc.RunningBatch? || pc == Drained || pc == Clearing || pc == SettledGone
  }

  ghost predicate RecordOk(s: State, job: string, record: Record) {
    && record.watcher in s.watchers
    && s.watchers[record.watcher].job == job
    && !Gone(s.watchers[record.watcher].pc)
  }

  ghost predicate WatcherOk(u: Rules, s: State, w: nat, watcher: Watcher) {
    && u.clean(Text(watcher.job)) == Some(watcher.job)
    && |watcher.paths| <= MAX_POLL_PATHS
    && (!Gone(watcher.pc) ==> watcher.job in s.deferred && s.deferred[watcher.job].watcher == w)
    && (AfterSettlement(watcher.pc) ==> watcher.job in s.receipts)
    && (watcher.pc == ExpiryMarked ==> WatcherExpired(watcher.job) in s.ledger)
  }

  /** A record and its watcher point at each other until the watcher is gone. */
  ghost predicate TableOk(u: Rules, s: State) {
    && (forall job :: job in s.deferred ==> RecordOk(s, job, s.deferred[job]))
    && (forall w :: w in s.watchers ==> WatcherOk(u, s, w, s.watchers[w]))
  }

  /** The callbacks waiting in the watcher's record. */
  function QueueOf(s: State, watcher: Watcher): seq<nat> {
    if watcher.job in s.deferred then s.deferred[watcher.job].callbacks else []
  }

  /** Every registered callback is in exactly one place, in registration order. */
  predicate CallbackOk(s: State, watcher: Watcher) {
    var queue := QueueOf(s, watcher);
    match watcher.pc
    case Unstarted => watcher.ran == [] && watcher.regs == queue
    case Polling => watcher.ran == [] && watcher.regs == queue
    case Dead => watcher.ran == [] && watcher.regs == queue
    case Expired => watcher.ran == [] && watcher.regs == queue
    case ExpiryMarked => watcher.ran == [] && watcher.regs == queue
    case TimedOutGone => watcher.ran == []
    case Settled => watcher.regs == watcher.ran + queue
    case RunningBatch(batch) => batch != [] && watcher.regs == watcher.ran + batch + queue
    case Drained => watcher.looked == |watcher.ran| && watcher.regs == watcher.ran + queue
    case Clearing => watcher.looked == |watcher.ran| && watcher.regs == watcher.ran + queue
    case SettledGone => watcher.looked == |watcher.ran| && watcher.ran <= watcher.regs
  }

  ghost predicate CallbacksOk(s: State) {
    forall w :: w in s.watchers ==> CallbackOk(s, s.watchers[w])
  }

  ghost predicate Inv(u: Rules, s: State) {
    && LatchOk(s)
    && TicketsOk(s)
    && EvalsOk(u, s)
    && NumbersOk(s)
    && LostOk(s)
    && ReceiptsOk(u, s)
    && TableOk(u, s)
    && CallbacksOk(s)
  }

  // ---------------------------------------------------------------------
  // Steps only add to the record
  // ---------------------------------------------------------------------

  ghost predicate Grows(s: State, s': State) {
    && s.ledger <= s'.ledger
    && s.receipts.Keys <= s'.receipts.Keys
    && (forall job :: job in s.deferred ==>
          job in s'.deferred || job in s'.receipts || WatcherExpired(job) in s'.ledger)
  }

  ghost predicate Progress(u: Rules, s: State, s': State) {
    Inv(u, s') && Grows(s, s')
  }

  lemma SecuredStays(s: State, s': State, t: Ticket)
    requires Grows(s, s') && Secured(s, t)
    ensures Secured(s', t)
  {
    forall m | m in s.ledger ensures m in s'.ledger {}
  }

  // ---------------------------------------------------------------------
  // The elementary updates keep the invariant
  // ---------------------------------------------------------------------

  lemma RaiseLatchEvals(u: Rules, s: State, m: Mark)
    requires LatchOk(s) && TicketsOk(s) && EvalsOk(u, s) && NumbersOk(s) && LostOk(s)
    requires m.LostSubmission? ==>
               && m.evaluation in s.evals
               && m.submission < s.evals[m.evaluation].submissions
               && Nameless(m.evaluation, m.submission) !in s.lost
    ensures var s' := RaiseLatch(s, m);
            LatchOk(s') && TicketsOk(s') && EvalsOk(u, s') && NumbersOk(s') && LostOk(s')
    ensures m in RaiseLatch(s, m).ledger
  {
    var s' := RaiseLatch(s, m);
    assert s'.ledger[|s.ledger|] == m;
    forall x ensures x in s'.ledger <==> x in s.ledger || x == m {}
    forall t: Ticket | Secured(s, t) ensures Secured(s', t) { SecuredStays(s, s', t); }
  }

  lemma RaiseLatchKeeps(u: Rules, s: State, m: Mark)
    requires Inv(u, s)
    requires m.LostSubmission? ==>
               && m.evaluation in s.evals
               && m.submission < s.evals[m.evaluation].submissions
               && Nameless(m.evaluation, m.submission) !in s.lost
    ensures Inv(u, RaiseLatch(s, m)) && Grows(s, RaiseLatch(s, m))
    ensures m in RaiseLatch(s, m).ledger
  {
    RaiseLatchEvals(u, s, m);
    TableUntouched(u, s, RaiseLatch(s, m));
  }

  /** Changes to the table, the watchers or the receipts leave what is known of
      the evaluations in place. */
  lemma EvaluationsUntouched(u: Rules, s: State, s': State)
    requires LatchOk(s) && TicketsOk(s) && EvalsOk(u, s) && NumbersOk(s) && LostOk(s)
    requires s'.evals == s.evals && s'.lost == s.lost && s'.ledger == s.ledger
    requires s'.unsettled == s.unsettled && s'.latch == s.latch
    requires Grows(s, s')
    ensures LatchOk(s') && TicketsOk(s') && EvalsOk(u, s') && NumbersOk(s') && LostOk(s')
  {
    forall t: Ticket | Secured(s, t) ensures Secured(s', t) { SecuredStays(s, s', t); }
  }

  lemma ReceiveKeeps(u: Rules, s: State, job: string, receipt: Envelope)
    requires Inv(u, s)
    requires u.clean(Text(job)) == Some(job) && Authoritative(u, receipt, Text(job))
    ensures var s' := Receive(s, job, receipt);
            Inv(u, s') && Grows(s, s') && Secured(s', Known(job))
  {
    EvaluationsUntouched(u, s, Receive(s, job, receipt));
    ReceivedTable(u, s, job, receipt);
  }

  lemma ReceivedTable(u: Rules, s: State, job: string, receipt: Envelope)
    requires ReceiptsOk(u, s) && TableOk(u, s) && CallbacksOk(s)
    requires u.clean(Text(job)) == Some(job) && Authoritative(u, receipt, Text(job))
    ensures var s' := Receive(s, job, receipt); ReceiptsOk(u, s') && TableOk(u, s') && CallbacksOk(s')
  {
    var s' := Receive(s, job, receipt);
    forall w | w in s.watchers ensures CallbackOk(s', s'.watchers[w]) && WatcherOk(u, s', w, s'.watchers[w]) {
      assert WatcherOk(u, s, w, s.watchers[w]);
      SameQueueSameCallbacks(s, s', s.watchers[w]);
    }
    forall j | j in s'.deferred ensures RecordOk(s', j, s'.deferred[j]) {
      assert RecordOk(s, j, s.deferred[j]);
    }
  }

  /** What an evaluation must satisfy to replace the one stored under `e`. */
  ghost predicate EvalFits(u: Rules, s: State, e: nat, eval: Eval) {
    && (JobOf(eval.pc).Some? ==>
          u.clean(Text(JobOf(eval.pc).value)) == JobOf(eval.pc) && Known(JobOf(eval.pc).value) in eval.tickets)
    && (eval.pc.Holding? ==> JobBound(u, eval.pc.response, Text(eval.pc.job)))
    && (eval.pc.Ambiguous? ==> eval.pc.submission < eval.submissions)
    && (forall t :: t in eval.tickets ==> Secured(s, t) || Holds(eval.pc, e, t) || t in s.lost)
    && (forall t :: t in s.lost && t.Nameless? && t.evaluation == e ==> !Holds(eval.pc, e, t))
    && (e in s.evals ==> s.evals[e].submissions <= eval.submissions && s.evals[e].tickets <= eval.tickets)
  }

  lemma TableUntouched(u: Rules, s: State, s': State)
    requires ReceiptsOk(u, s) && TableOk(u, s) && CallbacksOk(s)
    requires s'.receipts == s.receipts && s'.deferred == s.deferred && s'.watchers == s.watchers
    requires s.ledger <= s'.ledger
    ensures ReceiptsOk(u, s') && TableOk(u, s') && CallbacksOk(s')
  {
    forall m | m in s.ledger ensures m in s'.ledger {}
    forall w | w in s'.watchers ensures CallbackOk(s', s'.watchers[w]) && WatcherOk(u, s', w, s'.watchers[w]) {
      assert WatcherOk(u, s, w, s.watchers[w]);
      SameQueueSameCallbacks(s, s', s.watchers[w]);
    }
    forall job | job in s'.deferred ensures RecordOk(s', job, s'.deferred[job]) {
      assert RecordOk(s, job, s.deferred[job]);
    }
  }

  lemma EvalReplaced(u: Rules, s: State, e: nat, eval: Eval)
    requires TicketsOk(s) && EvalsOk(u, s) && NumbersOk(s) && LostOk(s) && EvalFits(u, s, e, eval)
    ensures var s' := SetEval(s, e, eval);
            TicketsOk(s') && EvalsOk(u, s') && NumbersOk(s') && LostOk(s')
  {
    var s' := SetEval(s, e, eval);
    forall t: Ticket ensures Secured(s', t) <==> Secured(s, t) {}
  }

  lemma SetEvalKeeps(u: Rules, s: State, e: nat, eval: Eval)
    requires Inv(u, s) && EvalFits(u, s, e, eval)
    ensures Progress(u, s, SetEval(s, e, eval))
  {
    EvalReplaced(u, s, e, eval);
    TableUntouched(u, s, SetEval(s, e, eval));
  }

  /** Callback accounting of one watcher depends on its own record only. */
  lemma SameQueueSameCallbacks(s: State, s': State, watcher: Watcher)
    requires CallbackOk(s, watcher)
    requires Gone(watcher.pc) || QueueOf(s', watcher) == QueueOf(s, watcher)
    ensures CallbackOk(s', watcher)
  {
  }

  /** From `s` to `s'` only watcher `w`, new or still live, and the record of
      its job change. */
  ghost predicate OnlyWatcherMoves(s: State, s': State, w: nat, watcher: Watcher) {
    && s' == s.(deferred := s'.deferred, watchers := s.watchers[w := watcher])
    && (forall job :: job != watcher.job ==>
          (job in s'.deferred <==> job in s.deferred) && (job in s.deferred ==> s'.deferred[job] == s.deferred[job]))
    && (watcher.job in s'.deferred ==> s'.deferred[watcher.job].watcher == w && !Gone(watcher.pc))
    && (if w in s.watchers then s.watchers[w].job == watcher.job && !Gone(s.watchers[w].pc)
        else watcher.job !in s.deferred)
  }

  lemma TableAfter(u: Rules, s: State, s': State, w: nat, watcher: Watcher)
    requires TableOk(u, s) && OnlyWatcherMoves(s, s', w, watcher) && WatcherOk(u, s', w, watcher)
    ensures TableOk(u, s')
  {
    forall job | job in s'.deferred ensures RecordOk(s', job, s'.deferred[job]) {
      if job != watcher.job { assert RecordOk(s, job, s.deferred[job]); }
    }
    forall x | x in s'.watchers ensures WatcherOk(u, s', x, s'.watchers[x]) {
      if x != w { assert WatcherOk(u, s, x, s.watchers[x]); }
    }
  }

  lemma CallbacksAfter(u: Rules, s: State, s': State, w: nat, watcher: Watcher)
    requires TableOk(u, s) && CallbacksOk(s) && OnlyWatcherMoves(s, s', w, watcher) && CallbackOk(s', watcher)
    ensures CallbacksOk(s')
  {
    forall x | x in s'.watchers ensures CallbackOk(s', s'.watchers[x]) {
      if x != w {
        assert WatcherOk(u, s, x, s.watchers[x]);
        SameQueueSameCallbacks(s, s', s.watchers[x]);
      }
    }
  }

  lemma WatcherMoves(u: Rules, s: State, s': State, w: nat, watcher: Watcher)
    requires Inv(u, s) && OnlyWatcherMoves(s, s', w, watcher) && Grows(s, s')
    requires WatcherOk(u, s', w, watcher) && CallbackOk(s', watcher)
    ensures Inv(u, s')
  {
    EvaluationsUntouched(u, s, s');
    TableAfter(u, s, s', w, watcher);
    CallbacksAfter(u, s, s', w, watcher);
  }

  // ---------------------------------------------------------------------
  // Every action keeps the invariant
  // ---------------------------------------------------------------------

  lemma GrowsTransitive(s: State, s': State, s'': State)
    requires Grows(s, s') && Grows(s', s'')
    ensures Grows(s, s'')
  {
    forall m | m in s'.ledger ensures m in s''.ledger {}
  }

  /** An evaluation that moves on within the same job, or to a phase without one
      once the job is secured. */
  lemma PcMoves(u: Rules, s: State, e: nat, pc: EvalPc)
    requires Inv(u, s) && e in s.evals
    requires JobOf(pc).Some? ==> JobOf(pc) == JobOf(s.evals[e].pc)
    requires pc.Holding? ==> JobBound(u, pc.response, Text(pc.job))
    requires !pc.Ambiguous?
    requires forall t :: Holds(s.evals[e].pc, e, t) ==> Holds(pc, e, t) || Secured(s, t)
    ensures Progress(u, s, SetPc(s, e, pc))
  {
    var eval := s.evals[e].(pc := pc);
    forall t | t in eval.tickets ensures Secured(s, t) || Holds(eval.pc, e, t) || t in s.lost {}
    SetEvalKeeps(u, s, e, eval);
  }

  /** An evaluation whose only open job is secured may let go of it. */
  lemma SecuredFits(u: Rules, s: State, e: nat, eval: Eval, job: string)
    requires TicketsOk(s) && LostOk(s) && e in s.evals && Secured(s, Known(job))
    requires eval.tickets == s.evals[e].tickets || eval.tickets == s.evals[e].tickets + {Known(job)}
    requires eval.submissions == s.evals[e].submissions
    requires eval.pc == Gate || eval.pc.Returned?
    requires s.evals[e].pc == Submitting || JobOf(s.evals[e].pc) == Some(job)
    ensures EvalFits(u, s, e, eval)
  {
    forall t | t in eval.tickets ensures Secured(s, t) || t in s.lost {
      if t != Known(job) { assert t in s.evals[e].tickets; }
    }
  }

  /** The second half of settling: the job is secured, the evaluation leaves it. */
  lemma LeaveJobKeeps(u: Rules, s: State, e: nat, job: string, again: bool)
    requires Inv(u, s) && e in s.evals && JobOf(s.evals[e].pc) == Some(job)
    requires Secured(s, Known(job))
    requires again ==> s.evals[e].retries > 0
    ensures Progress(u, s, LeaveJob(s, e, job, again))
  {
    var eval := LeaveJob(s, e, job, again).evals[e];
    SecuredFits(u, s, e, eval, job);
    SetEvalKeeps(u, s, e, eval);
  }

  lemma Then(u: Rules, s: State, s': State, s'': State)
    requires Progress(u, s, s') && Progress(u, s', s'')
    ensures Progress(u, s, s'')
  {
    GrowsTransitive(s, s', s'');
  }

  lemma SettleKeeps(u: Rules, s: State, e: nat, job: string, receipt: Envelope, resubmit: bool)
    requires Inv(u, s) && e in s.evals && JobOf(s.evals[e].pc) == Some(job)
    requires Authoritative(u, receipt, Text(job))
    ensures Progress(u, s, Settle(u, s, e, job, receipt, resubmit))
  {
    var kept := Receive(s, job, receipt);
    var again := resubmit && RetryableRejection(u, receipt) && s.evals[e].retries > 0;
    ReceiveKeeps(u, s, job, receipt);
    LeaveJobKeeps(u, kept, e, job, again);
    Then(u, s, kept, LeaveJob(kept, e, job, again));
  }

  lemma AcceptedKeeps(u: Rules, s: State, e: nat, receipt: Envelope)
    requires Inv(u, s) && CleaningLaw(u)
    ensures Progress(u, s, Submit(u, s, SubmitAccepted(e, receipt)))
  {
    if e in s.evals && s.evals[e].pc == Submitting
       && SubmissionId(u, receipt).Some? && !RetryableRejection(u, receipt) {
      AcceptedFits(u, s, e, receipt);
      SetEvalKeeps(u, s, e, AcceptedEval(u, s.evals[e], receipt));
    }
  }

  /** The evaluation after its submission was accepted. */
  function AcceptedEval(u: Rules, eval: Eval, receipt: Envelope): Eval
    requires SubmissionId(u, receipt).Some?
  {
    var job := SubmissionId(u, receipt).value;
    eval.(pc := Holding(job, receipt), tickets := eval.tickets + {Known(job)})
  }

  lemma AcceptedFits(u: Rules, s: State, e: nat, receipt: Envelope)
    requires TicketsOk(s) && LostOk(s) && CleaningLaw(u)
    requires e in s.evals && s.evals[e].pc == Submitting && SubmissionId(u, receipt).Some?
    ensures EvalFits(u, s, e, AcceptedEval(u, s.evals[e], receipt))
  {
    SubmissionBindsItsReceipt(u, receipt);
  }

  lemma SecuredTicketJoins(u: Rules, s: State, e: nat, job: string)
    requires Inv(u, s) && e in s.evals && s.evals[e].pc == Submitting && Secured(s, Known(job))
    ensures Progress(u, s, SetEval(s, e, s.evals[e].(pc := Returned(Rejected), tickets := s.evals[e].tickets + {Known(job)})))
  {
    var eval := s.evals[e].(pc := Returned(Rejected), tickets := s.evals[e].tickets + {Known(job)});
    SecuredFits(u, s, e, eval, job);
    SetEvalKeeps(u, s, e, eval);
  }

  lemma TerminalErrorKeeps(u: Rules, s: State, e: nat, receipt: Envelope)
    requires Inv(u, s) && CleaningLaw(u)
    ensures Progress(u, s, Submit(u, s, SubmitTerminalError(e, receipt)))
  {
    if e in s.evals && s.evals[e].pc == Submitting && SubmissionId(u, receipt).Some? && Terminal(u, receipt) {
      SubmissionBindsItsReceipt(u, receipt);
      var job := SubmissionId(u, receipt).value;
      ReceiveKeeps(u, s, job, receipt);
      SecuredTicketJoins(u, Receive(s, job, receipt), e, job);
      Then(u, s, Receive(s, job, receipt), Submit(u, s, SubmitTerminalError(e, receipt)));
    }
  }

  lemma DropEvals(u: Rules, s: State, e: nat, admitted: bool, verdict: Verdict)
    requires TicketsOk(s) && EvalsOk(u, s) && NumbersOk(s) && LostOk(s)
    requires e in s.evals && s.evals[e].pc == Submitting
    ensures var s' := Drop(s, e, admitted, verdict);
            TicketsOk(s') && EvalsOk(u, s') && NumbersOk(s') && LostOk(s')
  {
    var s' := Drop(s, e, admitted, verdict);
    var ticket := Nameless(e, s.evals[e].submissions);
    assert LostSubmission(e, s.evals[e].submissions) !in s.ledger;
    forall t: Ticket ensures Secured(s', t) <==> Secured(s, t) {}
    forall t | t in s'.lost && t != ticket ensures t in s.lost {}
  }

  lemma DropKeeps(u: Rules, s: State, e: nat, admitted: bool, verdict: Verdict)
    requires Inv(u, s) && e in s.evals && s.evals[e].pc == Submitting
    ensures Progress(u, s, Drop(s, e, admitted, verdict))
  {
    DropEvals(u, s, e, admitted, verdict);
    TableUntouched(u, s, Drop(s, e, admitted, verdict));
  }

  lemma DoubtKeeps(u: Rules, s: State, e: nat, admitted: bool)
    requires Inv(u, s) && e in s.evals && s.evals[e].pc == Submitting
    ensures Progress(u, s, Doubt(s, e, admitted))
  {
    SetEvalKeeps(u, s, e, Doubt(s, e, admitted).evals[e]);
  }

  lemma RaisesKeeps(u: Rules, s: State, e: nat, site: Site, fault: Fault, admitted: bool)
    requires Inv(u, s) && e in s.evals && s.evals[e].pc == Submitting
    ensures Progress(u, s, Submit(u, s, SubmitRaises(e, site, fault, admitted)))
  {
    match FateOf(site, fault, true)
    case Ignored =>
    case Counted => DoubtKeeps(u, s, e, admitted);
    case Refused => DropKeeps(u, s, e, admitted, Misread);
    case Uncaught => DropKeeps(u, s, e, admitted, Raised);
  }

  /** Letting go of a known job records it as lost and nothing else. */
  lemma LoseKeeps(u: Rules, s: State, job: string)
    requires Inv(u, s)
    ensures Progress(u, s, s.(lost := s.lost + {Known(job)}))
  {
    var s' := s.(lost := s.lost + {Known(job)});
    forall t: Ticket ensures Secured(s', t) <==> Secured(s, t) {}
    TableUntouched(u, s, s');
  }

  /** A job given up as lost may be dropped. */
  lemma LostLeaves(u: Rules, s: State, e: nat)
    requires Inv(u, s) && e in s.evals && JobOf(s.evals[e].pc).Some?
    requires Secured(s, Known(JobOf(s.evals[e].pc).value)) || Known(JobOf(s.evals[e].pc).value) in s.lost
    ensures Progress(u, s, SetPc(s, e, Returned(Raised)))
  {
    SetEvalKeeps(u, s, e, s.evals[e].(pc := Returned(Raised)));
  }

  lemma LosingLeaves(u: Rules, s: State, e: nat)
    requires Inv(u, s) && e in s.evals && JobOf(s.evals[e].pc).Some?
    ensures var given := s.(lost := s.lost + {Known(JobOf(s.evals[e].pc).value)});
            Progress(u, s, SetPc(given, e, Returned(Raised)))
  {
    var job := JobOf(s.evals[e].pc).value;
    var given := s.(lost := s.lost + {Known(job)});
    LoseKeeps(u, s, job);
    LostLeaves(u, given, e);
    Then(u, s, given, SetPc(given, e, Returned(Raised)));
  }

  lemma HoldingReceiptLeaves(u: Rules, s: State, e: nat)
    requires Inv(u, s) && e in s.evals && s.evals[e].pc.Holding? && Terminal(u, s.evals[e].pc.response)
    ensures var pc := s.evals[e].pc; Progress(u, s, SetPc(Receive(s, pc.job, pc.response), e, Returned(Raised)))
  {
    var pc := s.evals[e].pc;
    var kept := Receive(s, pc.job, pc.response);
    ReceiveKeeps(u, s, pc.job, pc.response);
    LostLeaves(u, kept, e);
    Then(u, s, kept, SetPc(kept, e, Returned(Raised)));
  }

  lemma UnstartedDies(u: Rules, s: State, w: nat)
    requires Inv(u, s) && w in s.watchers && s.watchers[w].pc == Unstarted
    ensures Progress(u, s, SetWatcher(s, w, s.watchers[w].(pc := Dead)))
  {
    WatcherPcMoves(u, s, w, s.watchers[w].(pc := Dead));
  }

  lemma LaunchingLeaves(u: Rules, s: State, e: nat)
    requires Inv(u, s) && e in s.evals && s.evals[e].pc.Launching?
    ensures Progress(u, s, SetPc(s, e, Returned(Raised)))
  {
    PcMoves(u, s, e, Returned(Raised));
  }

  lemma LaunchingDies(u: Rules, s: State, e: nat, w: nat)
    requires Inv(u, s) && e in s.evals && s.evals[e].pc.Launching?
    requires w in s.watchers && s.watchers[w].pc == Unstarted
    ensures Progress(u, s, SetPc(SetWatcher(s, w, s.watchers[w].(pc := Dead)), e, Returned(Raised)))
  {
    var dead := SetWatcher(s, w, s.watchers[w].(pc := Dead));
    UnstartedDies(u, s, w);
    LaunchingLeaves(u, dead, e);
    Then(u, s, dead, SetPc(dead, e, Returned(Raised)));
  }

  lemma LeaveKeeps(u: Rules, s: State, e: nat, cause: Cause)
    requires Inv(u, s) && e in s.evals
    ensures Progress(u, s, Leave(u, s, e, cause))
  {
    var pc := s.evals[e].pc;
    if Propagates(cause) && RaisesAt(u, pc, cause) {
      if Owes(u, pc) {
        if Secured(s, Known(pc.job)) { LostLeaves(u, s, e); } else { LosingLeaves(u, s, e); }
      } else if pc.Holding? {
        HoldingReceiptLeaves(u, s, e);
      } else if !pc.Launching? {
        PcMoves(u, s, e, Returned(Raised));
      } else if pc.watcher in s.watchers && s.watchers[pc.watcher].pc == Unstarted {
        LaunchingDies(u, s, e, pc.watcher);
      }
    }
  }

  lemma PollViewBinds(u: Rules, job: string, reply: Envelope)
    requires CleaningLaw(u) && u.clean(Text(job)) == Some(job)
    ensures JobBound(u, PollView(u, job, reply), Text(job))
  {
    match SubmissionId(u, reply)
    case None => WithJobBinds(u, reply, job);
    case Some(id) =>
      if id == job { SubmissionBindsItsReceipt(u, reply); }
      else {
        assert NestedValue(PollView(u, job, reply), JobIdKey) == Text(job);
      }
  }

  lemma ReconcileKeeps(u: Rules, s: State, e: nat, reply: Option<Envelope>, delete: bool, resubmit: bool)
    requires Inv(u, s) && e in s.evals && s.evals[e].pc.Reconciling?
    ensures Progress(u, s, Reconcile(u, s, e, reply, delete, resubmit))
  {
    var pc := s.evals[e].pc;
    if reply.Some? && Authoritative(u, reply.value, Text(pc.job)) {
      SettleKeeps(u, s, e, pc.job, reply.value, resubmit);
    } else {
      PcMoves(u, s, e, Reconcile(u, s, e, reply, delete, resubmit).evals[e].pc);
    }
  }

  lemma JoinKeeps(u: Rules, s: State, job: string, added: seq<nat>)
    requires Inv(u, s) && job in s.deferred
    ensures s.deferred[job].watcher in s.watchers && Progress(u, s, Join(s, job, added))
    ensures Join(s, job, added).evals == s.evals && job in Join(s, job, added).deferred
  {
    var w := s.deferred[job].watcher;
    assert RecordOk(s, job, s.deferred[job]);
    var watcher := s.watchers[w];
    assert CallbackOk(s, watcher) && WatcherOk(u, s, w, watcher);
    JoinKeepsCallbacks(s, Join(s, job, added), watcher, added);
    WatcherMoves(u, s, Join(s, job, added), w, watcher.(regs := watcher.regs + added));
  }

  lemma OpenRecordKeeps(u: Rules, s: State, job: string, w: nat, added: seq<nat>, paths: seq<string>)
    requires Inv(u, s) && job !in s.deferred && w !in s.watchers
    requires u.clean(Text(job)) == Some(job) && |paths| <= MAX_POLL_PATHS
    ensures Progress(u, s, OpenRecord(s, job, w, added, paths))
    ensures OpenRecord(s, job, w, added, paths).evals == s.evals
    ensures job in OpenRecord(s, job, w, added, paths).deferred
  {
    WatcherMoves(u, s, OpenRecord(s, job, w, added, paths), w,
                 Watcher(job, Unstarted, paths, {}, false, added, [], 0));
  }

  lemma StartWatcherKeeps(u: Rules, s: State, e: nat, w: nat, callback: Option<nat>, paths: seq<string>)
    requires Inv(u, s) && e in s.evals && s.evals[e].pc.Deferring?
    ensures Progress(u, s, StartWatcher(u, s, e, w, callback, paths))
  {
    var job := s.evals[e].pc.job;
    var added := if callback.Some? then [callback.value] else [];
    if IdentityOf(u, s.evals[e].pc.last, Text(job)) != Matching || paths == [] {
      PcMoves(u, s, e, Unconfirmed(job));
    } else if job in s.deferred {
      JoinKeeps(u, s, job, added);
      DeferredLeaves(u, Join(s, job, added), e, job, Returned(DeferredTo(job)));
      Then(u, s, Join(s, job, added), SetPc(Join(s, job, added), e, Returned(DeferredTo(job))));
    } else if w !in s.watchers {
      var pending := OpenRecord(s, job, w, added, Truncated(paths));
      OpenRecordKeeps(u, s, job, w, added, Truncated(paths));
      DeferredLeaves(u, pending, e, job, Launching(job, w));
      Then(u, s, pending, SetPc(pending, e, Launching(job, w)));
    }
  }

  /** An evaluation whose job has a pending watcher need not hold it any more. */
  lemma DeferredLeaves(u: Rules, s: State, e: nat, job: string, pc: EvalPc)
    requires Inv(u, s) && e in s.evals && s.evals[e].pc.Deferring? && s.evals[e].pc.job == job
    requires job in s.deferred
    requires pc == Returned(DeferredTo(job)) || (pc.Launching? && pc.job == job)
    ensures Progress(u, s, SetPc(s, e, pc))
  {
    PcMoves(u, s, e, pc);
  }

  lemma JoinKeepsCallbacks(s: State, s': State, watcher: Watcher, added: seq<nat>)
    requires CallbackOk(s, watcher) && !Gone(watcher.pc)
    requires QueueOf(s', watcher) == QueueOf(s, watcher) + added
    ensures CallbackOk(s', watcher.(regs := watcher.regs + added))
  {
    var q := QueueOf(s, watcher);
    assert watcher.ran + q + added == watcher.ran + (q + added);
    if watcher.pc.RunningBatch? {
      assert watcher.ran + watcher.pc.batch + q + added == watcher.ran + watcher.pc.batch + (q + added);
    }
  }

  lemma SubmitKeeps(u: Rules, s: State, a: Action)
    requires Inv(u, s) && CleaningLaw(u)
    requires IsSubmit(a)
    ensures Progress(u, s, Submit(u, s, a))
  {
    if a.e in s.evals && s.evals[a.e].pc == Submitting {
      match a
      case SubmitUnsent(e) => PcMoves(u, s, e, Returned(NotSubmitted));
      case SubmitRejected(e, again) => PcMoves(u, s, e, if again then Gate else Returned(Rejected));
      case SubmitTerminalError(e, receipt) => TerminalErrorKeeps(u, s, e, receipt);
      case SubmitAmbiguous(e, admitted) => DoubtKeeps(u, s, e, admitted);
      case SubmitRaises(e, site, fault, admitted) => RaisesKeeps(u, s, e, site, fault, admitted);
      case SubmitAccepted(e, receipt) => AcceptedKeeps(u, s, e, receipt);
    }
  }

  lemma LatchSubmissionKeeps(u: Rules, s: State, e: nat)
    requires Inv(u, s)
    ensures Progress(u, s, EvalStep(u, s, LatchSubmission(e)))
  {
    if e in s.evals && s.evals[e].pc.Ambiguous? {
      var mark := LostSubmission(e, s.evals[e].pc.submission);
      assert Holds(s.evals[e].pc, e, Nameless(e, s.evals[e].pc.submission));
      RaiseLatchKeeps(u, s, mark);
      LatchedLeaves(u, RaiseLatch(s, mark), e, Nameless(e, s.evals[e].pc.submission), Returned(Lost));
      Then(u, s, RaiseLatch(s, mark), EvalStep(u, s, LatchSubmission(e)));
    }
  }

  lemma LatchCancelKeeps(u: Rules, s: State, e: nat)
    requires Inv(u, s)
    ensures Progress(u, s, EvalStep(u, s, LatchCancel(e)))
  {
    if e in s.evals && s.evals[e].pc.Unconfirmed? {
      var mark := UnconfirmedCancel(s.evals[e].pc.job);
      RaiseLatchKeeps(u, s, mark);
      LatchedLeaves(u, RaiseLatch(s, mark), e, Known(s.evals[e].pc.job), Returned(NotSettled(s.evals[e].pc.job)));
      Then(u, s, RaiseLatch(s, mark), EvalStep(u, s, LatchCancel(e)));
    }
  }

  /** Once its job is counted an evaluation may return. */
  lemma LatchedLeaves(u: Rules, s: State, e: nat, held: Ticket, pc: EvalPc)
    requires Inv(u, s) && e in s.evals && pc.Returned? && Secured(s, held)
    requires forall t :: Holds(s.evals[e].pc, e, t) ==> t == held
    ensures Progress(u, s, SetPc(s, e, pc))
  {
    PcMoves(u, s, e, pc);
  }

  lemma LaunchKeeps(u: Rules, s: State, e: nat)
    requires Inv(u, s)
    ensures Progress(u, s, EvalStep(u, s, Launch(e)))
  {
    if e in s.evals && s.evals[e].pc.Launching? {
      var w := s.evals[e].pc.watcher;
      if w in s.watchers && s.watchers[w].pc == Unstarted {
        StartedPolls(u, s, w);
        var started := SetWatcher(s, w, s.watchers[w].(pc := Polling));
        LaunchedReturns(u, started, e);
        Then(u, s, started, EvalStep(u, s, Launch(e)));
      }
    }
  }

  lemma StartedPolls(u: Rules, s: State, w: nat)
    requires Inv(u, s) && w in s.watchers && s.watchers[w].pc == Unstarted
    ensures Progress(u, s, SetWatcher(s, w, s.watchers[w].(pc := Polling)))
  {
    WatcherPcMoves(u, s, w, s.watchers[w].(pc := Polling));
  }

  lemma LaunchedReturns(u: Rules, s: State, e: nat)
    requires Inv(u, s) && e in s.evals && s.evals[e].pc.Launching?
    ensures Progress(u, s, SetPc(s, e, Returned(DeferredTo(s.evals[e].pc.job))))
  {
    PcMoves(u, s, e, Returned(DeferredTo(s.evals[e].pc.job)));
  }

  /** A live watcher that stays live and keeps its record. */
  lemma WatcherPcMoves(u: Rules, s: State, w: nat, watcher: Watcher)
    requires Inv(u, s) && w in s.watchers
    requires !Gone(watcher.pc) && !Gone(s.watchers[w].pc)
    requires watcher.job == s.watchers[w].job && |watcher.paths| <= MAX_POLL_PATHS
    requires AfterSettlement(watcher.pc) ==> watcher.job in s.receipts
    requires watcher.pc == ExpiryMarked ==> WatcherExpired(watcher.job) in s.ledger
    requires CallbackOk(s, watcher)
    ensures Progress(u, s, SetWatcher(s, w, watcher))
  {
    assert WatcherOk(u, s, w, s.watchers[w]);
    var s' := SetWatcher(s, w, watcher);
    SameQueueSameCallbacks(s, s', watcher);
    WatcherMoves(u, s, s', w, watcher);
  }

  lemma PollKeeps(u: Rules, s: State, e: nat, reply: Option<Envelope>)
    requires Inv(u, s) && CleaningLaw(u)
    ensures Progress(u, s, EvalStep(u, s, Poll(e, reply)))
  {
    if e in s.evals && s.evals[e].pc.Holding? && reply.Some? {
      var pc := s.evals[e].pc;
      PollViewBinds(u, pc.job, reply.value);
      PcMoves(u, s, e, Holding(pc.job, PollView(u, pc.job, reply.value)));
    }
  }

  /** The other moves that touch nothing but the evaluation's own phase. */
  lemma LocalMoveKeeps(u: Rules, s: State, a: Action)
    requires Inv(u, s)
    requires a.PassGate? || a.Abandon? || a.SkipCancel? || a.GiveUp?
    ensures Progress(u, s, EvalStep(u, s, a))
  {
    if a.e in s.evals {
      var pc := s.evals[a.e].pc;
      match a
      case PassGate(e, admit) =>
        if pc.Gate? {
          PcMoves(u, s, e, if s.unsettled > 0 then Returned(Blocked)
                           else if admit then Submitting else Returned(NotSubmitted));
        }
      case Abandon(e) =>
        if pc.Holding? && !Terminal(u, pc.response) {
          PcMoves(u, s, e, Reconciling(pc.job, pc.response, false, Retryable(u, pc.response), false));
        }
      case SkipCancel(e) =>
        if pc.Reconciling? && !pc.polling { PcMoves(u, s, e, pc.(polling := true)); }
      case GiveUp(e, runnerOwned) =>
        if pc.Reconciling? && pc.polling {
          PcMoves(u, s, e, if pc.attempted && (runnerOwned || pc.retryable) then Deferring(pc.job, pc.last)
                           else Unconfirmed(pc.job));
        }
    }
  }

  /** A settled job reconciled once more stays in the evaluation's hands. */
  lemma OverrunKeeps(u: Rules, s: State, e: nat)
    requires Inv(u, s)
    ensures Progress(u, s, EvalStep(u, s, Overrun(e)))
  {
    if e in s.evals && s.evals[e].pc.Holding? && Terminal(u, s.evals[e].pc.response) {
      var pc := s.evals[e].pc;
      PcMoves(u, s, e, Reconciling(pc.job, pc.response, false, Retryable(u, pc.response), false));
    }
  }

  lemma EvalStepKeeps(u: Rules, s: State, a: Action)
    requires Inv(u, s) && CleaningLaw(u)
    requires IsEval(a)
    ensures Progress(u, s, EvalStep(u, s, a))
  {
    if a.PassGate? || a.Abandon? || a.SkipCancel? || a.GiveUp? {
      LocalMoveKeeps(u, s, a);
    } else if a.Poll? {
      PollKeeps(u, s, a.e, a.reply);
    } else if a.e in s.evals {
      var pc := s.evals[a.e].pc;
      match a
      case LatchSubmission(e) => LatchSubmissionKeeps(u, s, e);
      case Overrun(e) => OverrunKeeps(u, s, e);
      case Escape(e, cause) => LeaveKeeps(u, s, e, cause);
      case Finish(e, resubmit) =>
        if pc.Holding? && Terminal(u, pc.response) { SettleKeeps(u, s, e, pc.job, pc.response, resubmit); }
      case Cancel(e, reply, resubmit) =>
        if pc.Reconciling? { ReconcileKeeps(u, s, e, reply, true, resubmit); }
      case ReconcilePoll(e, reply, resubmit) =>
        if pc.Reconciling? { ReconcileKeeps(u, s, e, reply, false, resubmit); }
      case Defer(e, w, callback, paths) =>
        if pc.Deferring? { StartWatcherKeeps(u, s, e, w, callback, paths); }
      case Launch(e) => LaunchKeeps(u, s, e);
      case LatchCancel(e) => LatchCancelKeeps(u, s, e);
    }
  }

  // Watchers

  lemma ObserveKeeps(u: Rules, s: State, w: nat, path: string, reply: Envelope, advertised: seq<string>)
    requires Inv(u, s) && w in s.watchers && s.watchers[w].pc == Polling
    ensures Progress(u, s, Observe(u, s, w, path, reply, advertised))
  {
    var watcher := s.watchers[w];
    WatcherKnown(u, s, w);
    var job := Text(watcher.job);
    var identity := IdentityOf(u, reply, job);
    if identity == Invalid {
      WatcherPcMoves(u, s, w, watcher.(tainted := watcher.tainted + {path}));
    } else {
      var bound := BindWatcherReceipt(u, reply, job, identity == Missing);
      if bound.Some? {
        var seen := watcher.(paths := AddPaths(watcher.paths, advertised));
        if Authoritative(u, bound.value, job) {
          ReceiveKeeps(u, s, watcher.job, bound.value);
          SettledWatcher(u, Receive(s, watcher.job, bound.value), w, seen.paths);
          Then(u, s, Receive(s, watcher.job, bound.value), Observe(u, s, w, path, reply, advertised));
        } else {
          WatcherPcMoves(u, s, w, seen);
        }
      }
    }
  }

  lemma SettledWatcher(u: Rules, s: State, w: nat, paths: seq<string>)
    requires Inv(u, s) && w in s.watchers && s.watchers[w].pc == Polling
    requires s.watchers[w].job in s.receipts && |paths| <= MAX_POLL_PATHS
    ensures Progress(u, s, SetWatcher(s, w, s.watchers[w].(paths := paths, pc := Settled)))
  {
    assert CallbackOk(s, s.watchers[w]);
    WatcherPcMoves(u, s, w, s.watchers[w].(paths := paths, pc := Settled));
  }

  lemma ExpireKeeps(u: Rules, s: State, w: nat)
    requires Inv(u, s)
    ensures Progress(u, s, Expire(s, w))
  {
    if w in s.watchers && s.watchers[w].pc == Polling {
      WatcherKnown(u, s, w);
      WatcherPcMoves(u, s, w, s.watchers[w].(pc := Expired));
    }
  }

  /** A watcher whose thread ends early leaves its job pending. */
  lemma DieKeeps(u: Rules, s: State, w: nat, cause: Cause)
    requires Inv(u, s)
    ensures Progress(u, s, Die(s, w, cause))
  {
    if w in s.watchers && s.watchers[w].pc == Polling {
      WatcherKnown(u, s, w);
      WatcherPcMoves(u, s, w, s.watchers[w].(pc := Dead));
    }
  }

  lemma MarkKeeps(u: Rules, s: State, w: nat)
    requires Inv(u, s)
    ensures Progress(u, s, CountExpiry(s, w))
  {
    if w in s.watchers && s.watchers[w].pc == Expired {
      var mark := WatcherExpired(s.watchers[w].job);
      RaiseLatchKeeps(u, s, mark);
      MarkedWatcher(u, RaiseLatch(s, mark), w);
      Then(u, s, RaiseLatch(s, mark), CountExpiry(s, w));
    }
  }

  lemma MarkedWatcher(u: Rules, s: State, w: nat)
    requires Inv(u, s) && w in s.watchers && s.watchers[w].pc == Expired
    requires WatcherExpired(s.watchers[w].job) in s.ledger
    ensures Progress(u, s, SetWatcher(s, w, s.watchers[w].(pc := ExpiryMarked)))
  {
    WatcherKnown(u, s, w);
    WatcherPcMoves(u, s, w, s.watchers[w].(pc := ExpiryMarked));
  }

  /** A timed-out record is removed only after its job was counted. */
  lemma PopKeeps(u: Rules, s: State, w: nat)
    requires Inv(u, s)
    ensures Progress(u, s, PopExpired(s, w))
  {
    if w in s.watchers && s.watchers[w].pc == ExpiryMarked {
      WatcherKnown(u, s, w);
      WatcherMoves(u, s, PopExpired(s, w), w, s.watchers[w].(pc := TimedOutGone));
    }
  }

  /** A settled record is removed only with its job's receipt in hand. */
  lemma ClearKeeps(u: Rules, s: State, w: nat)
    requires Inv(u, s)
    ensures Progress(u, s, ClearRecord(s, w))
  {
    if w in s.watchers && s.watchers[w].pc == Clearing {
      WatcherKnown(u, s, w);
      ClearFits(u, s, w);
      WatcherMoves(u, s, ClearRecord(s, w), w, s.watchers[w].(pc := SettledGone));
    }
  }

  lemma ClearFits(u: Rules, s: State, w: nat)
    requires w in s.watchers && s.watchers[w].pc == Clearing
    requires WatcherOk(u, s, w, s.watchers[w]) && CallbackOk(s, s.watchers[w])
    ensures var s', watcher := ClearRecord(s, w), s.watchers[w].(pc := SettledGone);
            && OnlyWatcherMoves(s, s', w, watcher) && Grows(s, s')
            && WatcherOk(u, s', w, watcher) && CallbackOk(s', watcher)
  {
  }

  lemma WatcherKnown(u: Rules, s: State, w: nat)
    requires TableOk(u, s) && CallbacksOk(s) && w in s.watchers
    ensures WatcherOk(u, s, w, s.watchers[w]) && CallbackOk(s, s.watchers[w])
  {
  }

  lemma EmptyQueueDrains(s: State, watcher: Watcher)
    requires CallbackOk(s, watcher) && watcher.pc == Settled && QueueOf(s, watcher) == []
    ensures CallbackOk(s, watcher.(pc := Drained, looked := |watcher.regs|))
  {
  }

  lemma FullQueueBatches(s: State, s': State, watcher: Watcher)
    requires CallbackOk(s, watcher) && watcher.pc == Settled && QueueOf(s, watcher) != []
    requires QueueOf(s', watcher) == []
    ensures CallbackOk(s', watcher.(pc := RunningBatch(QueueOf(s, watcher))))
  {
    assert watcher.ran + QueueOf(s, watcher) + [] == watcher.ran + QueueOf(s, watcher);
  }

  lemma EmptyLookKeeps(u: Rules, s: State, w: nat)
    requires Inv(u, s) && w in s.watchers && s.watchers[w].pc == Settled && QueueOf(s, s.watchers[w]) == []
    ensures Progress(u, s, Look(s, w))
  {
    WatcherKnown(u, s, w);
    EmptyQueueDrains(s, s.watchers[w]);
    WatcherPcMoves(u, s, w, s.watchers[w].(pc := Drained, looked := |s.watchers[w].regs|));
  }

  lemma BatchLookKeeps(u: Rules, s: State, w: nat)
    requires Inv(u, s) && w in s.watchers && s.watchers[w].pc == Settled && QueueOf(s, s.watchers[w]) != []
    ensures Progress(u, s, Look(s, w))
  {
    WatcherKnown(u, s, w);
    BatchLookFits(u, s, w);
    WatcherMoves(u, s, Look(s, w), w, s.watchers[w].(pc := RunningBatch(QueueOf(s, s.watchers[w]))));
  }

  lemma BatchLookFits(u: Rules, s: State, w: nat)
    requires w in s.watchers && s.watchers[w].pc == Settled && QueueOf(s, s.watchers[w]) != []
    requires WatcherOk(u, s, w, s.watchers[w]) && CallbackOk(s, s.watchers[w])
    ensures var s', watcher := Look(s, w), s.watchers[w].(pc := RunningBatch(QueueOf(s, s.watchers[w])));
            && OnlyWatcherMoves(s, s', w, watcher) && Grows(s, s')
            && WatcherOk(u, s', w, watcher) && CallbackOk(s', watcher)
  {
    FullQueueBatches(s, Look(s, w), s.watchers[w]);
  }

  lemma LookKeeps(u: Rules, s: State, w: nat)
    requires Inv(u, s)
    ensures Progress(u, s, Look(s, w))
  {
    if w in s.watchers && s.watchers[w].pc == Settled {
      if QueueOf(s, s.watchers[w]) == [] { EmptyLookKeeps(u, s, w); } else { BatchLookKeeps(u, s, w); }
    }
  }

  lemma CallKeepsCallbacks(s: State, watcher: Watcher, fails: bool)
    requires CallbackOk(s, watcher) && watcher.pc.RunningBatch?
    ensures CallbackOk(s, CalledOne(watcher, fails))
  {
    var batch, queue := watcher.pc.batch, QueueOf(s, watcher);
    assert watcher.ran + batch + queue == watcher.ran + [batch[0]] + batch[1..] + queue;
    assert |batch| == 1 ==> watcher.ran + [batch[0]] + batch[1..] + queue == watcher.ran + [batch[0]] + queue;
  }

  lemma CallbackKeeps(u: Rules, s: State, w: nat, fails: bool)
    requires Inv(u, s)
    ensures Progress(u, s, CallOne(s, w, fails))
  {
    if w in s.watchers && s.watchers[w].pc.RunningBatch? {
      var watcher := s.watchers[w];
      WatcherKnown(u, s, w);
      CallKeepsCallbacks(s, watcher, fails);
      WatcherPcMoves(u, s, w, CalledOne(watcher, fails));
    }
  }

  lemma AfterDrainKeeps(u: Rules, s: State, w: nat)
    requires Inv(u, s)
    ensures Progress(u, s, CountFailure(s, w))
  {
    if w in s.watchers && s.watchers[w].pc == Drained {
      var watcher := s.watchers[w];
      if watcher.failed {
        RaiseLatchKeeps(u, s, CallbackFailed(watcher.job));
        DrainedWatcher(u, RaiseLatch(s, CallbackFailed(watcher.job)), w);
        Then(u, s, RaiseLatch(s, CallbackFailed(watcher.job)), CountFailure(s, w));
      } else {
        DrainedWatcher(u, s, w);
      }
    }
  }

  lemma DrainedWatcher(u: Rules, s: State, w: nat)
    requires Inv(u, s) && w in s.watchers && s.watchers[w].pc == Drained
    ensures Progress(u, s, SetWatcher(s, w, s.watchers[w].(pc := Clearing)))
  {
    WatcherKnown(u, s, w);
    WatcherPcMoves(u, s, w, s.watchers[w].(pc := Clearing));
  }

  lemma WatchStepKeeps(u: Rules, s: State, a: Action)
    requires Inv(u, s)
    requires IsWatch(a)
    ensures Progress(u, s, WatchStep(u, s, a))
  {
    match a
    case WatchPoll(w, path, reply, advertised) =>
      if w in s.watchers && s.watchers[w].pc == Polling && reply.Some? {
        ObserveKeeps(u, s, w, path, reply.value, advertised);
      }
    case WatchDie(w, cause) => DieKeeps(u, s, w, cause);
    case WatchExpire(w) => ExpireKeeps(u, s, w);
    case WatchMark(w) => MarkKeeps(u, s, w);
    case WatchPop(w) => PopKeeps(u, s, w);
    case DrainLook(w) => LookKeeps(u, s, w);
    case RunCallback(w, fails) => CallbackKeeps(u, s, w, fails);
    case AfterDrain(w) => AfterDrainKeeps(u, s, w);
    case Clear(w) => ClearKeeps(u, s, w);
  }

  lemma ApplyKeeps(u: Rules, s: State, a: Action)
    requires Inv(u, s) && CleaningLaw(u)
    ensures Progress(u, s, Apply(u, s, a))
  {
    if a.Start? {
      if a.e !in s.evals { StartKeeps(u, s, a.e, a.retries); }
    } else if IsSubmit(a) {
      SubmitKeeps(u, s, a);
    } else if IsWatch(a) {
      WatchStepKeeps(u, s, a);
    } else {
      EvalStepKeeps(u, s, a);
    }
  }

  lemma StartKeeps(u: Rules, s: State, e: nat, retries: nat)
    requires Inv(u, s) && e !in s.evals
    ensures Progress(u, s, SetEval(s, e, Eval(Gate, retries, 0, {})))
  {
    SetEvalKeeps(u, s, e, Eval(Gate, retries, 0, {}));
  }
}
