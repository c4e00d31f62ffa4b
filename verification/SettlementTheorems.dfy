/** What holds in every run of the settlement protocol. */
module SettlementTheorems {
  import opened Options
  import opened Receipts
  import opened RequestFaults
  import opened Settlement
  import opened SettlementProofs

  lemma {:induction false} ReachableInv(u: Rules, actions: seq<Action>)
    requires CleaningLaw(u)
    ensures Inv(u, Run(u, actions))
  {
    if actions != [] {
      ReachableInv(u, actions[..|actions|-1]);
      ApplyKeeps(u, Run(u, actions[..|actions|-1]), actions[|actions|-1]);
    }
  }

  lemma RunSnoc(u: Rules, actions: seq<Action>, a: Action)
    ensures Run(u, actions + [a]) == Apply(u, Run(u, actions), a)
  {
    assert (actions + [a])[..|actions|] == actions;
  }

  lemma {:induction false} RunGrows(u: Rules, before: seq<Action>, after: seq<Action>)
    requires CleaningLaw(u)
    ensures Grows(Run(u, before), Run(u, before + after))
  {
    if after == [] {
      assert before + after == before;
    } else {
      var front := after[..|after|-1];
      assert before + after == before + front + [after[|after|-1]];
      RunSnoc(u, before + front, after[|after|-1]);
      RunGrows(u, before, front);
      ReachableInv(u, before + front);
      ApplyKeeps(u, Run(u, before + front), after[|after|-1]);
      GrowsTransitive(Run(u, before), Run(u, before + front), Run(u, before + after));
    }
  }

  // ---------------------------------------------------------------------
  // Accounting
  // ---------------------------------------------------------------------

  /** Every job of every evaluation is secured, or still in the evaluation's hands. */
  ghost predicate NoJobLost(s: State) {
    forall e :: e in s.evals ==>
      forall t :: t in s.evals[e].tickets ==> Secured(s, t) || Holds(s.evals[e].pc, e, t)
  }

  /** In every reachable state of every interleaving: a job is accounted for
      unless its evaluation lost it, and a lost job without a name never is. */
  lemma EveryJobAccountedFor(u: Rules, actions: seq<Action>, e: nat, t: Ticket)
    requires CleaningLaw(u)
    requires e in Run(u, actions).evals && t in Run(u, actions).evals[e].tickets
    ensures var s := Run(u, actions);
            && (t !in s.lost ==> Secured(s, t) || Holds(s.evals[e].pc, e, t))
            && (t !in s.lost && s.evals[e].pc.Returned? ==> Secured(s, t))
            && (t in s.lost && t.Nameless? ==> !Secured(s, t))
  {
    ReachableInv(u, actions);
  }

  /** The guards of the failing branches: an admitted submission raises something
      that is not counted, or an exception nobody catches leaves an evaluation
      that still owes its job a settlement. */
  predicate Loses(u: Rules, s: State, a: Action) {
    match a
    case SubmitRaises(e, site, fault, admitted) =>
      admitted && e in s.evals && s.evals[e].pc == Submitting && Uncounted(site, fault)
    case Escape(e, cause) =>
      && e in s.evals && Propagates(cause) && RaisesAt(u, s.evals[e].pc, cause)
      && Owes(u, s.evals[e].pc) && !Secured(s, Known(s.evals[e].pc.job))
    case _ => false
  }

  /** A submission that ends this way has counted nothing. */
  predicate Uncounted(site: Site, fault: Fault) {
    CanArise(site, fault) && (FateOf(site, fault, true) == Refused || FateOf(site, fault, true) == Uncaught)
  }

  function LostBy(u: Rules, s: State, a: Action): Ticket
    requires Loses(u, s, a)
  {
    if a.SubmitRaises? then Nameless(a.e, s.evals[a.e].submissions) else Known(s.evals[a.e].pc.job)
  }

  lemma SubmittingLoses(u: Rules, s: State, a: Action)
    requires IsSubmit(a)
    ensures Submit(u, s, a).lost == s.lost + if Loses(u, s, a) then {LostBy(u, s, a)} else {}
  {
  }

  lemma LeavingLoses(u: Rules, s: State, e: nat, cause: Cause)
    requires e in s.evals
    ensures var a := Escape(e, cause);
            Leave(u, s, e, cause).lost == s.lost + if Loses(u, s, a) then {LostBy(u, s, a)} else {}
  {
  }

  lemma OthersLoseNothing(u: Rules, s: State, a: Action)
    requires IsEval(a) && !a.Escape?
    ensures EvalStep(u, s, a).lost == s.lost
  {
    if a.Finish? || a.Cancel? || a.ReconcilePoll? {
      SettlingTouchesNoWatcher(u, s, a);
    }
  }

  /** What is lost grows exactly by the job of a step whose guard fired. */
  lemma LosingStep(u: Rules, s: State, a: Action)
    ensures Apply(u, s, a).lost == s.lost + if Loses(u, s, a) then {LostBy(u, s, a)} else {}
  {
    if IsWatch(a) {
      WatchersLeaveEvaluations(u, s, a);
    } else if IsSubmit(a) {
      SubmittingLoses(u, s, a);
    } else if a.Escape? {
      if a.e in s.evals { LeavingLoses(u, s, a.e, a.cause); }
    } else if IsEval(a) {
      OthersLoseNothing(u, s, a);
    }
  }

  /** Right after such a step the job is unaccounted for. */
  lemma LosingStepLoses(u: Rules, s: State, a: Action)
    requires Inv(u, s) && CleaningLaw(u) && Loses(u, s, a)
    ensures !NoJobLost(Apply(u, s, a))
  {
    var s', t := Apply(u, s, a), LostBy(u, s, a);
    LosingStep(u, s, a);
    ApplyKeeps(u, s, a);
    if a.Escape? { EscapedJobIsOpen(u, s, a.e, a.cause); }
    assert t in s'.evals[a.e].tickets && !Secured(s', t) && !Holds(s'.evals[a.e].pc, a.e, t);
  }

  lemma EscapedJobIsOpen(u: Rules, s: State, e: nat, cause: Cause)
    requires EvalsOk(u, s) && Loses(u, s, Escape(e, cause))
    ensures var s', t := Leave(u, s, e, cause), Known(s.evals[e].pc.job);
            && t in s'.evals[e].tickets && !Secured(s', t) && s'.evals[e].pc == Returned(Raised)
  {
    assert JobOf(s.evals[e].pc) == Some(s.evals[e].pc.job);
  }

  ghost predicate NothingLoses(u: Rules, actions: seq<Action>) {
    forall i :: 0 <= i < |actions| ==> !Loses(u, Run(u, actions[..i]), actions[i])
  }

  lemma NothingLosesSnoc(u: Rules, front: seq<Action>, last: Action)
    ensures NothingLoses(u, front + [last]) <==> NothingLoses(u, front) && !Loses(u, Run(u, front), last)
  {
    var actions := front + [last];
    assert actions[..|front|] == front && actions[|front|] == last;
    assert forall i :: 0 <= i < |front| ==> front[..i] == actions[..i] && front[i] == actions[i];
    if NothingLoses(u, actions) {
      assert !Loses(u, Run(u, actions[..|front|]), actions[|front|]);
    }
  }

  lemma {:induction false} LosingRun(u: Rules, actions: seq<Action>)
    ensures Run(u, actions).lost == {} <==> NothingLoses(u, actions)
  {
    if actions != [] {
      var front, last := actions[..|actions|-1], actions[|actions|-1];
      assert actions == front + [last];
      LosingRun(u, front);
      LosingStep(u, Run(u, front), last);
      NothingLosesSnoc(u, front, last);
    }
  }

  /** No step of the run passes through a state where some job is in nobody's books. */
  ghost predicate AlwaysAccounted(u: Rules, actions: seq<Action>) {
    forall i :: 0 <= i <= |actions| ==> NoJobLost(Run(u, actions[..i]))
  }

  /** The accounting law holds throughout a run exactly when no admitted
      submission raised something uncounted and no uncaught exception left an
      evaluation that owed its job a settlement. */
  lemma AccountedExactlyWhenNothingLoses(u: Rules, actions: seq<Action>)
    requires CleaningLaw(u)
    ensures AlwaysAccounted(u, actions) <==> NothingLoses(u, actions)
  {
    if NothingLoses(u, actions) {
      forall i | 0 <= i <= |actions| ensures NoJobLost(Run(u, actions[..i])) {
        NothingLosesBefore(u, actions, i);
        LosingRun(u, actions[..i]);
        NothingLostIsAccounted(u, actions[..i]);
      }
    } else {
      var i :| 0 <= i < |actions| && Loses(u, Run(u, actions[..i]), actions[i]);
      LosesNext(u, actions, i);
    }
  }

  lemma NothingLosesBefore(u: Rules, actions: seq<Action>, i: nat)
    requires i <= |actions| && NothingLoses(u, actions)
    ensures NothingLoses(u, actions[..i])
  {
    forall k | 0 <= k < i ensures !Loses(u, Run(u, actions[..i][..k]), actions[..i][k]) {
      assert actions[..i][..k] == actions[..k];
    }
  }

  lemma NothingLostIsAccounted(u: Rules, actions: seq<Action>)
    requires CleaningLaw(u) && Run(u, actions).lost == {}
    ensures NoJobLost(Run(u, actions))
  {
    ReachableInv(u, actions);
  }

  lemma LosesNext(u: Rules, actions: seq<Action>, i: nat)
    requires CleaningLaw(u) && i < |actions| && Loses(u, Run(u, actions[..i]), actions[i])
    ensures !NoJobLost(Run(u, actions[..i + 1]))
  {
    assert actions[..i + 1] == actions[..i] + [actions[i]];
    RunSnoc(u, actions[..i], actions[i]);
    ReachableInv(u, actions[..i]);
    LosingStepLoses(u, Run(u, actions[..i]), actions[i]);
  }

  /** An evaluation on its way to submit. */
  const SUBMITTING_RUN: seq<Action> := [Start(0, 0), PassGate(0, true)]

  lemma SubmittingRun(u: Rules)
    ensures Run(u, SUBMITTING_RUN) == INITIAL.(evals := map[0 := Eval(Submitting, 0, 0, {})])
  {
    RunSnoc(u, [], Start(0, 0));
    RunSnoc(u, [Start(0, 0)], PassGate(0, true));
    assert [] + [Start(0, 0)] == [Start(0, 0)];
    assert [Start(0, 0)] + [PassGate(0, true)] == SUBMITTING_RUN;
  }

  /** The evaluation has returned, and nothing anywhere accounts for its job. */
  predicate LostSilently(s: State, t: Ticket) {
    && 0 in s.evals && s.evals[0].pc.Returned? && s.evals[0].tickets == {t}
    && !Secured(s, t) && s.unsettled == 0 && !s.latch && s.deferred == map[]
  }

  /** Three steps lose a job: a submission admitted by the Judge raises anything
      that is not counted. */
  lemma UncountedSubmissionLosesJob(u: Rules, site: Site, fault: Fault)
    requires Uncounted(site, fault)
    ensures LostSilently(Run(u, SUBMITTING_RUN + [SubmitRaises(0, site, fault, true)]), Nameless(0, 0))
  {
    SubmittingRun(u);
    RunSnoc(u, SUBMITTING_RUN, SubmitRaises(0, site, fault, true));
  }

  /** Bytes that are not UTF-8, a malformed redirect, and valid UTF-8 that the
      parser fails on are such submissions. */
  lemma UncountedSubmissions()
    ensures Uncounted(Transport, BadText) && Uncounted(Transport, BadUrl) && Uncounted(Transport, BadValue)
    ensures Uncounted(Parsing, BadValue) && Uncounted(Parsing, Unforeseen) && Uncounted(ErrorBody, BadValue)
  {
  }

  lemma AcceptedRun(u: Rules, receipt: Envelope)
    requires SubmissionId(u, receipt).Some? && !Terminal(u, receipt)
    ensures var s, job := Run(u, SUBMITTING_RUN + [SubmitAccepted(0, receipt)]), SubmissionId(u, receipt).value;
            s == INITIAL.(evals := s.evals) && 0 in s.evals
            && s.evals[0].pc == Holding(job, receipt) && s.evals[0].tickets == {Known(job)}
  {
    SubmittingRun(u);
    RunSnoc(u, SUBMITTING_RUN, SubmitAccepted(0, receipt));
  }

  lemma LeavingSilently(u: Rules, s: State, receipt: Envelope, cause: Cause)
    requires SubmissionId(u, receipt).Some? && !Terminal(u, receipt) && Propagates(cause)
    requires s == INITIAL.(evals := s.evals) && 0 in s.evals
    requires s.evals[0].pc == Holding(SubmissionId(u, receipt).value, receipt)
    requires s.evals[0].tickets == {Known(SubmissionId(u, receipt).value)}
    ensures LostSilently(Apply(u, s, Escape(0, cause)), Known(SubmissionId(u, receipt).value))
  {
  }

  /** Four steps lose a job whose id is known: once it is accepted, a poll's
      answer that the parser fails on, or a lifecycle budget too large for a
      float, ends the evaluation. */
  lemma UncaughtPollLosesJob(u: Rules, receipt: Envelope, cause: Cause)
    requires SubmissionId(u, receipt).Some? && !Terminal(u, receipt) && Propagates(cause)
    ensures LostSilently(Run(u, SUBMITTING_RUN + [SubmitAccepted(0, receipt), Escape(0, cause)]),
                         Known(SubmissionId(u, receipt).value))
  {
    var accepted := SUBMITTING_RUN + [SubmitAccepted(0, receipt)];
    AcceptedRun(u, receipt);
    RunSnoc(u, accepted, Escape(0, cause));
    LeavingSilently(u, Run(u, accepted), receipt, cause);
    assert SUBMITTING_RUN + [SubmitAccepted(0, receipt), Escape(0, cause)] == accepted + [Escape(0, cause)];
  }

  lemma PropagatingCauses()
    ensures Propagates(InRequest(Parsing, BadValue)) && Propagates(InRequest(Parsing, Unforeseen))
    ensures Propagates(InRequest(ErrorBody, BadValue)) && Propagates(BudgetOverflow)
    ensures !Propagates(InRequest(Transport, BadText)) && !Propagates(InRequest(Parsing, BadJson))
  {
  }

  /** A job once accounted for stays accounted for: no interleaving passes
      through a state where it is in neither domain. */
  lemma AccountedForever(u: Rules, before: seq<Action>, after: seq<Action>, t: Ticket)
    requires CleaningLaw(u) && Secured(Run(u, before), t)
    ensures Secured(Run(u, before + after), t)
  {
    RunGrows(u, before, after);
    SecuredStays(Run(u, before), Run(u, before + after), t);
  }

  /** The counter never falls, equals the number of recorded causes, and the
      latch is set exactly when it is positive. */
  lemma CounterAndLatch(u: Rules, before: seq<Action>, after: seq<Action>)
    requires CleaningLaw(u)
    ensures var s, s' := Run(u, before), Run(u, before + after);
            && s.ledger <= s'.ledger
            && s.unsettled == |s.ledger| && s'.unsettled == |s'.ledger|
            && s.unsettled <= s'.unsettled
            && (s.latch <==> s.unsettled > 0)
            && (s.latch ==> s'.latch)
  {
    ReachableInv(u, before);
    ReachableInv(u, before + after);
    RunGrows(u, before, after);
  }

  /** No locked region of a watcher touches an evaluation. */
  lemma WatchersLeaveEvaluations(u: Rules, s: State, a: Action)
    requires IsWatch(a)
    ensures WatchStep(u, s, a).evals == s.evals && WatchStep(u, s, a).lost == s.lost
  {
  }

  /** A state in which nobody new is submitting. */
  predicate NoneStarts(s: State, s': State) {
    forall e :: e in s'.evals && s'.evals[e].pc == Submitting ==> e in s.evals && s.evals[e].pc == Submitting
  }

  lemma SettlingStartsNone(u: Rules, s: State, e: nat, job: string, receipt: Envelope, resubmit: bool)
    requires e in s.evals
    ensures NoneStarts(s, Settle(u, s, e, job, receipt, resubmit))
  {
  }

  lemma ReconcilingStartsNone(u: Rules, s: State, e: nat, reply: Option<Envelope>, delete: bool, resubmit: bool)
    requires e in s.evals && s.evals[e].pc.Reconciling?
    ensures NoneStarts(s, Reconcile(u, s, e, reply, delete, resubmit))
  {
    if reply.Some? && Authoritative(u, reply.value, Text(s.evals[e].pc.job)) {
      SettlingStartsNone(u, s, e, s.evals[e].pc.job, reply.value, resubmit);
    }
  }

  lemma DeferringStartsNone(u: Rules, s: State, e: nat, w: nat, callback: Option<nat>, paths: seq<string>)
    requires e in s.evals && s.evals[e].pc.Deferring?
    ensures NoneStarts(s, StartWatcher(u, s, e, w, callback, paths))
  {
  }

  lemma LeavingStartsNone(u: Rules, s: State, e: nat, cause: Cause)
    requires e in s.evals
    ensures NoneStarts(s, Leave(u, s, e, cause))
  {
  }

  /** Steps that stay in one thread's hands start no submission. */
  lemma LocalStepsStartNone(u: Rules, s: State, a: Action)
    requires a.LatchSubmission? || a.Poll? || a.Abandon? || a.Overrun? || a.SkipCancel? || a.GiveUp? || a.Launch? || a.LatchCancel?
    ensures NoneStarts(s, EvalStep(u, s, a))
  {
  }

  lemma PassingGateNeedsZero(u: Rules, s: State, g: nat, admit: bool, e: nat)
    requires var s' := EvalStep(u, s, PassGate(g, admit)); e in s'.evals && s'.evals[e].pc == Submitting
    ensures e in s.evals && (s.evals[e].pc == Submitting || (g == e && admit && s.unsettled == 0))
  {
  }

  /** Only the gate leads to a submission, and only with the counter at zero. */
  lemma SubmissionNeedsGate(u: Rules, s: State, a: Action, e: nat)
    requires IsEval(a) && e in EvalStep(u, s, a).evals && EvalStep(u, s, a).evals[e].pc == Submitting
    ensures e in s.evals && (s.evals[e].pc == Submitting || (a == PassGate(e, true) && s.unsettled == 0))
  {
    if a.PassGate? {
      PassingGateNeedsZero(u, s, a.e, a.admit, e);
    } else if a.LatchSubmission? || a.Poll? || a.Abandon? || a.Overrun? || a.SkipCancel? || a.GiveUp? || a.Launch? || a.LatchCancel? {
      LocalStepsStartNone(u, s, a);
    } else if a.e in s.evals {
      var pc := s.evals[a.e].pc;
      match a
      case Escape(_, cause) => LeavingStartsNone(u, s, a.e, cause);
      case Finish(_, resubmit) =>
        if pc.Holding? { SettlingStartsNone(u, s, a.e, pc.job, pc.response, resubmit); }
      case Cancel(_, reply, resubmit) =>
        if pc.Reconciling? { ReconcilingStartsNone(u, s, a.e, reply, true, resubmit); }
      case ReconcilePoll(_, reply, resubmit) =>
        if pc.Reconciling? { ReconcilingStartsNone(u, s, a.e, reply, false, resubmit); }
      case Defer(_, w, callback, paths) =>
        if pc.Deferring? { DeferringStartsNone(u, s, a.e, w, callback, paths); }
      case _ =>
    }
  }

  lemma SubmittingWasSubmitting(u: Rules, s: State, a: Action, e: nat)
    requires IsSubmit(a) && e in Submit(u, s, a).evals && Submit(u, s, a).evals[e].pc == Submitting
    ensures e in s.evals && s.evals[e].pc == Submitting
  {
  }

  lemma NoNewSubmitter(u: Rules, s: State, a: Action, e: nat)
    requires LatchOk(s) && s.latch
    requires e in Apply(u, s, a).evals && Apply(u, s, a).evals[e].pc == Submitting
    ensures e in s.evals && s.evals[e].pc == Submitting
  {
    if IsWatch(a) {
      WatchersLeaveEvaluations(u, s, a);
    } else if IsSubmit(a) {
      SubmittingWasSubmitting(u, s, a, e);
    } else if !a.Start? {
      SubmissionNeedsGate(u, s, a, e);
    }
  }

  /** Once the latch is set no further submission begins: whoever is submitting
      later was already submitting when the latch was set. */
  lemma {:induction false} LatchStopsSubmissions(u: Rules, before: seq<Action>, after: seq<Action>, e: nat)
    requires CleaningLaw(u) && Run(u, before).latch
    requires e in Run(u, before + after).evals && Run(u, before + after).evals[e].pc == Submitting
    ensures e in Run(u, before).evals && Run(u, before).evals[e].pc == Submitting
  {
    if after == [] {
      assert before + after == before;
    } else {
      var front, last := after[..|after|-1], after[|after|-1];
      assert before + after == before + front + [last];
      RunSnoc(u, before + front, last);
      ReachableInv(u, before + front);
      CounterAndLatch(u, before, front);
      NoNewSubmitter(u, Run(u, before + front), last, e);
      LatchStopsSubmissions(u, before, front, e);
    }
  }

  /** A receipt that settles a watched job is terminal, was read through a
      capability never caught contradicting the job, and carries no foreign id
      in any of its envelopes. */
  lemma WatcherSettlesOnlyItsJob(u: Rules, s: State, s': State, w: nat, path: string, reply: Envelope,
                                 advertised: seq<string>)
    requires Inv(u, s) && CleaningLaw(u) && w in s.watchers && s.watchers[w].pc == Polling
    requires s' == WatchStep(u, s, WatchPoll(w, path, Some(reply), advertised))
    requires w in s'.watchers && s'.watchers[w].pc == Settled
    ensures path in s.watchers[w].paths && path !in s.watchers[w].tainted
    ensures Terminal(u, reply) && !Differs(u, reply, s.watchers[w].job)
    ensures s.watchers[w].job in s'.receipts
  {
    WatcherKnown(u, s, w);
    SettlingReply(u, s, w, path, reply, advertised);
  }

  lemma SettlingReply(u: Rules, s: State, w: nat, path: string, reply: Envelope, advertised: seq<string>)
    requires CleaningLaw(u) && w in s.watchers && s.watchers[w].pc == Polling
    requires u.clean(Text(s.watchers[w].job)) == Some(s.watchers[w].job)
    requires Observe(u, s, w, path, reply, advertised).watchers[w].pc == Settled
    ensures Terminal(u, reply) && !Differs(u, reply, s.watchers[w].job)
    ensures s.watchers[w].job in Observe(u, s, w, path, reply, advertised).receipts
  {
    var job := s.watchers[w].job;
    var idless := IdentityOf(u, reply, Text(job)) == Missing;
    ObserveSettles(u, s, w, path, reply, advertised);
    BoundReceiptSpeaksForJob(u, reply, job, idless);
  }

  /** An observation settles only with an authoritative bound receipt. */
  lemma ObserveSettles(u: Rules, s: State, w: nat, path: string, reply: Envelope, advertised: seq<string>)
    requires w in s.watchers && s.watchers[w].pc == Polling
    requires Observe(u, s, w, path, reply, advertised).watchers[w].pc == Settled
    ensures var job := Text(s.watchers[w].job);
            var identity := IdentityOf(u, reply, job);
            var bound := BindWatcherReceipt(u, reply, job, identity == Missing);
            identity != Invalid && bound.Some? && Authoritative(u, bound.value, job)
    ensures s.watchers[w].job in Observe(u, s, w, path, reply, advertised).receipts
  {
  }

  // ---------------------------------------------------------------------
  // Permit callbacks
  // ---------------------------------------------------------------------

  /** The watcher timed out or died. */
  predicate Unresolved(pc: WatchPc) {
    pc == Dead || pc == Expired || pc == ExpiryMarked || pc == TimedOutGone
  }

  /** Callbacks are called in registration order, each registration at most
      once, never on a timeout or after a crash, and never without a terminal receipt; while any
      is being called, or could still be, the record is pending. */
  lemma CallbackProtocol(u: Rules, actions: seq<Action>, w: nat)
    requires CleaningLaw(u) && w in Run(u, actions).watchers
    ensures var s := Run(u, actions);
            var watcher := s.watchers[w];
            && watcher.ran <= watcher.regs
            && (watcher.ran != [] ==> watcher.job in s.receipts)
            && (Unresolved(watcher.pc) ==> watcher.ran == [])
            && (watcher.pc == SettledGone ==>
                  watcher.looked <= |watcher.regs| && watcher.ran == watcher.regs[..watcher.looked])
            && (!Gone(watcher.pc) ==> watcher.job in s.deferred && s.deferred[watcher.job].watcher == w)
            && (watcher.pc.RunningBatch? ==>
                  watcher.regs == watcher.ran + watcher.pc.batch + s.deferred[watcher.job].callbacks)
  {
    ReachableInv(u, actions);
    var s := Run(u, actions);
    WatcherKnown(u, s, w);
    ProtocolOfWatcher(u, s, w, s.watchers[w]);
  }

  lemma ProtocolOfWatcher(u: Rules, s: State, w: nat, watcher: Watcher)
    requires WatcherOk(u, s, w, watcher) && CallbackOk(s, watcher)
    ensures watcher.ran <= watcher.regs
    ensures watcher.ran != [] ==> watcher.job in s.receipts
    ensures Unresolved(watcher.pc) ==> watcher.ran == []
    ensures watcher.pc == SettledGone ==>
              watcher.looked <= |watcher.regs| && watcher.ran == watcher.regs[..watcher.looked]
    ensures !Gone(watcher.pc) ==> watcher.job in s.deferred && s.deferred[watcher.job].watcher == w
    ensures watcher.pc.RunningBatch? ==>
              watcher.regs == watcher.ran + watcher.pc.batch + s.deferred[watcher.job].callbacks
  {
    var queue := QueueOf(s, watcher);
    if watcher.pc.RunningBatch? {
      assert watcher.ran + watcher.pc.batch + queue == watcher.ran + (watcher.pc.batch + queue);
    }
  }

  predicate Looked(pc: WatchPc) {
    pc == Drained || pc == Clearing || pc == SettledGone
  }

  /** A watcher past its last look, or dead, stays so and calls nothing more. */
  predicate Quiet(pc: WatchPc) {
    Looked(pc) || pc == Dead
  }

  predicate StaysQuiet(s: State, s': State, w: nat)
    requires w in s.watchers
  {
    && w in s'.watchers
    && (Looked(s.watchers[w].pc) ==> Looked(s'.watchers[w].pc))
    && (s.watchers[w].pc == Dead ==> s'.watchers[w].pc == Dead && s'.watchers[w].job == s.watchers[w].job)
    && s'.watchers[w].ran == s.watchers[w].ran && s'.watchers[w].looked == s.watchers[w].looked
  }

  /** An observation changes no watcher but the one that polls. */
  lemma ObservedOnlyItself(u: Rules, s: State, v: nat, path: string, reply: Envelope, advertised: seq<string>, w: nat)
    requires v in s.watchers && w in s.watchers && w != v
    ensures var s' := Observe(u, s, v, path, reply, advertised); w in s'.watchers && s'.watchers[w] == s.watchers[w]
  {
  }

  lemma QuietThroughWatchStep(u: Rules, s: State, a: Action, w: nat)
    requires IsWatch(a) && w in s.watchers && Quiet(s.watchers[w].pc)
    ensures StaysQuiet(s, WatchStep(u, s, a), w)
  {
    match a
    case WatchPoll(v, path, reply, advertised) =>
      if v in s.watchers && v != w && reply.Some? {
        ObservedOnlyItself(u, s, v, path, reply.value, advertised, w);
      }
    case _ => QuietThroughLocked(u, s, a, w);
  }

  /** The locked regions of a watcher leave a quiet one as it was. */
  lemma QuietThroughLocked(u: Rules, s: State, a: Action, w: nat)
    requires IsWatch(a) && !a.WatchPoll? && w in s.watchers && Quiet(s.watchers[w].pc)
    ensures StaysQuiet(s, WatchStep(u, s, a), w)
  {
    match a
    case DrainLook(v) => QuietThroughLook(s, v, w);
    case RunCallback(v, fails) => QuietThroughCall(s, v, fails, w);
    case _ =>
  }

  lemma QuietThroughLook(s: State, v: nat, w: nat)
    requires w in s.watchers && Quiet(s.watchers[w].pc)
    ensures StaysQuiet(s, Look(s, v), w)
  {
  }

  lemma QuietThroughCall(s: State, v: nat, fails: bool, w: nat)
    requires w in s.watchers && Quiet(s.watchers[w].pc)
    ensures StaysQuiet(s, CallOne(s, v, fails), w)
  {
  }

  lemma SettlingTouchesNoWatcher(u: Rules, s: State, a: Action)
    requires a.Finish? || a.Cancel? || a.ReconcilePoll?
    ensures EvalStep(u, s, a).watchers == s.watchers && EvalStep(u, s, a).lost == s.lost
  {
    if a.e in s.evals && s.evals[a.e].pc.Reconciling? && !a.Finish? {
      ReconcilingTouchesNoWatcher(u, s, a.e, a.reply, a.Cancel?, a.resubmit);
    }
  }

  lemma ReconcilingTouchesNoWatcher(u: Rules, s: State, e: nat, reply: Option<Envelope>, delete: bool, resubmit: bool)
    requires e in s.evals && s.evals[e].pc.Reconciling?
    ensures var s' := Reconcile(u, s, e, reply, delete, resubmit); s'.watchers == s.watchers && s'.lost == s.lost
  {
  }

  lemma QuietThroughLeaving(u: Rules, s: State, e: nat, cause: Cause, w: nat)
    requires e in s.evals && w in s.watchers && Quiet(s.watchers[w].pc)
    ensures StaysQuiet(s, Leave(u, s, e, cause), w)
  {
  }

  lemma QuietThroughEvalStep(u: Rules, s: State, a: Action, w: nat)
    requires IsEval(a) && !a.Finish? && !a.Cancel? && !a.ReconcilePoll? && !a.Escape?
    requires w in s.watchers && Quiet(s.watchers[w].pc)
    ensures StaysQuiet(s, EvalStep(u, s, a), w)
  {
  }

  lemma QuietThroughSubmit(u: Rules, s: State, a: Action, w: nat)
    requires IsSubmit(a) && w in s.watchers && Quiet(s.watchers[w].pc)
    ensures StaysQuiet(s, Submit(u, s, a), w)
  {
  }

  /** After the last, empty look, and after a crash, a watcher calls nothing more. */
  lemma QuietWatcherIsDone(u: Rules, s: State, a: Action, w: nat)
    requires w in s.watchers && Quiet(s.watchers[w].pc)
    ensures StaysQuiet(s, Apply(u, s, a), w)
  {
    if IsWatch(a) {
      QuietThroughWatchStep(u, s, a, w);
    } else if IsSubmit(a) {
      QuietThroughSubmit(u, s, a, w);
    } else if a.Finish? || a.Cancel? || a.ReconcilePoll? {
      SettlingTouchesNoWatcher(u, s, a);
    } else if a.Escape? {
      if a.e in s.evals { QuietThroughLeaving(u, s, a.e, a.cause, w); }
    } else if IsEval(a) {
      QuietThroughEvalStep(u, s, a, w);
    }
  }

  /** A crashed watcher, or one whose thread never started, keeps its job pending
      for good: the record stays, and none of its callbacks is ever called. */
  lemma DeadWatcherStrandsItsJob(u: Rules, before: seq<Action>, after: seq<Action>, w: nat)
    requires CleaningLaw(u) && w in Run(u, before).watchers && Run(u, before).watchers[w].pc == Dead
    ensures var s, watcher := Run(u, before + after), Run(u, before).watchers[w];
            && w in s.watchers && s.watchers[w].pc == Dead
            && watcher.job in s.deferred && s.deferred[watcher.job].watcher == w
            && s.watchers[w].ran == []
  {
    DeadForever(u, before, after, w);
    ReachableInv(u, before + after);
    WatcherKnown(u, Run(u, before + after), w);
  }

  lemma {:induction false} DeadForever(u: Rules, before: seq<Action>, after: seq<Action>, w: nat)
    requires w in Run(u, before).watchers && Run(u, before).watchers[w].pc == Dead
    ensures var s := Run(u, before + after);
            w in s.watchers && s.watchers[w].pc == Dead && s.watchers[w].job == Run(u, before).watchers[w].job
  {
    if after == [] {
      assert before + after == before;
    } else {
      var front, last := after[..|after|-1], after[|after|-1];
      assert before + after == before + front + [last];
      DeadForever(u, before, front, w);
      RunSnoc(u, before + front, last);
      QuietWatcherIsDone(u, Run(u, before + front), last, w);
    }
  }

  lemma SettledQueue(u: Rules, actions: seq<Action>, w: nat)
    requires CleaningLaw(u) && w in Run(u, actions).watchers && Run(u, actions).watchers[w].pc == Settled
    ensures var s := Run(u, actions);
            s.watchers[w].regs == s.watchers[w].ran + QueueOf(s, s.watchers[w])
  {
    ReachableInv(u, actions);
    WatcherKnown(u, Run(u, actions), w);
  }

  lemma LookAtNothing(u: Rules, before: seq<Action>, w: nat)
    requires CleaningLaw(u) && w in Run(u, before).watchers && Run(u, before).watchers[w].pc == Settled
    requires QueueOf(Run(u, before), Run(u, before).watchers[w]) == []
    ensures CalledAll(Run(u, before + [DrainLook(w)]), w, Run(u, before).watchers[w].regs)
  {
    RunSnoc(u, before, DrainLook(w));
    SettledQueue(u, before, w);
    EmptyLook(u, Run(u, before), w);
  }

  lemma EmptyLook(u: Rules, s: State, w: nat)
    requires w in s.watchers && s.watchers[w].pc == Settled && QueueOf(s, s.watchers[w]) == []
    ensures Apply(u, s, DrainLook(w))
         == SetWatcher(s, w, s.watchers[w].(pc := Drained, looked := |s.watchers[w].regs|))
  {
  }

  /** The watcher called exactly `regs`, and will call nothing more. */
  predicate CalledAll(s: State, w: nat, regs: seq<nat>) {
    && w in s.watchers && Looked(s.watchers[w].pc)
    && s.watchers[w].ran == regs && s.watchers[w].looked == |regs|
  }

  lemma {:induction false} CalledAllStays(u: Rules, before: seq<Action>, after: seq<Action>, w: nat, regs: seq<nat>)
    requires CalledAll(Run(u, before), w, regs)
    ensures CalledAll(Run(u, before + after), w, regs)
  {
    if after == [] {
      assert before + after == before;
    } else {
      var front, last := after[..|after|-1], after[|after|-1];
      assert before + after == before + front + [last];
      CalledAllStays(u, before, front, w, regs);
      RunSnoc(u, before + front, last);
      QuietWatcherIsDone(u, Run(u, before + front), last, w);
    }
  }

  /** The callbacks called in all are exactly those registered before the drain
      loop's last, empty look, each exactly once and in order. */
  lemma CallbacksBeforeLastLook(u: Rules, before: seq<Action>, after: seq<Action>, w: nat)
    requires CleaningLaw(u) && w in Run(u, before).watchers && Run(u, before).watchers[w].pc == Settled
    requires QueueOf(Run(u, before), Run(u, before).watchers[w]) == []
    ensures CalledAll(Run(u, before + [DrainLook(w)] + after), w, Run(u, before).watchers[w].regs)
  {
    LookAtNothing(u, before, w);
    CalledAllStays(u, before + [DrainLook(w)], after, w, Run(u, before).watchers[w].regs);
  }
}
