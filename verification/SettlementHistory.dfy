/** What a run has asked of the Judge: the jobs admitted, the resubmissions spent,
    the capabilities collected. */
module SettlementHistory {
  import opened Options
  import opened Receipts
  import opened RequestFaults
  import opened Settlement
  import opened SettlementProofs
  import opened SettlementTheorems
  import opened SettlementReasons

  // ---------------------------------------------------------------------
  // Resubmission
  // ---------------------------------------------------------------------

  /** The step sends an evaluation back to the gate with its job settled. */
  ghost predicate Resubmits(u: Rules, s: State, a: Action, e: nat) {
    && e in s.evals && (s.evals[e].pc.Holding? || s.evals[e].pc.Reconciling?)
    && e in Apply(u, s, a).evals && Apply(u, s, a).evals[e].pc == Gate
  }

  /** A terminal receipt of the job that reports a rejection for overload and says
      that it may be retried. */
  ghost predicate RetryableOverload(u: Rules, s: State, job: string) {
    && job in s.receipts && Terminal(u, s.receipts[job])
    && RawLifecycleStatus(u, s.receipts[job]) == Some(RejectedOverloaded)
    && NestedValue(s.receipts[job], RetryableKey) == Bool(true)
  }

  lemma SettlingResubmits(u: Rules, s: State, e: nat, job: string, receipt: Envelope, resubmit: bool)
    requires e in s.evals
    ensures var s' := Settle(u, s, e, job, receipt, resubmit);
            && e in s'.evals
            && (if s'.evals[e].pc == Gate
                then RetryableOverload(u, s', job) && s.evals[e].retries > 0 && s'.evals[e].retries == s.evals[e].retries - 1
                else s'.evals[e].retries == s.evals[e].retries)
  {
  }

  lemma AnswerRetries(u: Rules, s: State, e: nat, reply: Option<Envelope>, delete: bool, resubmit: bool)
    requires e in s.evals && s.evals[e].pc.Reconciling?
    ensures var s', job := Reconcile(u, s, e, reply, delete, resubmit), s.evals[e].pc.job;
            && e in s'.evals
            && (if s'.evals[e].pc == Gate
                then RetryableOverload(u, s', job) && s.evals[e].retries > 0 && s'.evals[e].retries == s.evals[e].retries - 1
                else s'.evals[e].retries == s.evals[e].retries)
  {
    if reply.Some? { SettlingResubmits(u, s, e, s.evals[e].pc.job, reply.value, resubmit); }
  }

  /** Retries are spent by resubmitting and by nothing else, and only after a
      terminal overload that says it may be retried. */
  lemma RetriesAreSpent(u: Rules, s: State, a: Action, e: nat)
    requires e in s.evals
    ensures e in Apply(u, s, a).evals
    ensures Resubmits(u, s, a, e) ==>
              RetryableOverload(u, Apply(u, s, a), s.evals[e].pc.job) && s.evals[e].retries > 0
    ensures Apply(u, s, a).evals[e].retries == s.evals[e].retries - if Resubmits(u, s, a, e) then 1 else 0
  {
    if Foreign(a, e) {
      ForeignKeepsEval(u, s, a, e);
    } else if IsSubmit(a) {
      SubmitSpendsNone(u, s, a, e);
    } else if !a.Start? {
      EvalSpends(u, s, a, e);
    }
  }

  lemma SubmitSpendsNone(u: Rules, s: State, a: Action, e: nat)
    requires IsSubmit(a) && a.e == e && e in s.evals
    ensures e in Submit(u, s, a).evals && Submit(u, s, a).evals[e].retries == s.evals[e].retries
    ensures s.evals[e].pc != Submitting ==> Submit(u, s, a) == s
  {
    SubmitHasShape(u, s, a);
  }

  /** From `s` to `s'` the evaluation spent a retry exactly if it left its job for
      the gate, and then for a reason. */
  ghost predicate Spends(u: Rules, s: State, s': State, e: nat)
    requires e in s.evals
  {
    var leaves := (s.evals[e].pc.Holding? || s.evals[e].pc.Reconciling?) && e in s'.evals && s'.evals[e].pc == Gate;
    && e in s'.evals
    && (leaves ==> RetryableOverload(u, s', s.evals[e].pc.job) && s.evals[e].retries > 0)
    && s'.evals[e].retries == s.evals[e].retries - if leaves then 1 else 0
  }

  lemma AnswerSpends(u: Rules, s: State, a: Action, e: nat)
    requires (a.Finish? || a.Cancel? || a.ReconcilePoll?) && a.e == e && e in s.evals
    ensures Spends(u, s, EvalStep(u, s, a), e)
  {
    var pc := s.evals[e].pc;
    match a
    case Finish(_, resubmit) => if pc.Holding? { SettlingResubmits(u, s, e, pc.job, pc.response, resubmit); }
    case Cancel(_, reply, resubmit) => if pc.Reconciling? { AnswerRetries(u, s, e, reply, true, resubmit); }
    case ReconcilePoll(_, reply, resubmit) => if pc.Reconciling? { AnswerRetries(u, s, e, reply, false, resubmit); }
  }

  lemma EvalSpends(u: Rules, s: State, a: Action, e: nat)
    requires IsEval(a) && a.e == e && e in s.evals
    ensures Spends(u, s, EvalStep(u, s, a), e)
  {
    if a.Finish? || a.Cancel? || a.ReconcilePoll? {
      AnswerSpends(u, s, a, e);
    } else if a.Defer? {
      DeferSpendsNone(u, s, a, e);
    } else if a.Escape? {
      EscapeSpendsNone(u, s, e, a.cause);
    } else {
      LocalSpendsNone(u, s, a, e);
    }
  }

  lemma DeferSpendsNone(u: Rules, s: State, a: Action, e: nat)
    requires a.Defer? && a.e == e && e in s.evals
    ensures var s' := EvalStep(u, s, a);
            e in s'.evals && s'.evals[e].retries == s.evals[e].retries && (s'.evals[e].pc == Gate ==> s.evals[e].pc == Gate)
  {
  }

  lemma EscapeSpendsNone(u: Rules, s: State, e: nat, cause: Cause)
    requires e in s.evals
    ensures var s' := Leave(u, s, e, cause);
            e in s'.evals && s'.evals[e].retries == s.evals[e].retries && (s'.evals[e].pc == Gate ==> s.evals[e].pc == Gate)
  {
  }

  lemma LocalSpendsNone(u: Rules, s: State, a: Action, e: nat)
    requires IsEval(a) && !a.Finish? && !a.Cancel? && !a.ReconcilePoll? && !a.Defer? && !a.Escape?
    requires a.e == e && e in s.evals
    ensures var s' := EvalStep(u, s, a);
            e in s'.evals && s'.evals[e].retries == s.evals[e].retries && (s'.evals[e].pc == Gate ==> s.evals[e].pc == Gate)
  {
    if a.PassGate? || a.LatchSubmission? || a.Poll? || a.LatchCancel? {
      PlainSpendsNone(u, s, a, e);
    } else {
      AbandonSpendsNone(u, s, a, e);
    }
  }

  lemma PlainSpendsNone(u: Rules, s: State, a: Action, e: nat)
    requires (a.PassGate? || a.LatchSubmission? || a.Poll? || a.LatchCancel?) && a.e == e && e in s.evals
    ensures var s' := EvalStep(u, s, a);
            e in s'.evals && s'.evals[e].retries == s.evals[e].retries && (s'.evals[e].pc == Gate ==> s.evals[e].pc == Gate)
  {
  }

  lemma AbandonSpendsNone(u: Rules, s: State, a: Action, e: nat)
    requires (a.Abandon? || a.Overrun? || a.SkipCancel? || a.GiveUp? || a.Launch?) && a.e == e && e in s.evals
    ensures var s' := EvalStep(u, s, a);
            e in s'.evals && s'.evals[e].retries == s.evals[e].retries && (s'.evals[e].pc == Gate ==> s.evals[e].pc == Gate)
  {
  }

  /** How often the evaluation was sent back in the actions after `before`. */
  ghost function Resubmissions(u: Rules, before: seq<Action>, after: seq<Action>, e: nat): nat {
    if after == [] then 0
    else Resubmissions(u, before, after[..|after|-1], e)
         + if Resubmits(u, Run(u, before + after[..|after|-1]), after[|after|-1], e) then 1 else 0
  }

  /** An evaluation that was granted some resubmissions never makes more. */
  lemma {:induction false} ResubmissionsAreGranted(u: Rules, before: seq<Action>, retries: nat, after: seq<Action>, e: nat)
    requires e !in Run(u, before).evals
    ensures var start := before + [Start(e, retries)];
            e in Run(u, start + after).evals
            && Resubmissions(u, start, after, e) + Run(u, start + after).evals[e].retries == retries
  {
    var start := before + [Start(e, retries)];
    RunSnoc(u, before, Start(e, retries));
    if after == [] {
      assert start + after == start;
    } else {
      var front, last := after[..|after|-1], after[|after|-1];
      assert start + after == start + front + [last];
      ResubmissionsAreGranted(u, before, retries, front, e);
      RunSnoc(u, start + front, last);
      RetriesAreSpent(u, Run(u, start + front), last, e);
    }
  }

  // ---------------------------------------------------------------------
  // Admitted jobs
  // ---------------------------------------------------------------------

  /** The job that an action makes the Judge hold for an evaluation, if any: one it
      names, or a nameless one numbered by the submission. */
  function Admission(u: Rules, s: State, a: Action, e: nat): set<Ticket> {
    if e !in s.evals || s.evals[e].pc != Submitting || !IsSubmit(a) || a.e != e then {}
    else match a
         case SubmitAccepted(_, r) =>
           if SubmissionId(u, r).Some? && !RetryableRejection(u, r) then {Known(SubmissionId(u, r).value)} else {}
         case SubmitTerminalError(_, r) =>
           if SubmissionId(u, r).Some? && Terminal(u, r) then {Known(SubmissionId(u, r).value)} else {}
         case SubmitAmbiguous(_, admitted) => if admitted then {Nameless(e, s.evals[e].submissions)} else {}
         case SubmitRaises(_, site, fault, admitted) =>
           if admitted && CanArise(site, fault) && FateOf(site, fault, true) != Ignored
           then {Nameless(e, s.evals[e].submissions)} else {}
         case _ => {}
  }

  /** All jobs the actions of a run made the Judge hold for an evaluation. */
  function Admissions(u: Rules, actions: seq<Action>, e: nat): set<Ticket> {
    if actions == [] then {}
    else Admissions(u, actions[..|actions|-1], e)
         + Admission(u, Run(u, actions[..|actions|-1]), actions[|actions|-1], e)
  }

  function TicketsOf(s: State, e: nat): set<Ticket> {
    if e in s.evals then s.evals[e].tickets else {}
  }

  lemma SubmitAdmits(u: Rules, s: State, a: Action, e: nat)
    requires IsSubmit(a) && a.e == e
    ensures TicketsOf(Submit(u, s, a), e) == TicketsOf(s, e) + Admission(u, s, a, e)
  {
    if a.SubmitRaises? { RaisesAdmits(u, s, a, e); }
    else if a.SubmitAccepted? || a.SubmitTerminalError? { NamedAdmits(u, s, a, e); }
    else { PlainAdmits(u, s, a, e); }
  }

  lemma RaisesAdmits(u: Rules, s: State, a: Action, e: nat)
    requires a.SubmitRaises? && a.e == e
    ensures TicketsOf(Submit(u, s, a), e) == TicketsOf(s, e) + Admission(u, s, a, e)
  {
  }

  lemma NamedAdmits(u: Rules, s: State, a: Action, e: nat)
    requires (a.SubmitAccepted? || a.SubmitTerminalError?) && a.e == e
    ensures TicketsOf(Submit(u, s, a), e) == TicketsOf(s, e) + Admission(u, s, a, e)
  {
  }

  lemma PlainAdmits(u: Rules, s: State, a: Action, e: nat)
    requires (a.SubmitUnsent? || a.SubmitRejected? || a.SubmitAmbiguous?) && a.e == e
    ensures TicketsOf(Submit(u, s, a), e) == TicketsOf(s, e) + Admission(u, s, a, e)
  {
  }

  lemma SettleAdmitsNone(u: Rules, s: State, e: nat, job: string, receipt: Envelope, resubmit: bool)
    requires e in s.evals
    ensures TicketsOf(Settle(u, s, e, job, receipt, resubmit), e) == TicketsOf(s, e)
  {
  }

  lemma EvalAdmitsNone(u: Rules, s: State, a: Action, e: nat)
    requires IsEval(a) && a.e == e && e in s.evals
    ensures TicketsOf(EvalStep(u, s, a), e) == TicketsOf(s, e)
  {
    var pc := s.evals[e].pc;
    if a.Finish? && pc.Holding? {
      SettleAdmitsNone(u, s, e, pc.job, pc.response, a.resubmit);
    } else if (a.Cancel? || a.ReconcilePoll?) && pc.Reconciling? {
      AnswerAdmitsNone(u, s, e, a.reply, a.Cancel?, a.resubmit);
    } else if a.Defer? && pc.Deferring? {
      DeferAdmitsNone(u, s, e, a.w, a.callback, a.paths);
    } else if a.Escape? {
      EscapeAdmitsNone(u, s, e, a.cause);
    } else {
      LocalAdmitsNone(u, s, a, e);
    }
  }

  lemma AnswerAdmitsNone(u: Rules, s: State, e: nat, reply: Option<Envelope>, delete: bool, resubmit: bool)
    requires e in s.evals && s.evals[e].pc.Reconciling?
    ensures TicketsOf(Reconcile(u, s, e, reply, delete, resubmit), e) == TicketsOf(s, e)
  {
    if reply.Some? { SettleAdmitsNone(u, s, e, s.evals[e].pc.job, reply.value, resubmit); }
  }

  lemma DeferAdmitsNone(u: Rules, s: State, e: nat, w: nat, callback: Option<nat>, paths: seq<string>)
    requires e in s.evals && s.evals[e].pc.Deferring?
    ensures TicketsOf(StartWatcher(u, s, e, w, callback, paths), e) == TicketsOf(s, e)
  {
  }

  lemma EscapeAdmitsNone(u: Rules, s: State, e: nat, cause: Cause)
    requires e in s.evals
    ensures TicketsOf(Leave(u, s, e, cause), e) == TicketsOf(s, e)
  {
  }

  lemma LocalAdmitsNone(u: Rules, s: State, a: Action, e: nat)
    requires IsEval(a) && a.e == e && e in s.evals
    requires a.Finish? ==> !s.evals[e].pc.Holding?
    requires a.Cancel? || a.ReconcilePoll? ==> !s.evals[e].pc.Reconciling?
    requires (a.Defer? ==> !s.evals[e].pc.Deferring?) && !a.Escape?
    ensures TicketsOf(EvalStep(u, s, a), e) == TicketsOf(s, e)
  {
  }

  lemma StepAdmits(u: Rules, s: State, a: Action, e: nat)
    ensures TicketsOf(Apply(u, s, a), e) == TicketsOf(s, e) + Admission(u, s, a, e)
  {
    if Foreign(a, e) {
      ForeignKeepsEval(u, s, a, e);
    } else if IsSubmit(a) {
      SubmitAdmits(u, s, a, e);
    } else if !a.Start? && e in s.evals {
      EvalAdmitsNone(u, s, a, e);
    }
  }

  /** The state remembers exactly the jobs admitted. */
  lemma {:induction false} TicketsAreAdmissions(u: Rules, actions: seq<Action>, e: nat)
    ensures TicketsOf(Run(u, actions), e) == Admissions(u, actions, e)
  {
    if actions != [] {
      TicketsAreAdmissions(u, actions[..|actions|-1], e);
      StepAdmits(u, Run(u, actions[..|actions|-1]), actions[|actions|-1], e);
    }
  }

  /** Once an evaluation has returned, every job that the actions of the run made
      the Judge hold for it is secured, unless it was lost. */
  lemma AdmittedJobsAreSecured(u: Rules, actions: seq<Action>, e: nat, t: Ticket)
    requires CleaningLaw(u) && t in Admissions(u, actions, e)
    ensures e in Run(u, actions).evals
    ensures t !in Run(u, actions).lost && Run(u, actions).evals[e].pc.Returned? ==> Secured(Run(u, actions), t)
  {
    TicketsAreAdmissions(u, actions, e);
    EveryJobAccountedFor(u, actions, e, t);
  }

  // ---------------------------------------------------------------------
  // Failed callbacks
  // ---------------------------------------------------------------------

  /** The action is the failing call of a callback by this watcher. */
  predicate FailsCallback(s: State, a: Action, w: nat) {
    a == RunCallback(w, true) && w in s.watchers && s.watchers[w].pc.RunningBatch? && s.watchers[w].pc.batch != []
  }

  predicate CallbackHasFailed(u: Rules, actions: seq<Action>, w: nat) {
    actions != [] && (CallbackHasFailed(u, actions[..|actions|-1], w)
                      || FailsCallback(Run(u, actions[..|actions|-1]), actions[|actions|-1], w))
  }

  /** The watcher keeps its job; it has failed if it had or does now; and it is
      past its drain only with the failure counted. */
  ghost predicate FailureMoves(s: State, s': State, w: nat, fails: bool) {
    && (w in s'.watchers && w !in s.watchers ==> !s'.watchers[w].failed && s'.watchers[w].pc == Unstarted)
    && (w in s.watchers ==>
          && w in s'.watchers && s'.watchers[w].job == s.watchers[w].job
          && s'.watchers[w].failed == (s.watchers[w].failed || fails)
          && (PastDrain(s'.watchers[w].pc) && !PastDrain(s.watchers[w].pc) && s'.watchers[w].failed ==>
                CallbackFailed(s.watchers[w].job) in s'.ledger))
  }

  predicate PastDrain(pc: WatchPc) {
    pc == Clearing || pc == SettledGone
  }

  lemma WatchMovesFailure(u: Rules, s: State, a: Action, w: nat)
    requires IsWatch(a)
    ensures FailureMoves(s, WatchStep(u, s, a), w, FailsCallback(s, a, w))
  {
    match a
    case WatchPoll(v, path, reply, advertised) =>
      if v in s.watchers && s.watchers[v].pc == Polling && reply.Some? { PollMovesFailure(u, s, v, path, reply.value, advertised, w); }
    case RunCallback(v, fails) => CallMovesFailure(s, v, fails, w);
    case AfterDrain(v) => DrainMovesFailure(s, v, w);
    case _ => OtherMovesFailure(u, s, a, w);
  }

  lemma PollMovesFailure(u: Rules, s: State, v: nat, path: string, reply: Envelope, advertised: seq<string>, w: nat)
    requires v in s.watchers && s.watchers[v].pc == Polling
    ensures FailureMoves(s, Observe(u, s, v, path, reply, advertised), w, false)
  {
  }

  lemma CallMovesFailure(s: State, v: nat, fails: bool, w: nat)
    ensures FailureMoves(s, CallOne(s, v, fails), w, FailsCallback(s, RunCallback(v, fails), w))
  {
  }

  lemma DrainMovesFailure(s: State, v: nat, w: nat)
    ensures FailureMoves(s, CountFailure(s, v), w, false)
  {
  }

  lemma OtherMovesFailure(u: Rules, s: State, a: Action, w: nat)
    requires IsWatch(a) && !a.WatchPoll? && !a.RunCallback? && !a.AfterDrain?
    ensures FailureMoves(s, WatchStep(u, s, a), w, false)
  {
    if a.DrainLook? || a.Clear? { EndMovesFailure(u, s, a, w); } else { TimeMovesFailure(u, s, a, w); }
  }

  lemma EndMovesFailure(u: Rules, s: State, a: Action, w: nat)
    requires a.DrainLook? || a.Clear?
    ensures FailureMoves(s, WatchStep(u, s, a), w, false)
  {
  }

  lemma TimeMovesFailure(u: Rules, s: State, a: Action, w: nat)
    requires a.WatchDie? || a.WatchExpire? || a.WatchMark? || a.WatchPop?
    ensures FailureMoves(s, WatchStep(u, s, a), w, false)
  {
  }

  lemma EvalMovesFailure(u: Rules, s: State, a: Action, w: nat)
    requires IsEval(a)
    ensures FailureMoves(s, EvalStep(u, s, a), w, false)
  {
    if a.Finish? || a.Cancel? || a.ReconcilePoll? {
      SettlingTouchesNoWatcher(u, s, a);
    } else if a.Defer? {
      DeferMovesFailure(u, s, a, w);
    } else if a.Escape? {
      if a.e in s.evals { EscapeMovesFailure(u, s, a.e, a.cause, w); }
    } else {
      LocalMovesFailure(u, s, a, w);
    }
  }

  lemma DeferMovesFailure(u: Rules, s: State, a: Action, w: nat)
    requires a.Defer?
    ensures FailureMoves(s, EvalStep(u, s, a), w, false)
  {
  }

  lemma EscapeMovesFailure(u: Rules, s: State, e: nat, cause: Cause, w: nat)
    requires e in s.evals
    ensures FailureMoves(s, Leave(u, s, e, cause), w, false)
  {
  }

  lemma LocalMovesFailure(u: Rules, s: State, a: Action, w: nat)
    requires IsEval(a) && !a.Finish? && !a.Cancel? && !a.ReconcilePoll? && !a.Defer? && !a.Escape?
    ensures FailureMoves(s, EvalStep(u, s, a), w, false)
  {
  }

  lemma SubmitTouchesNoWatcher(u: Rules, s: State, a: Action)
    requires IsSubmit(a)
    ensures Submit(u, s, a).watchers == s.watchers
  {
    SubmitHasShape(u, s, a);
  }

  lemma StepMovesFailure(u: Rules, s: State, a: Action, w: nat)
    ensures FailureMoves(s, Apply(u, s, a), w, FailsCallback(s, a, w))
  {
    if IsWatch(a) {
      WatchMovesFailure(u, s, a, w);
    } else if IsSubmit(a) {
      SubmitTouchesNoWatcher(u, s, a);
    } else if !a.Start? {
      EvalMovesFailure(u, s, a, w);
    }
  }

  /** A watcher has failed exactly when one of the callbacks it called did, and then
      it is past its drain only with the failure counted. */
  lemma {:induction false} FailedCallbacksAreCounted(u: Rules, actions: seq<Action>, w: nat)
    requires CleaningLaw(u) && w in Run(u, actions).watchers
    ensures var s := Run(u, actions);
            && (s.watchers[w].failed <==> CallbackHasFailed(u, actions, w))
            && (s.watchers[w].failed && PastDrain(s.watchers[w].pc) ==> CallbackFailed(s.watchers[w].job) in s.ledger)
  {
    var front, last := actions[..|actions|-1], actions[|actions|-1];
    assert actions == front + [last];
    StepMovesFailure(u, Run(u, front), last, w);
    RunGrows(u, front, [last]);
    if w in Run(u, front).watchers {
      FailedCallbacksAreCounted(u, front, w);
    } else {
      NoWatcherNoFailure(u, front, w);
    }
  }

  lemma {:induction false} NoWatcherNoFailure(u: Rules, actions: seq<Action>, w: nat)
    requires w !in Run(u, actions).watchers
    ensures !CallbackHasFailed(u, actions, w)
  {
    if actions != [] {
      StepMovesFailure(u, Run(u, actions[..|actions|-1]), actions[|actions|-1], w);
      NoWatcherNoFailure(u, actions[..|actions|-1], w);
    }
  }

  // ---------------------------------------------------------------------
  // Capabilities
  // ---------------------------------------------------------------------

  /** Advertised capabilities join a watcher's list once each and in order, and all
      of them as long as the list stays below its bound. */
  lemma {:induction false} CapabilitiesJoin(paths: seq<string>, advertised: seq<string>)
    ensures var all := AddPaths(paths, advertised);
            && (forall p :: p in all ==> p in paths || p in advertised)
            && (|all| < MAX_POLL_PATHS ==> forall p :: p in advertised ==> p in all)
            && ((forall i, j :: 0 <= i < j < |paths| ==> paths[i] != paths[j]) ==>
                  forall i, j :: 0 <= i < j < |all| ==> all[i] != all[j])
    decreases |advertised|
  {
    if advertised != [] {
      assert advertised == [advertised[0]] + advertised[1..];
      if advertised[0] in paths {
        CapabilitiesJoin(paths, advertised[1..]);
      } else if |paths| < MAX_POLL_PATHS {
        CapabilitiesJoin(paths + [advertised[0]], advertised[1..]);
        assert advertised[0] in paths + [advertised[0]];
      }
    }
  }
}
