/** Why an abandoned job is handed to a watcher or counted: told by the actions
    of the run since its evaluation began to reconcile it. */
module SettlementReasons {
  import opened Options
  import opened Receipts
  import opened RequestFaults
  import opened Settlement
  import opened SettlementTheorems

  // ---------------------------------------------------------------------
  // What the actions of a reconciliation amount to
  // ---------------------------------------------------------------------

  /** The evaluation has sent its DELETE, or decided that it cannot. */
  predicate Asked(seg: seq<Action>, e: nat) {
    seg != [] && (Asked(seg[..|seg|-1], e) || Asks(seg[|seg|-1], e))
  }

  predicate Asks(a: Action, e: nat) {
    (a.Cancel? || a.SkipCancel?) && a.e == e
  }

  /** Its DELETE was sent. */
  predicate Deleted(seg: seq<Action>, e: nat) {
    seg != [] && (Deleted(seg[..|seg|-1], e) || Deletes(seg[|seg|-1], e, Asked(seg[..|seg|-1], e)))
  }

  predicate Deletes(a: Action, e: nat, asked: bool) {
    a.Cancel? && a.e == e && !asked
  }

  /** The receipt an action shows it: the answer to its DELETE or to a later poll. */
  function Shown(a: Action, e: nat, asked: bool): Option<Envelope> {
    if Deletes(a, e, asked) then a.reply
    else if a.ReconcilePoll? && a.e == e && asked then a.reply
    else None
  }

  /** A receipt of the job that is not terminal. */
  predicate Current(u: Rules, r: Envelope, job: string) {
    JobBound(u, r, Text(job)) && !Terminal(u, r)
  }

  /** The receipt says so itself, or that the cancellation is on its way. */
  predicate MayBeRetried(u: Rules, r: Envelope) {
    || NestedValue(r, RetryableKey) == Bool(true)
    || u.note(NestedValue(r, DispositionKey)) == CancelRequestedNote
    || u.note(NestedValue(r, DispositionKey)) == CancelUnconfirmedNote
  }

  /** A receipt said that the cancellation may be retried: the one it began with,
      the answer to the DELETE, or a current one polled later. */
  predicate SawRetryable(u: Rules, seg: seq<Action>, e: nat, job: string, first: Envelope) {
    if seg == [] then MayBeRetried(u, first)
    else SawRetryable(u, seg[..|seg|-1], e, job, first)
         || ShowsRetryable(u, seg[|seg|-1], e, job, Asked(seg[..|seg|-1], e))
  }

  predicate ShowsRetryable(u: Rules, a: Action, e: nat, job: string, asked: bool) {
    var r := Shown(a, e, asked);
    r.Some? && MayBeRetried(u, r.value) && (a.Cancel? || Current(u, r.value, job))
  }

  /** The last current receipt it has seen. */
  function LastCurrent(u: Rules, seg: seq<Action>, e: nat, job: string, first: Envelope): Envelope {
    if seg == [] then first
    else
      var r := Shown(seg[|seg|-1], e, Asked(seg[..|seg|-1], e));
      if r.Some? && Current(u, r.value, job) then r.value
      else LastCurrent(u, seg[..|seg|-1], e, job, first)
  }

  // ---------------------------------------------------------------------
  // A reconciliation
  // ---------------------------------------------------------------------

  ghost predicate StillReconciling(u: Rules, actions: seq<Action>, e: nat) {
    e in Run(u, actions).evals && Run(u, actions).evals[e].pc.Reconciling?
  }

  /** From `start` on, throughout `seg`, the evaluation reconciles the job it held. */
  ghost predicate Reconciles(u: Rules, before: seq<Action>, start: Action, seg: seq<Action>, e: nat, job: string,
                             first: Envelope) {
    && e in Run(u, before).evals && Run(u, before).evals[e].pc == Holding(job, first)
    && (start == Abandon(e) || start == Overrun(e))
    && forall k :: 0 <= k <= |seg| ==> StillReconciling(u, before + [start] + seg[..k], e)
  }

  /** The action belongs to another evaluation or to a watcher. */
  predicate Foreign(a: Action, e: nat) {
    IsWatch(a) || a.e != e
  }

  /** The step touches no evaluation but `e`. */
  predicate OnlyEval(s: State, s': State, e: nat) {
    && (forall x :: x in s.evals && x != e ==> x in s'.evals && s'.evals[x] == s.evals[x])
    && (forall x :: x in s'.evals && x != e ==> x in s.evals)
  }

  /** What a submission leaves as it was: everybody else, the watchers, the counter
      and the retries; and it ends outside any job that is being abandoned. */
  ghost predicate SubmitShape(s: State, s': State, e: nat) {
    || s' == s
    || (&& e in s.evals && s.evals[e].pc == Submitting && e in s'.evals
        && s'.evals == s.evals[e := s'.evals[e]] && s'.watchers == s.watchers && s'.ledger == s.ledger
        && s'.evals[e].retries == s.evals[e].retries && Unconcerned(s'.evals[e].pc))
  }

  lemma NamedShape(u: Rules, s: State, a: Action)
    requires a.SubmitAccepted? || a.SubmitTerminalError?
    ensures SubmitShape(s, Submit(u, s, a), a.e)
  {
  }

  lemma PlainShape(u: Rules, s: State, a: Action)
    requires a.SubmitUnsent? || a.SubmitRejected? || a.SubmitAmbiguous?
    ensures SubmitShape(s, Submit(u, s, a), a.e)
  {
  }

  lemma RaisesShape(u: Rules, s: State, a: Action)
    requires a.SubmitRaises?
    ensures SubmitShape(s, Submit(u, s, a), a.e)
  {
  }

  lemma SubmitHasShape(u: Rules, s: State, a: Action)
    requires IsSubmit(a)
    ensures SubmitShape(s, Submit(u, s, a), a.e)
  {
    if a.SubmitRaises? { RaisesShape(u, s, a); }
    else if a.SubmitAccepted? || a.SubmitTerminalError? { NamedShape(u, s, a); }
    else { PlainShape(u, s, a); }
  }

  lemma SubmitIsOwn(u: Rules, s: State, a: Action)
    requires IsSubmit(a)
    ensures OnlyEval(s, Submit(u, s, a), a.e)
  {
    SubmitHasShape(u, s, a);
  }

  lemma SettleIsOwn(u: Rules, s: State, e: nat, job: string, receipt: Envelope, resubmit: bool)
    requires e in s.evals
    ensures OnlyEval(s, Settle(u, s, e, job, receipt, resubmit), e)
  {
  }

  lemma ReconcileIsOwn(u: Rules, s: State, e: nat, reply: Option<Envelope>, delete: bool, resubmit: bool)
    requires e in s.evals && s.evals[e].pc.Reconciling?
    ensures OnlyEval(s, Reconcile(u, s, e, reply, delete, resubmit), e)
  {
    if reply.Some? { SettleIsOwn(u, s, e, s.evals[e].pc.job, reply.value, resubmit); }
  }

  lemma DeferIsOwn(u: Rules, s: State, e: nat, w: nat, callback: Option<nat>, paths: seq<string>)
    requires e in s.evals && s.evals[e].pc.Deferring?
    ensures OnlyEval(s, StartWatcher(u, s, e, w, callback, paths), e)
  {
  }

  lemma LeaveIsOwn(u: Rules, s: State, e: nat, cause: Cause)
    requires e in s.evals
    ensures OnlyEval(s, Leave(u, s, e, cause), e)
  {
  }

  lemma LocalIsOwn(u: Rules, s: State, a: Action)
    requires IsEval(a) && !a.Finish? && !a.Cancel? && !a.ReconcilePoll? && !a.Defer? && !a.Escape?
    ensures OnlyEval(s, EvalStep(u, s, a), a.e)
  {
  }

  lemma EvalIsOwn(u: Rules, s: State, a: Action)
    requires IsEval(a)
    ensures OnlyEval(s, EvalStep(u, s, a), a.e)
  {
    if a.e in s.evals {
      var pc := s.evals[a.e].pc;
      match a
      case Finish(e, resubmit) => if pc.Holding? { SettleIsOwn(u, s, e, pc.job, pc.response, resubmit); }
      case Cancel(e, reply, resubmit) => if pc.Reconciling? { ReconcileIsOwn(u, s, e, reply, true, resubmit); }
      case ReconcilePoll(e, reply, resubmit) => if pc.Reconciling? { ReconcileIsOwn(u, s, e, reply, false, resubmit); }
      case Defer(e, w, callback, paths) => if pc.Deferring? { DeferIsOwn(u, s, e, w, callback, paths); }
      case Escape(e, cause) => LeaveIsOwn(u, s, e, cause);
      case _ => LocalIsOwn(u, s, a);
    }
  }

  lemma ForeignKeepsEval(u: Rules, s: State, a: Action, e: nat)
    requires Foreign(a, e)
    ensures e in Apply(u, s, a).evals <==> e in s.evals
    ensures e in s.evals ==> Apply(u, s, a).evals[e] == s.evals[e]
  {
    if IsWatch(a) {
      WatchersLeaveEvaluations(u, s, a);
    } else if IsSubmit(a) {
      SubmitIsOwn(u, s, a);
    } else if !a.Start? {
      EvalIsOwn(u, s, a);
    }
  }

  /** One step through which the evaluation goes on reconciling. */
  ghost predicate GoesOn(u: Rules, a: Action, e: nat, pc: EvalPc, pc': EvalPc)
    requires pc.Reconciling? && pc'.Reconciling?
  {
    && pc'.job == pc.job
    && pc'.polling == (pc.polling || Asks(a, e))
    && pc'.attempted == (pc.attempted || Deletes(a, e, pc.polling))
    && pc'.retryable == (pc.retryable || ShowsRetryable(u, a, e, pc.job, pc.polling))
    && pc'.last == (var r := Shown(a, e, pc.polling);
                    if r.Some? && Current(u, r.value, pc.job) then r.value else pc.last)
  }

  lemma AnswerGoesOn(u: Rules, s: State, e: nat, reply: Option<Envelope>, delete: bool, resubmit: bool)
    requires e in s.evals && s.evals[e].pc.Reconciling?
    requires e in Reconcile(u, s, e, reply, delete, resubmit).evals
    requires Reconcile(u, s, e, reply, delete, resubmit).evals[e].pc.Reconciling?
    ensures var pc, pc' := s.evals[e].pc, Reconcile(u, s, e, reply, delete, resubmit).evals[e].pc;
            && pc'.job == pc.job && pc'.polling && pc'.attempted == (pc.attempted || delete)
            && pc'.retryable == (pc.retryable || (reply.Some? && Retryable(u, reply.value)
                                                  && (delete || Current(u, reply.value, pc.job))))
            && pc'.last == if reply.Some? && Current(u, reply.value, pc.job) then reply.value else pc.last
  {
    if reply.Some? && Authoritative(u, reply.value, Text(s.evals[e].pc.job)) {
      SettlingLeaves(u, s, e, s.evals[e].pc.job, reply.value, resubmit);
    }
  }

  lemma ReconcileGoesOn(u: Rules, s: State, a: Action, e: nat)
    requires (a.Cancel? || a.ReconcilePoll?) && a.e == e && e in s.evals && s.evals[e].pc.Reconciling?
    requires e in EvalStep(u, s, a).evals && EvalStep(u, s, a).evals[e].pc.Reconciling?
    ensures GoesOn(u, a, e, s.evals[e].pc, EvalStep(u, s, a).evals[e].pc)
  {
    if a.Cancel? && !s.evals[e].pc.polling {
      AnswerGoesOn(u, s, e, a.reply, true, a.resubmit);
    } else if a.ReconcilePoll? && s.evals[e].pc.polling {
      AnswerGoesOn(u, s, e, a.reply, false, a.resubmit);
    }
  }

  lemma SettlingLeaves(u: Rules, s: State, e: nat, job: string, receipt: Envelope, resubmit: bool)
    requires e in s.evals
    ensures var s' := Settle(u, s, e, job, receipt, resubmit);
            e in s'.evals && (s'.evals[e].pc == Gate || s'.evals[e].pc == Returned(SettledBy(job)))
  {
  }

  lemma EscapeGoesOn(u: Rules, s: State, e: nat, cause: Cause)
    requires e in s.evals && s.evals[e].pc.Reconciling?
    requires e in Leave(u, s, e, cause).evals && Leave(u, s, e, cause).evals[e].pc.Reconciling?
    ensures GoesOn(u, Escape(e, cause), e, s.evals[e].pc, Leave(u, s, e, cause).evals[e].pc)
  {
  }

  lemma OwnStepGoesOn(u: Rules, s: State, a: Action, e: nat)
    requires IsEval(a) && a.e == e && e in s.evals && s.evals[e].pc.Reconciling?
    requires e in EvalStep(u, s, a).evals && EvalStep(u, s, a).evals[e].pc.Reconciling?
    ensures GoesOn(u, a, e, s.evals[e].pc, EvalStep(u, s, a).evals[e].pc)
  {
    if a.Cancel? || a.ReconcilePoll? {
      ReconcileGoesOn(u, s, a, e);
    } else if a.Escape? {
      EscapeGoesOn(u, s, e, a.cause);
    } else {
      LocalGoesOn(u, s, a, e);
    }
  }

  lemma LocalGoesOn(u: Rules, s: State, a: Action, e: nat)
    requires IsEval(a) && a.e == e && e in s.evals && s.evals[e].pc.Reconciling?
    requires !a.Cancel? && !a.ReconcilePoll? && !a.Escape?
    requires e in EvalStep(u, s, a).evals && EvalStep(u, s, a).evals[e].pc.Reconciling?
    ensures GoesOn(u, a, e, s.evals[e].pc, EvalStep(u, s, a).evals[e].pc)
  {
    if a.SkipCancel? || a.GiveUp? {
      WaitGoesOn(u, s, a, e);
    } else {
      IdleGoesOn(u, s, a, e);
    }
  }

  lemma WaitGoesOn(u: Rules, s: State, a: Action, e: nat)
    requires (a.SkipCancel? || a.GiveUp?) && a.e == e && e in s.evals && s.evals[e].pc.Reconciling?
    requires e in EvalStep(u, s, a).evals && EvalStep(u, s, a).evals[e].pc.Reconciling?
    ensures GoesOn(u, a, e, s.evals[e].pc, EvalStep(u, s, a).evals[e].pc)
  {
  }

  lemma IdleGoesOn(u: Rules, s: State, a: Action, e: nat)
    requires IsEval(a) && a.e == e && e in s.evals && s.evals[e].pc.Reconciling?
    requires !a.Cancel? && !a.ReconcilePoll? && !a.Escape? && !a.SkipCancel? && !a.GiveUp?
    ensures EvalStep(u, s, a) == s && GoesOn(u, a, e, s.evals[e].pc, s.evals[e].pc)
  {
  }

  lemma UnmovedGoesOn(u: Rules, a: Action, e: nat, pc: EvalPc)
    requires Foreign(a, e) && pc.Reconciling?
    ensures GoesOn(u, a, e, pc, pc)
  {
  }

  lemma StepGoesOn(u: Rules, s: State, a: Action, e: nat)
    requires e in s.evals && s.evals[e].pc.Reconciling?
    requires e in Apply(u, s, a).evals && Apply(u, s, a).evals[e].pc.Reconciling?
    ensures GoesOn(u, a, e, s.evals[e].pc, Apply(u, s, a).evals[e].pc)
  {
    if Foreign(a, e) {
      ForeignKeepsEval(u, s, a, e);
      UnmovedGoesOn(u, a, e, s.evals[e].pc);
    } else if IsEval(a) {
      OwnStepGoesOn(u, s, a, e);
    } else {
      OtherStepGoesOn(u, s, a, e);
    }
  }

  lemma OtherStepGoesOn(u: Rules, s: State, a: Action, e: nat)
    requires (a.Start? || IsSubmit(a)) && e in s.evals && s.evals[e].pc.Reconciling?
    ensures Apply(u, s, a) == s || a.e != e
    ensures GoesOn(u, a, e, s.evals[e].pc, s.evals[e].pc)
  {
  }

  lemma BeginsReconciling(u: Rules, s: State, start: Action, e: nat)
    requires e in s.evals && s.evals[e].pc.Holding? && (start == Abandon(e) || start == Overrun(e))
    requires e in Apply(u, s, start).evals && Apply(u, s, start).evals[e].pc.Reconciling?
    ensures var pc, pc' := s.evals[e].pc, Apply(u, s, start).evals[e].pc;
            pc' == Reconciling(pc.job, pc.response, false, Retryable(u, pc.response), false)
  {
  }

  /** What an evaluation knows while it reconciles is what the actions since it
      began amount to. */
  lemma {:induction false} KnowsWhatHappened(u: Rules, before: seq<Action>, start: Action, seg: seq<Action>, e: nat,
                                             job: string, first: Envelope)
    requires Reconciles(u, before, start, seg, e, job, first)
    ensures e in Run(u, before + [start] + seg).evals
    ensures Run(u, before + [start] + seg).evals[e].pc
         == Reconciling(job, LastCurrent(u, seg, e, job, first), Deleted(seg, e),
                        SawRetryable(u, seg, e, job, first), Asked(seg, e))
  {
    assert seg[..|seg|] == seg;
    assert StillReconciling(u, before + [start] + seg[..|seg|], e);
    if seg == [] {
      assert before + [start] + seg == before + [start];
      RunSnoc(u, before, start);
      BeginsReconciling(u, Run(u, before), start, e);
    } else {
      var front, last := seg[..|seg|-1], seg[|seg|-1];
      ReconcilesFront(u, before, start, seg, e, job, first);
      KnowsWhatHappened(u, before, start, front, e, job, first);
      assert before + [start] + seg == before + [start] + front + [last];
      RunSnoc(u, before + [start] + front, last);
      KnowsNext(u, Run(u, before + [start] + front), last, seg, e, job, first);
    }
  }

  /** What it knows, carried through one more action. */
  lemma KnowsNext(u: Rules, s: State, a: Action, seg: seq<Action>, e: nat, job: string, first: Envelope)
    requires seg != [] && a == seg[|seg|-1] && e in s.evals
    requires var front := seg[..|seg|-1];
             s.evals[e].pc == Reconciling(job, LastCurrent(u, front, e, job, first), Deleted(front, e),
                                          SawRetryable(u, front, e, job, first), Asked(front, e))
    requires e in Apply(u, s, a).evals && Apply(u, s, a).evals[e].pc.Reconciling?
    ensures Apply(u, s, a).evals[e].pc
         == Reconciling(job, LastCurrent(u, seg, e, job, first), Deleted(seg, e),
                        SawRetryable(u, seg, e, job, first), Asked(seg, e))
  {
    StepGoesOn(u, s, a, e);
  }

  lemma ReconcilesFront(u: Rules, before: seq<Action>, start: Action, seg: seq<Action>, e: nat, job: string, first: Envelope)
    requires Reconciles(u, before, start, seg, e, job, first) && seg != []
    ensures Reconciles(u, before, start, seg[..|seg|-1], e, job, first)
  {
    var front := seg[..|seg|-1];
    forall k | 0 <= k <= |front| ensures StillReconciling(u, before + [start] + front[..k], e) {
      assert front[..k] == seg[..k];
    }
  }

  lemma ReconcilesNext(u: Rules, before: seq<Action>, start: Action, seg: seq<Action>, e: nat, job: string,
                       first: Envelope, a: Action)
    requires Reconciles(u, before, start, seg, e, job, first)
    requires StillReconciling(u, before + [start] + (seg + [a]), e)
    ensures Reconciles(u, before, start, seg + [a], e, job, first)
  {
    var longer := seg + [a];
    forall k | 0 <= k <= |longer| ensures StillReconciling(u, before + [start] + longer[..k], e) {
      if k <= |seg| { assert longer[..k] == seg[..k]; } else { assert longer[..k] == longer; }
    }
  }

  // ---------------------------------------------------------------------
  // Giving up
  // ---------------------------------------------------------------------

  /** The job may be left to a watcher: its DELETE was sent, and the cancellation
      is the runner's own or may be retried. */
  predicate MayDefer(u: Rules, seg: seq<Action>, e: nat, job: string, first: Envelope, owned: bool) {
    Deleted(seg, e) && (owned || SawRetryable(u, seg, e, job, first))
  }

  lemma GivesUp(u: Rules, s: State, e: nat, owned: bool)
    requires e in s.evals && s.evals[e].pc.Reconciling? && s.evals[e].pc.polling
    ensures var pc, s' := s.evals[e].pc, Apply(u, s, GiveUp(e, owned));
            && e in s'.evals && s'.ledger == s.ledger
            && s'.evals[e].pc == if pc.attempted && (owned || pc.retryable) then Deferring(pc.job, pc.last)
                                 else Unconfirmed(pc.job)
  {
  }

  /** Giving up hands a job on exactly when it may be left to a watcher, and marks
      it for counting otherwise; the counter itself is left alone. */
  lemma GiveUpDecides(u: Rules, before: seq<Action>, start: Action, seg: seq<Action>, e: nat, job: string,
                      first: Envelope, owned: bool)
    requires Reconciles(u, before, start, seg, e, job, first) && Asked(seg, e)
    ensures var s, s' := Run(u, before + [start] + seg), Run(u, before + [start] + seg + [GiveUp(e, owned)]);
            && e in s'.evals && s'.ledger == s.ledger
            && s'.evals[e].pc == if MayDefer(u, seg, e, job, first, owned)
                                 then Deferring(job, LastCurrent(u, seg, e, job, first)) else Unconfirmed(job)
  {
    KnowsWhatHappened(u, before, start, seg, e, job, first);
    RunSnoc(u, before + [start] + seg, GiveUp(e, owned));
    GivesUp(u, Run(u, before + [start] + seg), e, owned);
  }

  // ---------------------------------------------------------------------
  // Over whole runs
  // ---------------------------------------------------------------------

  /** A reconciliation that was given up, and what happened after. */
  datatype Episode = Episode(before: seq<Action>, start: Action, seg: seq<Action>, first: Envelope, owned: bool,
                             after: seq<Action>)

  ghost predicate GaveUp(u: Rules, actions: seq<Action>, e: nat, job: string, ep: Episode) {
    && actions == ep.before + [ep.start] + ep.seg + [GiveUp(e, ep.owned)] + ep.after
    && Reconciles(u, ep.before, ep.start, ep.seg, e, job, ep.first) && Asked(ep.seg, e)
  }

  /** The job was rightly left to a watcher. */
  ghost predicate LeftToWatcher(u: Rules, actions: seq<Action>, e: nat, job: string, ep: Episode) {
    GaveUp(u, actions, e, job, ep) && MayDefer(u, ep.seg, e, job, ep.first, ep.owned)
  }

  /** The hand-over was tried without a receipt of the job or without a path. */
  predicate HandOverFails(u: Rules, a: Action, e: nat, job: string, last: Envelope) {
    a.Defer? && a.e == e && (IdentityOf(u, last, Text(job)) != Matching || a.paths == [])
  }

  /** The job was rightly counted. */
  ghost predicate RightlyCounted(u: Rules, actions: seq<Action>, e: nat, job: string, ep: Episode) {
    && GaveUp(u, actions, e, job, ep)
    && (|| !MayDefer(u, ep.seg, e, job, ep.first, ep.owned)
        || exists a :: a in ep.after && HandOverFails(u, a, e, job, LastCurrent(u, ep.seg, e, job, ep.first)))
  }

  function Later(ep: Episode, a: Action): Episode {
    ep.(after := ep.after + [a])
  }

  lemma GaveUpLater(u: Rules, actions: seq<Action>, e: nat, job: string, ep: Episode, a: Action)
    requires GaveUp(u, actions, e, job, ep)
    ensures GaveUp(u, actions + [a], e, job, Later(ep, a))
  {
  }

  lemma CountedLater(u: Rules, actions: seq<Action>, e: nat, job: string, ep: Episode, a: Action)
    requires RightlyCounted(u, actions, e, job, ep)
    ensures RightlyCounted(u, actions + [a], e, job, Later(ep, a))
  {
    GaveUpLater(u, actions, e, job, ep, a);
    assert forall x :: x in ep.after ==> x in Later(ep, a).after;
  }

  ghost predicate IsReconciling(u: Rules, actions: seq<Action>, e: nat, job: string) {
    exists before, start, seg, first ::
      actions == before + [start] + seg && Reconciles(u, before, start, seg, e, job, first)
  }

  ghost predicate IsLeft(u: Rules, actions: seq<Action>, e: nat, job: string) {
    exists ep :: LeftToWatcher(u, actions, e, job, ep)
  }

  ghost predicate IsLeftWith(u: Rules, actions: seq<Action>, e: nat, job: string, last: Envelope) {
    exists ep :: LeftToWatcher(u, actions, e, job, ep) && last == LastCurrent(u, ep.seg, e, job, ep.first)
  }

  ghost predicate IsCounted(u: Rules, actions: seq<Action>, e: nat, job: string) {
    exists ep :: RightlyCounted(u, actions, e, job, ep)
  }

  /** Every phase of an evaluation that concerns an abandoned job has its reason. */
  ghost predicate HasReason(u: Rules, actions: seq<Action>, e: nat, pc: EvalPc) {
    match pc
    case Reconciling(job, _, _, _, _) => IsReconciling(u, actions, e, job)
    case Deferring(job, last) => IsLeftWith(u, actions, e, job, last)
    case Launching(job, _) => IsLeft(u, actions, e, job)
    case Returned(verdict) => verdict.DeferredTo? ==> IsLeft(u, actions, e, verdict.job)
    case Unconfirmed(job) => IsCounted(u, actions, e, job)
    case _ => true
  }

  /** Where an evaluation that concerns an abandoned job comes from. */
  ghost predicate ComesFrom(u: Rules, a: Action, e: nat, pc: EvalPc, pc': EvalPc) {
    match pc'
    case Reconciling(job, _, _, _, _) =>
      || (pc.Reconciling? && pc.job == job)
      || (pc.Holding? && pc.job == job && (a == Abandon(e) || a == Overrun(e)))
    case Deferring(_, _) => pc' == pc || (pc.Reconciling? && pc.polling && a.GiveUp? && a.e == e)
    case Launching(job, _) => pc' == pc || (pc.Deferring? && pc.job == job)
    case Returned(verdict) =>
      verdict.DeferredTo? ==> pc' == pc || (pc.Deferring? && pc.job == verdict.job) || (pc.Launching? && pc.job == verdict.job)
    case Unconfirmed(job) =>
      || pc' == pc
      || (pc.Reconciling? && pc.polling && a.GiveUp? && a.e == e)
      || (pc.Deferring? && pc.job == job && HandOverFails(u, a, e, job, pc.last))
    case _ => true
  }

  /** A phase that no abandoned job is behind. */
  predicate Unconcerned(pc: EvalPc) {
    pc.Gate? || pc.Submitting? || pc.Ambiguous? || pc.Holding? || (pc.Returned? && !pc.verdict.DeferredTo?)
  }

  lemma UnconcernedComesFrom(u: Rules, a: Action, e: nat, pc: EvalPc, pc': EvalPc)
    requires pc' == pc || Unconcerned(pc')
    ensures ComesFrom(u, a, e, pc, pc')
  {
  }

  lemma SubmitLeavesUnconcerned(u: Rules, s: State, a: Action, e: nat)
    requires IsSubmit(a) && a.e == e && e in s.evals
    ensures var s' := Submit(u, s, a);
            e in s'.evals && (s'.evals[e].pc == s.evals[e].pc || Unconcerned(s'.evals[e].pc))
  {
    SubmitHasShape(u, s, a);
  }

  lemma OwnSubmitComesFrom(u: Rules, s: State, a: Action, e: nat)
    requires IsSubmit(a) && a.e == e && e in s.evals
    ensures e in Submit(u, s, a).evals && ComesFrom(u, a, e, s.evals[e].pc, Submit(u, s, a).evals[e].pc)
  {
    SubmitLeavesUnconcerned(u, s, a, e);
    UnconcernedComesFrom(u, a, e, s.evals[e].pc, Submit(u, s, a).evals[e].pc);
  }

  lemma FinishComesFrom(u: Rules, s: State, e: nat, resubmit: bool)
    requires e in s.evals
    ensures var s' := EvalStep(u, s, Finish(e, resubmit));
            e in s'.evals && ComesFrom(u, Finish(e, resubmit), e, s.evals[e].pc, s'.evals[e].pc)
  {
    if s.evals[e].pc.Holding? {
      SettlingLeaves(u, s, e, s.evals[e].pc.job, s.evals[e].pc.response, resubmit);
    }
    UnconcernedComesFrom(u, Finish(e, resubmit), e, s.evals[e].pc, EvalStep(u, s, Finish(e, resubmit)).evals[e].pc);
  }

  /** Answers keep an evaluation reconciling the same job, or settle it. */
  lemma AnswerLands(u: Rules, s: State, e: nat, reply: Option<Envelope>, delete: bool, resubmit: bool)
    requires e in s.evals && s.evals[e].pc.Reconciling?
    ensures var s' := Reconcile(u, s, e, reply, delete, resubmit);
            && e in s'.evals
            && (Unconcerned(s'.evals[e].pc) || (s'.evals[e].pc.Reconciling? && s'.evals[e].pc.job == s.evals[e].pc.job))
  {
    if reply.Some? { SettlingLeaves(u, s, e, s.evals[e].pc.job, reply.value, resubmit); }
  }

  lemma ReconcileComesFrom(u: Rules, s: State, a: Action, e: nat)
    requires (a.Cancel? || a.ReconcilePoll?) && a.e == e && e in s.evals
    ensures e in EvalStep(u, s, a).evals && ComesFrom(u, a, e, s.evals[e].pc, EvalStep(u, s, a).evals[e].pc)
  {
    if s.evals[e].pc.Reconciling? {
      AnswerLands(u, s, e, a.reply, a.Cancel?, a.resubmit);
    }
  }

  lemma DeferComesFrom(u: Rules, s: State, a: Action, e: nat)
    requires a.Defer? && a.e == e && e in s.evals
    ensures e in EvalStep(u, s, a).evals && ComesFrom(u, a, e, s.evals[e].pc, EvalStep(u, s, a).evals[e].pc)
  {
  }

  lemma EscapeLands(u: Rules, s: State, e: nat, cause: Cause)
    requires e in s.evals
    ensures var s' := Leave(u, s, e, cause);
            e in s'.evals && (s'.evals[e].pc == s.evals[e].pc || s'.evals[e].pc == Returned(Raised))
  {
  }

  lemma EscapeComesFrom(u: Rules, s: State, e: nat, cause: Cause)
    requires e in s.evals
    ensures var s' := Leave(u, s, e, cause);
            e in s'.evals && ComesFrom(u, Escape(e, cause), e, s.evals[e].pc, s'.evals[e].pc)
  {
    EscapeLands(u, s, e, cause);
    UnconcernedComesFrom(u, Escape(e, cause), e, s.evals[e].pc, Leave(u, s, e, cause).evals[e].pc);
  }

  lemma LocalComesFrom(u: Rules, s: State, a: Action, e: nat)
    requires IsEval(a) && !a.Finish? && !a.Cancel? && !a.ReconcilePoll? && !a.Defer? && !a.Escape?
    requires a.e == e && e in s.evals
    ensures e in EvalStep(u, s, a).evals && ComesFrom(u, a, e, s.evals[e].pc, EvalStep(u, s, a).evals[e].pc)
  {
    if a.Abandon? || a.Overrun? || a.SkipCancel? || a.GiveUp? || a.Launch? {
      AbandonedComesFrom(u, s, a, e);
    } else {
      PlainLands(u, s, a, e);
      UnconcernedComesFrom(u, a, e, s.evals[e].pc, EvalStep(u, s, a).evals[e].pc);
    }
  }

  lemma PlainLands(u: Rules, s: State, a: Action, e: nat)
    requires a.PassGate? || a.LatchSubmission? || a.Poll? || a.LatchCancel?
    requires a.e == e && e in s.evals
    ensures var s' := EvalStep(u, s, a);
            e in s'.evals && (s'.evals[e].pc == s.evals[e].pc || Unconcerned(s'.evals[e].pc))
  {
  }

  lemma AbandonedComesFrom(u: Rules, s: State, a: Action, e: nat)
    requires a.Abandon? || a.Overrun? || a.SkipCancel? || a.GiveUp? || a.Launch?
    requires a.e == e && e in s.evals
    ensures e in EvalStep(u, s, a).evals && ComesFrom(u, a, e, s.evals[e].pc, EvalStep(u, s, a).evals[e].pc)
  {
    if a.Abandon? || a.Overrun? {
      BegunComesFrom(u, s, a, e);
    } else {
      EndedComesFrom(u, s, a, e);
    }
  }

  lemma BegunComesFrom(u: Rules, s: State, a: Action, e: nat)
    requires (a.Abandon? || a.Overrun?) && a.e == e && e in s.evals
    ensures e in EvalStep(u, s, a).evals && ComesFrom(u, a, e, s.evals[e].pc, EvalStep(u, s, a).evals[e].pc)
  {
  }

  lemma EndedComesFrom(u: Rules, s: State, a: Action, e: nat)
    requires (a.SkipCancel? || a.GiveUp? || a.Launch?) && a.e == e && e in s.evals
    ensures e in EvalStep(u, s, a).evals && ComesFrom(u, a, e, s.evals[e].pc, EvalStep(u, s, a).evals[e].pc)
  {
  }

  lemma OwnEvalComesFrom(u: Rules, s: State, a: Action, e: nat)
    requires IsEval(a) && a.e == e && e in s.evals
    ensures e in EvalStep(u, s, a).evals && ComesFrom(u, a, e, s.evals[e].pc, EvalStep(u, s, a).evals[e].pc)
  {
    match a
    case Finish(_, resubmit) => FinishComesFrom(u, s, e, resubmit);
    case Cancel(_, _, _) => ReconcileComesFrom(u, s, a, e);
    case ReconcilePoll(_, _, _) => ReconcileComesFrom(u, s, a, e);
    case Defer(_, _, _, _) => DeferComesFrom(u, s, a, e);
    case Escape(_, cause) => EscapeComesFrom(u, s, e, cause);
    case _ => LocalComesFrom(u, s, a, e);
  }

  lemma StepComesFrom(u: Rules, s: State, a: Action, e: nat)
    requires e in s.evals
    ensures e in Apply(u, s, a).evals && ComesFrom(u, a, e, s.evals[e].pc, Apply(u, s, a).evals[e].pc)
  {
    if Foreign(a, e) {
      ForeignKeepsEval(u, s, a, e);
    } else if IsSubmit(a) {
      OwnSubmitComesFrom(u, s, a, e);
    } else if !a.Start? {
      OwnEvalComesFrom(u, s, a, e);
    }
  }

  lemma StartedAtGate(u: Rules, s: State, a: Action, e: nat)
    requires e !in s.evals && e in Apply(u, s, a).evals
    ensures Apply(u, s, a).evals[e].pc == Gate
  {
    if Foreign(a, e) {
      ForeignKeepsEval(u, s, a, e);
    }
  }

  /** Still reconciling, or just begun. */
  lemma ReconcilingNext(u: Rules, actions: seq<Action>, a: Action, e: nat)
    requires e in Run(u, actions).evals && HasReason(u, actions, e, Run(u, actions).evals[e].pc)
    requires StillReconciling(u, actions + [a], e)
    ensures HasReason(u, actions + [a], e, Run(u, actions + [a]).evals[e].pc)
  {
    var pc, pc' := Run(u, actions).evals[e].pc, Run(u, actions + [a]).evals[e].pc;
    RunSnoc(u, actions, a);
    StepComesFrom(u, Run(u, actions), a, e);
    if pc.Reconciling? {
      var before, start, seg, first :| actions == before + [start] + seg && Reconciles(u, before, start, seg, e, pc.job, first);
      assert actions + [a] == before + [start] + (seg + [a]);
      ReconcilesNext(u, before, start, seg, e, pc.job, first, a);
    } else {
      assert actions + [a] == actions + [a] + [];
      assert Reconciles(u, actions, a, [], e, pc.job, pc.response);
    }
  }

  lemma LeftLater(u: Rules, actions: seq<Action>, e: nat, job: string, a: Action)
    requires IsLeft(u, actions, e, job)
    ensures IsLeft(u, actions + [a], e, job)
  {
    var ep :| LeftToWatcher(u, actions, e, job, ep);
    GaveUpLater(u, actions, e, job, ep, a);
    assert LeftToWatcher(u, actions + [a], e, job, Later(ep, a));
  }

  lemma LeftWithLater(u: Rules, actions: seq<Action>, e: nat, job: string, last: Envelope, a: Action)
    requires IsLeftWith(u, actions, e, job, last)
    ensures IsLeftWith(u, actions + [a], e, job, last) && IsLeft(u, actions, e, job) && IsLeft(u, actions + [a], e, job)
  {
    var ep :| LeftToWatcher(u, actions, e, job, ep) && last == LastCurrent(u, ep.seg, e, job, ep.first);
    GaveUpLater(u, actions, e, job, ep, a);
    assert LeftToWatcher(u, actions + [a], e, job, Later(ep, a));
  }

  lemma IsCountedLater(u: Rules, actions: seq<Action>, e: nat, job: string, a: Action)
    requires IsCounted(u, actions, e, job)
    ensures IsCounted(u, actions + [a], e, job)
  {
    var ep :| RightlyCounted(u, actions, e, job, ep);
    CountedLater(u, actions, e, job, ep, a);
  }

  /** A hand-over that fails makes the job rightly counted. */
  lemma FailedHandOver(u: Rules, actions: seq<Action>, e: nat, job: string, last: Envelope, a: Action)
    requires IsLeftWith(u, actions, e, job, last) && HandOverFails(u, a, e, job, last)
    ensures IsCounted(u, actions + [a], e, job)
  {
    var ep :| LeftToWatcher(u, actions, e, job, ep) && last == LastCurrent(u, ep.seg, e, job, ep.first);
    GaveUpLater(u, actions, e, job, ep, a);
    assert a in Later(ep, a).after;
    assert RightlyCounted(u, actions + [a], e, job, Later(ep, a));
  }

  /** The reconciliation was given up just now. */
  lemma GivenUpNow(u: Rules, actions: seq<Action>, e: nat, a: Action)
    requires e in Run(u, actions).evals && HasReason(u, actions, e, Run(u, actions).evals[e].pc)
    requires Run(u, actions).evals[e].pc.Reconciling? && Run(u, actions).evals[e].pc.polling && a.GiveUp? && a.e == e
    ensures e in Run(u, actions + [a]).evals && HasReason(u, actions + [a], e, Run(u, actions + [a]).evals[e].pc)
  {
    var job := Run(u, actions).evals[e].pc.job;
    var before, start, seg, first :| actions == before + [start] + seg && Reconciles(u, before, start, seg, e, job, first);
    KnowsWhatHappened(u, before, start, seg, e, job, first);
    GiveUpDecides(u, before, start, seg, e, job, first, a.runnerOwned);
    var ep := Episode(before, start, seg, first, a.runnerOwned, []);
    assert actions + [a] == before + [start] + seg + [GiveUp(e, a.runnerOwned)] + [];
    assert GaveUp(u, actions + [a], e, job, ep);
    if MayDefer(u, seg, e, job, first, a.runnerOwned) {
      assert LeftToWatcher(u, actions + [a], e, job, ep);
    } else {
      assert RightlyCounted(u, actions + [a], e, job, ep);
    }
  }

  lemma ReasonNext(u: Rules, actions: seq<Action>, a: Action, e: nat)
    requires e in Run(u, actions).evals ==> HasReason(u, actions, e, Run(u, actions).evals[e].pc)
    requires e in Run(u, actions + [a]).evals
    ensures HasReason(u, actions + [a], e, Run(u, actions + [a]).evals[e].pc)
  {
    RunSnoc(u, actions, a);
    if e !in Run(u, actions).evals {
      StartedAtGate(u, Run(u, actions), a, e);
    } else {
      var pc := Run(u, actions).evals[e].pc;
      StepComesFrom(u, Run(u, actions), a, e);
      if pc.Reconciling? && pc.polling && a.GiveUp? && a.e == e {
        GivenUpNow(u, actions, e, a);
      } else if StillReconciling(u, actions + [a], e) {
        ReconcilingNext(u, actions, a, e);
      } else {
        SettledReasonNext(u, actions, a, e, pc, Run(u, actions + [a]).evals[e].pc);
      }
    }
  }

  /** The other phases keep or pass on their reason. */
  lemma SettledReasonNext(u: Rules, actions: seq<Action>, a: Action, e: nat, pc: EvalPc, pc': EvalPc)
    requires HasReason(u, actions, e, pc) && ComesFrom(u, a, e, pc, pc')
    requires !pc'.Reconciling? && !(pc.Reconciling? && pc.polling && a.GiveUp? && a.e == e)
    ensures HasReason(u, actions + [a], e, pc')
  {
    match pc
    case Deferring(job, last) =>
      LeftWithLater(u, actions, e, job, last, a);
      if pc'.Unconfirmed? { FailedHandOver(u, actions, e, job, last, a); }
    case Launching(job, _) => LeftLater(u, actions, e, job, a);
    case Unconfirmed(job) => IsCountedLater(u, actions, e, job, a);
    case Returned(verdict) => if verdict.DeferredTo? { LeftLater(u, actions, e, verdict.job, a); }
    case _ =>
  }

  /** In every run, an evaluation reconciling, handing over or giving up a job has
      the reason for it behind it. */
  lemma {:induction false} EveryPhaseHasReason(u: Rules, actions: seq<Action>, e: nat)
    requires e in Run(u, actions).evals
    ensures HasReason(u, actions, e, Run(u, actions).evals[e].pc)
  {
    if actions != [] {
      var front, last := actions[..|actions|-1], actions[|actions|-1];
      assert actions == front + [last];
      if e in Run(u, front).evals { EveryPhaseHasReason(u, front, e); }
      ReasonNext(u, front, last, e);
    }
  }

  /** A job is with a watcher only if its evaluation had its DELETE sent since it
      began to reconcile, gave up, and either the cancellation was the runner's own
      or a receipt had said that it may be retried. */
  lemma DeferredOnlyAfterCancel(u: Rules, actions: seq<Action>, e: nat, job: string)
    requires e in Run(u, actions).evals
    requires var pc := Run(u, actions).evals[e].pc;
             (pc.Deferring? && pc.job == job) || (pc.Launching? && pc.job == job) || pc == Returned(DeferredTo(job))
    ensures exists ep :: GaveUp(u, actions, e, job, ep) && Deleted(ep.seg, e)
                         && (ep.owned || SawRetryable(u, ep.seg, e, job, ep.first))
  {
    EveryPhaseHasReason(u, actions, e);
    var pc := Run(u, actions).evals[e].pc;
    if pc.Deferring? {
      var ep :| LeftToWatcher(u, actions, e, job, ep) && pc.last == LastCurrent(u, ep.seg, e, job, ep.first);
      assert GaveUp(u, actions, e, job, ep);
    } else {
      var ep :| LeftToWatcher(u, actions, e, job, ep);
      assert GaveUp(u, actions, e, job, ep);
    }
  }

  /** Only latching an unconfirmed job counts it as such. */
  lemma CountingStep(u: Rules, s: State, a: Action, job: string)
    requires UnconfirmedCancel(job) in Apply(u, s, a).ledger && UnconfirmedCancel(job) !in s.ledger
    ensures a.LatchCancel? && a.e in s.evals && s.evals[a.e].pc == Unconfirmed(job)
  {
    if IsWatch(a) {
      WatchCountsOthers(u, s, a, job);
    } else if IsSubmit(a) {
      SubmitCountsNone(u, s, a);
    } else if a.Finish? || a.Cancel? || a.ReconcilePoll? || a.Defer? || a.Escape? {
      HandlingCountsNone(u, s, a);
    }
  }

  lemma WatchCountsOthers(u: Rules, s: State, a: Action, job: string)
    requires IsWatch(a) && UnconfirmedCancel(job) !in s.ledger
    ensures UnconfirmedCancel(job) !in WatchStep(u, s, a).ledger
  {
  }

  lemma SubmitCountsNone(u: Rules, s: State, a: Action)
    requires IsSubmit(a)
    ensures Submit(u, s, a).ledger == s.ledger
  {
    SubmitHasShape(u, s, a);
  }

  lemma HandlingCountsNone(u: Rules, s: State, a: Action)
    requires a.Finish? || a.Cancel? || a.ReconcilePoll? || a.Defer? || a.Escape?
    ensures EvalStep(u, s, a).ledger == s.ledger
  {
    if a.e in s.evals {
      var pc := s.evals[a.e].pc;
      if (a.Cancel? || a.ReconcilePoll?) && pc.Reconciling? {
        AnswerCountsNone(u, s, a.e, a.reply, a.Cancel?, a.resubmit);
      } else if a.Defer? && pc.Deferring? {
        DeferCountsNone(u, s, a.e, a.w, a.callback, a.paths);
      } else if a.Escape? {
        EscapeCountsNone(u, s, a.e, a.cause);
      }
    }
  }

  lemma AnswerCountsNone(u: Rules, s: State, e: nat, reply: Option<Envelope>, delete: bool, resubmit: bool)
    requires e in s.evals && s.evals[e].pc.Reconciling?
    ensures Reconcile(u, s, e, reply, delete, resubmit).ledger == s.ledger
  {
  }

  lemma DeferCountsNone(u: Rules, s: State, e: nat, w: nat, callback: Option<nat>, paths: seq<string>)
    requires e in s.evals && s.evals[e].pc.Deferring?
    ensures StartWatcher(u, s, e, w, callback, paths).ledger == s.ledger
  {
  }

  lemma EscapeCountsNone(u: Rules, s: State, e: nat, cause: Cause)
    requires e in s.evals
    ensures Leave(u, s, e, cause).ledger == s.ledger
  {
  }

  /** A job is counted as an unconfirmed cancellation only if some evaluation gave
      it up without its DELETE, or with a cancellation neither the runner's own nor
      to be retried, or could not hand it over: its last receipt did not carry the
      job's identity, or there was no path to poll. */
  lemma {:induction false} CountedOnlyWithReason(u: Rules, actions: seq<Action>, job: string)
    requires UnconfirmedCancel(job) in Run(u, actions).ledger
    ensures exists e, ep :: RightlyCounted(u, actions, e, job, ep)
  {
    var front, last := actions[..|actions|-1], actions[|actions|-1];
    assert actions == front + [last];
    RunSnoc(u, front, last);
    if UnconfirmedCancel(job) in Run(u, front).ledger {
      CountedOnlyWithReason(u, front, job);
      var e, ep :| RightlyCounted(u, front, e, job, ep);
      CountedLater(u, front, e, job, ep, last);
    } else {
      CountedNow(u, front, last, job);
    }
  }

  lemma CountedNow(u: Rules, actions: seq<Action>, a: Action, job: string)
    requires UnconfirmedCancel(job) in Apply(u, Run(u, actions), a).ledger && UnconfirmedCancel(job) !in Run(u, actions).ledger
    ensures exists e, ep :: RightlyCounted(u, actions + [a], e, job, ep)
  {
    CountingStep(u, Run(u, actions), a, job);
    EveryPhaseHasReason(u, actions, a.e);
    IsCountedLater(u, actions, a.e, job, a);
    var ep :| RightlyCounted(u, actions + [a], a.e, job, ep);
  }
}
