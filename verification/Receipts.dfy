/** Judge receipts: nested envelopes, the job identity they carry and the
    verdict they settle.

    A receipt is a mapping that may wrap another receipt under `response` and a
    further one under `canonical_verdict`.  Envelopes are values here, so the
    same object never occurs twice inside one receipt. */
module Receipts {
  import opened Options

  /** The mapping keys the classifiers read. */
  datatype Key =
    | JobIdKey | IdKey
    | StatusKey | FormalStatusKey | VerdictKey | ResultKey
    | ErrorKindKey | TerminalReasonKey
    | TerminalKey | FinishedAtKey | FinishedAtMsKey
    | ValidNoSorryKey | ValidWithSorryKey | CorrectKey | SuccessKey | AcceptedKey
    | RetryableKey | DispositionKey
    | OtherKey(name: string)

  /** A field that is not itself a receipt. */
  datatype Value =
    | Null
    | Bool(b: bool)
    | Number(n: int)
    | Text(s: string)
    | Composite(size: nat)

  /** Normalized status words. */
  datatype Word =
    | Queued | Pending | Running | InProgress | Started | CancelRequested
    | Proved | AC | Pass | Passed
    | Succeeded | Completed | Failed | TimedOut | Error
    | Cancelled | Canceled | RejectedOverloaded
    | WA | VerifyFail | CompilesWithSorry | NetworkError | InfrastructureError
    | ExecutionTimeout | ResourceLimit | EvaluatorError | Unknown
    | OtherWord(text: string)

  /** Normalized values of `error_kind`, `terminal_reason` and the router's disposition. */
  datatype Note =
    | TimeoutNote | ExecutionTimeoutNote | MemoryLimitNote | ResourceLimitNote | ResourceExhaustedNote
    | OverloadedNote | QueueWaitTimeoutNote | CancelledNote | CanceledNote
    | VerificationFailedNote | VerifierFailedNote
    | CancelRequestedNote | CancelUnconfirmedNote
    | OtherNote(text: string)

  /** The text normalizers, which are not modelled further: identifier cleaning,
      status words, lower-cased notes and the blank test. */
  datatype Rules = Rules(
    clean: Value -> Option<string>,
    status: string -> Word,
    note: Value -> Note,
    blank: string -> bool)

  /** Cleaning refuses falsy values and leaves a cleaned identifier alone. */
  ghost predicate CleaningLaw(u: Rules)
  {
    forall v :: u.clean(v).Some? ==>
                  && Truthy(v)
                  && u.clean(v).value != ""
                  && u.clean(Text(u.clean(v).value)) == u.clean(v)
  }

  datatype Envelope = Envelope(
    fields: map<Key, Value>,
    response: Option<Envelope>,
    canonical: Option<Envelope>)

  const NONTERMINAL_WORDS: set<Word> := {Queued, Pending, Running, InProgress, Started, CancelRequested}
  const PROVED_WORDS: set<Word> := {Proved, AC, Pass, Passed}
  const FAILURE_WORDS: set<Word> := {Failed, TimedOut, Error, Cancelled, Canceled, RejectedOverloaded}

  function Get(e: Envelope, key: Key): Value {
    if key in e.fields then e.fields[key] else Null
  }

  predicate Truthy(v: Value) {
    match v
    case Null => false
    case Bool(b) => b
    case Number(n) => n != 0
    case Text(s) => s != ""
    case Composite(size) => size > 0
  }

  predicate HasText(u: Rules, v: Value) {
    v.Text? && !u.blank(v.s)
  }

  /** Look a key up here, else in the wrapped response, else in the canonical verdict. */
  function NestedValue(e: Envelope, key: Key): Value {
    if Get(e, key) != Null then Get(e, key)
    else match e.response
      case Some(inner) => NestedValue(inner, key)
      case None => if e.canonical.Some? then Get(e.canonical.value, key) else Null
  }

  // ---------------------------------------------------------------------
  // Lifecycle and verdict
  // ---------------------------------------------------------------------

  /** The lifecycle status; `None` stands for the empty string. */
  function RawLifecycleStatus(u: Rules, e: Envelope): Option<Word> {
    var status := Get(e, StatusKey);
    if HasText(u, status) then Some(u.status(status.s))
    else match e.response
      case Some(inner) => RawLifecycleStatus(u, inner)
      case None => None
  }

  function Status(u: Rules, e: Envelope): Word {
    if HasText(u, Get(e, FormalStatusKey)) then u.status(Get(e, FormalStatusKey).s)
    else if HasText(u, Get(e, VerdictKey)) then u.status(Get(e, VerdictKey).s)
    else if HasText(u, Get(e, ResultKey)) then u.status(Get(e, ResultKey).s)
    else if e.canonical.Some? && HasText(u, Get(e.canonical.value, StatusKey)) then
      u.status(Get(e.canonical.value, StatusKey).s)
    else if HasText(u, Get(e, StatusKey)) then u.status(Get(e, StatusKey).s)
    else match e.response
      case Some(inner) => Status(u, inner)
      case None => Unknown
  }

  predicate RawIn(u: Rules, e: Envelope, words: set<Word>) {
    RawLifecycleStatus(u, e).Some? && RawLifecycleStatus(u, e).value in words
  }

  predicate Terminal(u: Rules, e: Envelope) {
    if RawIn(u, e, NONTERMINAL_WORDS) then false
    else if RawIn(u, e, FAILURE_WORDS + {Succeeded, Completed}) then true
    else
      var status := Status(u, e);
      && status !in NONTERMINAL_WORDS
      && (|| Truthy(Get(e, TerminalKey))
          || Truthy(Get(e, FinishedAtKey))
          || Truthy(Get(e, FinishedAtMsKey))
          || status in PROVED_WORDS
          || status in {Succeeded, Failed, Error, WA, VerifyFail, CompilesWithSorry, RejectedOverloaded,
                        NetworkError, InfrastructureError, ExecutionTimeout, ResourceLimit, TimedOut, Cancelled})
  }

  function VerdictStatus(u: Rules, e: Envelope): Word {
    var kind := u.note(NestedValue(e, ErrorKindKey));
    var reason := u.note(NestedValue(e, TerminalReasonKey));
    if RawIn(u, e, {Cancelled, Canceled}) then Cancelled
    else if RawIn(u, e, {RejectedOverloaded}) then RejectedOverloaded
    else if RawIn(u, e, {TimedOut}) || kind == TimeoutNote || reason == ExecutionTimeoutNote then ExecutionTimeout
    else if kind in {MemoryLimitNote, ResourceLimitNote, ResourceExhaustedNote} then ResourceLimit
    else if kind == OverloadedNote || reason == QueueWaitTimeoutNote then RejectedOverloaded
    else if reason in {CancelledNote, CanceledNote} then Cancelled
    else if RawIn(u, e, FAILURE_WORDS) && Status(u, e) in PROVED_WORDS then EvaluatorError
    else if Status(u, e) == NetworkError then InfrastructureError
    else Status(u, e)
  }

  predicate IsProved(u: Rules, e: Envelope) {
    if RawIn(u, e, NONTERMINAL_WORDS) || RawIn(u, e, FAILURE_WORDS) then false
    else if Status(u, e) in PROVED_WORDS then true
    else
      && Status(u, e) in {Succeeded, Completed}
      && (|| Get(e, ValidNoSorryKey) == Bool(true)
          || Get(e, CorrectKey) == Bool(true)
          || Get(e, SuccessKey) == Bool(true)
          || Get(e, AcceptedKey) == Bool(true)
          || (e.response.Some? && IsProved(u, e.response.value))
          || (e.canonical.Some? && Status(u, e.canonical.value) in PROVED_WORDS))
  }

  datatype Outcome = Outcome(status: Word, scores: bool, contradiction: bool)

  function SettledOutcome(u: Rules, e: Envelope): Outcome {
    var status := VerdictStatus(u, e);
    var kind := u.note(NestedValue(e, ErrorKindKey));
    var reason := u.note(NestedValue(e, TerminalReasonKey));
    if status in NONTERMINAL_WORDS then Outcome(EvaluatorError, false, true)
    else if IsProved(u, e) then Outcome(Proved, true, false)
    else if status in {Succeeded, Completed}
            && NestedValue(e, ValidWithSorryKey) == Bool(true)
            && NestedValue(e, ValidNoSorryKey) != Bool(true) then Outcome(CompilesWithSorry, false, false)
    else if status in {Failed, Error}
            && (reason in {VerificationFailedNote, VerifierFailedNote}
                || kind in {VerificationFailedNote, VerifierFailedNote}) then Outcome(VerifyFail, false, false)
    else if status in {Succeeded, Completed, Failed, Error, Unknown} then Outcome(EvaluatorError, false, true)
    else if status == EvaluatorError then Outcome(EvaluatorError, false, true)
    else Outcome(status, false, false)
  }

  /** A terminal receipt is reported as proved exactly when it scores.  Without
      terminality the two differ in exactly one way: a pending lifecycle that
      already carries a proof verdict is named proved but does not score. */
  lemma ProvedExactlyWhenScored(u: Rules, e: Envelope)
    ensures Terminal(u, e) ==> (SettledOutcome(u, e).status == Proved <==> SettledOutcome(u, e).scores)
    ensures SettledOutcome(u, e).scores ==> SettledOutcome(u, e).status == Proved
    ensures SettledOutcome(u, e).status == Proved && !SettledOutcome(u, e).scores
            <==> RawIn(u, e, NONTERMINAL_WORDS) && VerdictStatus(u, e) == Proved
  {
    assert Status(u, e) == Proved ==> Status(u, e) in PROVED_WORDS;
  }

  /** Verdicts that only a finished job can have. */
  const FINAL_VERDICTS: set<Word> := {
    Proved, AC, Pass, Passed, Succeeded, Failed, Error, WA, VerifyFail, CompilesWithSorry, RejectedOverloaded,
    NetworkError, InfrastructureError, ExecutionTimeout, ResourceLimit, TimedOut, Cancelled
  }

  /** What the lifecycle alone decides: a pending receipt is not terminal, however
      final what it wraps may look, and a failed or completed one is.  Without a
      lifecycle a final verdict is, and any other answer when it says so. */
  lemma LifecycleDecidesTerminality(u: Rules, e: Envelope)
    ensures RawIn(u, e, {Queued, Pending, Running, InProgress, Started, CancelRequested}) ==> !Terminal(u, e)
    ensures RawIn(u, e, {Failed, TimedOut, Error, Cancelled, Canceled, RejectedOverloaded, Succeeded, Completed}) ==>
              Terminal(u, e)
    ensures Terminal(u, e) && !RawIn(u, e, FAILURE_WORDS + {Succeeded, Completed}) ==> Status(u, e) !in NONTERMINAL_WORDS
    ensures RawLifecycleStatus(u, e).None? && Status(u, e) in FINAL_VERDICTS ==> Terminal(u, e)
    ensures RawLifecycleStatus(u, e).None? && Status(u, e) !in NONTERMINAL_WORDS + FINAL_VERDICTS ==>
              (Terminal(u, e) <==> Truthy(Get(e, TerminalKey)) || Truthy(Get(e, FinishedAtKey)) || Truthy(Get(e, FinishedAtMsKey)))
  {
  }

  /** The lifecycle failures a receipt names are its outcome, whatever verdict it
      wraps: a cancellation before an overload before a timeout, each unscored. */
  lemma FailuresAreNamed(u: Rules, e: Envelope)
    ensures RawIn(u, e, {Cancelled, Canceled}) ==> SettledOutcome(u, e) == Outcome(Cancelled, false, false)
    ensures RawIn(u, e, {RejectedOverloaded}) ==> SettledOutcome(u, e) == Outcome(RejectedOverloaded, false, false)
    ensures RawIn(u, e, {TimedOut}) ==> SettledOutcome(u, e) == Outcome(ExecutionTimeout, false, false)
  {
  }

  /** Notes on a receipt with a failed lifecycle name its outcome when the lifecycle
      itself does not say more: timeouts, then exhausted resources, then overload,
      then cancellation. */
  lemma NotesAreNamed(u: Rules, e: Envelope)
    requires RawIn(u, e, {Failed, Error})
    ensures var kind, reason := u.note(NestedValue(e, ErrorKindKey)), u.note(NestedValue(e, TerminalReasonKey));
            var timeout := kind == TimeoutNote || reason == ExecutionTimeoutNote;
            var exhausted := kind in {MemoryLimitNote, ResourceLimitNote, ResourceExhaustedNote};
            var overload := kind == OverloadedNote || reason == QueueWaitTimeoutNote;
            var status := SettledOutcome(u, e).status;
            && !SettledOutcome(u, e).scores
            && (timeout ==> status == ExecutionTimeout)
            && (!timeout && exhausted ==> status == ResourceLimit)
            && (!timeout && !exhausted && overload ==> status == RejectedOverloaded)
            && (!timeout && !exhausted && !overload && reason in {CancelledNote, CanceledNote} ==> status == Cancelled)
  {
  }

  /** A failed lifecycle without such notes that still wraps a proof is a
      contradiction, never a proof. */
  lemma StaleProofIsContradiction(u: Rules, e: Envelope)
    requires RawIn(u, e, {Failed, Error}) && Status(u, e) in PROVED_WORDS
    requires u.note(NestedValue(e, ErrorKindKey)) !in
               {TimeoutNote, MemoryLimitNote, ResourceLimitNote, ResourceExhaustedNote, OverloadedNote}
    requires u.note(NestedValue(e, TerminalReasonKey)) !in
               {ExecutionTimeoutNote, QueueWaitTimeoutNote, CancelledNote, CanceledNote}
    ensures SettledOutcome(u, e) == Outcome(EvaluatorError, false, true)
  {
  }

  /** No receipt whose lifecycle failed or is still pending ever scores, however
      deep a stale proof verdict sits inside it. */
  lemma FailedLifecycleNeverScores(u: Rules, e: Envelope)
    requires RawIn(u, e, NONTERMINAL_WORDS) || RawIn(u, e, FAILURE_WORDS)
    ensures !SettledOutcome(u, e).scores
  {
  }

  /** A proof stated by this envelope alone. */
  predicate StatesProof(u: Rules, e: Envelope) {
    || Status(u, e) in PROVED_WORDS
    || (Status(u, e) in {Succeeded, Completed}
        && (|| Get(e, ValidNoSorryKey) == Bool(true)
            || Get(e, CorrectKey) == Bool(true)
            || Get(e, SuccessKey) == Bool(true)
            || Get(e, AcceptedKey) == Bool(true)
            || (e.canonical.Some? && Status(u, e.canonical.value) in PROVED_WORDS)))
  }

  /** A proof stated `depth` responses down, below successes only. */
  predicate ProofAt(u: Rules, e: Envelope, depth: nat) {
    && !RawIn(u, e, NONTERMINAL_WORDS) && !RawIn(u, e, FAILURE_WORDS)
    && if depth == 0 then StatesProof(u, e)
       else
         && Status(u, e) in {Succeeded, Completed}
         && e.response.Some?
         && ProofAt(u, e.response.value, depth - 1)
  }

  ghost predicate ProofSomewhere(u: Rules, e: Envelope) {
    exists depth: nat :: ProofAt(u, e, depth)
  }

  lemma {:induction false} ProofHasDepth(u: Rules, e: Envelope) returns (depth: nat)
    requires IsProved(u, e)
    ensures ProofAt(u, e, depth)
  {
    if StatesProof(u, e) {
      depth := 0;
    } else {
      var inner := ProofHasDepth(u, e.response.value);
      depth := inner + 1;
    }
  }

  lemma {:induction false} DepthIsProof(u: Rules, e: Envelope, depth: nat)
    requires ProofAt(u, e, depth)
    ensures IsProved(u, e)
  {
    if depth > 0 {
      DepthIsProof(u, e.response.value, depth - 1);
    }
  }

  /** A receipt scores exactly when some envelope on its chain of responses
      states a proof outright and no envelope on the way down reports a failed
      or pending lifecycle. */
  lemma ScoresExactlyWithWitness(u: Rules, e: Envelope)
    ensures IsProved(u, e) <==> ProofSomewhere(u, e)
    ensures Terminal(u, e) ==> (SettledOutcome(u, e).scores <==> ProofSomewhere(u, e))
  {
    ProvedExactlySomewhere(u, e);
    OutcomeScoresProved(u, e);
  }

  lemma ProvedExactlySomewhere(u: Rules, e: Envelope)
    ensures IsProved(u, e) <==> ProofSomewhere(u, e)
  {
    if IsProved(u, e) {
      var depth := ProofHasDepth(u, e);
    }
    if ProofSomewhere(u, e) {
      var depth: nat :| ProofAt(u, e, depth);
      DepthIsProof(u, e, depth);
    }
  }

  lemma OutcomeScoresProved(u: Rules, e: Envelope)
    ensures Terminal(u, e) ==> (SettledOutcome(u, e).scores <==> IsProved(u, e))
  {
  }

  // ---------------------------------------------------------------------
  // Job identity
  // ---------------------------------------------------------------------

  function FirstTruthy(v: Value, w: Value): Value {
    if Truthy(v) then v else w
  }

  /** The opaque identity needed to settle an admitted submission. */
  function SubmissionId(u: Rules, e: Envelope): Option<string> {
    var raw := FirstTruthy(NestedValue(e, JobIdKey), NestedValue(e, IdKey));
    if raw.Bool? then None else u.clean(raw)
  }

  predicate JobBound(u: Rules, e: Envelope, job: Value) {
    var receipt := u.clean(FirstTruthy(NestedValue(e, JobIdKey), NestedValue(e, IdKey)));
    u.clean(job).Some? && receipt.Some? && receipt == u.clean(job)
  }

  predicate Authoritative(u: Rules, e: Envelope, job: Value) {
    Terminal(u, e) && JobBound(u, e, job)
  }

  function WithJob(e: Envelope, job: string): Envelope {
    e.(fields := e.fields[JobIdKey := Text(job)])
  }

  /** A submission identity always binds the receipt it was read from. */
  lemma SubmissionBindsItsReceipt(u: Rules, e: Envelope)
    requires CleaningLaw(u) && SubmissionId(u, e).Some?
    ensures JobBound(u, e, Text(SubmissionId(u, e).value))
    ensures u.clean(Text(SubmissionId(u, e).value)) == SubmissionId(u, e)
  {
    var raw := FirstTruthy(NestedValue(e, JobIdKey), NestedValue(e, IdKey));
    assert u.clean(raw).Some?;
  }

  lemma WithJobKeepsField(e: Envelope, job: string, key: Key)
    requires key != JobIdKey
    ensures Get(WithJob(e, job), key) == Get(e, key)
    ensures NestedValue(WithJob(e, job), key) == NestedValue(e, key)
  {
  }

  lemma WithJobKeepsStatus(u: Rules, e: Envelope, job: string)
    ensures RawLifecycleStatus(u, WithJob(e, job)) == RawLifecycleStatus(u, e)
    ensures Status(u, WithJob(e, job)) == Status(u, e)
  {
    WithJobKeepsField(e, job, StatusKey);
    WithJobKeepsField(e, job, FormalStatusKey);
    WithJobKeepsField(e, job, VerdictKey);
    WithJobKeepsField(e, job, ResultKey);
  }

  lemma WithJobKeepsTerminal(u: Rules, e: Envelope, job: string)
    ensures Terminal(u, WithJob(e, job)) == Terminal(u, e)
  {
    WithJobKeepsStatus(u, e, job);
    WithJobKeepsField(e, job, TerminalKey);
    WithJobKeepsField(e, job, FinishedAtKey);
    WithJobKeepsField(e, job, FinishedAtMsKey);
  }

  lemma WithJobKeepsProof(u: Rules, e: Envelope, job: string)
    ensures IsProved(u, WithJob(e, job)) == IsProved(u, e)
  {
    WithJobKeepsStatus(u, e, job);
    WithJobKeepsField(e, job, ValidNoSorryKey);
    WithJobKeepsField(e, job, CorrectKey);
    WithJobKeepsField(e, job, SuccessKey);
    WithJobKeepsField(e, job, AcceptedKey);
  }

  lemma WithJobKeepsOutcome(u: Rules, e: Envelope, job: string)
    ensures SettledOutcome(u, WithJob(e, job)) == SettledOutcome(u, e)
  {
    WithJobKeepsStatus(u, e, job);
    WithJobKeepsProof(u, e, job);
    WithJobKeepsFlags(e, job);
  }

  lemma WithJobKeepsFlags(e: Envelope, job: string)
    ensures NestedValue(WithJob(e, job), ErrorKindKey) == NestedValue(e, ErrorKindKey)
    ensures NestedValue(WithJob(e, job), TerminalReasonKey) == NestedValue(e, TerminalReasonKey)
    ensures NestedValue(WithJob(e, job), ValidWithSorryKey) == NestedValue(e, ValidWithSorryKey)
    ensures NestedValue(WithJob(e, job), ValidNoSorryKey) == NestedValue(e, ValidNoSorryKey)
  {
    WithJobKeepsField(e, job, ErrorKindKey);
    WithJobKeepsField(e, job, TerminalReasonKey);
    WithJobKeepsField(e, job, ValidWithSorryKey);
    WithJobKeepsField(e, job, ValidNoSorryKey);
  }

  /** Writing the job id into a receipt binds it. */
  lemma WithJobBinds(u: Rules, e: Envelope, job: string)
    requires CleaningLaw(u) && u.clean(Text(job)) == Some(job)
    ensures JobBound(u, WithJob(e, job), Text(job))
    ensures SubmissionId(u, WithJob(e, job)) == Some(job)
  {
    assert job != "";
    assert NestedValue(WithJob(e, job), JobIdKey) == Text(job);
  }

  datatype Identity = Matching | Missing | Invalid

  function Count(e: Envelope): (n: nat)
    ensures n >= 1
  {
    1 + (if e.response.Some? then Count(e.response.value) else 0)
      + (if e.canonical.Some? then Count(e.canonical.value) else 0)
  }

  /** Some envelope inside `e` carries a job id other than `expected`. */
  predicate Differs(u: Rules, e: Envelope, expected: string) {
    || (JobIdKey in e.fields && u.clean(e.fields[JobIdKey]) != Some(expected))
    || (IdKey in e.fields && u.clean(e.fields[IdKey]) != Some(expected))
    || (e.response.Some? && Differs(u, e.response.value, expected))
    || (e.canonical.Some? && Differs(u, e.canonical.value, expected))
  }

  /** Some envelope inside `e` carries a job id. */
  predicate Present(e: Envelope) {
    || JobIdKey in e.fields || IdKey in e.fields
    || (e.response.Some? && Present(e.response.value))
    || (e.canonical.Some? && Present(e.canonical.value))
  }

  const MAX_ENVELOPES: nat := 16

  /** What the receipt says about `job`, by recursion over the whole envelope. */
  function IdentityOf(u: Rules, e: Envelope, job: Value): Identity {
    match u.clean(job)
    case None => Invalid
    case Some(expected) =>
      if Count(e) > MAX_ENVELOPES || Differs(u, e, expected) then Invalid
      else if Present(e) then Matching
      else Missing
  }

  ghost function CountAll(es: seq<Envelope>): nat {
    if es == [] then 0 else CountAll(es[..|es|-1]) + Count(es[|es|-1])
  }

  ghost predicate AnyDiffers(u: Rules, es: seq<Envelope>, expected: string) {
    exists e :: e in es && Differs(u, e, expected)
  }

  ghost predicate AnyPresent(es: seq<Envelope>) {
    exists e :: e in es && Present(e)
  }

  function Children(e: Envelope): seq<Envelope> {
    (if e.response.Some? then [e.response.value] else [])
    + (if e.canonical.Some? then [e.canonical.value] else [])
  }

  lemma {:induction false} CountAllAppend(a: seq<Envelope>, b: seq<Envelope>)
    ensures CountAll(a + b) == CountAll(a) + CountAll(b)
  {
    if b == [] {
      assert a + b == a;
    } else {
      var front := b[..|b|-1];
      assert (a + b)[..|a + b|-1] == a + front;
      CountAllAppend(a, front);
    }
  }

  lemma StepMembers(rest: seq<Envelope>, e: Envelope)
    ensures forall x :: x in rest + Children(e) <==>
                          || x in rest
                          || (e.response.Some? && x == e.response.value)
                          || (e.canonical.Some? && x == e.canonical.value)
    ensures forall x :: x in rest + [e] <==> x in rest || x == e
  {
    forall x
      ensures x in Children(e) <==> (e.response.Some? && x == e.response.value) || (e.canonical.Some? && x == e.canonical.value)
    {
      if e.response.Some? { assert Children(e)[0] == e.response.value; }
      if e.canonical.Some? { assert Children(e)[|Children(e)| - 1] == e.canonical.value; }
    }
  }

  lemma StepCount(rest: seq<Envelope>, e: Envelope)
    ensures CountAll(rest + Children(e)) + 1 == CountAll(rest + [e])
  {
    CountAllAppend(rest, [e]);
    CountAllAppend(rest, Children(e));
    var r := if e.response.Some? then [e.response.value] else [];
    var c := if e.canonical.Some? then [e.canonical.value] else [];
    CountAllAppend(r, c);
    assert forall x: Envelope {:trigger CountAll([x])} :: [x][..0] == [] && CountAll([x]) == Count(x);
  }

  /** Popping an envelope with no contradicting id and pushing what it wraps
      keeps both questions open in the same way. */
  lemma StepQuestions(u: Rules, rest: seq<Envelope>, e: Envelope, expected: string)
    requires !(JobIdKey in e.fields && u.clean(e.fields[JobIdKey]) != Some(expected))
    requires !(IdKey in e.fields && u.clean(e.fields[IdKey]) != Some(expected))
    ensures AnyDiffers(u, rest + Children(e), expected) <==> AnyDiffers(u, rest + [e], expected)
    ensures JobIdKey in e.fields || IdKey in e.fields || AnyPresent(rest + Children(e)) <==> AnyPresent(rest + [e])
  {
    StepMembers(rest, e);
    var before, after := rest + [e], rest + Children(e);
    assert e in before;
    assert e.response.Some? ==> e.response.value in after;
    assert e.canonical.Some? ==> e.canonical.value in after;
    if AnyDiffers(u, before, expected) {
      var x :| x in before && Differs(u, x, expected);
      assert x != e ==> x in after;
    }
    if AnyDiffers(u, after, expected) {
      var x :| x in after && Differs(u, x, expected);
      assert x in before || Differs(u, e, expected);
    }
    if AnyPresent(before) {
      var x :| x in before && Present(x);
      assert x != e ==> x in after;
    }
    if AnyPresent(after) {
      var x :| x in after && Present(x);
      assert x in before || Present(e);
    }
  }

  /** The bounded worklist that inspects every job id in a receipt.  It agrees
      with the recursive meaning: invalid exactly when the receipt wraps more
      than sixteen envelopes or some present id differs, and otherwise matching
      exactly when some id is present. */
  method WatcherReceiptIdentity(u: Rules, response: Envelope, job: Value) returns (identity: Identity)
    ensures identity == IdentityOf(u, response, job)
  {
    if u.clean(job).None? {
      return Invalid;
    }
    var expected := u.clean(job).value;
    var pending := [response];
    var visited := 0;
    var found := false;
    assert pending[..0] == [];
    while |pending| > 0 && visited < MAX_ENVELOPES
      invariant 0 <= visited <= MAX_ENVELOPES
      invariant CountAll(pending) + visited == Count(response)
      invariant Differs(u, response, expected) <==> AnyDiffers(u, pending, expected)
      invariant Present(response) <==> found || AnyPresent(pending)
      decreases MAX_ENVELOPES - visited
    {
      var current := pending[|pending|-1];
      var rest := pending[..|pending|-1];
      assert pending == rest + [current] && current in pending;
      visited := visited + 1;
      if JobIdKey in current.fields {
        found := true;
        if u.clean(current.fields[JobIdKey]) != Some(expected) {
          return Invalid;
        }
      }
      if IdKey in current.fields {
        found := true;
        if u.clean(current.fields[IdKey]) != Some(expected) {
          return Invalid;
        }
      }
      StepCount(rest, current);
      StepQuestions(u, rest, current, expected);
      pending := rest + Children(current);
    }
    if |pending| > 0 {
      return Invalid;
    }
    return if found then Matching else Missing;
  }

  /** Bind an id-less answer of a job-scoped status capability to its job. */
  function BindWatcherReceipt(u: Rules, e: Envelope, job: Value, allowIdless: bool): Option<Envelope> {
    var identity := IdentityOf(u, e, job);
    if identity == Invalid || (identity == Missing && !allowIdless) then None
    else if u.clean(job).None? then None
    else if identity == Missing then Some(WithJob(e, u.clean(job).value))
    else Some(e)
  }

  lemma {:induction false} NestedIdsAgree(u: Rules, e: Envelope, expected: string, key: Key)
    requires key == JobIdKey || key == IdKey
    requires !Differs(u, e, expected)
    ensures NestedValue(e, key) != Null ==> u.clean(NestedValue(e, key)) == Some(expected)
  {
    if Get(e, key) == Null && e.response.Some? {
      NestedIdsAgree(u, e.response.value, expected, key);
    }
  }

  /** A receipt the watcher binds never contradicts the job, and an id-less one
      becomes bound to it without changing what it settles. */
  lemma BoundReceiptSpeaksForJob(u: Rules, e: Envelope, job: string, idless: bool)
    requires CleaningLaw(u) && u.clean(Text(job)) == Some(job)
    requires BindWatcherReceipt(u, e, Text(job), idless).Some?
    ensures var bound := BindWatcherReceipt(u, e, Text(job), idless).value;
            && Terminal(u, bound) == Terminal(u, e)
            && SettledOutcome(u, bound) == SettledOutcome(u, e)
            && !Differs(u, e, job)
            && (!Present(e) ==> idless && JobBound(u, bound, Text(job)))
            && (SubmissionId(u, bound).Some? ==> SubmissionId(u, bound) == Some(job))
  {
    if Present(e) {
      NestedIdsAgree(u, e, job, JobIdKey);
      NestedIdsAgree(u, e, job, IdKey);
    } else {
      WithJobBinds(u, e, job);
      WithJobKeepsTerminal(u, e, job);
      WithJobKeepsOutcome(u, e, job);
    }
  }
}
