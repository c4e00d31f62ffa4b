/** The model-driven policy: strict parsing of the answer, and a charged
    deterministic fallback for everything else. */
module LlmScheduler {
  import opened Lexicographic
  import opened Options
  import opened Policies
  import opened Sequences
  import JsonDepth

  const MAX_OUTPUT: nat := 64 * 1024

  const MAX_REFERENCES: nat := 20

  /** A decoded JSON value, as far as the parser looks into it. */
  datatype Json = Str(text: string) | StrList(texts: seq<string>) | OtherJson

  datatype Payload = Undecodable | DuplicateKeys | NonFinite | NotAnObject | Object(fields: map<string, Json>)

  datatype ParseError =
    | TooLong | NotUtf8 | TooNested | NotOneObject | RepeatedKeys | NotFinite | WrongKeys | StaleDecision | NotEligible
    | UnsafeReason | BadReferences

  datatype Parsed = Chosen(task: string, references: seq<string>) | Rejected(error: ParseError)

  /** The outside world's view of a text: its UTF-8 length, its decoding, and
      whether a reason may be shown. */
  datatype Reader = Reader(utf8: string -> Option<nat>, decode: string -> Payload, safe: string -> bool)

  const REQUIRED: set<string> := {"decision_id", "task_id", "reason", "trace_reference_ids"}

  function ReferencesOf(s: Snapshot, task: string): seq<string> {
    ReferencesAmong(s.tasks, task)
  }

  function ReferencesAmong(tasks: seq<Task>, task: string): seq<string> {
    if tasks == [] then [] else if tasks[0].id == task then tasks[0].references else ReferencesAmong(tasks[1..], task)
  }

  lemma {:induction false} ReferencesAreTheTasks(tasks: seq<Task>, t: Task)
    requires DistinctTasks(tasks) && t in tasks
    ensures ReferencesAmong(tasks, t.id) == t.references
  {
    if tasks[0] != t {
      assert tasks == [tasks[0]] + tasks[1..];
      ReferencesAreTheTasks(tasks[1..], t);
    }
  }

  /** The checks on a decoded answer, in order. */
  function Validate(r: Reader, s: Snapshot, payload: Payload): Parsed {
    match payload
    case Undecodable => Rejected(NotOneObject)
    case NotAnObject => Rejected(WrongKeys)
    case DuplicateKeys => Rejected(RepeatedKeys)
    case NonFinite => Rejected(NotFinite)
    case Object(fields) =>
      if fields.Keys != REQUIRED then Rejected(WrongKeys)
      else if fields["decision_id"] != Str(s.decisionId) then Rejected(StaleDecision)
      else if !fields["task_id"].Str? || fields["task_id"].text !in Ids(Eligible(s.tasks)) then Rejected(NotEligible)
      else if !fields["reason"].Str? || !r.safe(fields["reason"].text) then Rejected(UnsafeReason)
      else
        var task, references := fields["task_id"].text, fields["trace_reference_ids"];
        if !references.StrList? || |references.texts| > MAX_REFERENCES || !Distinct(references.texts)
           || exists i :: 0 <= i < |references.texts| && references.texts[i] !in ReferencesOf(s, task)
        then Rejected(BadReferences)
        else Chosen(task, references.texts)
  }

  ghost function Parse(r: Reader, s: Snapshot, text: string): Parsed {
    if |text| > MAX_OUTPUT then Rejected(TooLong)
    else if r.utf8(text).None? then Rejected(NotUtf8)
    else if r.utf8(text).value > MAX_OUTPUT then Rejected(TooLong)
    else if JsonDepth.Run(JsonDepth.START, text).peak > JsonDepth.MAX_DEPTH then Rejected(TooNested)
    else Validate(r, s, r.decode(text))
  }

  method ParseOutput(r: Reader, s: Snapshot, text: string) returns (parsed: Parsed)
    ensures parsed == Parse(r, s, text)
  {
    if |text| > MAX_OUTPUT {
      return Rejected(TooLong);
    }
    var length := r.utf8(text);
    if length.None? {
      return Rejected(NotUtf8);
    }
    if length.value > MAX_OUTPUT {
      return Rejected(TooLong);
    }
    var deep := JsonDepth.TooDeep(text);
    if deep {
      return Rejected(TooNested);
    }
    return Validate(r, s, r.decode(text));
  }

  /** An accepted answer names this decision, an eligible task, and only
      references that task has, at most twenty and none twice. */
  lemma AcceptedAnswer(r: Reader, s: Snapshot, text: string)
    requires Parse(r, s, text).Chosen?
    ensures var c := Parse(r, s, text);
            && r.decode(text).Object? && r.decode(text).fields.Keys == REQUIRED
            && r.decode(text).fields["decision_id"] == Str(s.decisionId)
            && c.task in Ids(Eligible(s.tasks))
            && |c.references| <= 20 && Distinct(c.references)
            && forall x :: x in c.references ==> x in ReferencesOf(s, c.task)
  {
  }

  /** An answer that keeps every rule: one object with exactly the four fields,
      for this decision, with a reason that may be shown. */
  predicate GoodAnswer(r: Reader, s: Snapshot, payload: Payload, task: string, references: seq<string>, reason: string) {
    && payload == Object(map["decision_id" := Str(s.decisionId), "task_id" := Str(task), "reason" := Str(reason),
                             "trace_reference_ids" := StrList(references)])
    && (exists t :: t in s.tasks && t.eligible && t.id == task)
    && r.safe(reason)
    && |references| <= 20
    && (forall i, j :: 0 <= i < j < |references| ==> references[i] != references[j])
    && forall x :: x in references ==> x in ReferencesOf(s, task)
  }

  /** A text of bounded length and depth is accepted exactly when it decodes to a
      good answer, and then for what it says. */
  lemma AcceptsExactly(r: Reader, s: Snapshot, text: string, task: string, references: seq<string>)
    ensures Parse(r, s, text) == Chosen(task, references)
       <==> && |text| <= 65536 && r.utf8(text).Some? && r.utf8(text).value <= 65536
            && JsonDepth.Run(JsonDepth.START, text).peak <= 64
            && exists reason :: GoodAnswer(r, s, r.decode(text), task, references, reason)
  {
    ValidExactly(r, s, r.decode(text), task, references);
  }

  lemma ValidExactly(r: Reader, s: Snapshot, payload: Payload, task: string, references: seq<string>)
    ensures Validate(r, s, payload) == Chosen(task, references)
       <==> exists reason :: GoodAnswer(r, s, payload, task, references, reason)
  {
    if Validate(r, s, payload) == Chosen(task, references) {
      ValidIsGood(r, s, payload, task, references);
    }
    if reason :| GoodAnswer(r, s, payload, task, references, reason) {
      GoodIsValid(r, s, payload, task, references, reason);
    }
  }

  lemma ValidIsGood(r: Reader, s: Snapshot, payload: Payload, task: string, references: seq<string>)
    requires Validate(r, s, payload) == Chosen(task, references)
    ensures exists reason :: GoodAnswer(r, s, payload, task, references, reason)
  {
    EligibleExactly(s, task);
    assert payload.fields == map["decision_id" := Str(s.decisionId), "task_id" := Str(task),
                                 "reason" := payload.fields["reason"], "trace_reference_ids" := StrList(references)];
    assert GoodAnswer(r, s, payload, task, references, payload.fields["reason"].text);
  }

  lemma GoodIsValid(r: Reader, s: Snapshot, payload: Payload, task: string, references: seq<string>, reason: string)
    requires GoodAnswer(r, s, payload, task, references, reason)
    ensures Validate(r, s, payload) == Chosen(task, references)
  {
    EligibleExactly(s, task);
    assert payload.fields.Keys == REQUIRED;
    assert forall i :: 0 <= i < |references| ==> references[i] in references;
  }

  lemma EligibleExactly(s: Snapshot, task: string)
    ensures task in Ids(Eligible(s.tasks)) <==> exists t :: t in s.tasks && t.eligible && t.id == task
  {
    EligibleMembers(s.tasks);
    if t :| t in s.tasks && t.eligible && t.id == task {
      var i :| 0 <= i < |Eligible(s.tasks)| && Eligible(s.tasks)[i] == t;
      assert Ids(Eligible(s.tasks))[i] == task;
    }
    if task in Ids(Eligible(s.tasks)) {
      EligibleId(s, task);
    }
  }

  // ---------------------------------------------------------------------
  // The decision
  // ---------------------------------------------------------------------

  datatype Response = Response(output: string, returncode: int, timedOut: bool, horizon: bool, recoverable: bool)

  /** What calling the model comes to. */
  datatype Invocation = PromptRejected | Raised | NotAResponse | Answered(response: Response)

  const CHARGED := Response("", 1, false, false, false)

  /** The deterministic fallback: the best task by ordinary score. */
  function FallbackTask(w: TaskWeights, s: Snapshot): string {
    HighestScore(Ids(Eligible(s.tasks)), TaskScores(w, s))
  }

  predicate WellBehaved(response: Response) {
    response.returncode == 0 && !response.timedOut && !response.recoverable
  }

  /** The outcome of a call whose answer was not accepted. */
  function FailureOutcome(invocation: Invocation): Outcome {
    match invocation
    case PromptRejected => InvalidOutput
    case Raised => ProviderError
    case NotAResponse => ProviderError
    case Answered(r) =>
      if r.recoverable then ProviderError
      else if r.timedOut then PolicyTimeout
      else if r.returncode != 0 then ProviderError
      else InvalidOutput
  }

  /** The fallback is what the task-state policy would serve, and no eligible task
      has a higher ordinary score. */
  lemma FallbackIsTaskState(w: TaskWeights, s: Snapshot, t: Task)
    requires SnapshotOk(s) && t in s.tasks && t.eligible
    ensures s.remaining > 0.0 && s.free > 0 ==> FallbackTask(w, s) == TaskStateChoose(w, s).selected
    ensures exists u :: u in s.tasks && u.eligible && u.id == FallbackTask(w, s)
                        && (TaskScore(w, t) < TaskScore(w, u)
                            || (TaskScore(w, t) == TaskScore(w, u) && !TextLess(t.id, u.id)))
  {
    var tasks := Eligible(s.tasks);
    var ids := Ids(tasks);
    EligibleListed(s, t);
    HighestIsBest(ids, TaskScores(w, s));
    var k :| 0 <= k < |ids| && ids[k] == FallbackTask(w, s);
    ScoreOfTask(tasks, x => TaskScore(w, x), t);
    ScoreOfTask(tasks, x => TaskScore(w, x), tasks[k]);
    EligibleMembers(s.tasks);
    assert tasks[k] in s.tasks;
  }

  /** A call without an accepted answer: exceptions and answers marked recoverable
      or ended badly in time are the provider's, an answer out of time is the
      policy's timeout, and what is left, a rejected prompt included, is invalid. */
  lemma FailuresAreClassified(i: Invocation)
    ensures FailureOutcome(i) == ProviderError
       <==> || i == Raised || i == NotAResponse
            || (i.Answered? && (i.response.recoverable || (i.response.returncode != 0 && !i.response.timedOut)))
    ensures FailureOutcome(i) == PolicyTimeout <==> i.Answered? && i.response.timedOut && !i.response.recoverable
    ensures FailureOutcome(i) in {ProviderError, PolicyTimeout, InvalidOutput}
  {
  }

  predicate AnyEligible(s: Snapshot) {
    exists t :: t in s.tasks && t.eligible
  }

  lemma SomeEligible(s: Snapshot)
    ensures AnyEligible(s) <==> Eligible(s.tasks) != []
  {
    EligibleMembers(s.tasks);
    if Eligible(s.tasks) != [] {
      assert Eligible(s.tasks)[0] in s.tasks && Eligible(s.tasks)[0].eligible;
    }
  }

  /** Choose by asking the model.  Whatever it does, the decision stays inside the
      closed outcome machine and selects an eligible task or none. */
  method Choose(w: TaskWeights, v: TraceWeights, r: Reader, s: Snapshot, invocation: Invocation)
    returns (d: Decision)
    requires SnapshotOk(s)
    ensures DecisionOk(d) && SelectsEligible(s, d)
    ensures d.decisionId == s.decisionId && d.stateId == s.stateId
    ensures d.outcome != NotInvoked && d.outcome != HorizonTruncated ==>
              && d.taskScores == TaskScores(w, s) && d.increments == Increments(v, s)
              && d.taskScores.Keys == d.increments.Keys && d.scores == Sums(d.taskScores, d.increments)
    ensures d.outcome != Accepted ==> d.references == []
    ensures var invoked := s.remaining > 0.0 && (s.free > 0 || s.owned > 0) && AnyEligible(s);
            var truncated := invocation.Answered? && invocation.response.horizon;
            var answered := invocation.Answered? && WellBehaved(invocation.response);
            var parsed := if answered then Parse(r, s, invocation.response.output) else Rejected(TooLong);
            if !invoked then d == Quiet(s, "")
            else if truncated then d.outcome == HorizonTruncated && d.selected == ""
            else if answered && parsed.Chosen? then
              d.outcome == Accepted && d.selected == parsed.task && d.references == parsed.references
            else d.outcome == FailureOutcome(invocation) && d.fallback && d.selected == FallbackTask(w, s) != ""
  {
    SomeEligible(s);
    if Eligible(s.tasks) == [] || !CapacityAvailable(s, true) {
      return Quiet(s, "");
    }
    var response, failed, promptRejected, exception := CHARGED, true, false, false;
    match invocation {
      case PromptRejected => promptRejected := true;
      case Raised => response, exception := CHARGED.(recoverable := true), true;
      case NotAResponse => response, exception := CHARGED.(recoverable := true), true;
      case Answered(given) => response, failed := given, false;
    }
    var charged := Quiet(s, "").(costed := true, callId := s.decisionId);
    if response.horizon {
      return charged.(outcome := HorizonTruncated, horizon := true);
    }
    var selected, references := "", [];
    if !failed && response.recoverable {
      failed := true;
    }
    if !failed {
      if response.timedOut || response.returncode != 0 {
        failed := true;
      } else {
        var parsed := ParseOutput(r, s, response.output);
        match parsed
        case Chosen(task, given) => selected, references := task, given;
        case Rejected(_) => failed := true;
      }
    }
    var outcome, invalid, recoverable := Accepted, false, response.recoverable;
    ChosenIsEligible(s, w);
    if failed {
      selected := FallbackTask(w, s);
      outcome, invalid, recoverable := ClassifyFailure(response, promptRejected, exception);
    }
    ScoreKeys(w, v, s);
    assert selected in Ids(Eligible(s.tasks));
    EligibleId(s, selected);
    d := charged.(selected := selected, references := references,
                  scores := Sums(TaskScores(w, s), Increments(v, s)),
                  taskScores := TaskScores(w, s), increments := Increments(v, s),
                  outcome := outcome, fallback := failed, invalidOutput := invalid, recoverable := recoverable);
  }

  /** The outcome of a failed call, with its flags. */
  method ClassifyFailure(response: Response, promptRejected: bool, exception: bool)
    returns (outcome: Outcome, invalid: bool, recoverable: bool)
    ensures outcome == if response.recoverable || exception then ProviderError
                       else if response.returncode != 0 && !response.timedOut && !promptRejected then ProviderError
                       else if response.timedOut then PolicyTimeout else InvalidOutput
    ensures (invalid <==> outcome == InvalidOutput) && (recoverable <==> outcome == ProviderError)
  {
    if response.recoverable || exception {
      return ProviderError, false, true;
    }
    if response.returncode != 0 && !response.timedOut && !promptRejected {
      return ProviderError, false, true;
    }
    if response.timedOut {
      return PolicyTimeout, false, false;
    }
    return InvalidOutput, true, false;
  }

  lemma ChosenIsEligible(s: Snapshot, w: TaskWeights)
    requires SnapshotOk(s) && Eligible(s.tasks) != []
    ensures FallbackTask(w, s) in Ids(Eligible(s.tasks)) && FallbackTask(w, s) != ""
  {
    EligibleId(s, FallbackTask(w, s));
  }
}
