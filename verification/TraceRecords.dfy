/** Trace projection records, their identity, and the two orders on them. */
module TraceRecords {
  import opened Lexicographic
  import opened Names
  import opened Options

  /** The closed vocabularies a record kind can belong to; they are disjoint. */
  datatype Kind =
    | RawVerifier | Trace | Frontier | Association | Exposure | PositiveFeedback | NegativeFeedback
    | Duplicate | Refutation | Stale | Stagnation | Lifecycle | Other

  /** A kind text together with the vocabulary it belongs to. */
  datatype Label = Label(text: string, kind: Kind)

  function LabelOf(text: string): Label {
    Label(text, KindOf(text))
  }

  function KindOf(kind: string): Kind {
    if kind in {"candidate_verdict", "checker_receipt", "judge_receipt", "judge_result", "validation_result",
                "verifier_feedback", "verifier_receipt", "verifier_result", "evaluator_feedback",
                "evaluator_receipt"} then RawVerifier
    else if kind in {"trace", "trace_created", "trace_updated", "context_piece", "piece", "piece_created",
                     "piece_snapshot"} then Trace
    else if kind in {"actionable_frontier", "frontier", "frontier_item", "proof_frontier"} then Frontier
    else if kind in {"evidence_association", "evidence_link", "lineage_evidence_link"} then Association
    else if kind in {"feedback_exposure", "piece_exposure", "worker_exposure"} then Exposure
    else if kind in {"feedback_helpful", "feedback_positive", "helpful", "positive_feedback",
                     "worker_feedback_positive"} then PositiveFeedback
    else if kind in {"feedback_harmful", "feedback_negative", "feedback_unhelpful", "harmful",
                     "negative_feedback", "unhelpful", "worker_feedback_negative"} then NegativeFeedback
    else if kind in {"duplicate", "duplicate_lineage", "duplicate_piece"} then Duplicate
    else if kind in {"lineage_refutation", "refutation", "refuted"} then Refutation
    else if kind in {"stale", "stale_lineage", "stale_piece"} then Stale
    else if kind in {"lineage_stagnation", "stagnant", "stagnation"} then Stagnation
    else if kind in {"lifecycle", "lifecycle_update", "trace_lifecycle", "piece_lifecycle", "status"} then Lifecycle
    else Other
  }

  datatype Record = Record(
    sequence: nat, taskId: string, tag: Label, recordId: string, lineageId: string, evidenceId: string,
    workerId: string, source: string, outcomeId: string, exposureId: string,
    effective: bool, terminal: bool, effectiveDeclared: bool,
    traceId: string, lifecycle: string, active: Option<bool>, actionable: Option<bool>,
    eventTime: Option<real>, trust: real, trustDeclared: bool, trustRank: int, feedbackValue: Option<real>,
    committedSequence: nat, runId: string, episodeId: string, targetTraceId: string, relation: Label)

  /** The identity under which replayed rows are recognised.  Without a record
      id it names ten fields; `exposureId` is not one of them. */
  function Identity(r: Record): (id: seq<string>)
    ensures id != []
  {
    if r.recordId != "" then ["id", r.taskId, r.source, r.recordId]
    else ["semantic", Decimal(r.sequence), r.taskId, r.tag.text, r.lineageId, r.evidenceId, r.workerId, r.source,
          r.outcomeId, r.traceId]
  }

  function EntityKey(r: Record): string {
    if r.traceId != "" then r.traceId
    else if r.targetTraceId != "" then r.targetTraceId
    else if r.lineageId != "" then "lineage:" + r.lineageId
    else ""
  }

  predicate IsState(r: Record) {
    || r.active.Some? || r.actionable.Some? || r.lifecycle != ""
    || r.tag.kind in {Trace, Frontier, Lifecycle, Duplicate, Refutation, Stale, Stagnation}
    || r.relation.kind in {Duplicate, Refutation, Stale}
  }

  predicate InactiveLifecycle(lifecycle: string) {
    lifecycle in {"inactive", "refuted", "retired", "stale", "superseded"}
  }

  predicate IsActivity(r: Record) {
    && r.tag.kind !in {Stagnation, Stale, Refutation}
    && !InactiveLifecycle(r.lifecycle)
    && (r.tag.kind in {Trace, Frontier, Association} || r.active == Some(true) || r.actionable == Some(true))
  }

  function Precedence(lifecycle: string): nat {
    if lifecycle in {"refuted", "retired", "superseded"} then 3
    else if lifecycle in {"stale", "inactive"} then 2
    else if lifecycle in {"active", "actionable", "frontier"} then 1
    else 0
  }

  /** Rows from the checkers are never trace evidence. */
  predicate FromChecker(r: Record) {
    r.tag.kind == RawVerifier || r.source in {"checker", "evaluator", "judge", "runner", "verifier"}
  }

  // ---------------------------------------------------------------------
  // Processing order
  // ---------------------------------------------------------------------

  predicate RowLess(a: Record, b: Record) {
    a.sequence < b.sequence || (a.sequence == b.sequence && TextsLess(Identity(a), Identity(b)))
  }

  lemma RowLessTransitive(a: Record, b: Record, c: Record)
    requires RowLess(a, b) && RowLess(b, c)
    ensures RowLess(a, c)
  {
    if a.sequence == b.sequence == c.sequence {
      TextsTransitive(Identity(a), Identity(b), Identity(c));
    }
  }

  lemma RowLessTotal(a: Record, b: Record)
    ensures RowLess(a, b) || RowLess(b, a) || (a.sequence == b.sequence && Identity(a) == Identity(b))
    ensures !(RowLess(a, b) && RowLess(b, a))
  {
    TextsTrichotomy(Identity(a), Identity(b));
    if RowLess(a, b) && RowLess(b, a) {
      TextsTransitive(Identity(a), Identity(b), Identity(a));
      TextsIrreflexive(Identity(a));
    }
  }

  // ---------------------------------------------------------------------
  // Which row sets the current state
  // ---------------------------------------------------------------------

  datatype StateKey = StateKey(sequence: nat, time: Option<real>, precedence: nat, identity: seq<string>)

  function KeyOf(r: Record): StateKey {
    StateKey(r.sequence, r.eventTime, Precedence(if r.lifecycle != "" then r.lifecycle else r.tag.text), Identity(r))
  }

  /** An absent time counts as minus infinity. */
  predicate TimeLess(a: Option<real>, b: Option<real>) {
    b.Some? && (a.None? || a.value < b.value)
  }

  predicate KeyLess(a: StateKey, b: StateKey) {
    || a.sequence < b.sequence
    || (a.sequence == b.sequence
        && (|| TimeLess(a.time, b.time)
            || (a.time == b.time
                && (|| a.precedence < b.precedence
                    || (a.precedence == b.precedence && TextsLess(a.identity, b.identity))))))
  }

  /** Of two simultaneous state rows, one that says the trace is dead wins over
      one that does not, so dead state is never resurrected by a tie. */
  lemma DeadStateWins(a: Record, b: Record)
    requires a.sequence == b.sequence && a.eventTime == b.eventTime
    requires InactiveLifecycle(a.lifecycle)
    requires !InactiveLifecycle(if b.lifecycle != "" then b.lifecycle else b.tag.text)
    ensures KeyLess(KeyOf(b), KeyOf(a))
  {
  }

  lemma KeyLessTransitive(a: StateKey, b: StateKey, c: StateKey)
    requires KeyLess(a, b) && KeyLess(b, c)
    ensures KeyLess(a, c)
  {
    if TextsLess(a.identity, b.identity) && TextsLess(b.identity, c.identity) {
      TextsTransitive(a.identity, b.identity, c.identity);
    }
  }

  lemma KeyLessTotal(a: StateKey, b: StateKey)
    ensures a == b || KeyLess(a, b) || KeyLess(b, a)
    ensures !KeyLess(a, a)
  {
    TextsTrichotomy(a.identity, b.identity);
    TextsIrreflexive(a.identity);
  }
}
