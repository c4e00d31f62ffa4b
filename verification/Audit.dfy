/** Same-state counterfactual audits: what a record must satisfy, its dictionary
    form, and why the policies' own choices always make one. */
module Audit {
  import opened Options
  import opened Lexicographic
  import opened Policies
  import opened Sequences

  // ---------------------------------------------------------------------
  // Allocation vectors
  // ---------------------------------------------------------------------

  ghost function Sum(m: map<string, nat>): nat
    decreases |m|
  {
    if m == map[] then 0
    else var k :| k in m; m[k] + Sum(m - {k})
  }

  /** The sum can start with any key. */
  lemma {:induction false} SumFrom(m: map<string, nat>, k: string)
    requires k in m
    ensures Sum(m) == m[k] + Sum(m - {k})
    decreases |m|
  {
    var j :| j in m && Sum(m) == m[j] + Sum(m - {j});
    if j != k {
      SumFrom(m - {j}, k);
      SumFrom(m - {k}, j);
      assert m - {j} - {k} == m - {k} - {j};
    }
  }

  lemma SumUpdate(m: map<string, nat>, k: string, v: nat)
    ensures Sum(m[k := v]) == v + Sum(m - {k})
  {
    SumFrom(m[k := v], k);
    assert m[k := v] - {k} == m - {k};
  }

  /** The vector with one more allocation for the selected task. */
  function VectorAfter(before: map<string, nat>, selected: string): map<string, nat>
    requires selected in before
  {
    before[selected := before[selected] + 1]
  }

  lemma VectorAfterAddsOne(before: map<string, nat>, selected: string)
    requires selected in before
    ensures Sum(VectorAfter(before, selected)) == Sum(before) + 1
  {
    SumUpdate(before, selected, before[selected] + 1);
    SumFrom(before, selected);
  }

  /** The allocations of a snapshot's tasks, by id. */
  function Before(tasks: seq<Task>): (m: map<string, nat>)
    ensures forall id :: id in m <==> id in Ids(tasks)
  {
    if tasks == [] then map[]
    else
      var m := Before(tasks[..|tasks|-1])[tasks[|tasks|-1].id := tasks[|tasks|-1].active];
      assert Ids(tasks) == Ids(tasks[..|tasks|-1]) + [tasks[|tasks|-1].id];
      m
  }

  lemma {:induction false} BeforeSums(tasks: seq<Task>)
    requires DistinctTasks(tasks)
    ensures Sum(Before(tasks)) == TotalActive(tasks)
  {
    if tasks != [] {
      var n := |tasks| - 1;
      BeforeSums(tasks[..n]);
      var m, id := Before(tasks[..n]), tasks[n].id;
      assert id !in m;
      assert m - {id} == m;
      SumUpdate(m, id, tasks[n].active);
    }
  }

  // ---------------------------------------------------------------------
  // Records
  // ---------------------------------------------------------------------

  datatype Record = Record(
    stateId: string, decisionId: string, eligible: seq<string>, configSha: string,
    taskScores: map<string, real>, increments: map<string, real>, totals: map<string, real>,
    before: map<string, nat>, traceAfter: map<string, nat>, taskAfter: map<string, nat>,
    traceSelected: string, taskSelected: string, admitted: string, fallbackReason: string,
    activeBefore: int, activeAfter: int, freeBefore: int, freeAfter: int,
    reservedBefore: int, reservedAfter: int, capacity: int)

  /** Text as the audit demands it: trimmed, bounded, without controls. */
  predicate AuditText(s: string, limit: nat, allowEmpty: bool) {
    if s == "" then allowEmpty
    else
      && |s| <= limit && s[0] != ' ' && s[|s|-1] != ' '
      && forall i :: 0 <= i < |s| ==> s[i] >= ' ' && s[i] != '\U{007F}'
  }

  predicate AuditId(s: string) {
    AuditText(s, 512, false)
  }

  function Abs(x: real): real {
    if x < 0.0 then -x else x
  }

  const TOLERANCE := 0.000000000001

  predicate CapacityOk(total: int, active: int, reserved: int, free: int) {
    total >= 0 && active >= 0 && reserved >= 0 && free >= 0 && active + reserved + free == total
  }

  predicate IdentitiesOk(r: Record) {
    && Sha256(r.stateId) && AuditId(r.decisionId) && Sha256(r.configSha)
    && (forall k :: k in r.before ==> AuditId(k)) && (forall k :: k in r.taskScores ==> AuditId(k))
    && r.eligible != [] && Distinct(r.eligible) && (forall i :: 0 <= i < |r.eligible| ==> AuditId(r.eligible[i]))
    && AuditId(r.traceSelected) && AuditId(r.taskSelected) && AuditId(r.admitted)
    && AuditText(r.fallbackReason, 1000, true)
  }

  ghost predicate ScoresOk(r: Record) {
    && r.increments.Keys == r.taskScores.Keys && r.totals.Keys == r.taskScores.Keys
    && (forall id :: id in r.eligible ==> id in r.before)
    && (forall id :: id in r.taskScores <==> id in r.eligible)
    && (forall id :: id in r.totals ==> Abs(r.totals[id] - (r.taskScores[id] + r.increments[id])) <= TOLERANCE)
    && r.admitted == r.traceSelected
    && r.traceSelected in r.eligible && r.taskSelected in r.eligible
    && PeakChoice(r.eligible, r.totals) == r.traceSelected
    && PeakChoice(r.eligible, r.taskScores) == r.taskSelected
  }

  ghost predicate VectorsOk(r: Record) {
    && r.admitted in r.before && r.taskSelected in r.before
    && r.traceAfter == VectorAfter(r.before, r.admitted)
    && r.taskAfter == VectorAfter(r.before, r.taskSelected)
    && CapacityOk(r.capacity, r.activeBefore, r.reservedBefore, r.freeBefore)
    && CapacityOk(r.capacity, r.activeAfter, r.reservedAfter, r.freeAfter)
    && Sum(r.before) == r.activeBefore && Sum(r.traceAfter) == r.activeAfter && Sum(r.taskAfter) == r.activeAfter
    && r.activeAfter == r.activeBefore + 1 && r.freeAfter == r.freeBefore - 1 && r.reservedAfter == r.reservedBefore
    && Sum(r.traceAfter) - Sum(r.taskAfter) == 0
  }

  /** Everything creation checks. */
  ghost predicate RecordOk(r: Record) {
    IdentitiesOk(r) && ScoresOk(r) && VectorsOk(r)
  }

  // ---------------------------------------------------------------------
  // The audit's own argmax
  // ---------------------------------------------------------------------

  /** The greatest score among the ids. */
  function Peak(ids: seq<string>, scores: map<string, real>): (peak: real)
    requires ids != [] && forall id :: id in ids ==> id in scores
  {
    if |ids| == 1 then scores[ids[0]]
    else
      var front := Peak(ids[..|ids|-1], scores);
      if scores[ids[|ids|-1]] > front then scores[ids[|ids|-1]] else front
  }

  /** The least id with the given score. */
  function LeastWith(ids: seq<string>, scores: map<string, real>, peak: real): string
    requires forall id :: id in ids ==> id in scores
  {
    if ids == [] then ""
    else
      var front, id := LeastWith(ids[..|ids|-1], scores, peak), ids[|ids|-1];
      if scores[id] != peak then front
      else if front == "" || TextLess(id, front) then id
      else front
  }

  ghost function PeakChoice(ids: seq<string>, scores: map<string, real>): string {
    if ids != [] && forall id :: id in ids ==> id in scores then LeastWith(ids, scores, Peak(ids, scores)) else ""
  }

  lemma {:induction false} PeakIsMax(ids: seq<string>, scores: map<string, real>)
    requires ids != [] && forall id :: id in ids ==> id in scores
    ensures (exists id :: id in ids && scores[id] == Peak(ids, scores))
    ensures forall id :: id in ids ==> scores[id] <= Peak(ids, scores)
  {
    var n := |ids| - 1;
    assert ids == ids[..n] + [ids[n]];
    if n > 0 {
      PeakIsMax(ids[..n], scores);
      var front :| front in ids[..n] && scores[front] == Peak(ids[..n], scores);
      assert front in ids && ids[n] in ids;
    } else {
      assert ids[0] in ids;
    }
  }

  lemma {:induction false} LeastWithIsLeast(ids: seq<string>, scores: map<string, real>, peak: real)
    requires "" !in ids && forall id :: id in ids ==> id in scores
    ensures var least := LeastWith(ids, scores, peak);
            && (least == "" <==> forall id :: id in ids ==> scores[id] != peak)
            && (least != "" ==> least in ids && scores[least] == peak)
            && forall id :: id in ids && scores[id] == peak ==> !TextLess(id, least)
  {
    if ids != [] {
      var n := |ids| - 1;
      assert ids == ids[..n] + [ids[n]];
      LeastWithIsLeast(ids[..n], scores, peak);
      var front := LeastWith(ids[..n], scores, peak);
      TextIrreflexive(ids[n]);
      if scores[ids[n]] == peak && front != "" && TextLess(ids[n], front) {
        forall id | id in ids[..n] && scores[id] == peak ensures !TextLess(id, ids[n]) {
          if TextLess(id, ids[n]) { TextTransitive(id, ids[n], front); }
        }
      }
    }
  }

  /** Taking the peak and then the least id is the policies' one-pass argmax. */
  lemma PeakChoiceIsHighest(ids: seq<string>, scores: map<string, real>)
    requires ids != [] && "" !in ids && forall id :: id in ids ==> id in scores
    ensures PeakChoice(ids, scores) == HighestScore(ids, scores)
  {
    PeakIsMax(ids, scores);
    LeastWithIsLeast(ids, scores, Peak(ids, scores));
    HighestIsBest(ids, scores);
    BestIsUnique(ids, scores, PeakChoice(ids, scores), HighestScore(ids, scores));
  }

  // ---------------------------------------------------------------------
  // The policies' choices make a record
  // ---------------------------------------------------------------------

  /** The record a runner emits for an admitted trace-state choice and its
      same-state counterfactual. */
  function AuditRecord(s: Snapshot, trace: Decision, task: Decision, fallbackReason: string): Record {
    var before := Before(s.tasks);
    Record(s.stateId, s.decisionId, Ids(Eligible(s.tasks)), s.configSha,
           trace.taskScores, trace.increments, trace.scores, before,
           if trace.selected in before then VectorAfter(before, trace.selected) else map[],
           if task.selected in before then VectorAfter(before, task.selected) else map[],
           trace.selected, task.selected, trace.selected, fallbackReason,
           s.activeSlots, s.activeSlots + 1, s.free, if s.free >= 1 then s.free - 1 else 0,
           s.reserved, s.reserved, s.capacity)
  }

  function AuditOf(w: TaskWeights, v: TraceWeights, s: Snapshot, fallbackReason: string): Record {
    AuditRecord(s, TraceStateChoose(w, v, s), TaskStateChoose(w, s), fallbackReason)
  }

  /** Two decisions over the same eligible tasks, each the argmax of its scores. */
  ghost predicate Argmaxes(s: Snapshot, trace: Decision, task: Decision) {
    var ids := Ids(Eligible(s.tasks));
    && (forall id :: id in trace.taskScores <==> id in ids)
    && trace.increments.Keys == trace.taskScores.Keys
    && trace.scores == Sums(trace.taskScores, trace.increments)
    && trace.selected == HighestScore(ids, trace.scores)
    && task.selected == HighestScore(ids, trace.taskScores)
  }

  lemma ChoicesAreArgmaxes(w: TaskWeights, v: TraceWeights, s: Snapshot)
    requires CapacityAvailable(s, false)
    ensures Argmaxes(s, TraceStateChoose(w, v, s), TaskStateChoose(w, s))
  {
    ScoreKeys(w, v, s);
  }

  lemma EligibleIdsAreTasks(s: Snapshot)
    requires SnapshotOk(s)
    ensures forall id :: id in Ids(Eligible(s.tasks)) ==> id in Before(s.tasks) && Identifier(id)
    ensures Distinct(Ids(Eligible(s.tasks)))
  {
    EligibleMembers(s.tasks);
    EligibleDistinct(s.tasks);
    var ids := Ids(Eligible(s.tasks));
    forall id | id in ids ensures id in Before(s.tasks) && Identifier(id) {
      var i :| 0 <= i < |ids| && ids[i] == id;
      var t := Eligible(s.tasks)[i];
      assert t in s.tasks;
      var k :| 0 <= k < |s.tasks| && s.tasks[k] == t;
      assert Ids(s.tasks)[k] == id;
    }
  }

  lemma AuditScoresOk(s: Snapshot, trace: Decision, task: Decision, fallbackReason: string)
    requires SnapshotOk(s) && Eligible(s.tasks) != [] && Argmaxes(s, trace, task)
    ensures ScoresOk(AuditRecord(s, trace, task, fallbackReason))
  {
    var ids := Ids(Eligible(s.tasks));
    EligibleIdsAreTasks(s);
    PeakChoiceIsHighest(ids, trace.taskScores);
    PeakChoiceIsHighest(ids, trace.scores);
    ScoresAgree(ids, trace, AuditRecord(s, trace, task, fallbackReason));
  }

  lemma ScoresAgree(ids: seq<string>, trace: Decision, r: Record)
    requires forall id :: id in trace.taskScores <==> id in ids
    requires trace.increments.Keys == trace.taskScores.Keys
    requires trace.scores == Sums(trace.taskScores, trace.increments)
    requires r.taskScores == trace.taskScores && r.increments == trace.increments && r.totals == trace.scores
    ensures r.totals.Keys == r.taskScores.Keys
    ensures forall id :: id in r.totals ==> Abs(r.totals[id] - (r.taskScores[id] + r.increments[id])) <= TOLERANCE
  {
  }

  lemma AuditVectorsOk(s: Snapshot, trace: Decision, task: Decision, fallbackReason: string)
    requires SnapshotOk(s) && Eligible(s.tasks) != [] && Argmaxes(s, trace, task) && s.free > 0
    ensures VectorsOk(AuditRecord(s, trace, task, fallbackReason))
  {
    EligibleIdsAreTasks(s);
    assert trace.selected in Ids(Eligible(s.tasks)) && task.selected in Ids(Eligible(s.tasks));
    BeforeSums(s.tasks);
    VectorAfterAddsOne(Before(s.tasks), trace.selected);
    VectorAfterAddsOne(Before(s.tasks), task.selected);
  }

  /** On any snapshot with a free slot, time left and an eligible task, the two
      policies' choices make an acceptable record exactly when the snapshot's
      configuration hash is a SHA-256 text and the reason is admissible. */
  lemma ChoicesAreAuditable(w: TaskWeights, v: TraceWeights, s: Snapshot, fallbackReason: string)
    requires SnapshotOk(s) && s.free > 0 && s.remaining > 0.0 && Eligible(s.tasks) != []
    ensures RecordOk(AuditOf(w, v, s, fallbackReason))
       <==> Sha256(s.configSha) && AuditText(fallbackReason, 1000, true)
  {
    var trace, task := TraceStateChoose(w, v, s), TaskStateChoose(w, s);
    ChoicesAreArgmaxes(w, v, s);
    AuditIdentitiesOk(s, trace, task, fallbackReason);
    AuditScoresOk(s, trace, task, fallbackReason);
    AuditVectorsOk(s, trace, task, fallbackReason);
  }

  /** One idle eligible task, one free slot, and no configuration hash. */
  const UNHASHED := Snapshot("d", 0, seq(64, _ => '0'), 1.0, 1, 0, 0, 0, 1, "",
                             [Task("t", true, 0, 0.0, 0.0, 0.0, 0.0, Trace(0.0, 0.0, 0.0, 0.0, 0.0, None), [])])

  /** A snapshot the core accepts whose choices make no acceptable record. */
  lemma UnhashedSnapshotIsNotAuditable(w: TaskWeights, v: TraceWeights)
    ensures SnapshotOk(UNHASHED) && UNHASHED.free > 0 && UNHASHED.remaining > 0.0 && |Eligible(UNHASHED.tasks)| == 1
    ensures !RecordOk(AuditOf(w, v, UNHASHED, ""))
  {
    var tasks := UNHASHED.tasks;
    assert tasks[..0] == [] && Eligible(tasks) == tasks;
    ChoicesAreAuditable(w, v, UNHASHED, "");
  }

  lemma AuditIdentitiesOk(s: Snapshot, trace: Decision, task: Decision, fallbackReason: string)
    requires SnapshotOk(s) && Eligible(s.tasks) != [] && Argmaxes(s, trace, task)
    ensures IdentitiesOk(AuditRecord(s, trace, task, fallbackReason))
       <==> Sha256(s.configSha) && AuditText(fallbackReason, 1000, true)
  {
    var ids := Ids(Eligible(s.tasks));
    IdsAreAuditIds(s);
    assert trace.selected in ids && task.selected in ids;
  }

  lemma IdsAreAuditIds(s: Snapshot)
    requires SnapshotOk(s)
    ensures AuditId(s.decisionId) && Distinct(Ids(Eligible(s.tasks)))
    ensures forall k :: k in Before(s.tasks) ==> AuditId(k)
    ensures forall id :: id in Ids(Eligible(s.tasks)) ==> AuditId(id)
  {
    EligibleIdsAreTasks(s);
    forall k | k in Before(s.tasks) ensures AuditId(k) {
      var i :| 0 <= i < |s.tasks| && Ids(s.tasks)[i] == k;
      IdentifierIsAuditId(s.tasks[i].id);
    }
    forall id | id in Ids(Eligible(s.tasks)) ensures AuditId(id) {
      IdentifierIsAuditId(id);
    }
    IdentifierIsAuditId(s.decisionId);
  }

  /** What the core lets through as an identifier, the audit accepts. */
  lemma IdentifierIsAuditId(s: string)
    requires Identifier(s)
    ensures AuditId(s)
  {
  }

  // ---------------------------------------------------------------------
  // The dictionary form
  // ---------------------------------------------------------------------

  /** The keys of an audit row; anything else is `Other`. */
  datatype Key =
    | SchemaVersion | StateId | DecisionId | EligibleIds | ConfigSha | TaskScoresKey | IncrementsKey | TotalsKey
    | BeforeKey | TraceAfterKey | TaskAfterKey | TraceSelectedKey | TaskSelectedKey | AdmittedKey | FallbackReasonKey
    | ActiveBefore | ActiveAfter | FreeBefore | FreeAfter | ReservedBefore | ReservedAfter | TotalCapacity
    | DeltaSum | Conserved | Other(name: string)

  datatype Value =
    | Text(text: string) | Texts(texts: seq<string>) | Reals(reals: map<string, real>) | Counts(counts: map<string, nat>)
    | Number(number: int) | Flag(flag: bool)

  const SCHEMA := "contextswarm_allocation_audit_v1"

  function TextAt(row: map<Key, Value>, k: Key): Option<string> {
    if k in row && row[k].Text? then Some(row[k].text) else None
  }

  function RealsAt(row: map<Key, Value>, k: Key): Option<map<string, real>> {
    if k in row && row[k].Reals? then Some(row[k].reals) else None
  }

  function CountsAt(row: map<Key, Value>, k: Key): Option<map<string, nat>> {
    if k in row && row[k].Counts? then Some(row[k].counts) else None
  }

  function NumberAt(row: map<Key, Value>, k: Key): Option<int> {
    if k in row && row[k].Number? then Some(row[k].number) else None
  }

  /** The text at a key that may be left out. */
  function TextOr(row: map<Key, Value>, k: Key): Option<string> {
    if k !in row then Some("") else TextAt(row, k)
  }

  /** A vector that may be left out is derived from the one before. */
  function VectorOr(row: map<Key, Value>, k: Key, before: map<string, nat>, selected: string): Option<map<string, nat>> {
    if k in row then CountsAt(row, k)
    else if selected in before then Some(VectorAfter(before, selected))
    else None
  }

  datatype TextPart = TextPart(
    state: string, decision: string, config: string, traceSelected: string, taskSelected: string,
    admitted: string, reason: string)

  datatype MapPart = MapPart(
    eligible: seq<string>, taskScores: map<string, real>, increments: map<string, real>, totals: map<string, real>,
    before: map<string, nat>)

  datatype NumberPart = NumberPart(
    activeBefore: int, activeAfter: int, freeBefore: int, freeAfter: int, reservedBefore: int, reservedAfter: int,
    capacity: int)

  function TextsIn(row: map<Key, Value>): Option<TextPart> {
    var state, decision, config := TextAt(row, StateId), TextAt(row, DecisionId), TextAt(row, ConfigSha);
    var traceSelected, taskSelected := TextOr(row, TraceSelectedKey), TextOr(row, TaskSelectedKey);
    var admitted, reason := TextOr(row, AdmittedKey), TextOr(row, FallbackReasonKey);
    if state.None? || decision.None? || config.None? || traceSelected.None? || taskSelected.None? || admitted.None?
       || reason.None?
    then None
    else Some(TextPart(state.value, decision.value, config.value, traceSelected.value, taskSelected.value,
                       admitted.value, reason.value))
  }

  function MapsIn(row: map<Key, Value>): Option<MapPart> {
    var task, increments, totals := RealsAt(row, TaskScoresKey), RealsAt(row, IncrementsKey), RealsAt(row, TotalsKey);
    var before := CountsAt(row, BeforeKey);
    if task.None? || increments.None? || totals.None? || before.None? || EligibleIds !in row || !row[EligibleIds].Texts?
    then None
    else Some(MapPart(row[EligibleIds].texts, task.value, increments.value, totals.value, before.value))
  }

  function NumbersIn(row: map<Key, Value>): Option<NumberPart> {
    var ab, aa, fb := NumberAt(row, ActiveBefore), NumberAt(row, ActiveAfter), NumberAt(row, FreeBefore);
    var fa, rb, ra := NumberAt(row, FreeAfter), NumberAt(row, ReservedBefore), NumberAt(row, ReservedAfter);
    var total := NumberAt(row, TotalCapacity);
    if ab.None? || aa.None? || fb.None? || fa.None? || rb.None? || ra.None? || total.None? then None
    else Some(NumberPart(ab.value, aa.value, fb.value, fa.value, rb.value, ra.value, total.value))
  }

  /** The record a row describes, if its fields are there and of the right type. */
  function Shape(row: map<Key, Value>): Option<Record> {
    match (TextsIn(row), MapsIn(row), NumbersIn(row))
    case (Some(t), Some(m), Some(n)) =>
      var traceAfter := VectorOr(row, TraceAfterKey, m.before, t.admitted);
      var taskAfter := VectorOr(row, TaskAfterKey, m.before, t.taskSelected);
      if traceAfter.None? || taskAfter.None? then None
      else Some(Record(t.state, t.decision, m.eligible, t.config, m.taskScores, m.increments, m.totals, m.before,
                       traceAfter.value, taskAfter.value, t.traceSelected, t.taskSelected, t.admitted, t.reason,
                       n.activeBefore, n.activeAfter, n.freeBefore, n.freeAfter, n.reservedBefore, n.reservedAfter,
                       n.capacity))
    case _ => None
  }

  predicate Known(k: Key) {
    !k.SchemaVersion? && !k.DeltaSum? && !k.Conserved? && !k.Other?
  }

  /** Create a record from a row, refusing unknown fields. */
  ghost function Create(row: map<Key, Value>): Option<Record> {
    var shape := Shape(row);
    if shape.None? || !RecordOk(shape.value) || exists k :: k in row && !Known(k) then None else shape
  }

  const FIELDS: set<Key> := {
    StateId, DecisionId, EligibleIds, ConfigSha, TaskScoresKey, IncrementsKey, TotalsKey, BeforeKey, TraceAfterKey,
    TaskAfterKey, TraceSelectedKey, TaskSelectedKey, AdmittedKey, FallbackReasonKey, ActiveBefore, ActiveAfter,
    FreeBefore, FreeAfter, ReservedBefore, ReservedAfter, TotalCapacity}

  function ValueOf(r: Record, k: Key): Value {
    match k
    case StateId => Text(r.stateId)
    case DecisionId => Text(r.decisionId)
    case EligibleIds => Texts(r.eligible)
    case ConfigSha => Text(r.configSha)
    case TaskScoresKey => Reals(r.taskScores)
    case IncrementsKey => Reals(r.increments)
    case TotalsKey => Reals(r.totals)
    case BeforeKey => Counts(r.before)
    case TraceAfterKey => Counts(r.traceAfter)
    case TaskAfterKey => Counts(r.taskAfter)
    case TraceSelectedKey => Text(r.traceSelected)
    case TaskSelectedKey => Text(r.taskSelected)
    case AdmittedKey => Text(r.admitted)
    case FallbackReasonKey => Text(r.fallbackReason)
    case ActiveBefore => Number(r.activeBefore)
    case ActiveAfter => Number(r.activeAfter)
    case FreeBefore => Number(r.freeBefore)
    case FreeAfter => Number(r.freeAfter)
    case ReservedBefore => Number(r.reservedBefore)
    case ReservedAfter => Number(r.reservedAfter)
    case TotalCapacity => Number(r.capacity)
    case SchemaVersion => Text(SCHEMA)
    case DeltaSum => Number(0)
    case Conserved => Flag(true)
    case Other(_) => Flag(false)
  }

  /** The fields of a record, without the schema and the conservation claims. */
  function FieldsOf(r: Record): map<Key, Value> {
    map k | k in FIELDS :: ValueOf(r, k)
  }

  lemma FieldsHas(k: Key)
    ensures k in FIELDS <==> Known(k)
  {
  }

  function AsDict(r: Record): map<Key, Value> {
    map k | k in FIELDS + {SchemaVersion, DeltaSum, Conserved} :: ValueOf(r, k)
  }

  ghost function FromDict(row: map<Key, Value>): Option<Record> {
    if SchemaVersion !in row || row[SchemaVersion] != Text(SCHEMA) then None
    else if DeltaSum !in row || row[DeltaSum] != Number(0) || Conserved !in row || row[Conserved] != Flag(true) then None
    else Create(row - {SchemaVersion, DeltaSum, Conserved})
  }

  lemma FieldsAreKnown(r: Record)
    ensures forall k :: k in FieldsOf(r) ==> Known(k)
  {
    forall k ensures k in FIELDS <==> Known(k) { FieldsHas(k); }
  }

  lemma DictBody(r: Record)
    ensures AsDict(r) - {SchemaVersion, DeltaSum, Conserved} == FieldsOf(r)
  {
    NoHeaderAmongFields();
  }

  lemma NoHeaderAmongFields()
    ensures SchemaVersion !in FIELDS && DeltaSum !in FIELDS && Conserved !in FIELDS
  {
  }

  lemma FieldsLookup(r: Record, k: Key)
    requires Known(k)
    ensures k in FieldsOf(r) && FieldsOf(r)[k] == ValueOf(r, k)
  {
    FieldsHas(k);
  }

  /** A row that holds a record's value under every field. */
  ghost predicate Holds(row: map<Key, Value>, r: Record) {
    forall k :: Known(k) ==> HoldsAt(row, r, k)
  }

  predicate HoldsAt(row: map<Key, Value>, r: Record, k: Key) {
    k in row && row[k] == ValueOf(r, k)
  }

  lemma FullTexts(row: map<Key, Value>, r: Record)
    requires Holds(row, r)
    ensures TextsIn(row) == Some(TextPart(r.stateId, r.decisionId, r.configSha, r.traceSelected, r.taskSelected,
                                          r.admitted, r.fallbackReason))
  {
    assert HoldsAt(row, r, StateId) && HoldsAt(row, r, DecisionId) && HoldsAt(row, r, ConfigSha);
    assert HoldsAt(row, r, TraceSelectedKey) && HoldsAt(row, r, TaskSelectedKey);
    assert HoldsAt(row, r, AdmittedKey) && HoldsAt(row, r, FallbackReasonKey);
  }

  lemma FullMaps(row: map<Key, Value>, r: Record)
    requires Holds(row, r)
    ensures MapsIn(row) == Some(MapPart(r.eligible, r.taskScores, r.increments, r.totals, r.before))
  {
    assert HoldsAt(row, r, EligibleIds) && HoldsAt(row, r, BeforeKey);
    assert HoldsAt(row, r, TaskScoresKey) && HoldsAt(row, r, IncrementsKey) && HoldsAt(row, r, TotalsKey);
  }

  lemma FullNumbers(row: map<Key, Value>, r: Record)
    requires Holds(row, r)
    ensures NumbersIn(row) == Some(NumberPart(r.activeBefore, r.activeAfter, r.freeBefore, r.freeAfter,
                                              r.reservedBefore, r.reservedAfter, r.capacity))
  {
    NumberHeld(row, r, ActiveBefore);
    NumberHeld(row, r, ActiveAfter);
    NumberHeld(row, r, FreeBefore);
    NumberHeld(row, r, FreeAfter);
    NumberHeld(row, r, ReservedBefore);
    NumberHeld(row, r, ReservedAfter);
    NumberHeld(row, r, TotalCapacity);
  }

  lemma NumberHeld(row: map<Key, Value>, r: Record, k: Key)
    requires Holds(row, r) && Known(k) && ValueOf(r, k).Number?
    ensures NumberAt(row, k) == Some(ValueOf(r, k).number)
  {
    assert HoldsAt(row, r, k);
  }

  lemma FullShape(row: map<Key, Value>, r: Record)
    requires Holds(row, r)
    ensures Shape(row) == Some(r)
  {
    FullTexts(row, r);
    FullMaps(row, r);
    FullNumbers(row, r);
    assert HoldsAt(row, r, TraceAfterKey) && HoldsAt(row, r, TaskAfterKey);
  }

  lemma FieldsShape(r: Record)
    ensures Shape(FieldsOf(r)) == Some(r)
  {
    forall k | Known(k) ensures HoldsAt(FieldsOf(r), r, k) {
      FieldsLookup(r, k);
    }
    FullShape(FieldsOf(r), r);
  }

  lemma CreateFromFields(r: Record)
    ensures Create(FieldsOf(r)) == if RecordOk(r) then Some(r) else None
  {
    FieldsShape(r);
    FieldsAreKnown(r);
  }

  /** Decoding an encoded record gives it back exactly when it is acceptable, so
      revalidation at the persistence boundary refuses every forged record. */
  lemma RoundTrip(r: Record)
    ensures FromDict(AsDict(r)) == if RecordOk(r) then Some(r) else None
  {
    DictHeader(r);
    DictBody(r);
    FromBody(AsDict(r), FieldsOf(r));
    CreateFromFields(r);
  }

  lemma DictHeader(r: Record)
    ensures SchemaVersion in AsDict(r) && AsDict(r)[SchemaVersion] == Text(SCHEMA)
    ensures DeltaSum in AsDict(r) && AsDict(r)[DeltaSum] == Number(0)
    ensures Conserved in AsDict(r) && AsDict(r)[Conserved] == Flag(true)
  {
  }

  /** Past its header, a row is decoded by creating from what remains. */
  lemma FromBody(row: map<Key, Value>, body: map<Key, Value>)
    requires SchemaVersion in row && row[SchemaVersion] == Text(SCHEMA)
    requires DeltaSum in row && row[DeltaSum] == Number(0) && Conserved in row && row[Conserved] == Flag(true)
    requires row - {SchemaVersion, DeltaSum, Conserved} == body
    ensures FromDict(row) == Create(body)
  {
  }

  /** Whatever creation accepts is acceptable and survives the round trip. */
  lemma CreatedRoundTrips(row: map<Key, Value>)
    requires Create(row).Some?
    ensures RecordOk(Create(row).value) && FromDict(AsDict(Create(row).value)) == Create(row)
  {
    RoundTrip(Create(row).value);
  }

  /** An acceptable record's two hypothetical vectors differ by moving a single
      allocation from the ordinary choice to the trace choice. */
  lemma CounterfactualMovesOne(r: Record, id: string)
    requires RecordOk(r) && id in r.before
    ensures id in r.traceAfter && id in r.taskAfter
    ensures r.traceAfter[id] as int - r.taskAfter[id] as int
         == (if id == r.traceSelected then 1 else 0) - (if id == r.taskSelected then 1 else 0)
  {
  }
}
