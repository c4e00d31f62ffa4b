/** Allocation snapshots, the task and trace scores, and the decisions the
    allocation policies take on them. */
module Policies {
  import opened Options
  import opened Lexicographic

  // ---------------------------------------------------------------------
  // Snapshots
  // ---------------------------------------------------------------------

  datatype Trace = Trace(
    actionability: real, association: real, positive: real, negative: real, drag: real,
    components: Option<Components>)

  datatype Components = Components(duplication: real, refutation: real, staleness: real, stagnation: real)

  datatype Task = Task(
    id: string, eligible: bool, active: nat,
    quality: real, progress: real, starvation: real, failure: real,
    trace: Trace, references: seq<string>)

  datatype Snapshot = Snapshot(
    decisionId: string, decisionIndex: nat, stateId: string, remaining: real,
    capacity: nat, activeSlots: nat, reserved: nat, owned: nat, free: nat,
    configSha: string, tasks: seq<Task>)

  /** An identifier as the core normalises it: bounded, trimmed, without controls. */
  predicate Identifier(s: string) {
    && 0 < |s| <= 512 && s[0] != ' ' && s[|s|-1] != ' '
    && forall i :: 0 <= i < |s| ==> s[i] >= ' ' && s[i] != '\U{007F}'
  }

  predicate Sha256(s: string) {
    |s| == 64 && forall i :: 0 <= i < 64 ==> '0' <= s[i] <= '9' || 'a' <= s[i] <= 'f'
  }

  function TotalActive(tasks: seq<Task>): nat {
    if tasks == [] then 0 else TotalActive(tasks[..|tasks|-1]) + tasks[|tasks|-1].active
  }

  predicate DistinctTasks(tasks: seq<Task>) {
    forall i, j :: 0 <= i < j < |tasks| ==> tasks[i].id != tasks[j].id
  }

  /** What the snapshot's own validation guarantees. */
  predicate SnapshotOk(s: Snapshot) {
    && Identifier(s.decisionId) && Sha256(s.stateId)
    && DistinctTasks(s.tasks) && (forall i :: 0 <= i < |s.tasks| ==> Identifier(s.tasks[i].id))
    && s.owned <= 1 && s.owned <= s.reserved
    && TotalActive(s.tasks) == s.activeSlots
    && s.activeSlots + s.reserved + s.free == s.capacity
  }

  function InsertTask(tasks: seq<Task>, t: Task): seq<Task> {
    if tasks == [] then [t]
    else if TextLess(t.id, tasks[0].id) then [t] + tasks
    else [tasks[0]] + InsertTask(tasks[1..], t)
  }

  /** The eligible tasks, sorted by id. */
  function Eligible(tasks: seq<Task>): seq<Task> {
    if tasks == [] then []
    else
      var front, t := Eligible(tasks[..|tasks|-1]), tasks[|tasks|-1];
      if t.eligible then InsertTask(front, t) else front
  }

  function Ids(tasks: seq<Task>): (ids: seq<string>)
    ensures |ids| == |tasks| && forall i :: 0 <= i < |tasks| ==> ids[i] == tasks[i].id
  {
    seq(|tasks|, i requires 0 <= i < |tasks| => tasks[i].id)
  }

  lemma {:induction false} InsertTaskMembers(tasks: seq<Task>, t: Task)
    ensures forall x :: x in InsertTask(tasks, t) <==> x in tasks || x == t
  {
    if tasks != [] && !TextLess(t.id, tasks[0].id) {
      InsertTaskMembers(tasks[1..], t);
    }
  }

  lemma {:induction false} InsertTaskDistinct(tasks: seq<Task>, t: Task)
    requires DistinctTasks(tasks) && forall x :: x in tasks ==> x.id != t.id
    ensures DistinctTasks(InsertTask(tasks, t))
  {
    if tasks != [] && !TextLess(t.id, tasks[0].id) {
      InsertTaskDistinct(tasks[1..], t);
      InsertTaskMembers(tasks[1..], t);
      forall x | x in InsertTask(tasks[1..], t) ensures x.id != tasks[0].id {
        if x in tasks[1..] { assert x in tasks; }
      }
    }
  }

  lemma {:induction false} EligibleMembers(tasks: seq<Task>)
    ensures forall t :: t in Eligible(tasks) <==> t in tasks && t.eligible
  {
    if tasks != [] {
      EligibleMembers(tasks[..|tasks|-1]);
      InsertTaskMembers(Eligible(tasks[..|tasks|-1]), tasks[|tasks|-1]);
      assert tasks == tasks[..|tasks|-1] + [tasks[|tasks|-1]];
    }
  }

  lemma {:induction false} EligibleDistinct(tasks: seq<Task>)
    requires DistinctTasks(tasks)
    ensures DistinctTasks(Eligible(tasks))
  {
    if tasks != [] {
      var n := |tasks| - 1;
      EligibleDistinct(tasks[..n]);
      EligibleMembers(tasks[..n]);
      InsertTaskDistinct(Eligible(tasks[..n]), tasks[n]);
    }
  }

  // ---------------------------------------------------------------------
  // Scores
  // ---------------------------------------------------------------------

  datatype TaskWeights = TaskWeights(quality: real, progress: real, starvation: real, failure: real)

  datatype TraceWeights = TraceWeights(
    actionability: real, association: real, positive: real, negative: real, drag: real,
    density: real, components: Components)

  function TaskScore(w: TaskWeights, t: Task): real {
    Worth(w, t) / (1 + t.active) as real
  }

  /** The weighted checker state of a task. */
  function Worth(w: TaskWeights, t: Task): real {
    w.quality * t.quality + w.progress * t.progress + w.starvation * t.starvation - w.failure * t.failure
  }

  function TraceIncrement(w: TraceWeights, t: Task): real {
    Evidence(w, t.trace, Penalty(w, t.trace)) / (1 + t.active) as real
  }

  /** The penalty a trace carries: its weighted density in component form, its
      aggregate drag otherwise. */
  function Penalty(w: TraceWeights, trace: Trace): real {
    match trace.components
    case Some(c) => w.density * Density(w.components, c)
    case None => w.drag * trace.drag
  }

  function Density(w: Components, c: Components): real {
    w.duplication * c.duplication + w.refutation * c.refutation + w.staleness * c.staleness + w.stagnation * c.stagnation
  }

  /** The weighted evidence of a trace, less its penalty. */
  function Evidence(w: TraceWeights, trace: Trace, penalty: real): real {
    w.actionability * trace.actionability + w.association * trace.association
    + w.positive * trace.positive - w.negative * trace.negative - penalty
  }

  /** One score per task, in the order given. */
  function ScoresOf(tasks: seq<Task>, score: Task -> real): (scores: map<string, real>)
    ensures forall id :: id in scores <==> id in Ids(tasks)
  {
    if tasks == [] then map[]
    else
      var scores := ScoresOf(tasks[..|tasks|-1], score)[tasks[|tasks|-1].id := score(tasks[|tasks|-1])];
      assert Ids(tasks) == Ids(tasks[..|tasks|-1]) + [tasks[|tasks|-1].id];
      scores
  }

  lemma {:induction false} ScoreOfTask(tasks: seq<Task>, score: Task -> real, t: Task)
    requires DistinctTasks(tasks) && t in tasks
    ensures t.id in ScoresOf(tasks, score) && ScoresOf(tasks, score)[t.id] == score(t)
  {
    var n := |tasks| - 1;
    if t != tasks[n] {
      assert tasks == tasks[..n] + [tasks[n]];
      assert t in tasks[..n];
      ScoreOfTask(tasks[..n], score, t);
    }
  }

  // ---------------------------------------------------------------------
  // The lexicographic argmax
  // ---------------------------------------------------------------------

  /** The highest score, ties going to the smaller id. */
  predicate IsBest(ids: seq<string>, scores: map<string, real>, best: string)
    requires forall id :: id in ids ==> id in scores
  {
    best in ids && forall id :: id in ids ==>
      scores[id] < scores[best] || (scores[id] == scores[best] && !TextLess(id, best))
  }

  lemma BestIsUnique(ids: seq<string>, scores: map<string, real>, a: string, b: string)
    requires forall id :: id in ids ==> id in scores
    requires IsBest(ids, scores, a) && IsBest(ids, scores, b)
    ensures a == b
  {
    TextTrichotomy(a, b);
  }

  predicate Beats(scores: map<string, real>, a: string, b: string)
    requires a in scores && b in scores
  {
    scores[a] > scores[b] || (scores[a] == scores[b] && TextLess(a, b))
  }

  /** The minimum under the key (negated score, id). */
  function HighestScore(ids: seq<string>, scores: map<string, real>): string
    requires forall id :: id in ids ==> id in scores
    ensures ids != [] ==> HighestScore(ids, scores) in ids
  {
    if ids == [] then ""
    else if |ids| == 1 then ids[0]
    else
      var best := HighestScore(ids[..|ids|-1], scores);
      if Beats(scores, ids[|ids|-1], best) then ids[|ids|-1] else best
  }

  lemma {:induction false} HighestIsBest(ids: seq<string>, scores: map<string, real>)
    requires ids != [] && forall id :: id in ids ==> id in scores
    ensures IsBest(ids, scores, HighestScore(ids, scores))
  {
    var n := |ids| - 1;
    assert ids == ids[..n] + [ids[n]];
    TextIrreflexive(ids[n]);
    if n > 0 {
      HighestIsBest(ids[..n], scores);
      var best := HighestScore(ids[..n], scores);
      TextTrichotomy(ids[n], best);
      if Beats(scores, ids[n], best) {
        forall id | id in ids[..n] ensures scores[id] < scores[ids[n]] || (scores[id] == scores[ids[n]] && !TextLess(id, ids[n])) {
          if TextLess(id, ids[n]) && TextLess(ids[n], best) { TextTransitive(id, ids[n], best); }
        }
      }
    }
  }

  // ---------------------------------------------------------------------
  // Decisions
  // ---------------------------------------------------------------------

  datatype Outcome = NotInvoked | Accepted | InvalidOutput | ProviderError | PolicyTimeout | HorizonTruncated

  datatype Decision = Decision(
    decisionId: string, stateId: string, selected: string,
    scores: map<string, real>, taskScores: map<string, real>, increments: map<string, real>,
    references: seq<string>,
    costed: bool, callId: string, outcome: Outcome,
    fallback: bool, invalidOutput: bool, recoverable: bool, horizon: bool)

  /** The closed outcome state machine, branch by branch. */
  predicate DecisionOk(d: Decision) {
    && (d.costed ==> d.callId == d.decisionId)
    && (!d.costed ==> d.callId == "")
    && match d.outcome
       case NotInvoked => !d.costed && !(d.fallback || d.invalidOutput || d.recoverable || d.horizon)
       case Accepted => d.costed && !(d.fallback || d.invalidOutput || d.recoverable || d.horizon)
       case InvalidOutput => d.costed && d.invalidOutput && !(d.recoverable || d.horizon || !d.fallback)
       case ProviderError => d.costed && d.recoverable && !(d.invalidOutput || d.horizon || !d.fallback)
       case PolicyTimeout => d.costed && !(d.invalidOutput || d.recoverable || d.horizon || !d.fallback)
       case HorizonTruncated => d.costed && d.horizon && !(d.invalidOutput || d.recoverable || d.fallback)
  }

  /** Two admitted decisions carry the same flags exactly when they carry the
      same outcome: no flag combination can be read as another outcome. */
  lemma OutcomeIsDetermined(a: Decision, b: Decision)
    requires DecisionOk(a) && DecisionOk(b)
    ensures a.outcome == b.outcome <==>
              && a.costed == b.costed && a.fallback == b.fallback && a.invalidOutput == b.invalidOutput
              && a.recoverable == b.recoverable && a.horizon == b.horizon
  {
    match a.outcome {
      case NotInvoked => match b.outcome { case _ => }
      case _ => match b.outcome { case _ => }
    }
  }

  /** The flags of an outcome: charged, fallback, invalid output, recoverable, horizon. */
  datatype Flags = Flags(costed: bool, fallback: bool, invalidOutput: bool, recoverable: bool, horizon: bool)

  function FlagsFor(outcome: Outcome): Flags {
    match outcome
    case NotInvoked => Flags(false, false, false, false, false)
    case Accepted => Flags(true, false, false, false, false)
    case InvalidOutput => Flags(true, true, true, false, false)
    case ProviderError => Flags(true, true, false, true, false)
    case PolicyTimeout => Flags(true, true, false, false, false)
    case HorizonTruncated => Flags(true, false, false, false, true)
  }

  /** The machine admits one combination of flags for each outcome, and exactly a
      charged call carries the decision's id. */
  lemma AdmittedExactly(d: Decision)
    ensures DecisionOk(d)
       <==> && Flags(d.costed, d.fallback, d.invalidOutput, d.recoverable, d.horizon) == FlagsFor(d.outcome)
            && d.callId == if d.costed then d.decisionId else ""
  {
    match d.outcome { case _ => }
  }

  function Quiet(s: Snapshot, selected: string): Decision {
    Decision(s.decisionId, s.stateId, selected, map[], map[], map[], [], false, "", NotInvoked,
             false, false, false, false)
  }

  predicate CapacityAvailable(s: Snapshot, ownedCounts: bool) {
    s.remaining > 0.0 && (s.free > 0 || (ownedCounts && s.owned > 0))
  }

  function TaskScores(w: TaskWeights, s: Snapshot): map<string, real> {
    ScoresOf(Eligible(s.tasks), t => TaskScore(w, t))
  }

  function Increments(v: TraceWeights, s: Snapshot): map<string, real> {
    ScoresOf(Eligible(s.tasks), t => TraceIncrement(v, t))
  }

  function Sums(a: map<string, real>, b: map<string, real>): map<string, real>
    requires a.Keys == b.Keys
  {
    map id | id in a :: a[id] + b[id]
  }

  /** The eligible ids and the two score maps have the same keys. */
  lemma ScoreKeys(w: TaskWeights, v: TraceWeights, s: Snapshot)
    ensures TaskScores(w, s).Keys == Increments(v, s).Keys
    ensures forall id :: id in TaskScores(w, s) <==> id in Ids(Eligible(s.tasks))
  {
  }

  function Lightness(t: Task): real {
    -(t.active as real)
  }

  function UniformChoose(s: Snapshot): Decision {
    if !CapacityAvailable(s, false) then Quiet(s, "")
    else
      var tasks := Eligible(s.tasks);
      var scores := ScoresOf(tasks, Lightness);
      Quiet(s, HighestScore(Ids(tasks), scores)).(scores := scores)
  }

  function TaskStateChoose(w: TaskWeights, s: Snapshot): Decision {
    if !CapacityAvailable(s, false) then Quiet(s, "")
    else
      var scores := TaskScores(w, s);
      Quiet(s, HighestScore(Ids(Eligible(s.tasks)), scores)).(scores := scores, taskScores := scores)
  }

  function TraceStateChoose(w: TaskWeights, v: TraceWeights, s: Snapshot): Decision {
    if !CapacityAvailable(s, false) then Quiet(s, "")
    else
      ScoreKeys(w, v, s);
      var scores := Sums(TaskScores(w, s), Increments(v, s));
      Quiet(s, HighestScore(Ids(Eligible(s.tasks)), scores))
        .(scores := scores, taskScores := TaskScores(w, s), increments := Increments(v, s))
  }

  predicate SelectsEligible(s: Snapshot, d: Decision) {
    if d.selected == "" then true else exists t :: t in s.tasks && t.eligible && t.id == d.selected
  }

  lemma EligibleId(s: Snapshot, id: string)
    requires id in Ids(Eligible(s.tasks))
    ensures exists t :: t in s.tasks && t.eligible && t.id == id
  {
    var i :| 0 <= i < |Ids(Eligible(s.tasks))| && Ids(Eligible(s.tasks))[i] == id;
    EligibleMembers(s.tasks);
    assert Eligible(s.tasks)[i] in s.tasks;
  }

  /** The three deterministic policies decide within the state machine and select
      an eligible task, or none; with capacity and an eligible task, one. */
  lemma DeterministicChoices(w: TaskWeights, v: TraceWeights, s: Snapshot)
    requires SnapshotOk(s)
    ensures var a, b, c := UniformChoose(s), TaskStateChoose(w, s), TraceStateChoose(w, v, s);
            && DecisionOk(a) && DecisionOk(b) && DecisionOk(c)
            && SelectsEligible(s, a) && SelectsEligible(s, b) && SelectsEligible(s, c)
            && (CapacityAvailable(s, false) && Eligible(s.tasks) != [] ==>
                 a.selected != "" && b.selected != "" && c.selected != "")
  {
    var ids := Ids(Eligible(s.tasks));
    ScoreKeys(w, v, s);
    if ids != [] {
      forall id | id in ids ensures id != "" && exists t :: t in s.tasks && t.eligible && t.id == id {
        EligibleId(s, id);
      }
    }
  }

  /** Each of them serves a task exactly when time and a free slot are left and
      some task is eligible. */
  lemma ServesExactlyWhenPossible(w: TaskWeights, v: TraceWeights, s: Snapshot)
    requires SnapshotOk(s)
    ensures var possible := s.remaining > 0.0 && s.free > 0 && exists t :: t in s.tasks && t.eligible;
            && (UniformChoose(s).selected != "" <==> possible)
            && (TaskStateChoose(w, s).selected != "" <==> possible)
            && (TraceStateChoose(w, v, s).selected != "" <==> possible)
  {
    EligibleMembers(s.tasks);
    DeterministicChoices(w, v, s);
    if Eligible(s.tasks) != [] {
      assert Eligible(s.tasks)[0] in s.tasks && Eligible(s.tasks)[0].eligible;
    }
  }

  /** The least-loaded policy serves a task with the fewest active allocations,
      the smallest id among those. */
  lemma UniformServesLeastLoaded(s: Snapshot, t: Task)
    requires SnapshotOk(s) && CapacityAvailable(s, false) && t in s.tasks && t.eligible
    ensures exists u :: u in s.tasks && u.eligible && u.id == UniformChoose(s).selected
              && (u.active < t.active || (u.active == t.active && !TextLess(t.id, u.id)))
  {
    var tasks := Eligible(s.tasks);
    EligibleMembers(s.tasks);
    EligibleDistinct(s.tasks);
    var i :| 0 <= i < |tasks| && tasks[i] == t;
    assert Ids(tasks)[i] == t.id;
    HighestIsBest(Ids(tasks), ScoresOf(tasks, Lightness));
    var best := HighestScore(Ids(tasks), ScoresOf(tasks, Lightness));
    var k :| 0 <= k < |Ids(tasks)| && Ids(tasks)[k] == best;
    ScoreOfTask(tasks, Lightness, t);
    ScoreOfTask(tasks, Lightness, tasks[k]);
    assert tasks[k] in s.tasks;
  }

  // ---------------------------------------------------------------------
  // What the scores respond to
  // ---------------------------------------------------------------------

  lemma QuotientMonotone(a: real, b: real, d: real)
    requires d > 0.0 && a <= b
    ensures a / d <= b / d
  {
    var p, q := a / d, b / d;
    assert p * d == a && q * d == b;
    assert p > q ==> (p - q) * d > 0.0;
  }

  lemma TermMonotone(w: real, x: real, y: real)
    requires w >= 0.0 && x <= y
    ensures w * x <= w * y
  {
    assert w * (y - x) >= 0.0;
  }

  /** Better checker state never lowers the ordinary score: quality, progress and
      starvation raise it, failures lower it. */
  lemma TaskScoreMonotone(w: TaskWeights, t: Task, u: Task)
    requires w.quality >= 0.0 && w.progress >= 0.0 && w.starvation >= 0.0 && w.failure >= 0.0
    requires t.active == u.active && t.quality <= u.quality && t.progress <= u.progress
    requires t.starvation <= u.starvation && t.failure >= u.failure
    ensures TaskScore(w, t) <= TaskScore(w, u)
  {
    TermMonotone(w.quality, t.quality, u.quality);
    TermMonotone(w.progress, t.progress, u.progress);
    TermMonotone(w.starvation, t.starvation, u.starvation);
    TermMonotone(w.failure, u.failure, t.failure);
    SumMonotone(w.quality * t.quality, w.quality * u.quality, w.progress * t.progress, w.progress * u.progress,
                w.starvation * t.starvation, w.starvation * u.starvation, w.failure * t.failure, w.failure * u.failure);
    QuotientMonotone(Worth(w, t), Worth(w, u), (1 + t.active) as real);
  }

  lemma SumMonotone(a: real, a': real, b: real, b': real, c: real, c': real, d: real, d': real)
    requires a <= a' && b <= b' && c <= c' && d >= d'
    ensures a + b + c - d <= a' + b' + c' - d'
  {
  }

  /** `score` is what each of `load + 1` gets of the total. */
  predicate SharesOf(score: real, load: nat, total: real) {
    score * (1 + load) as real == total
  }

  /** The load of a task divides its score: multiplied by one more than its
      allocations, a score is that of the idle task. */
  lemma ScoreSharesLoad(w: TaskWeights, v: TraceWeights, t: Task)
    ensures SharesOf(TaskScore(w, t), t.active, TaskScore(w, Idle(t)))
    ensures SharesOf(TraceIncrement(v, t), t.active, TraceIncrement(v, Idle(t)))
  {
    Undivided(Worth(w, t), t.active);
    Undivided(Worth(w, t), 0);
    Undivided(Evidence(v, t.trace, Penalty(v, t.trace)), t.active);
    Undivided(Evidence(v, t.trace, Penalty(v, t.trace)), 0);
  }

  lemma Undivided(total: real, load: nat)
    ensures SharesOf(total / (1 + load) as real, load, total)
    ensures load == 0 ==> total / (1 + load) as real == total
  {
  }

  function Idle(t: Task): Task {
    t.(active := 0)
  }

  /** Raising one feature of an idle task by `x` moves its ordinary score by that
      feature's own weight times `x`; a task without features scores zero. */
  lemma TaskScoreContributions(w: TaskWeights, t: Task, x: real)
    requires t.active == 0
    ensures TaskScore(w, t.(quality := t.quality + x)) == TaskScore(w, t) + w.quality * x
    ensures TaskScore(w, t.(progress := t.progress + x)) == TaskScore(w, t) + w.progress * x
    ensures TaskScore(w, t.(starvation := t.starvation + x)) == TaskScore(w, t) + w.starvation * x
    ensures TaskScore(w, t.(failure := t.failure + x)) == TaskScore(w, t) - w.failure * x
    ensures TaskScore(w, t.(quality := 0.0, progress := 0.0, starvation := 0.0, failure := 0.0)) == 0.0
  {
    assert w.quality * (t.quality + x) == w.quality * t.quality + w.quality * x;
    assert w.progress * (t.progress + x) == w.progress * t.progress + w.progress * x;
    assert w.starvation * (t.starvation + x) == w.starvation * t.starvation + w.starvation * x;
    assert w.failure * (t.failure + x) == w.failure * t.failure + w.failure * x;
  }

  function WithTrace(t: Task, trace: Trace): Task {
    t.(trace := trace)
  }

  /** The same for the trace increment and its evidence. */
  lemma EvidenceContributions(v: TraceWeights, t: Task, x: real)
    requires t.active == 0
    ensures var e, at := t.trace, TraceIncrement(v, t);
            && TraceIncrement(v, WithTrace(t, e.(actionability := e.actionability + x))) == at + v.actionability * x
            && TraceIncrement(v, WithTrace(t, e.(association := e.association + x))) == at + v.association * x
            && TraceIncrement(v, WithTrace(t, e.(positive := e.positive + x))) == at + v.positive * x
            && TraceIncrement(v, WithTrace(t, e.(negative := e.negative + x))) == at - v.negative * x
  {
    var e := t.trace;
    IdleIncrement(v, t);
    IdleIncrement(v, WithTrace(t, e.(actionability := e.actionability + x)));
    IdleIncrement(v, WithTrace(t, e.(association := e.association + x)));
    IdleIncrement(v, WithTrace(t, e.(positive := e.positive + x)));
    IdleIncrement(v, WithTrace(t, e.(negative := e.negative + x)));
    EvidenceShifts(v, e, x);
  }

  /** Drag in aggregate counts with its own weight in the aggregate form and not
      at all in component form; a trace without anything adds nothing. */
  lemma DragContributions(v: TraceWeights, t: Task, x: real)
    requires t.active == 0
    ensures TraceIncrement(v, WithTrace(t, t.trace.(drag := t.trace.drag + x)))
         == TraceIncrement(v, t) - if t.trace.components.None? then v.drag * x else 0.0
    ensures TraceIncrement(v, WithTrace(t, Trace(0.0, 0.0, 0.0, 0.0, 0.0, None))) == 0.0
  {
    IdleIncrement(v, t);
    IdleIncrement(v, WithTrace(t, t.trace.(drag := t.trace.drag + x)));
    IdleIncrement(v, WithTrace(t, Trace(0.0, 0.0, 0.0, 0.0, 0.0, None)));
    WeightedShift(v.drag, t.trace.drag, t.trace.drag + x, x);
  }

  lemma IdleIncrement(v: TraceWeights, t: Task)
    requires t.active == 0
    ensures TraceIncrement(v, t) == Evidence(v, t.trace, Penalty(v, t.trace))
  {
  }

  lemma EvidenceShifts(v: TraceWeights, e: Trace, x: real)
    ensures forall p :: Evidence(v, e.(actionability := e.actionability + x), p) == Evidence(v, e, p) + v.actionability * x
    ensures forall p :: Evidence(v, e.(association := e.association + x), p) == Evidence(v, e, p) + v.association * x
    ensures forall p :: Evidence(v, e.(positive := e.positive + x), p) == Evidence(v, e, p) + v.positive * x
    ensures forall p :: Evidence(v, e.(negative := e.negative + x), p) == Evidence(v, e, p) - v.negative * x
  {
    WeightedShift(v.actionability, e.actionability, e.actionability + x, x);
    WeightedShift(v.association, e.association, e.association + x, x);
    WeightedShift(v.positive, e.positive, e.positive + x, x);
    WeightedShift(v.negative, e.negative, e.negative + x, x);
  }

  /** In component form each drag component counts with its own weight, scaled
      by the density weight. */
  lemma ComponentContributions(v: TraceWeights, t: Task, c: Components, x: real)
    requires t.active == 0 && t.trace.components == Some(c)
    ensures TraceIncrement(v, Dragged(t, c.(duplication := c.duplication + x)))
         == TraceIncrement(v, t) - v.density * (v.components.duplication * x)
    ensures TraceIncrement(v, Dragged(t, c.(refutation := c.refutation + x)))
         == TraceIncrement(v, t) - v.density * (v.components.refutation * x)
    ensures TraceIncrement(v, Dragged(t, c.(staleness := c.staleness + x)))
         == TraceIncrement(v, t) - v.density * (v.components.staleness * x)
    ensures TraceIncrement(v, Dragged(t, c.(stagnation := c.stagnation + x)))
         == TraceIncrement(v, t) - v.density * (v.components.stagnation * x)
    ensures TraceIncrement(v, WithTrace(t, Trace(0.0, 0.0, 0.0, 0.0, 0.0, Some(Components(0.0, 0.0, 0.0, 0.0))))) == 0.0
  {
    var w := v.components;
    WeightedShift(v.density, Density(w, c), Density(w, c.(duplication := c.duplication + x)), w.duplication * x);
    WeightedShift(v.density, Density(w, c), Density(w, c.(refutation := c.refutation + x)), w.refutation * x);
    WeightedShift(v.density, Density(w, c), Density(w, c.(staleness := c.staleness + x)), w.staleness * x);
    WeightedShift(v.density, Density(w, c), Density(w, c.(stagnation := c.stagnation + x)), w.stagnation * x);
  }

  function Dragged(t: Task, c: Components): Task {
    WithTrace(t, t.trace.(components := Some(c)))
  }

  lemma WeightedShift(d: real, before: real, after: real, shift: real)
    requires after == before + shift
    ensures d * after == d * before + d * shift
  {
  }

  /** A positive amount shared among more is strictly less. */
  lemma SharedFurther(total: real, a: nat, b: nat, x: real, y: real)
    requires a < b && SharesOf(x, a, total) && SharesOf(y, b, total)
    ensures total > 0.0 ==> 0.0 < y < x
  {
    if total > 0.0 {
      assert y <= 0.0 ==> y * (1 + b) as real <= 0.0;
      assert y >= x ==> (y - x) * (1 + b) as real >= 0.0;
      assert x * (1 + b) as real == total + x * (b - a) as real;
      assert x <= 0.0 ==> x * (1 + a) as real <= 0.0;
      assert x > 0.0 ==> x * (b - a) as real > 0.0;
    }
  }

  lemma SharesAdd(x: real, y: real, load: nat, a: real, b: real)
    requires SharesOf(x, load, a) && SharesOf(y, load, b)
    ensures SharesOf(x + y, load, a + b)
  {
  }

  /** Two tasks that differ in load and id only. */
  predicate SameButLoad(t: Task, u: Task) {
    u == t.(id := u.id, active := u.active)
  }

  /** A task that would score positively idle scores less with every further allocation. */
  lemma LoadLowersScores(w: TaskWeights, v: TraceWeights, t: Task, u: Task)
    requires SameButLoad(t, u) && t.active < u.active
    ensures TaskScore(w, Idle(t)) > 0.0 ==> 0.0 < TaskScore(w, u) < TaskScore(w, t)
    ensures TraceIncrement(v, Idle(t)) > 0.0 ==> 0.0 < TraceIncrement(v, u) < TraceIncrement(v, t)
    ensures TaskScore(w, Idle(t)) + TraceIncrement(v, Idle(t)) > 0.0 ==>
              TaskScore(w, u) + TraceIncrement(v, u) < TaskScore(w, t) + TraceIncrement(v, t)
  {
    ScoreSharesLoad(w, v, t);
    ScoreSharesLoad(w, v, u);
    BothShared(t.active, u.active, TaskScore(w, Idle(t)), TraceIncrement(v, Idle(t)),
               TaskScore(w, t), TraceIncrement(v, t), TaskScore(w, u), TraceIncrement(v, u));
  }

  /** Two amounts shared among more, each and together. */
  lemma BothShared(m: nat, n: nat, a: real, b: real, x: real, p: real, y: real, q: real)
    requires m < n && SharesOf(x, m, a) && SharesOf(p, m, b) && SharesOf(y, n, a) && SharesOf(q, n, b)
    ensures a > 0.0 ==> 0.0 < y < x
    ensures b > 0.0 ==> 0.0 < q < p
    ensures a + b > 0.0 ==> y + q < x + p
  {
    SharedFurther(a, m, n, x, y);
    SharedFurther(b, m, n, p, q);
    SharesAdd(x, p, m, a, b);
    SharesAdd(y, q, n, a, b);
    SharedFurther(a + b, m, n, x + p, y + q);
  }

  lemma BeatenIsNotChosen(ids: seq<string>, scores: map<string, real>, a: string, b: string)
    requires (forall id :: id in ids ==> id in scores) && a in ids && b in ids && scores[b] < scores[a]
    ensures HighestScore(ids, scores) != b
  {
    HighestIsBest(ids, scores);
  }

  lemma EligibleListed(s: Snapshot, t: Task)
    requires SnapshotOk(s) && t in s.tasks && t.eligible
    ensures t in Eligible(s.tasks) && DistinctTasks(Eligible(s.tasks)) && t.id in Ids(Eligible(s.tasks))
  {
    EligibleMembers(s.tasks);
    EligibleDistinct(s.tasks);
    var i :| 0 <= i < |Eligible(s.tasks)| && Eligible(s.tasks)[i] == t;
    assert Ids(Eligible(s.tasks))[i] == t.id;
  }

  /** The scores a decision publishes are those of the eligible tasks: their load
      negated, their ordinary score, or that and the trace increment added up. */
  lemma DecisionsPublishScores(w: TaskWeights, v: TraceWeights, s: Snapshot, t: Task)
    requires SnapshotOk(s) && CapacityAvailable(s, false) && t in s.tasks && t.eligible
    ensures var a, b, c := UniformChoose(s), TaskStateChoose(w, s), TraceStateChoose(w, v, s);
            && t.id in a.scores && t.id in b.scores && t.id in b.taskScores
            && t.id in c.scores && t.id in c.taskScores && t.id in c.increments
            && a.scores[t.id] == -(t.active as real)
            && b.scores[t.id] == b.taskScores[t.id] == c.taskScores[t.id] == TaskScore(w, t)
            && c.increments[t.id] == TraceIncrement(v, t)
            && c.scores[t.id] == TaskScore(w, t) + TraceIncrement(v, t)
  {
    var tasks := Eligible(s.tasks);
    EligibleListed(s, t);
    ScoreKeys(w, v, s);
    ScoreOfTask(tasks, Lightness, t);
    ScoreOfTask(tasks, x => TaskScore(w, x), t);
    ScoreOfTask(tasks, x => TraceIncrement(v, x), t);
  }

  /** Of two eligible tasks that differ in load and id only and would score
      positively idle, neither policy ever serves the more loaded one. */
  lemma CrowdedTaskIsNotServed(w: TaskWeights, v: TraceWeights, s: Snapshot, t: Task, u: Task)
    requires SnapshotOk(s) && CapacityAvailable(s, false)
    requires t in s.tasks && u in s.tasks && t.eligible && SameButLoad(t, u) && t.active < u.active
    ensures TaskScore(w, Idle(t)) > 0.0 ==> TaskStateChoose(w, s).selected != u.id
    ensures TaskScore(w, Idle(t)) + TraceIncrement(v, Idle(t)) > 0.0 ==> TraceStateChoose(w, v, s).selected != u.id
  {
    var tasks := Eligible(s.tasks);
    EligibleListed(s, t);
    EligibleListed(s, u);
    ScoreKeys(w, v, s);
    LoadLowersScores(w, v, t, u);
    ScoreOfTask(tasks, x => TaskScore(w, x), t);
    ScoreOfTask(tasks, x => TaskScore(w, x), u);
    ScoreOfTask(tasks, x => TraceIncrement(v, x), t);
    ScoreOfTask(tasks, x => TraceIncrement(v, x), u);
    if TaskScore(w, Idle(t)) > 0.0 {
      BeatenIsNotChosen(Ids(tasks), TaskScores(w, s), t.id, u.id);
    }
    if TaskScore(w, Idle(t)) + TraceIncrement(v, Idle(t)) > 0.0 {
      BeatenIsNotChosen(Ids(tasks), Sums(TaskScores(w, s), Increments(v, s)), t.id, u.id);
    }
  }

  /** Two tasks that differ in their trace evidence only. */
  predicate SameOrdinary(t: Task, u: Task) {
    u == t.(trace := u.trace, references := u.references)
  }

  predicate SameOrdinaries(ts: seq<Task>, us: seq<Task>) {
    |ts| == |us| && forall i :: 0 <= i < |ts| ==> SameOrdinary(ts[i], us[i])
  }

  lemma {:induction false} InsertSameOrdinary(ts: seq<Task>, us: seq<Task>, t: Task, u: Task)
    requires SameOrdinaries(ts, us) && SameOrdinary(t, u)
    ensures SameOrdinaries(InsertTask(ts, t), InsertTask(us, u))
  {
    if ts != [] {
      assert SameOrdinary(ts[0], us[0]);
      if !TextLess(t.id, ts[0].id) {
        InsertSameOrdinary(ts[1..], us[1..], t, u);
      }
    }
  }

  lemma {:induction false} EligibleSameOrdinary(ts: seq<Task>, us: seq<Task>)
    requires SameOrdinaries(ts, us)
    ensures SameOrdinaries(Eligible(ts), Eligible(us))
  {
    if ts != [] {
      var n := |ts| - 1;
      EligibleSameOrdinary(ts[..n], us[..n]);
      assert SameOrdinary(ts[n], us[n]);
      InsertSameOrdinary(Eligible(ts[..n]), Eligible(us[..n]), ts[n], us[n]);
    }
  }

  lemma {:induction false} ScoresAlike(ts: seq<Task>, us: seq<Task>, score: Task -> real)
    requires SameOrdinaries(ts, us) && forall i :: 0 <= i < |ts| ==> score(ts[i]) == score(us[i])
    ensures ScoresOf(ts, score) == ScoresOf(us, score) && Ids(ts) == Ids(us)
  {
    if ts != [] {
      var n := |ts| - 1;
      ScoresAlike(ts[..n], us[..n], score);
      assert SameOrdinary(ts[n], us[n]);
      assert Ids(ts) == Ids(ts[..n]) + [ts[n].id] && Ids(us) == Ids(us[..n]) + [us[n].id];
    }
  }

  /** The task-state policy never reads trace evidence: snapshots that differ in
      traces and references only get the same decision. */
  lemma TaskStateIgnoresTraces(w: TaskWeights, s: Snapshot, t: Snapshot)
    requires t == s.(tasks := t.tasks) && SameOrdinaries(s.tasks, t.tasks)
    ensures TaskStateChoose(w, s) == TaskStateChoose(w, t)
  {
    EligibleSameOrdinary(s.tasks, t.tasks);
    var ts, us := Eligible(s.tasks), Eligible(t.tasks);
    forall i | 0 <= i < |ts| ensures TaskScore(w, ts[i]) == TaskScore(w, us[i]) {
      assert SameOrdinary(ts[i], us[i]);
    }
    ScoresAlike(ts, us, x => TaskScore(w, x));
    assert TaskScores(w, s) == TaskScores(w, t);
  }

  /** Componentwise no greater. */
  predicate AtMost(c: Components, d: Components) {
    && c.duplication <= d.duplication && c.refutation <= d.refutation
    && c.staleness <= d.staleness && c.stagnation <= d.stagnation
  }

  predicate NonnegativeTraceWeights(w: TraceWeights) {
    && w.actionability >= 0.0 && w.association >= 0.0 && w.positive >= 0.0 && w.negative >= 0.0
    && w.drag >= 0.0 && w.density >= 0.0 && AtMost(Components(0.0, 0.0, 0.0, 0.0), w.components)
  }

  /** At least as much drag, both traces in the same form. */
  predicate AtLeastTheDrag(a: Trace, b: Trace) {
    match (a.components, b.components)
    case (Some(c), Some(d)) => AtMost(d, c)
    case (None, None) => a.drag >= b.drag
    case _ => false
  }

  lemma PenaltyMonotone(w: TraceWeights, a: Trace, b: Trace)
    requires NonnegativeTraceWeights(w) && AtLeastTheDrag(a, b)
    ensures Penalty(w, b) <= Penalty(w, a)
  {
    match (a.components, b.components)
    case (Some(c), Some(d)) =>
      TermMonotone(w.components.duplication, d.duplication, c.duplication);
      TermMonotone(w.components.refutation, d.refutation, c.refutation);
      TermMonotone(w.components.staleness, d.staleness, c.staleness);
      TermMonotone(w.components.stagnation, d.stagnation, c.stagnation);
      TermMonotone(w.density, Density(w.components, d), Density(w.components, c));
    case (None, None) => TermMonotone(w.drag, b.drag, a.drag);
  }

  /** More helpful evidence never lowers the trace increment, and more harmful
      evidence, as components or in aggregate, never raises it. */
  lemma TraceIncrementMonotone(v: TraceWeights, t: Task, u: Task)
    requires NonnegativeTraceWeights(v) && t.active == u.active && AtLeastTheDrag(t.trace, u.trace)
    requires t.trace.actionability <= u.trace.actionability && t.trace.association <= u.trace.association
    requires t.trace.positive <= u.trace.positive && t.trace.negative >= u.trace.negative
    ensures TraceIncrement(v, t) <= TraceIncrement(v, u)
  {
    PenaltyMonotone(v, t.trace, u.trace);
    EvidenceMonotone(v, t.trace, u.trace, Penalty(v, t.trace), Penalty(v, u.trace));
    QuotientMonotone(Evidence(v, t.trace, Penalty(v, t.trace)), Evidence(v, u.trace, Penalty(v, u.trace)),
                     (1 + t.active) as real);
  }

  lemma EvidenceMonotone(v: TraceWeights, a: Trace, b: Trace, p: real, q: real)
    requires v.actionability >= 0.0 && v.association >= 0.0 && v.positive >= 0.0 && v.negative >= 0.0
    requires a.actionability <= b.actionability && a.association <= b.association
    requires a.positive <= b.positive && a.negative >= b.negative && p >= q
    ensures Evidence(v, a, p) <= Evidence(v, b, q)
  {
    TermMonotone(v.actionability, a.actionability, b.actionability);
    TermMonotone(v.association, a.association, b.association);
    TermMonotone(v.positive, a.positive, b.positive);
    TermMonotone(v.negative, b.negative, a.negative);
  }
}
