/** The full projection of a pinned snapshot: convert, sort, suppress replays,
    accumulate per task, finish. */
module TraceProjection {
  import opened Options
  import opened Sequences
  import opened TraceRecords
  import opened TraceOrder
  import opened TraceState
  import opened TraceFinish

  /** An input row; rows without a sequence of their own get their read position. */
  datatype Item = Item(record: Record, explicit: bool)

  datatype Failure = BeyondWatermark | RecordBound | TaskBound | FeedbackUnmapped | Unacceptable

  datatype Outcome<+T> = Done(value: T) | Failed(failure: Failure)

  function RecordAt(items: seq<Item>, i: nat): Record
    requires i < |items|
  {
    if items[i].explicit then items[i].record else items[i].record.(sequence := i + 1)
  }

  function Records(items: seq<Item>): (rows: seq<Record>)
    ensures |rows| == |items|
  {
    seq(|items|, i requires 0 <= i < |items| => RecordAt(items, i))
  }

  predicate Beyond(r: Record, watermark: Option<nat>) {
    watermark.Some? && r.sequence > watermark.value
  }

  function Convert(limits: Limits, items: seq<Item>, watermark: Option<nat>): Outcome<seq<Record>> {
    if exists r :: r in Records(items) && Beyond(r, watermark) then Failed(BeyondWatermark)
    else if |items| > limits.maxRecords then Failed(RecordBound)
    else Done(Records(items))
  }

  /** Conversion fails exactly for a row beyond the pinned watermark, or for too many
      rows; a row without a sequence of its own is numbered by its place, from one. */
  lemma ConvertsExactly(limits: Limits, items: seq<Item>, watermark: Option<nat>)
    ensures Convert(limits, items, watermark).Done?
       <==> && |items| <= limits.maxRecords
            && forall w, i :: watermark == Some(w) && 0 <= i < |items| ==> Records(items)[i].sequence <= w
    ensures forall i :: 0 <= i < |items| ==>
              Records(items)[i] == if items[i].explicit then items[i].record else items[i].record.(sequence := 1 + i)
  {
    forall i | 0 <= i < |items| ensures Records(items)[i] in Records(items) {}
  }

  // ---------------------------------------------------------------------
  // The fold over sorted rows
  // ---------------------------------------------------------------------

  datatype Progress = Progress(
    seen: set<seq<string>>, counts: map<string, nat>, accs: map<string, Acc>, used: nat)

  function Start(tasks: seq<string>): Progress {
    Progress({}, map t | t in tasks :: 0, map t | t in tasks :: EmptyAcc(), 0)
  }

  ghost predicate OverTasks(p: Progress, tasks: seq<string>) {
    && (forall t :: t in p.accs <==> t in tasks)
    && (forall t :: t in p.counts <==> t in tasks)
  }

  predicate Ordinary(r: Record, ordinary: set<string>) {
    r.recordId in ordinary || r.outcomeId in ordinary || (r.evidenceId != "" && r.evidenceId in ordinary)
  }

  function Step(limits: Limits, ordinary: set<string>, p: Progress, r: Record): Outcome<Progress> {
    if r.taskId !in p.accs || r.taskId !in p.counts || Identity(r) in p.seen then Done(p)
    else if p.counts[r.taskId] >= limits.maxPerTask then Failed(TaskBound)
    else
      var noted := p.(seen := p.seen + {Identity(r)}, counts := p.counts[r.taskId := p.counts[r.taskId] + 1]);
      if Ordinary(r, ordinary) then Done(noted)
      else match Accumulate(limits, p.accs[r.taskId], r)
           case UnmappedFeedback => Failed(FeedbackUnmapped)
           case Counted(acc, used) =>
             Done(noted.(accs := noted.accs[r.taskId := acc], used := noted.used + if used then 1 else 0))
  }

  function Fold(limits: Limits, ordinary: set<string>, start: Progress, rows: seq<Record>): Outcome<Progress> {
    if rows == [] then Done(start)
    else match Fold(limits, ordinary, start, rows[..|rows|-1])
         case Failed(f) => Failed(f)
         case Done(p) => Step(limits, ordinary, p, rows[|rows|-1])
  }

  function LatestTime(rows: seq<Record>): Option<real> {
    if rows == [] then None
    else
      var front, t := LatestTime(rows[..|rows|-1]), rows[|rows|-1].eventTime;
      if front.None? || (t.Some? && t.value > front.value) then t else front
  }

  function LatestSequence(rows: seq<Record>): nat {
    if rows == [] then 0
    else
      var front := LatestSequence(rows[..|rows|-1]);
      if rows[|rows|-1].sequence > front then rows[|rows|-1].sequence else front
  }

  /** The whole projection: one per task, or the failure. */
  function Project(limits: Limits, tasks: seq<string>, items: seq<Item>, watermark: Option<nat>,
                   ordinary: set<string>, reference: Option<real>): Outcome<seq<Projection>>
    requires limits.recencyWindow > 0.0
  {
    match Convert(limits, items, watermark)
    case Failed(f) => Failed(f)
    case Done(rows) =>
      match Fold(limits, ordinary, Start(tasks), Sort(rows))
      case Failed(f) => Failed(f)
      case Done(p) => Validated(Projections(limits, tasks, p.accs, ordinary,
                                            watermark.GetOrElse(LatestSequence(rows)),
                                            reference.GetOrElse(LatestTime(rows).GetOrElse(0.0))))
  }

  /** Every projection passes its own validation, or the run fails. */
  function Validated(ps: seq<Projection>): Outcome<seq<Projection>> {
    if forall i :: 0 <= i < |ps| ==> Acceptable(ps[i]) then Done(ps) else Failed(Unacceptable)
  }

  function Projections(limits: Limits, tasks: seq<string>, accs: map<string, Acc>, ordinary: set<string>,
                       watermark: nat, now: real): seq<Projection>
    requires limits.recencyWindow > 0.0
  {
    seq(|tasks|, i requires 0 <= i < |tasks| =>
      Finish(limits, ordinary, tasks[i], if tasks[i] in accs then accs[tasks[i]] else EmptyAcc(), watermark, now))
  }

  // ---------------------------------------------------------------------
  // Only the set of rows matters
  // ---------------------------------------------------------------------

  /** Rows that are not kept leave no mark on the fold. */
  lemma {:induction false} FoldSkips(limits: Limits, ordinary: set<string>, tasks: seq<string>, rows: seq<Record>)
    ensures Fold(limits, ordinary, Start(tasks), rows) == Fold(limits, ordinary, Start(tasks), Kept(rows, tasks))
    ensures Fold(limits, ordinary, Start(tasks), rows).Done? ==>
              var p := Fold(limits, ordinary, Start(tasks), rows).value;
              OverTasks(p, tasks) && p.seen == Identities(Kept(rows, tasks))
  {
    if rows == [] {
      assert Identities([]) == {};
    } else {
      var n := |rows| - 1;
      var front, r := Kept(rows[..n], tasks), rows[n];
      FoldSkips(limits, ordinary, tasks, rows[..n]);
      assert (front + [r])[..|front|] == front;
      assert Identities(front + [r]) == Identities(front) + {Identity(r)};
      var before := Fold(limits, ordinary, Start(tasks), rows[..n]);
      if before.Done? {
        StepSees(limits, ordinary, tasks, before.value, r);
      }
    }
  }

  lemma StepSees(limits: Limits, ordinary: set<string>, tasks: seq<string>, p: Progress, r: Record)
    requires OverTasks(p, tasks)
    ensures r.taskId !in tasks || Identity(r) in p.seen ==> Step(limits, ordinary, p, r) == Done(p)
    ensures Step(limits, ordinary, p, r).Done? ==>
              var q := Step(limits, ordinary, p, r).value;
              && OverTasks(q, tasks)
              && q.seen == p.seen + if r.taskId in tasks then {Identity(r)} else {}
  {
  }

  lemma {:induction false} LatestTimeIsMax(rows: seq<Record>)
    ensures LatestTime(rows).None? <==> forall r :: r in rows ==> r.eventTime.None?
    ensures LatestTime(rows).Some? ==>
              && (exists r :: r in rows && r.eventTime == LatestTime(rows))
              && forall r :: r in rows && r.eventTime.Some? ==> r.eventTime.value <= LatestTime(rows).value
  {
    if rows != [] {
      LatestTimeIsMax(rows[..|rows|-1]);
      assert rows == rows[..|rows|-1] + [rows[|rows|-1]];
    }
  }

  lemma {:induction false} LatestSequenceIsMax(rows: seq<Record>)
    ensures forall r :: r in rows ==> r.sequence <= LatestSequence(rows)
    ensures LatestSequence(rows) == 0 || exists r :: r in rows && r.sequence == LatestSequence(rows)
  {
    if rows != [] {
      LatestSequenceIsMax(rows[..|rows|-1]);
      assert rows == rows[..|rows|-1] + [rows[|rows|-1]];
    }
  }

  lemma CutDependsOnSet(a: seq<Record>, b: seq<Record>)
    requires SameElements(a, b)
    ensures LatestTime(a) == LatestTime(b) && LatestSequence(a) == LatestSequence(b)
  {
    LatestTimeIsMax(a);
    LatestTimeIsMax(b);
    LatestSequenceIsMax(a);
    LatestSequenceIsMax(b);
  }

  /** Within the record bound, two inputs with the same set of rows, each
      identity having one leading row, project alike: the same projections for
      every task, or the same failure. */
  lemma ProjectionDependsOnSet(limits: Limits, tasks: seq<string>, a: seq<Item>, b: seq<Item>, watermark: Option<nat>,
                               ordinary: set<string>, reference: Option<real>)
    requires limits.recencyWindow > 0.0
    requires |a| <= limits.maxRecords && |b| <= limits.maxRecords
    requires SameElements(Records(a), Records(b)) && OneLeader(Records(a), tasks)
    ensures Project(limits, tasks, a, watermark, ordinary, reference)
         == Project(limits, tasks, b, watermark, ordinary, reference)
  {
    var ra, rb := Records(a), Records(b);
    FoldSkips(limits, ordinary, tasks, Sort(ra));
    FoldSkips(limits, ordinary, tasks, Sort(rb));
    KeptDependsOnSet(ra, rb, tasks);
    CutDependsOnSet(ra, rb);
  }

  // ---------------------------------------------------------------------
  // Every projection is well-formed
  // ---------------------------------------------------------------------

  lemma AddFeedbackKeepsOne(feedback: seq<Feedback>, r: Record)
    requires OneFeedbackPerExposure(feedback)
    ensures OneFeedbackPerExposure(AddFeedback(feedback, r))
  {
  }

  lemma AccumulateKeepsOne(limits: Limits, acc: Acc, r: Record)
    requires OneFeedbackPerExposure(acc.feedback) && Accumulate(limits, acc, r).Counted?
    ensures OneFeedbackPerExposure(Accumulate(limits, acc, r).acc.feedback)
  {
    AddFeedbackKeepsOne(acc.feedback, r);
    var next := Accumulate(limits, acc, r).acc.feedback;
    assert next == acc.feedback || next == AddFeedback(acc.feedback, r);
  }

  lemma {:induction false} FoldKeepsOne(limits: Limits, ordinary: set<string>, tasks: seq<string>, rows: seq<Record>)
    requires Fold(limits, ordinary, Start(tasks), rows).Done?
    ensures var accs := Fold(limits, ordinary, Start(tasks), rows).value.accs;
            forall t :: t in accs ==> OneFeedbackPerExposure(accs[t].feedback)
  {
    if rows != [] {
      var n := |rows| - 1;
      FoldKeepsOne(limits, ordinary, tasks, rows[..n]);
      var p, r := Fold(limits, ordinary, Start(tasks), rows[..n]).value, rows[n];
      if r.taskId in p.accs && Accumulate(limits, p.accs[r.taskId], r).Counted? {
        AccumulateKeepsOne(limits, p.accs[r.taskId], r);
      }
    }
  }

  /** The outcome ids that the kept rows of a task note. */
  function OutcomeIds(limits: Limits, ordinary: set<string>, kept: seq<Record>, t: string): set<string> {
    set r | r in kept && NotesOutcome(limits, ordinary, r, t) :: r.outcomeId
  }

  predicate NotesOutcome(limits: Limits, ordinary: set<string>, r: Record, t: string) {
    r.taskId == t && !Ordinary(r, ordinary) && CountsOutcome(limits, r) && r.outcomeId != ""
  }

  /** The outcome ids noted for the task are bounded and distinct. */
  predicate TidyTask(limits: Limits, ordinary: set<string>, tasks: seq<string>, rows: seq<Record>, t: string) {
    OutcomeIdsOk(OutcomeIds(limits, ordinary, Kept(rows, tasks), t))
  }

  lemma StepOutcomes(limits: Limits, ordinary: set<string>, p: Progress, r: Record, t: string)
    requires t in p.accs && p.accs.Keys == p.counts.Keys
    requires FeedbackNoted(p.accs[t]) && Step(limits, ordinary, p, r).Done?
    ensures var q := Step(limits, ordinary, p, r).value;
            && t in q.accs && FeedbackNoted(q.accs[t])
            && q.accs[t].outcomes == p.accs[t].outcomes
                                     + if Identity(r) !in p.seen && NotesOutcome(limits, ordinary, r, t)
                                       then {r.outcomeId} else {}
  {
    if r.taskId == t && Accumulate(limits, p.accs[t], r).Counted? {
      OutcomeNoted(limits, p.accs[t], r);
      FeedbackStaysNoted(limits, p.accs[t], r);
    }
  }

  lemma OutcomeIdsSnoc(limits: Limits, ordinary: set<string>, kept: seq<Record>, r: Record, t: string)
    ensures OutcomeIds(limits, ordinary, kept + [r], t)
         == OutcomeIds(limits, ordinary, kept, t) + if NotesOutcome(limits, ordinary, r, t) then {r.outcomeId} else {}
  {
  }

  /** What a task's accumulator has noted are the outcome ids of its kept rows. */
  lemma {:induction false} FoldOutcomes(limits: Limits, ordinary: set<string>, tasks: seq<string>, rows: seq<Record>, t: string)
    requires t in tasks && Fold(limits, ordinary, Start(tasks), rows).Done?
    ensures var accs := Fold(limits, ordinary, Start(tasks), rows).value.accs;
            t in accs && FeedbackNoted(accs[t])
            && accs[t].outcomes == OutcomeIds(limits, ordinary, Kept(rows, tasks), t)
  {
    if rows != [] {
      var n := |rows| - 1;
      FoldOutcomes(limits, ordinary, tasks, rows[..n], t);
      FoldSkips(limits, ordinary, tasks, rows[..n]);
      StepOutcomes(limits, ordinary, Fold(limits, ordinary, Start(tasks), rows[..n]).value, rows[n], t);
      OutcomeIdsSnoc(limits, ordinary, Kept(rows[..n], tasks), rows[n], t);
    }
  }

  /** Once its rows are accumulated, a run fails in the validation of its own
      results exactly when the kept rows of some task note an outcome id that is
      blank or too long, or two that are alike when stripped. */
  lemma AcceptedExactly(limits: Limits, tasks: seq<string>, items: seq<Item>, watermark: Option<nat>,
                        ordinary: set<string>, reference: Option<real>)
    requires LimitsOk(limits) && "" !in tasks && Convert(limits, items, watermark).Done?
    requires Fold(limits, ordinary, Start(tasks), Sort(Records(items))).Done?
    ensures var out, rows := Project(limits, tasks, items, watermark, ordinary, reference), Sort(Records(items));
            && (out.Done? <==> forall t :: t in tasks ==> TidyTask(limits, ordinary, tasks, rows, t))
            && (out.Failed? ==> out.failure == Unacceptable)
            && (out.Done? ==> |out.value| == |tasks| && forall i :: 0 <= i < |tasks| ==> out.value[i].taskId == tasks[i])
  {
    var rows := Records(items);
    var accs := Fold(limits, ordinary, Start(tasks), Sort(rows)).value.accs;
    var cut, now := watermark.GetOrElse(LatestSequence(rows)), reference.GetOrElse(LatestTime(rows).GetOrElse(0.0));
    AllAcceptedExactly(limits, tasks, ordinary, Sort(rows), Projections(limits, tasks, accs, ordinary, cut, now), cut, now);
  }

  lemma AllAcceptedExactly(limits: Limits, tasks: seq<string>, ordinary: set<string>, rows: seq<Record>,
                           ps: seq<Projection>, cut: nat, now: real)
    requires LimitsOk(limits) && "" !in tasks && Fold(limits, ordinary, Start(tasks), rows).Done?
    requires ps == Projections(limits, tasks, Fold(limits, ordinary, Start(tasks), rows).value.accs, ordinary, cut, now)
    ensures Validated(ps).Done? <==> forall t :: t in tasks ==> TidyTask(limits, ordinary, tasks, rows, t)
    ensures |ps| == |tasks| && forall i :: 0 <= i < |tasks| ==> ps[i].taskId == tasks[i]
  {
    forall i | 0 <= i < |tasks| ensures Acceptable(ps[i]) <==> TidyTask(limits, ordinary, tasks, rows, tasks[i]) {
      OneAcceptedExactly(limits, tasks, ordinary, rows, tasks[i], cut, now);
    }
    EachTask(tasks, ps, t => TidyTask(limits, ordinary, tasks, rows, t));
  }

  lemma EachTask(tasks: seq<string>, ps: seq<Projection>, tidy: string -> bool)
    requires |ps| == |tasks| && forall i :: 0 <= i < |tasks| ==> (Acceptable(ps[i]) <==> tidy(tasks[i]))
    ensures Validated(ps).Done? <==> forall t :: t in tasks ==> tidy(t)
  {
  }

  lemma OneAcceptedExactly(limits: Limits, tasks: seq<string>, ordinary: set<string>, rows: seq<Record>, t: string,
                           cut: nat, now: real)
    requires LimitsOk(limits) && t != "" && t in tasks && Fold(limits, ordinary, Start(tasks), rows).Done?
    ensures var accs := Fold(limits, ordinary, Start(tasks), rows).value.accs;
            t in accs && (Acceptable(Finish(limits, ordinary, t, accs[t], cut, now))
                          <==> TidyTask(limits, ordinary, tasks, rows, t))
  {
    FoldKeepsOne(limits, ordinary, tasks, rows);
    FoldOutcomes(limits, ordinary, tasks, rows, t);
    FinishIsAcceptable(limits, ordinary, t, Fold(limits, ordinary, Start(tasks), rows).value.accs[t], cut, now);
  }

  /** Ids that carry no white space at their ends and are short enough always pass. */
  lemma TidyIdsPass(ids: set<string>)
    requires forall id :: id in ids ==> Strip(id) == id && 0 < |id| <= MAX_OUTCOME_CHARS
    ensures OutcomeIdsOk(ids)
  {
  }

  predicate AllExplicit(items: seq<Item>) {
    forall i :: 0 <= i < |items| ==> items[i].explicit
  }

  ghost predicate OneRowPerIdentity(items: seq<Item>) {
    forall x, y :: x in items && y in items && Identity(x.record) == Identity(y.record) ==> x == y
  }

  lemma ExplicitRecords(items: seq<Item>)
    requires AllExplicit(items)
    ensures forall r :: r in Records(items) <==> Item(r, true) in items
  {
    forall r ensures r in Records(items) <==> Item(r, true) in items {
      if r in Records(items) {
        var i :| 0 <= i < |items| && Records(items)[i] == r;
        assert items[i] == Item(r, true);
      }
      if Item(r, true) in items {
        var i :| 0 <= i < |items| && items[i] == Item(r, true);
        assert Records(items)[i] == r;
      }
    }
  }

  lemma OneRowHasOneLeader(items: seq<Item>, tasks: seq<string>)
    requires AllExplicit(items) && OneRowPerIdentity(items)
    ensures OneLeader(Records(items), tasks)
  {
    ExplicitRecords(items);
    forall x, y ensures !Rivals(Records(items), tasks, x, y) {
      if x in Records(items) && y in Records(items) && Identity(x) == Identity(y) {
        assert Item(x, true) in items && Item(y, true) in items;
      }
    }
  }

  /** Permuting a snapshot's rows, replaying exact copies of them, and cutting
      them into pages in any way leave every projection unchanged. */
  lemma PermutedAndReplayed(limits: Limits, tasks: seq<string>, a: seq<Item>, b: seq<Item>, watermark: Option<nat>,
                            ordinary: set<string>, reference: Option<real>)
    requires limits.recencyWindow > 0.0
    requires |a| <= limits.maxRecords && |b| <= limits.maxRecords
    requires AllExplicit(a) && OneRowPerIdentity(a)
    requires forall x :: x in a <==> x in b
    ensures Project(limits, tasks, a, watermark, ordinary, reference)
         == Project(limits, tasks, b, watermark, ordinary, reference)
  {
    forall i | 0 <= i < |b| ensures b[i].explicit { assert b[i] in b && b[i] in a; }
    OneRowHasOneLeader(a, tasks);
    ExplicitRecords(a);
    ExplicitRecords(b);
    ProjectionDependsOnSet(limits, tasks, a, b, watermark, ordinary, reference);
  }

  ghost predicate OnSomePage(pages: seq<seq<Item>>, x: Item) {
    exists page :: page in pages && x in page
  }

  lemma {:induction false} ConcatElements(pages: seq<seq<Item>>)
    ensures forall x :: x in Concat(pages) <==> OnSomePage(pages, x)
  {
    if pages != [] {
      var n := |pages| - 1;
      ConcatElements(pages[..n]);
      assert forall page :: page in pages <==> page == pages[n] || page in pages[..n];
    }
  }

  lemma PagingIsIrrelevant(limits: Limits, tasks: seq<string>, a: seq<seq<Item>>, b: seq<seq<Item>>,
                           watermark: Option<nat>, ordinary: set<string>, reference: Option<real>)
    requires limits.recencyWindow > 0.0
    requires |Concat(a)| <= limits.maxRecords && |Concat(b)| <= limits.maxRecords
    requires AllExplicit(Concat(a)) && OneRowPerIdentity(Concat(a))
    requires forall x :: OnSomePage(a, x) <==> OnSomePage(b, x)
    ensures Project(limits, tasks, Concat(a), watermark, ordinary, reference)
         == Project(limits, tasks, Concat(b), watermark, ordinary, reference)
  {
    ConcatElements(a);
    ConcatElements(b);
    PermutedAndReplayed(limits, tasks, Concat(a), Concat(b), watermark, ordinary, reference);
  }

  // ---------------------------------------------------------------------
  // A rival the identity does not see
  // ---------------------------------------------------------------------

  /** Rows that differ in their exposure alone share an identity when they carry
      no record id, so whichever is read first is the one that is kept. */
  lemma ExposureIsNotIdentity(r: Record, other: string, tasks: seq<string>)
    requires r.recordId == "" && r.exposureId != other && r.taskId in tasks
    ensures var s := r.(exposureId := other);
            && Identity(s) == Identity(r) && s != r
            && Kept(Sort([r, s]), tasks) != Kept(Sort([s, r]), tasks)
  {
    var s := r.(exposureId := other);
    FirstOfPair(r, s, tasks);
    FirstOfPair(s, r, tasks);
  }

  lemma FirstOfPair(a: Record, b: Record, tasks: seq<string>)
    requires Identity(a) == Identity(b) && a.sequence == b.sequence && a.taskId in tasks && a != b
    ensures a in Kept(Sort([a, b]), tasks) && b !in Kept(Sort([a, b]), tasks)
  {
    assert Leading([a, b], a);
    FirstLeaderIsKept([a, b], tasks);
    KeptIsSubset(Sort([a, b]), tasks);
  }

  /** An exposure row that names no trace, and a helpful verdict on it. */
  predicate JudgedExposure(r: Record, f: Record) {
    && r.tag.kind == Exposure && f.tag.kind == PositiveFeedback
    && !FromChecker(r) && !FromChecker(f) && EntityKey(r) == "" && EntityKey(f) == ""
    && r.exposureId != "" && f.terminal && f.effective && f.feedbackValue == Some(1.0)
    && ExposureOf(f) == ExposureOf(r) && f.taskId == r.taskId
    && r.recordId == "" && r.sequence < f.sequence && Identity(f) != Identity(r)
    && f.trustDeclared && f.trust == 1.0 && f.outcomeId == "" && r.outcomeId == ""
  }

  /** The accumulator of a task with that exposure and that verdict. */
  function JudgedAcc(r: Record, f: Record): Acc {
    EmptyAcc().(exposures := {ExposureOf(r)}, feedback := [Feedback(ExposureOf(f), [f])])
  }

  /** One kept exposure and one kept verdict: the verdict counts exactly when
      the exposure it judges is the one that was kept. */
  lemma VerdictNeedsItsExposure(limits: Limits, r: Record, f: Record, kept: Record)
    requires JudgedExposure(r, f) && kept == r.(exposureId := kept.exposureId) && kept.exposureId != ""
    ensures Accumulate(limits, EmptyAcc(), kept) == Counted(EmptyAcc().(exposures := {ExposureOf(kept)}), true)
    ensures Accumulate(limits, EmptyAcc().(exposures := {ExposureOf(kept)}), f) == Counted(JudgedAcc(kept, f), true)
    ensures TallyOf(limits, JudgedAcc(kept, f), JudgedAcc(kept, f).feedback).positiveWeight == if kept == r then 1.0 else 0.0
  {
    ExposureNoted(limits, kept);
    VerdictNoted(limits, EmptyAcc().(exposures := {ExposureOf(kept)}), f);
    VerdictCounted(limits, JudgedAcc(kept, f), f);
  }

  /** The fold over one kept exposure and one kept verdict. */
  lemma JudgedFold(limits: Limits, r: Record, f: Record, kept: Record)
    requires JudgedExposure(r, f) && kept == r.(exposureId := kept.exposureId) && kept.exposureId != ""
    requires limits.maxPerTask >= 2
    ensures Fold(limits, {}, Start([r.taskId]), [kept, f]).Done?
    ensures Fold(limits, {}, Start([r.taskId]), [kept, f]).value.accs == map[r.taskId := JudgedAcc(kept, f)]
  {
    var t, start := r.taskId, Start([r.taskId]);
    VerdictNeedsItsExposure(limits, r, f, kept);
    assert Identity(kept) == Identity(r);
    assert [kept, f][..1] == [kept] && [kept][..0] == [];
    assert Fold(limits, {}, start, [kept]) == Step(limits, {}, start, kept);
    assert start.accs[t := JudgedAcc(kept, f)] == map[t := JudgedAcc(kept, f)];
  }

  lemma JudgedFraction(limits: Limits, r: Record, f: Record, kept: Record, cut: nat, now: real)
    requires LimitsOk(limits) && JudgedExposure(r, f) && kept == r.(exposureId := kept.exposureId) && kept.exposureId != ""
    ensures Finish(limits, {}, r.taskId, JudgedAcc(kept, f), cut, now).positive
         == if kept == r then Share(1.0, limits.kappa + 1.0) else 0.0
  {
    FinishPositive(limits, r.taskId, JudgedAcc(kept, f), cut, now);
    VerdictNeedsItsExposure(limits, r, f, kept);
    SingleDenominator(limits, JudgedAcc(kept, f), ExposureOf(kept));
  }

  lemma FinishPositive(limits: Limits, t: string, acc: Acc, cut: nat, now: real)
    requires limits.recencyWindow > 0.0
    ensures Finish(limits, {}, t, acc, cut, now).positive == PositiveOf(limits, acc, TallyOf(limits, acc, acc.feedback))
  {
  }

  lemma SingleDenominator(limits: Limits, acc: Acc, key: ExposureKey)
    requires acc.exposures == {key}
    ensures Denominator(limits, acc) == limits.kappa + 1.0
  {
  }

  lemma NothingNoted(limits: Limits, ordinary: set<string>, rows: seq<Record>, tasks: seq<string>, t: string)
    requires forall r :: r in rows ==> r.outcomeId == ""
    ensures TidyTask(limits, ordinary, tasks, rows, t)
  {
    KeptIsSubset(rows, tasks);
    assert OutcomeIds(limits, ordinary, Kept(rows, tasks), t) == {};
  }

  /** The projection of rows of which only those two are kept. */
  lemma JudgedProjection(limits: Limits, r: Record, f: Record, kept: Record, items: seq<Item>)
    requires LimitsOk(limits) && limits.maxPerTask >= 2 && |items| <= limits.maxRecords
    requires JudgedExposure(r, f) && kept == r.(exposureId := kept.exposureId) && kept.exposureId != "" && r.taskId != ""
    requires Kept(Sort(Records(items)), [r.taskId]) == [kept, f]
    requires forall x :: x in Sort(Records(items)) ==> x.outcomeId == ""
    ensures var out := Project(limits, [r.taskId], items, None, {}, None);
            && out.Done? && |out.value| == 1
            && out.value[0].positive == if kept == r then Share(1.0, limits.kappa + 1.0) else 0.0
  {
    var t, rows := r.taskId, Sort(Records(items));
    FoldSkips(limits, {}, [t], rows);
    JudgedFold(limits, r, f, kept);
    NothingNoted(limits, {}, rows, [t], t);
    OneTaskAccepted(limits, t, items, rows);
    JudgedFraction(limits, r, f, kept, LatestSequence(Records(items)), LatestTime(Records(items)).GetOrElse(0.0));
  }

  lemma ExposureNoted(limits: Limits, r: Record)
    requires r.tag.kind == Exposure && !FromChecker(r) && EntityKey(r) == "" && r.exposureId != ""
    ensures Accumulate(limits, EmptyAcc(), r) == Counted(EmptyAcc().(exposures := {ExposureOf(r)}), true)
  {
  }

  lemma VerdictNoted(limits: Limits, acc: Acc, f: Record)
    requires f.tag.kind == PositiveFeedback && !FromChecker(f) && EntityKey(f) == "" && f.exposureId != ""
    requires f.terminal && f.feedbackValue.Some? && acc.feedback == [] && !acc.explicitState && f.outcomeId == ""
    ensures Accumulate(limits, acc, f)
         == Counted(acc.(feedback := [Feedback(ExposureOf(f), [f])]), true)
  {
  }

  lemma VerdictCounted(limits: Limits, acc: Acc, f: Record)
    requires acc.feedback == [Feedback(ExposureOf(f), [f])]
    requires f.terminal && f.effective && f.feedbackValue == Some(1.0) && f.trustDeclared && f.trust == 1.0
    ensures TallyOf(limits, acc, acc.feedback).positiveWeight == if ExposureOf(f) in acc.exposures then 1.0 else 0.0
  {
    SingleWinner(f);
    assert acc.feedback[..0] == [];
  }

  /** Two exposures that differ in nothing else and the verdict on one of them:
      the verdict counts exactly when the exposure read first is its own. */
  lemma JudgedReading(limits: Limits, r: Record, f: Record, first: Record, second: Record)
    requires LimitsOk(limits) && limits.maxPerTask >= 2 && limits.maxRecords >= 3
    requires JudgedExposure(r, f) && r.taskId != "" && first.exposureId != ""
    requires first == r.(exposureId := first.exposureId) && second == r.(exposureId := second.exposureId)
    ensures var out := Project(limits, [r.taskId], [Item(first, true), Item(second, true), Item(f, true)], None, {}, None);
            && out.Done? && |out.value| == 1
            && out.value[0].positive == if first == r then Share(1.0, limits.kappa + 1.0) else 0.0
  {
    var items, rows := [Item(first, true), Item(second, true), Item(f, true)], [first, second, f];
    assert Records(items) == rows;
    assert Identity(first) == Identity(r) == Identity(second);
    KeptOfThree(first, second, f, [r.taskId]);
    Sorts(rows);
    forall x | x in Sort(rows) ensures x.outcomeId == "" {
      assert x in multiset(rows);
    }
    JudgedProjection(limits, r, f, first, items);
  }

  /** Reading the one or the other of them first decides on the fraction. */
  lemma ReadingOrderMatters(limits: Limits, r: Record, f: Record, s: Record)
    requires LimitsOk(limits) && limits.maxPerTask >= 2 && limits.maxRecords >= 3
    requires JudgedExposure(r, f) && r.taskId != ""
    requires s == r.(exposureId := s.exposureId) && s.exposureId != "" && s != r
    ensures var a := Project(limits, [r.taskId], [Item(r, true), Item(s, true), Item(f, true)], None, {}, None);
            var b := Project(limits, [r.taskId], [Item(s, true), Item(r, true), Item(f, true)], None, {}, None);
            && a.Done? && b.Done? && |a.value| == |b.value| == 1
            && a.value[0].positive > 0.0 && b.value[0].positive == 0.0
  {
    JudgedReading(limits, r, f, r, s);
    JudgedReading(limits, r, f, s, r);
    FullVoteCounts(limits);
  }

  lemma FullVoteCounts(limits: Limits)
    requires limits.kappa >= 0.0
    ensures Share(1.0, limits.kappa + 1.0) > 0.0
  {
    ShareIsExact(1.0, limits.kappa + 1.0);
  }

  /** A run over a single row ends in the validation of its own projection
      exactly when the row's noted outcome id is blank or too long. */
  lemma SingleRowFails(limits: Limits, r: Record)
    requires LimitsOk(limits) && limits.maxRecords >= 1 && limits.maxPerTask >= 1 && r.taskId != ""
    requires r.tag.kind == Association && NotesOutcome(limits, {}, r, r.taskId)
    ensures var out := Project(limits, [r.taskId], [Item(r, true)], None, {}, None);
            && (out.Done? <==> 0 < |Strip(r.outcomeId)| <= MAX_OUTCOME_CHARS)
            && (out.Failed? ==> out.failure == Unacceptable)
  {
    assert Records([Item(r, true)]) == [r];
    SingleRowIsKept(r);
    SingleRowIsTaken(limits, r);
    SingleRowIsTidy(limits, r);
    OneTaskAccepted(limits, r.taskId, [Item(r, true)], [r]);
  }

  lemma OneTaskAccepted(limits: Limits, t: string, items: seq<Item>, rows: seq<Record>)
    requires LimitsOk(limits) && t != "" && |items| <= limits.maxRecords && rows == Sort(Records(items))
    requires Fold(limits, {}, Start([t]), rows).Done?
    ensures var out := Project(limits, [t], items, None, {}, None);
            (out.Done? <==> TidyTask(limits, {}, [t], rows, t)) && (out.Failed? ==> out.failure == Unacceptable)
  {
    AcceptedExactly(limits, [t], items, None, {}, None);
    assert t in [t];
  }

  lemma SingleRowIsTidy(limits: Limits, r: Record)
    requires NotesOutcome(limits, {}, r, r.taskId)
    ensures TidyTask(limits, {}, [r.taskId], [r], r.taskId) <==> 0 < |Strip(r.outcomeId)| <= MAX_OUTCOME_CHARS
  {
    SingleRowIsKept(r);
    OutcomeIdsSnoc(limits, {}, [], r, r.taskId);
    assert [] + [r] == [r];
    assert OutcomeIds(limits, {}, [r], r.taskId) == {r.outcomeId};
    assert r.outcomeId in {r.outcomeId};
  }

  lemma SingleRowIsKept(r: Record)
    ensures Sort([r]) == [r] && Kept([r], [r.taskId]) == [r]
  {
    assert [r][..0] == [];
  }

  lemma SingleRowIsTaken(limits: Limits, r: Record)
    requires limits.maxPerTask >= 1 && r.tag.kind == Association
    ensures Fold(limits, {}, Start([r.taskId]), [r]).Done?
  {
    assert [r][..0] == [];
    assert Fold(limits, {}, Start([r.taskId]), []) == Done(Start([r.taskId]));
  }

  lemma KeptOfThree(a: Record, b: Record, f: Record, tasks: seq<string>)
    requires a.sequence == b.sequence < f.sequence && Identity(a) == Identity(b) && Identity(f) != Identity(a)
    requires a.taskId in tasks && b.taskId in tasks && f.taskId in tasks
    ensures Kept(Sort([a, b, f]), tasks) == [a, f]
  {
    RowLessTotal(a, b);
    assert [a, b, f][..2] == [a, b] && [a, b][..1] == [a] && [a][..0] == [];
    assert [a, b][1..] == [b] && [b][1..] == [] && [a][1..] == [];
    assert Sort([a]) == [a];
    assert !RowLess(b, a);
    assert Insert([a], b) == [a] + Insert([], b);
    assert Sort([a, b]) == [a, b];
    assert Insert([b], f) == [b] + Insert([], f);
    assert Insert([a, b], f) == [a] + Insert([b], f);
    assert Sort([a, b, f]) == [a, b, f];
    assert Kept([a], tasks) == [a];
    assert Kept([a, b], tasks) == [a];
  }

  lemma SingleWinner(f: Record)
    requires f.terminal && f.effective
    ensures Winner([f]) == Some(f)
  {
    assert Filter([f], (r: Record) => r.terminal) == [f];
    assert Filter([f], (r: Record) => r.effective) == [f];
  }

  // ---------------------------------------------------------------------
  // The loops
  // ---------------------------------------------------------------------

  /** Convert the input row by row, refusing rows beyond the pinned watermark. */
  method ConvertAll(limits: Limits, items: seq<Item>, watermark: Option<nat>) returns (out: Outcome<seq<Record>>)
    ensures out == Convert(limits, items, watermark)
  {
    var rows: seq<Record> := [];
    var i := 0;
    while i < |items|
      invariant i <= |items| && rows == Records(items)[..i]
      invariant forall k :: 0 <= k < i ==> !Beyond(rows[k], watermark)
    {
      var r := RecordAt(items, i);
      assert Records(items)[i] == r;
      if Beyond(r, watermark) {
        return Failed(BeyondWatermark);
      }
      rows := rows + [r];
      i := i + 1;
    }
    assert rows == Records(items);
    return if |items| > limits.maxRecords then Failed(RecordBound) else Done(rows);
  }

  /** One accumulator per task, each its own object. */
  ghost predicate Separate(accs: map<string, TaskAccumulator>) {
    forall t, u :: t in accs && u in accs && t != u ==> accs[t] != accs[u]
  }

  ghost predicate Mirrors(accs: map<string, TaskAccumulator>, views: map<string, Acc>)
    reads set t | t in accs :: accs[t]
  {
    accs.Keys == views.Keys && forall t :: t in accs ==> accs[t].View() == views[t]
  }

  method FreshAccumulators(tasks: seq<string>) returns (accs: map<string, TaskAccumulator>)
    ensures Separate(accs) && forall t :: t in accs ==> fresh(accs[t])
    ensures Mirrors(accs, Start(tasks).accs)
  {
    accs := map[];
    var i := 0;
    while i < |tasks|
      invariant i <= |tasks| && Separate(accs)
      invariant forall t :: t in accs ==> fresh(accs[t]) && accs[t].View() == EmptyAcc()
      invariant forall t :: t in accs <==> t in tasks[..i]
    {
      var acc := new TaskAccumulator();
      accs := accs[tasks[i] := acc];
      i := i + 1;
    }
    assert tasks[..i] == tasks;
  }

  /** What the fold carries besides the accumulators. */
  datatype Tables = Tables(seen: set<seq<string>>, counts: map<string, nat>, used: nat)

  function With(t: Tables, accs: map<string, Acc>): Progress {
    Progress(t.seen, t.counts, accs, t.used)
  }

  /** One sorted row, into the accumulator of its task. */
  method TakeRow(limits: Limits, ordinary: set<string>, accs: map<string, TaskAccumulator>, t: Tables,
                 ghost views: map<string, Acc>, r: Record) returns (out: Outcome<Tables>)
    requires Separate(accs) && Mirrors(accs, views) && t.counts.Keys == views.Keys
    modifies set k | k in accs :: accs[k]
    ensures match Step(limits, ordinary, With(t, views), r)
            case Failed(f) => out == Failed(f)
            case Done(p) => out.Done? && p == With(out.value, p.accs) && Mirrors(accs, p.accs)
                            && out.value.counts.Keys == p.accs.Keys
  {
    if r.taskId !in accs || Identity(r) in t.seen {
      return Done(t);
    }
    if t.counts[r.taskId] >= limits.maxPerTask {
      return Failed(TaskBound);
    }
    var seen := t.seen + {Identity(r)};
    var counts := t.counts[r.taskId := t.counts[r.taskId] + 1];
    if Ordinary(r, ordinary) {
      return Done(Tables(seen, counts, t.used));
    }
    var used := accs[r.taskId].AccumulateFull(limits, r);
    if used.None? {
      return Failed(FeedbackUnmapped);
    }
    return Done(Tables(seen, counts, t.used + if used.value then 1 else 0));
  }

  method TakeRows(limits: Limits, ordinary: set<string>, tasks: seq<string>, accs: map<string, TaskAccumulator>,
                  rows: seq<Record>) returns (out: Outcome<Tables>)
    requires Separate(accs) && Mirrors(accs, Start(tasks).accs)
    modifies set k | k in accs :: accs[k]
    ensures match Fold(limits, ordinary, Start(tasks), rows)
            case Failed(f) => out == Failed(f)
            case Done(p) => out.Done? && Mirrors(accs, p.accs)
  {
    var t := Tables({}, map k | k in tasks :: 0, 0);
    ghost var p := Start(tasks);
    var i := 0;
    while i < |rows|
      invariant i <= |rows| && Mirrors(accs, p.accs) && t.counts.Keys == p.accs.Keys && p == With(t, p.accs)
      invariant Fold(limits, ordinary, Start(tasks), rows[..i]) == Done(p)
    {
      FoldNext(limits, ordinary, Start(tasks), rows, i, p);
      var step := TakeRow(limits, ordinary, accs, t, p.accs, rows[i]);
      if step.Failed? {
        return Failed(step.failure);
      }
      t, p := step.value, Step(limits, ordinary, p, rows[i]).value;
      i := i + 1;
    }
    assert rows[..i] == rows;
    return Done(t);
  }

  /** The projection with its loops: conversion, accumulation in place, finish. */
  method ProjectFull(limits: Limits, tasks: seq<string>, items: seq<Item>, watermark: Option<nat>,
                     ordinary: set<string>, reference: Option<real>) returns (out: Outcome<seq<Projection>>)
    requires limits.recencyWindow > 0.0
    ensures out == Project(limits, tasks, items, watermark, ordinary, reference)
  {
    var converted := ConvertAll(limits, items, watermark);
    if converted.Failed? {
      return Failed(converted.failure);
    }
    var rows := Sort(converted.value);
    FoldSkips(limits, ordinary, tasks, rows);
    var accs := FreshAccumulators(tasks);
    var taken := TakeRows(limits, ordinary, tasks, accs, rows);
    if taken.Failed? {
      return Failed(taken.failure);
    }
    ghost var p := Fold(limits, ordinary, Start(tasks), rows).value;
    var cut := watermark.GetOrElse(LatestSequence(converted.value));
    var now := reference.GetOrElse(LatestTime(converted.value).GetOrElse(0.0));
    out := FinishAll(limits, tasks, accs, p.accs, ordinary, cut, now);
  }

  method FinishAll(limits: Limits, tasks: seq<string>, accs: map<string, TaskAccumulator>, ghost views: map<string, Acc>,
                   ordinary: set<string>, cut: nat, now: real) returns (out: Outcome<seq<Projection>>)
    requires limits.recencyWindow > 0.0
    requires Mirrors(accs, views) && forall t :: t in tasks ==> t in accs
    ensures out == Validated(Projections(limits, tasks, views, ordinary, cut, now))
  {
    var projections: seq<Projection> := [];
    ghost var all := Projections(limits, tasks, views, ordinary, cut, now);
    var i := 0;
    while i < |tasks|
      invariant i <= |tasks| && projections == all[..i]
      invariant forall k :: 0 <= k < i ==> Acceptable(all[k])
    {
      assert tasks[i] in tasks;
      var one := FinishFull(limits, ordinary, tasks[i], accs[tasks[i]].View(), cut, now);
      assert one == all[i] by {
        assert accs[tasks[i]].View() == views[tasks[i]];
      }
      if !Acceptable(one) {
        return Failed(Unacceptable);
      }
      projections := projections + [one];
      i := i + 1;
    }
    assert projections == all;
    return Done(projections);
  }

  /** The fold goes on with its next row, or fails for good. */
  lemma FoldNext(limits: Limits, ordinary: set<string>, start: Progress, rows: seq<Record>, i: nat, p: Progress)
    requires i < |rows| && Fold(limits, ordinary, start, rows[..i]) == Done(p)
    ensures Fold(limits, ordinary, start, rows[..i + 1]) == Step(limits, ordinary, p, rows[i])
    ensures Step(limits, ordinary, p, rows[i]).Failed? ==>
              Fold(limits, ordinary, start, rows) == Step(limits, ordinary, p, rows[i])
  {
    assert rows[..i + 1][..i] == rows[..i];
    FoldPrefixFails(limits, ordinary, start, rows, i + 1);
  }

  /** Once a prefix fails, so does the whole fold. */
  lemma {:induction false} FoldPrefixFails(limits: Limits, ordinary: set<string>, start: Progress, rows: seq<Record>, k: nat)
    requires k <= |rows|
    ensures Fold(limits, ordinary, start, rows[..k]).Failed? ==>
              Fold(limits, ordinary, start, rows) == Fold(limits, ordinary, start, rows[..k])
  {
    if k == |rows| {
      assert rows[..k] == rows;
    } else {
      FoldPrefixFails(limits, ordinary, start, rows[..|rows|-1], k);
      assert rows[..|rows|-1][..k] == rows[..k];
    }
  }
}
