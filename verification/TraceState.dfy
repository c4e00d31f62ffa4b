/** The per-task accumulator of the full projection: one entity per declared
    trace or lineage, holding the state set by its latest state row. */
module TraceState {
  import opened Options
  import opened TraceRecords

  /** The manifest-owned limits the projection reads.  `decay(x)` stands for
      the exponential of minus `x`. */
  datatype Limits = Limits(
    maxRecords: nat, maxPerTask: nat,
    duplicateWeight: real, refutationWeight: real, staleWeight: real, stagnationWeight: real,
    recencyWindow: real, stagnationWindow: real,
    kappa: real, trustDefault: real,
    feedbackValues: map<string, real>, requireMapping: bool,
    decay: real -> real)

  datatype Flags = Flags(duplicate: bool, refuted: bool, stale: bool, stagnation: bool)

  datatype Entity = Entity(
    traceId: string, lineageId: string,
    latestTime: Option<real>, latestKey: Option<StateKey>, lastActivity: Option<real>,
    stateApplied: bool, active: Option<bool>, lifecycle: string, actionable: bool,
    evidence: set<(string, string)>, flags: Flags)

  predicate IsActive(e: Entity) {
    e.active != Some(false) && !InactiveLifecycle(e.lifecycle)
  }

  datatype ExposureKey = ExposureKey(run: string, episode: string, exposure: string, subject: string, worker: string)

  function ExposureOf(r: Record): ExposureKey {
    ExposureKey(r.runId, r.episodeId, r.exposureId, if r.traceId != "" then r.traceId else r.evidenceId, r.workerId)
  }

  datatype Feedback = Feedback(key: ExposureKey, rows: seq<Record>)

  datatype Acc = Acc(
    associations: set<(string, string)>, exposures: set<ExposureKey>, feedback: seq<Feedback>,
    outcomes: set<string>, entities: seq<Entity>, explicitState: bool)

  function EmptyAcc(): Acc {
    Acc({}, {}, [], {}, [], false)
  }

  // ---------------------------------------------------------------------
  // One entity
  // ---------------------------------------------------------------------

  function NewEntity(key: string, lineage: string): Entity {
    Entity(key, lineage, None, None, None, false, None, "", false, {}, Flags(false, false, false, false))
  }

  function LineageOf(r: Record): string {
    if r.lineageId != "" then r.lineageId
    else if "lineage:" <= EntityKey(r) then EntityKey(r)
    else ""
  }

  function TouchActivity(e: Entity, r: Record): Entity {
    if r.eventTime.Some? && IsActivity(r)
    then e.(lastActivity := Some(if e.lastActivity.Some? && e.lastActivity.value >= r.eventTime.value
                                 then e.lastActivity.value else r.eventTime.value))
    else e
  }

  predicate Supersedes(r: Record, e: Entity) {
    e.latestKey.None? || KeyLess(e.latestKey.value, KeyOf(r))
  }

  /** The scalar state of an entity after a row that supersedes it. */
  function ApplyState(e: Entity, r: Record): Entity {
    e.(stateApplied := true,
       latestKey := Some(KeyOf(r)),
       latestTime := if r.eventTime.Some? then r.eventTime else e.latestTime,
       lineageId := if LineageOf(r) != "" then LineageOf(r) else e.lineageId,
       active := if r.active.Some? then r.active else e.active,
       lifecycle := if r.lifecycle != "" then r.lifecycle else e.lifecycle,
       actionable := if r.actionable.Some? then r.actionable.value else e.actionable,
       flags := Flags(false, false, false, false))
  }

  function Observed(e: Entity, r: Record): Entity {
    var idle := e.(stateApplied := false);
    TouchActivity(if IsState(r) && Supersedes(r, e) then ApplyState(idle, r) else idle, r)
  }

  predicate FeedbackLike(limits: Limits, r: Record) {
    || r.tag.kind in {PositiveFeedback, NegativeFeedback}
    || r.tag.text in limits.feedbackValues
    || r.feedbackValue.Some?
  }

  predicate Unmapped(limits: Limits, r: Record) {
    limits.requireMapping && r.feedbackValue.None? && r.tag.text !in limits.feedbackValues
  }

  /** What a row does to the entity it names, after `Observed`. */
  function Marked(limits: Limits, e: Entity, r: Record): Entity {
    var k, rel := r.tag.kind, r.relation.kind;
    if k == Frontier then
      if r.lineageId != "" && e.stateApplied then e.(actionable := r.actionable != Some(false)) else e
    else if k == Association then
      if r.lineageId != "" && r.evidenceId != "" then e.(evidence := e.evidence + {(r.evidenceId, r.outcomeId)}) else e
    else if k == Exposure || FeedbackLike(limits, r) || !e.stateApplied then e
    else if k == Duplicate || rel == Duplicate then e.(flags := e.flags.(duplicate := true))
    else if k == Refutation || rel == Refutation then
      e.(flags := e.flags.(refuted := true), active := Some(r.active.GetOrElse(false)), lifecycle := "refuted")
    else if k == Stale || rel == Stale then
      e.(flags := e.flags.(stale := true), active := Some(r.active.GetOrElse(false)), lifecycle := "stale")
    else if k == Stagnation then e.(flags := e.flags.(stagnation := true))
    else e
  }

  function Find(entities: seq<Entity>, key: string): (i: nat)
    ensures i <= |entities|
    ensures i < |entities| ==> entities[i].traceId == key
    ensures forall j :: 0 <= j < i ==> entities[j].traceId != key
  {
    if entities == [] then 0
    else if entities[0].traceId == key then 0
    else 1 + Find(entities[1..], key)
  }

  function EntityAt(entities: seq<Entity>, r: Record): Entity {
    var i := Find(entities, EntityKey(r));
    if i < |entities| then entities[i] else NewEntity(EntityKey(r), LineageOf(r))
  }

  function Put(entities: seq<Entity>, e: Entity): seq<Entity> {
    var i := Find(entities, e.traceId);
    if i < |entities| then entities[i := e] else entities + [e]
  }

  // ---------------------------------------------------------------------
  // One row
  // ---------------------------------------------------------------------

  function FindFeedback(feedback: seq<Feedback>, key: ExposureKey): (i: nat)
    ensures i <= |feedback|
    ensures i < |feedback| ==> feedback[i].key == key
    ensures forall j :: 0 <= j < i ==> feedback[j].key != key
  {
    if feedback == [] then 0
    else if feedback[0].key == key then 0
    else 1 + FindFeedback(feedback[1..], key)
  }

  function AddFeedback(feedback: seq<Feedback>, r: Record): seq<Feedback> {
    var i := FindFeedback(feedback, ExposureOf(r));
    if i < |feedback| then feedback[i := Feedback(feedback[i].key, feedback[i].rows + [r])]
    else feedback + [Feedback(ExposureOf(r), [r])]
  }

  function WithOutcome(outcomes: set<string>, r: Record): set<string> {
    if r.outcomeId != "" then outcomes + {r.outcomeId} else outcomes
  }

  /** The entities after one row; a row without an entity key names none. */
  function EntitiesAfter(limits: Limits, entities: seq<Entity>, r: Record): seq<Entity> {
    if EntityKey(r) == "" then entities
    else Put(entities, Marked(limits, Observed(EntityAt(entities, r), r), r))
  }

  datatype Accumulated =
    | Counted(acc: Acc, used: bool)
    | UnmappedFeedback

  /** One row into the accumulator, and whether it was used. */
  function Accumulate(limits: Limits, acc: Acc, r: Record): Accumulated {
    var k := r.tag.kind;
    var named := EntityKey(r) != "";
    if FromChecker(r) then Counted(acc, false)
    else
      var noted := acc.(entities := EntitiesAfter(limits, acc.entities, r),
                        explicitState := acc.explicitState
                                         || (named && (r.traceId != "" || r.active.Some? || r.lifecycle != "")));
      if k == Trace && !named then Counted(noted, false)
      else if k == Frontier then Counted(noted, named && r.lineageId != "")
      else if k == Association then
        if !named || r.lineageId == "" || r.evidenceId == "" then Counted(noted, false)
        else Counted(noted.(associations := noted.associations + {(r.lineageId, r.evidenceId)},
                            outcomes := WithOutcome(noted.outcomes, r)), true)
      else if k == Exposure then
        if r.exposureId == "" then Counted(noted, false)
        else Counted(noted.(exposures := noted.exposures + {ExposureOf(r)}), true)
      else if FeedbackLike(limits, r) then
        if Unmapped(limits, r) then UnmappedFeedback
        else if r.exposureId == "" || !r.terminal then Counted(noted, false)
        else Counted(noted.(feedback := AddFeedback(noted.feedback, r),
                            outcomes := WithOutcome(noted.outcomes, r)), true)
      else Counted(noted, named)
  }

  /** The row's outcome id is noted with the task: it links a lineage to its
      evidence, or is terminal feedback on an exposure. */
  predicate CountsOutcome(limits: Limits, r: Record) {
    && !FromChecker(r)
    && if r.tag.kind == Association then EntityKey(r) != "" && r.lineageId != "" && r.evidenceId != ""
       else && r.tag.kind !in {Frontier, Exposure} && !(r.tag.kind == Trace && EntityKey(r) == "")
            && FeedbackLike(limits, r) && r.exposureId != "" && r.terminal
  }

  lemma OutcomeNoted(limits: Limits, acc: Acc, r: Record)
    requires Accumulate(limits, acc, r).Counted?
    ensures Accumulate(limits, acc, r).acc.outcomes
         == if CountsOutcome(limits, r) then WithOutcome(acc.outcomes, r) else acc.outcomes
  {
  }

  /** The outcome ids of collected feedback are among those noted. */
  ghost predicate FeedbackNoted(acc: Acc) {
    forall f, r :: f in acc.feedback && r in f.rows ==> r.outcomeId == "" || r.outcomeId in acc.outcomes
  }

  lemma AddFeedbackRows(feedback: seq<Feedback>, x: Record)
    ensures forall f, r :: f in AddFeedback(feedback, x) && r in f.rows ==>
              r == x || exists g :: g in feedback && r in g.rows
  {
    var i := FindFeedback(feedback, ExposureOf(x));
    if i < |feedback| { assert feedback[i] in feedback; }
  }

  lemma FeedbackStaysNoted(limits: Limits, acc: Acc, r: Record)
    requires FeedbackNoted(acc) && Accumulate(limits, acc, r).Counted?
    ensures FeedbackNoted(Accumulate(limits, acc, r).acc)
  {
    AddFeedbackRows(acc.feedback, r);
    var next := Accumulate(limits, acc, r).acc;
    assert next.feedback == acc.feedback
           || (next.feedback == AddFeedback(acc.feedback, r) && next.outcomes == WithOutcome(acc.outcomes, r));
    assert acc.outcomes <= next.outcomes;
  }

  // ---------------------------------------------------------------------
  // The accumulator in place
  // ---------------------------------------------------------------------

  class TaskAccumulator {
    var associations: set<(string, string)>
    var exposures: set<ExposureKey>
    var feedback: seq<Feedback>
    var outcomes: set<string>
    var entities: seq<Entity>
    var explicitState: bool

    function View(): Acc
      reads this
    {
      Acc(associations, exposures, feedback, outcomes, entities, explicitState)
    }

    constructor ()
      ensures View() == EmptyAcc()
    {
      associations, exposures, feedback, outcomes, entities, explicitState := {}, {}, [], {}, [], false;
    }

    /** Find or create the entity a row names and apply its scalar state. */
    method EntityFor(r: Record) returns (at: Option<nat>)
      modifies this`entities
      ensures at.None? <==> EntityKey(r) == ""
      ensures at.None? ==> entities == old(entities)
      ensures at.Some? ==>
                && at.value == Find(old(entities), EntityKey(r)) < |entities|
                && entities[at.value].traceId == EntityKey(r)
                && entities == Put(old(entities), Observed(EntityAt(old(entities), r), r))
                && entities[at.value] == Observed(EntityAt(old(entities), r), r)
    {
      var key := EntityKey(r);
      if key == "" {
        return None;
      }
      var i := Find(entities, key);
      if i == |entities| {
        entities := entities + [NewEntity(key, LineageOf(r))];
      }
      var e := entities[i].(stateApplied := false);
      if IsState(r) && Supersedes(r, e) {
        e := ApplyState(e, r);
      }
      entities := entities[i := TouchActivity(e, r)];
      return Some(i);
    }

    /** Set the flags and marks a row gives the entity it names. */
    method Mark(limits: Limits, r: Record, i: nat)
      requires i < |entities|
      modifies this`entities
      ensures entities == old(entities)[i := Marked(limits, old(entities)[i], r)]
    {
      var k, rel, e := r.tag.kind, r.relation.kind, entities[i];
      if k == Frontier {
        if r.lineageId != "" && e.stateApplied {
          e := e.(actionable := r.actionable != Some(false));
        }
      } else if k == Association {
        if r.lineageId != "" && r.evidenceId != "" {
          e := e.(evidence := e.evidence + {(r.evidenceId, r.outcomeId)});
        }
      } else if k == Exposure || FeedbackLike(limits, r) || !e.stateApplied {
        return;
      } else if k == Duplicate || rel == Duplicate {
        e := e.(flags := e.flags.(duplicate := true));
      } else if k == Refutation || rel == Refutation {
        e := e.(flags := e.flags.(refuted := true), active := Some(r.active.GetOrElse(false)), lifecycle := "refuted");
      } else if k == Stale || rel == Stale {
        e := e.(flags := e.flags.(stale := true), active := Some(r.active.GetOrElse(false)), lifecycle := "stale");
      } else if k == Stagnation {
        e := e.(flags := e.flags.(stagnation := true));
      }
      entities := entities[i := e];
    }

    method NoteEntity(limits: Limits, r: Record) returns (named: bool)
      modifies this`entities
      ensures named <==> EntityKey(r) != ""
      ensures entities == EntitiesAfter(limits, old(entities), r)
    {
      ghost var noted := Observed(EntityAt(entities, r), r);
      ObservedKeepsId(limits, noted, r);
      PutTwice(entities, noted, Marked(limits, noted, r));
      var at := EntityFor(r);
      if at.Some? {
        Mark(limits, r, at.value);
      }
      return at.Some?;
    }

    /** Collect one row without counting checker events. */
    method AccumulateFull(limits: Limits, r: Record) returns (used: Option<bool>)
      modifies this
      ensures match Accumulate(limits, old(View()), r)
              case Counted(acc, u) => View() == acc && used == Some(u)
              case UnmappedFeedback => used == None
    {
      var k := r.tag.kind;
      if FromChecker(r) {
        return Some(false);
      }
      var named := NoteEntity(limits, r);
      explicitState := explicitState || (named && (r.traceId != "" || r.active.Some? || r.lifecycle != ""));
      if k == Trace && !named {
        return Some(false);
      }
      if k == Frontier {
        return Some(named && r.lineageId != "");
      }
      if k == Association {
        if !named || r.lineageId == "" || r.evidenceId == "" {
          return Some(false);
        }
        associations := associations + {(r.lineageId, r.evidenceId)};
        outcomes := WithOutcome(outcomes, r);
        return Some(true);
      }
      if k == Exposure {
        if r.exposureId == "" {
          return Some(false);
        }
        exposures := exposures + {ExposureOf(r)};
        return Some(true);
      }
      if FeedbackLike(limits, r) {
        if Unmapped(limits, r) {
          return None;
        }
        if r.exposureId == "" || !r.terminal {
          return Some(false);
        }
        feedback := AddFeedback(feedback, r);
        outcomes := WithOutcome(outcomes, r);
        return Some(true);
      }
      return Some(named);
    }
  }

  lemma ObservedKeepsId(limits: Limits, e: Entity, r: Record)
    ensures Observed(e, r).traceId == e.traceId
    ensures Marked(limits, e, r).traceId == e.traceId
  {
  }

  /** Writing an entity and then amending it is writing the amended one. */
  lemma PutTwice(entities: seq<Entity>, e: Entity, amended: Entity)
    requires e.traceId == amended.traceId
    ensures var once := Put(entities, e);
            var i := Find(entities, e.traceId);
            i < |once| && once[i] == e && once[i := amended] == Put(entities, amended)
  {
  }
}
