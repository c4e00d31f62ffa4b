/** What an entity says of its trace: every scalar is the one told by the last
    row that set the state and tells it. */
module TraceScalars {
  import opened Options
  import opened TraceRecords
  import opened TraceState
  import opened TraceStreaming
  import opened TraceFinish

  // ---------------------------------------------------------------------
  // What a row tells
  // ---------------------------------------------------------------------

  /** A refutation or stale row tells that the trace is inactive unless it says
      otherwise itself. */
  function TellsActive(limits: Limits): Record -> Option<bool> {
    (r: Record) =>
      if FlagsOf(limits, r).refuted || FlagsOf(limits, r).stale then Some(r.active.GetOrElse(false)) else r.active
  }

  function TellsLifecycle(limits: Limits): Record -> Option<string> {
    (r: Record) =>
      if FlagsOf(limits, r).refuted then Some("refuted")
      else if FlagsOf(limits, r).stale then Some("stale")
      else if r.lifecycle != "" then Some(r.lifecycle) else None
  }

  /** A frontier row of a lineage tells that it is actionable unless it says not. */
  function TellsActionable(): Record -> Option<bool> {
    (r: Record) => if r.tag.kind == Frontier && r.lineageId != "" then Some(r.actionable != Some(false)) else r.actionable
  }

  function TellsTime(): Record -> Option<real> {
    (r: Record) => r.eventTime
  }

  function TellsLineage(): Record -> Option<string> {
    (r: Record) => if StatedLineage(r) != "" then Some(StatedLineage(r)) else None
  }

  /** The lineage a row states, or the trace it names where that is itself written
      as a lineage. */
  function StatedLineage(r: Record): string {
    var trace := if r.traceId != "" then r.traceId else r.targetTraceId;
    if r.lineageId != "" then r.lineageId
    else if |trace| >= 8 && trace[..8] == "lineage:" then trace
    else ""
  }

  lemma LineageIsStated(r: Record)
    ensures LineageOf(r) == StatedLineage(r)
  {
    if r.lineageId == "" { assert EntityKey(r) == if r.traceId != "" then r.traceId else r.targetTraceId; }
  }

  // ---------------------------------------------------------------------
  // Which rows set the state
  // ---------------------------------------------------------------------

  /** The row is a state row of `key` greater than all before it. */
  ghost predicate Tops(before: seq<Record>, key: string, r: Record) {
    StateRow(r, key) && forall x :: x in before && StateRow(x, key) ==> KeyLess(KeyOf(x), KeyOf(r))
  }

  ghost predicate Sets(rows: seq<Record>, key: string, i: nat) {
    i < |rows| && Tops(rows[..i], key, rows[i])
  }

  ghost predicate ToldAt<T(!new)>(rows: seq<Record>, key: string, tells: Record -> Option<T>, told: Option<T>, i: nat) {
    && Sets(rows, key, i) && tells(rows[i]) == told
    && forall j: nat :: i < j < |rows| && Sets(rows, key, j) ==> tells(rows[j]) == None
  }

  /** What the last row that sets the state and tells it has told. */
  ghost predicate LastTold<T(!new)>(rows: seq<Record>, key: string, tells: Record -> Option<T>, told: Option<T>) {
    if told == None then forall i: nat :: i < |rows| && Sets(rows, key, i) ==> tells(rows[i]) == None
    else exists i: nat :: ToldAt(rows, key, tells, told, i)
  }

  lemma SetsSnoc(rows: seq<Record>, key: string, r: Record, i: nat)
    requires i <= |rows|
    ensures Sets(rows + [r], key, i) <==> if i == |rows| then Tops(rows, key, r) else Sets(rows, key, i)
  {
    assert (rows + [r])[..i] == rows[..i];
    assert rows[..|rows|] == rows;
  }

  lemma ToldNext<T(!new)>(rows: seq<Record>, key: string, tells: Record -> Option<T>, told: Option<T>, r: Record)
    requires LastTold(rows, key, tells, told)
    ensures LastTold(rows + [r], key, tells, if Tops(rows, key, r) && tells(r).Some? then tells(r) else told)
  {
    var longer, n := rows + [r], |rows|;
    forall i: nat | i <= n ensures Sets(longer, key, i) <==> if i == n then Tops(rows, key, r) else Sets(rows, key, i) {
      SetsSnoc(rows, key, r, i);
    }
    if Tops(rows, key, r) && tells(r).Some? {
      assert ToldAt(longer, key, tells, tells(r), n);
    } else if told != None {
      var i: nat :| ToldAt(rows, key, tells, told, i);
      assert ToldAt(longer, key, tells, told, i);
    }
  }

  // ---------------------------------------------------------------------
  // The scalars of an entity
  // ---------------------------------------------------------------------

  predicate Dates(r: Record, key: string) {
    NamesEntity(r, key) && IsActivity(r) && r.eventTime.Some?
  }

  predicate Links(r: Record, key: string) {
    NamesEntity(r, key) && r.tag.kind == Association && r.lineageId != "" && r.evidenceId != ""
  }

  /** The latest time of an activity row, if any. */
  ghost predicate LastActive(rows: seq<Record>, key: string, at: Option<real>) {
    && (at.None? <==> forall r :: r in rows ==> !Dates(r, key))
    && (at.Some? ==> (exists r :: r in rows && Dates(r, key) && r.eventTime == at)
                     && forall r :: r in rows && Dates(r, key) ==> r.eventTime.value <= at.value)
  }

  ghost predicate FirstNamed(rows: seq<Record>, key: string, i: nat) {
    i < |rows| && NamesEntity(rows[i], key) && forall j :: 0 <= j < i ==> !NamesEntity(rows[j], key)
  }

  ghost predicate LineageTold(rows: seq<Record>, key: string, lineage: string) {
    || LastTold(rows, key, TellsLineage(), Some(lineage))
    || (LastTold(rows, key, TellsLineage(), None) && exists i: nat :: FirstNamed(rows, key, i) && lineage == StatedLineage(rows[i]))
  }

  ghost predicate ScalarsTold(limits: Limits, rows: seq<Record>, key: string, e: Entity) {
    && LastTold(rows, key, TellsActive(limits), e.active)
    && LastTold(rows, key, TellsLifecycle(limits), if e.lifecycle == "" then None else Some(e.lifecycle))
    && (LastTold(rows, key, TellsActionable(), Some(e.actionable))
        || (!e.actionable && LastTold(rows, key, TellsActionable(), None)))
    && LastTold(rows, key, TellsTime(), e.latestTime)
  }

  /** The evidence the rows link to the trace. */
  function LinksOf(rows: seq<Record>, key: string): set<(string, string)> {
    set r | r in rows && Links(r, key) :: (r.evidenceId, r.outcomeId)
  }

  lemma LinksNext(rows: seq<Record>, key: string, r: Record)
    ensures LinksOf(rows + [r], key) == LinksOf(rows, key) + if Links(r, key) then {(r.evidenceId, r.outcomeId)} else {}
  {
  }

  ghost predicate EvidenceTold(rows: seq<Record>, key: string, e: Entity) {
    && LineageTold(rows, key, e.lineageId)
    && LastActive(rows, key, e.lastActivity)
    && e.evidence == LinksOf(rows, key)
  }

  // ---------------------------------------------------------------------
  // One row
  // ---------------------------------------------------------------------

  /** A row sets the state of an entity exactly when it tops the rows so far. */
  lemma SupersedesExactly(limits: Limits, rows: seq<Record>, key: string, e: Entity, r: Record)
    requires HoldsGreatest(limits, rows, key, e) && NamesEntity(r, key)
    ensures IsState(r) && Supersedes(r, e) <==> Tops(rows, key, r)
  {
    if exists i :: 0 <= i < |rows| && StateRow(rows[i], key) {
      var i: nat :| SetBy(limits, rows, key, e, i);
      assert rows[i] in rows;
      if IsState(r) && KeyLess(KeyOf(rows[i]), KeyOf(r)) {
        forall x | x in rows && StateRow(x, key) ensures KeyLess(KeyOf(x), KeyOf(r)) {
          KeyLessTotal(KeyOf(x), KeyOf(rows[i]));
          if KeyLess(KeyOf(x), KeyOf(rows[i])) { KeyLessTransitive(KeyOf(x), KeyOf(rows[i]), KeyOf(r)); }
        }
      }
    } else {
      assert forall x :: x in rows ==> !StateRow(x, key);
    }
  }

  lemma ObservedState(e: Entity, r: Record, sets: bool)
    requires sets <==> IsState(r) && Supersedes(r, e)
    ensures var o := Observed(e, r);
            && (o.stateApplied <==> sets)
            && o.active == (if sets && r.active.Some? then r.active else e.active)
            && o.lifecycle == (if sets && r.lifecycle != "" then r.lifecycle else e.lifecycle)
  {
  }

  /** What one row of its own does to the scalars of an entity. */
  lemma ActiveAfter(limits: Limits, e: Entity, r: Record, sets: bool)
    requires sets <==> IsState(r) && Supersedes(r, e)
    ensures Marked(limits, Observed(e, r), r).active
         == if sets && TellsActive(limits)(r).Some? then TellsActive(limits)(r) else e.active
  {
    ObservedState(e, r, sets);
    MarkedActive(limits, Observed(e, r), r);
  }

  lemma MarkedActive(limits: Limits, o: Entity, r: Record)
    ensures Marked(limits, o, r).active
         == if o.stateApplied && (FlagsOf(limits, r).refuted || FlagsOf(limits, r).stale)
            then Some(r.active.GetOrElse(false)) else o.active
  {
  }

  lemma LifecycleAfter(limits: Limits, e: Entity, r: Record, sets: bool)
    requires sets <==> IsState(r) && Supersedes(r, e)
    ensures Marked(limits, Observed(e, r), r).lifecycle
         == if sets && TellsLifecycle(limits)(r).Some? then TellsLifecycle(limits)(r).value else e.lifecycle
  {
    ObservedState(e, r, sets);
    MarkedLifecycle(limits, Observed(e, r), r);
  }

  lemma MarkedLifecycle(limits: Limits, o: Entity, r: Record)
    ensures Marked(limits, o, r).lifecycle
         == if o.stateApplied && FlagsOf(limits, r).refuted then "refuted"
            else if o.stateApplied && FlagsOf(limits, r).stale then "stale" else o.lifecycle
  {
  }

  lemma TraitsAfter(limits: Limits, e: Entity, r: Record, sets: bool)
    requires sets <==> IsState(r) && Supersedes(r, e)
    ensures var e' := Marked(limits, Observed(e, r), r);
            && e'.actionable == (if sets && TellsActionable()(r).Some? then TellsActionable()(r).value else e.actionable)
            && e'.latestTime == (if sets && TellsTime()(r).Some? then TellsTime()(r) else e.latestTime)
            && e'.lineageId == (if sets && TellsLineage()(r).Some? then TellsLineage()(r).value else e.lineageId)
  {
    LineageIsStated(r);
  }

  lemma LinksAfter(limits: Limits, e: Entity, r: Record, key: string)
    requires NamesEntity(r, key)
    ensures Marked(limits, Observed(e, r), r).evidence
         == e.evidence + if Links(r, key) then {(r.evidenceId, r.outcomeId)} else {}
  {
    assert Observed(e, r).evidence == e.evidence;
  }

  lemma ActivityAfter(limits: Limits, e: Entity, r: Record, key: string)
    requires NamesEntity(r, key)
    ensures Marked(limits, Observed(e, r), r).lastActivity
         == if Dates(r, key) && (e.lastActivity.None? || e.lastActivity.value < r.eventTime.value)
            then r.eventTime else e.lastActivity
  {
    assert Marked(limits, Observed(e, r), r).lastActivity == Observed(e, r).lastActivity;
  }

  lemma ScalarsNext(limits: Limits, rows: seq<Record>, key: string, e: Entity, r: Record)
    requires HoldsGreatest(limits, rows, key, e) && ScalarsTold(limits, rows, key, e) && NamesEntity(r, key)
    ensures ScalarsTold(limits, rows + [r], key, Marked(limits, Observed(e, r), r))
  {
    SupersedesExactly(limits, rows, key, e, r);
    ActiveAfter(limits, e, r, Tops(rows, key, r));
    LifecycleAfter(limits, e, r, Tops(rows, key, r));
    TraitsAfter(limits, e, r, Tops(rows, key, r));
    ToldNext(rows, key, TellsActive(limits), e.active, r);
    ToldNext(rows, key, TellsLifecycle(limits), if e.lifecycle == "" then None else Some(e.lifecycle), r);
    if LastTold(rows, key, TellsActionable(), Some(e.actionable)) {
      ToldNext(rows, key, TellsActionable(), Some(e.actionable), r);
    } else {
      ToldNext(rows, key, TellsActionable(), None, r);
    }
    ToldNext(rows, key, TellsTime(), e.latestTime, r);
  }

  lemma ScalarsUnmoved(limits: Limits, rows: seq<Record>, key: string, e: Entity, r: Record)
    requires ScalarsTold(limits, rows, key, e) && !NamesEntity(r, key)
    ensures ScalarsTold(limits, rows + [r], key, e)
  {
    ToldNext(rows, key, TellsActive(limits), e.active, r);
    ToldNext(rows, key, TellsLifecycle(limits), if e.lifecycle == "" then None else Some(e.lifecycle), r);
    if LastTold(rows, key, TellsActionable(), Some(e.actionable)) {
      ToldNext(rows, key, TellsActionable(), Some(e.actionable), r);
    } else {
      ToldNext(rows, key, TellsActionable(), None, r);
    }
    ToldNext(rows, key, TellsTime(), e.latestTime, r);
  }

  lemma LineageNext(rows: seq<Record>, key: string, lineage: string, r: Record)
    requires LineageTold(rows, key, lineage)
    ensures LineageTold(rows + [r], key, if Tops(rows, key, r) && StatedLineage(r) != "" then StatedLineage(r) else lineage)
  {
    if LastTold(rows, key, TellsLineage(), Some(lineage)) {
      ToldNext(rows, key, TellsLineage(), Some(lineage), r);
    } else {
      ToldNext(rows, key, TellsLineage(), None, r);
      var i: nat :| FirstNamed(rows, key, i) && lineage == StatedLineage(rows[i]);
      assert FirstNamed(rows + [r], key, i);
    }
  }

  lemma ActivityNext(rows: seq<Record>, key: string, at: Option<real>, r: Record)
    requires LastActive(rows, key, at)
    ensures LastActive(rows + [r], key,
                       if Dates(r, key) && (at.None? || at.value < r.eventTime.value) then r.eventTime else at)
  {
    var longer := rows + [r];
    assert longer[|rows|] == r && forall x :: x in longer <==> x in rows || x == r;
    if Dates(r, key) { assert r in longer; }
  }

  lemma EvidenceNext(limits: Limits, rows: seq<Record>, key: string, e: Entity, r: Record)
    requires HoldsGreatest(limits, rows, key, e) && EvidenceTold(rows, key, e) && NamesEntity(r, key)
    ensures EvidenceTold(rows + [r], key, Marked(limits, Observed(e, r), r))
  {
    SupersedesExactly(limits, rows, key, e, r);
    TraitsAfter(limits, e, r, Tops(rows, key, r));
    LinksAfter(limits, e, r, key);
    ActivityAfter(limits, e, r, key);
    LineageNext(rows, key, e.lineageId, r);
    ActivityNext(rows, key, e.lastActivity, r);
    LinksNext(rows, key, r);
  }

  lemma EvidenceUnmoved(rows: seq<Record>, key: string, e: Entity, r: Record)
    requires EvidenceTold(rows, key, e) && !NamesEntity(r, key)
    ensures EvidenceTold(rows + [r], key, e)
  {
    LineageNext(rows, key, e.lineageId, r);
    ActivityNext(rows, key, e.lastActivity, r);
    LinksNext(rows, key, r);
  }

  /** The first row that names an entity. */
  lemma NewIsTold(limits: Limits, rows: seq<Record>, key: string, r: Record)
    requires NamesEntity(r, key) && forall x :: x in rows ==> !NamesEntity(x, key)
    ensures var e := Marked(limits, Observed(NewEntity(EntityKey(r), LineageOf(r)), r), r);
            ScalarsTold(limits, rows + [r], key, e) && EvidenceTold(rows + [r], key, e)
  {
    var blank := NewEntity(EntityKey(r), LineageOf(r));
    forall i: nat | i < |rows| ensures !Sets(rows, key, i) && !StateRow(rows[i], key) { assert rows[i] in rows; }
    ScalarsNext(limits, rows, key, blank, r);
    NewEvidence(limits, rows, key, blank, r);
  }

  lemma NewEvidence(limits: Limits, rows: seq<Record>, key: string, blank: Entity, r: Record)
    requires NamesEntity(r, key) && forall x :: x in rows ==> !NamesEntity(x, key)
    requires blank == NewEntity(key, LineageOf(r)) && HoldsGreatest(limits, rows, key, blank)
    requires LastTold(rows, key, TellsLineage(), None)
    ensures EvidenceTold(rows + [r], key, Marked(limits, Observed(blank, r), r))
  {
    SupersedesExactly(limits, rows, key, blank, r);
    TraitsAfter(limits, blank, r, Tops(rows, key, r));
    LinksAfter(limits, blank, r, key);
    ActivityAfter(limits, blank, r, key);
    LineageIsStated(r);
    NewLineage(rows, key, r);
    ActivityNext(rows, key, None, r);
    LinksNext(rows, key, r);
  }

  lemma NewLineage(rows: seq<Record>, key: string, r: Record)
    requires NamesEntity(r, key) && forall x :: x in rows ==> !NamesEntity(x, key)
    requires LastTold(rows, key, TellsLineage(), None)
    ensures LineageTold(rows + [r], key, StatedLineage(r))
  {
    ToldNext(rows, key, TellsLineage(), None, r);
    FirstIsNamed(rows, key, r);
    assert (rows + [r])[|rows|] == r;
  }

  lemma FirstIsNamed(rows: seq<Record>, key: string, r: Record)
    requires NamesEntity(r, key) && forall x :: x in rows ==> !NamesEntity(x, key)
    ensures FirstNamed(rows + [r], key, |rows|)
  {
    forall j | 0 <= j < |rows| ensures !NamesEntity((rows + [r])[j], key) { assert rows[j] in rows; }
  }

  // ---------------------------------------------------------------------
  // The whole fold
  // ---------------------------------------------------------------------

  ghost predicate EntityTold(limits: Limits, rows: seq<Record>, key: string, entities: seq<Entity>) {
    var i := Find(entities, key);
    i < |entities| ==> ScalarsTold(limits, rows, key, entities[i]) && EvidenceTold(rows, key, entities[i])
  }

  lemma ToldThrough(limits: Limits, rows: seq<Record>, key: string, acc: Acc, r: Record)
    requires EntityMatches(limits, rows, key, acc.entities) && EntityTold(limits, rows, key, acc.entities)
    requires key != "" && Accumulate(limits, acc, r).Counted?
    ensures EntityTold(limits, rows + [r], key, Accumulate(limits, acc, r).acc.entities)
  {
    var Counted(next, used) := Accumulate(limits, acc, r);
    EntitiesOfAccumulate(limits, acc, r, next, used);
    var i := Find(acc.entities, key);
    if FromChecker(r) {
      if i < |acc.entities| {
        ScalarsUnmoved(limits, rows, key, acc.entities[i], r);
        EvidenceUnmoved(rows, key, acc.entities[i], r);
      }
    } else {
      ToldAfter(limits, rows, key, acc.entities, r);
    }
  }

  lemma ToldAfter(limits: Limits, rows: seq<Record>, key: string, entities: seq<Entity>, r: Record)
    requires EntityMatches(limits, rows, key, entities) && EntityTold(limits, rows, key, entities)
    requires key != "" && !FromChecker(r)
    ensures EntityTold(limits, rows + [r], key, EntitiesAfter(limits, entities, r))
  {
    var i := Find(entities, key);
    ObservedKeepsId(limits, Observed(EntityAt(entities, r), r), r);
    ObservedKeepsId(limits, EntityAt(entities, r), r);
    FindPut(entities, Marked(limits, Observed(EntityAt(entities, r), r), r), key);
    if NamesEntity(r, key) {
      if i < |entities| {
        ScalarsNext(limits, rows, key, entities[i], r);
        EvidenceNext(limits, rows, key, entities[i], r);
      } else {
        NewIsTold(limits, rows, key, r);
      }
    } else if i < |entities| {
      ScalarsUnmoved(limits, rows, key, entities[i], r);
      EvidenceUnmoved(rows, key, entities[i], r);
    }
  }

  /** For every processing order: what an entity holds as active, lifecycle,
      actionable, time and lineage is what the last row that set the state and
      tells it has told; its last activity and its evidence are those of all rows
      that name it. */
  lemma {:induction false} EntitiesAreTold(limits: Limits, rows: seq<Record>, key: string)
    requires FoldRows(limits, rows).Some? && key != ""
    ensures EntityTold(limits, rows, key, FoldRows(limits, rows).value.entities)
  {
    if rows != [] {
      var n := |rows| - 1;
      assert rows == rows[..n] + [rows[n]];
      LastRow(limits, rows);
      EntitiesAreTold(limits, rows[..n], key);
      StreamingIsMaximum(limits, rows[..n], key);
      ToldThrough(limits, rows[..n], key, FoldRows(limits, rows[..n]).value, rows[n]);
    }
  }

  /** Processed in the order of their keys, all state rows set the state, so
      "last" is "greatest". */
  lemma InKeyOrderAllSet(rows: seq<Record>, key: string)
    requires forall i, j :: 0 <= i < j < |rows| && StateRow(rows[i], key) && StateRow(rows[j], key) ==>
               KeyLess(KeyOf(rows[i]), KeyOf(rows[j]))
    ensures forall i: nat :: i < |rows| ==> (Sets(rows, key, i) <==> StateRow(rows[i], key))
  {
    forall i: nat | i < |rows| && StateRow(rows[i], key) ensures Sets(rows, key, i) {
      forall x | x in rows[..i] && StateRow(x, key) ensures KeyLess(KeyOf(x), KeyOf(rows[i])) {
        var j :| 0 <= j < i && rows[j] == x;
      }
    }
  }

  /** The greatest state row sets the state and none after it does. */
  lemma GreatestSetsLast(rows: seq<Record>, key: string, i: nat)
    requires GreatestAt(rows, key, i)
    ensures Sets(rows, key, i) && forall j: nat :: i < j < |rows| ==> !Sets(rows, key, j)
  {
    forall x | x in rows[..i] && StateRow(x, key) ensures KeyLess(KeyOf(x), KeyOf(rows[i])) {
      var j :| 0 <= j < i && rows[j] == x;
    }
    forall j: nat | i < j < |rows| ensures !Sets(rows, key, j) {
      assert rows[i] in rows[..j];
    }
  }

  lemma ToldByGreatest<T(!new)>(rows: seq<Record>, key: string, tells: Record -> Option<T>, told: Option<T>, i: nat)
    requires LastTold(rows, key, tells, told) && GreatestAt(rows, key, i) && tells(rows[i]).Some?
    ensures told == tells(rows[i])
  {
    GreatestSetsLast(rows, key, i);
    if told != None {
      var k: nat :| ToldAt(rows, key, tells, told, k);
    }
  }

  lemma {:induction false} ActiveMembers(entities: seq<Entity>)
    ensures forall e :: e in Active(entities) <==> e in entities && IsActive(e)
  {
    if entities != [] {
      ActiveMembers(entities[1..]);
      assert entities == [entities[0]] + entities[1..];
    }
  }

  /** An inactive entity leaves the list of active ones, and so every weight taken
      over it, as if it were not there. */
  lemma {:induction false} InactiveIsAbsent(entities: seq<Entity>, i: nat)
    requires i < |entities| && !IsActive(entities[i])
    ensures Active(entities[..i] + entities[i + 1..]) == Active(entities)
  {
    var rest := entities[..i] + entities[i + 1..];
    if i == 0 {
      assert rest == entities[1..];
    } else {
      InactiveIsAbsent(entities[1..], i - 1);
      assert rest[1..] == entities[1..][..i - 1] + entities[1..][i..];
    }
  }

  /** The entity of a key with a state row says what the greatest one tells. */
  lemma GreatestIsHeld(limits: Limits, rows: seq<Record>, key: string, i: nat)
    requires FoldRows(limits, rows).Some? && key != "" && GreatestAt(rows, key, i)
    ensures var entities := FoldRows(limits, rows).value.entities;
            var k := Find(entities, key);
            && k < |entities|
            && (TellsActive(limits)(rows[i]).Some? ==> entities[k].active == TellsActive(limits)(rows[i]))
            && (TellsLifecycle(limits)(rows[i]).Some? ==> entities[k].lifecycle == TellsLifecycle(limits)(rows[i]).value)
  {
    var entities := FoldRows(limits, rows).value.entities;
    StreamingIsMaximum(limits, rows, key);
    EntitiesAreTold(limits, rows, key);
    assert rows[i] in rows && NamesEntity(rows[i], key);
    var e := entities[Find(entities, key)];
    if TellsActive(limits)(rows[i]).Some? {
      ToldByGreatest(rows, key, TellsActive(limits), e.active, i);
    }
    if TellsLifecycle(limits)(rows[i]).Some? {
      ToldByGreatest(rows, key, TellsLifecycle(limits), if e.lifecycle == "" then None else Some(e.lifecycle), i);
    }
  }

  /** A trace whose greatest state row tells an inactive lifecycle, or that it is
      not active, counts in no weight of the active traces. */
  lemma DeadTraceCountsNothing(limits: Limits, rows: seq<Record>, key: string, i: nat)
    requires FoldRows(limits, rows).Some? && key != "" && GreatestAt(rows, key, i)
    requires TellsActive(limits)(rows[i]) == Some(false)
             || (TellsLifecycle(limits)(rows[i]).Some? && InactiveLifecycle(TellsLifecycle(limits)(rows[i]).value))
    ensures var entities := FoldRows(limits, rows).value.entities;
            var k := Find(entities, key);
            k < |entities| && !IsActive(entities[k])
            && Active(entities[..k] + entities[k + 1..]) == Active(entities)
  {
    GreatestIsHeld(limits, rows, key, i);
    var entities := FoldRows(limits, rows).value.entities;
    InactiveIsAbsent(entities, Find(entities, key));
  }

  /** Conversely a trace whose greatest state row tells that it is active in a
      lifecycle that is not inactive is among the active ones. */
  lemma LiveTraceCounts(limits: Limits, rows: seq<Record>, key: string, i: nat)
    requires FoldRows(limits, rows).Some? && key != "" && GreatestAt(rows, key, i)
    requires TellsActive(limits)(rows[i]) == Some(true)
    requires TellsLifecycle(limits)(rows[i]).Some? && !InactiveLifecycle(TellsLifecycle(limits)(rows[i]).value)
    ensures var entities := FoldRows(limits, rows).value.entities;
            Find(entities, key) < |entities| && entities[Find(entities, key)] in Active(entities)
  {
    GreatestIsHeld(limits, rows, key, i);
    ActiveMembers(FoldRows(limits, rows).value.entities);
  }
}
