/** The streaming fold computes a maximum: whatever the processing order, an
    entity's state is the one set by its greatest state row. */
module TraceStreaming {
  import opened Options
  import opened TraceRecords
  import opened TraceOrder
  import opened TraceState

  /** The accumulator after the rows, in the order given; `None` once a
      feedback row has no mapping. */
  function FoldRows(limits: Limits, rows: seq<Record>): Option<Acc> {
    if rows == [] then Some(EmptyAcc())
    else match FoldRows(limits, rows[..|rows|-1])
         case None => None
         case Some(acc) =>
           match Accumulate(limits, acc, rows[|rows|-1])
           case Counted(next, _) => Some(next)
           case UnmappedFeedback => None
  }

  predicate NamesEntity(r: Record, key: string) {
    !FromChecker(r) && key != "" && EntityKey(r) == key
  }

  predicate StateRow(r: Record, key: string) {
    NamesEntity(r, key) && IsState(r)
  }

  const CLEAR := Flags(false, false, false, false)

  /** The flags a row asks for, by the first of the vocabularies it falls in. */
  function FlagsOf(limits: Limits, r: Record): Flags {
    var k, rel := r.tag.kind, r.relation.kind;
    if k in {Frontier, Association, Exposure} || FeedbackLike(limits, r) then CLEAR
    else if Duplicate in {k, rel} then CLEAR.(duplicate := true)
    else if Refutation in {k, rel} then CLEAR.(refuted := true)
    else if Stale in {k, rel} then CLEAR.(stale := true)
    else if k == Stagnation then CLEAR.(stagnation := true)
    else CLEAR
  }

  /** `rows[i]` is the greatest state row of `key`, the first of its key. */
  ghost predicate GreatestAt(rows: seq<Record>, key: string, i: nat) {
    && i < |rows| && StateRow(rows[i], key)
    && (forall j :: 0 <= j < |rows| && StateRow(rows[j], key) ==> !KeyLess(KeyOf(rows[i]), KeyOf(rows[j])))
    && (forall j :: 0 <= j < i && StateRow(rows[j], key) ==> KeyLess(KeyOf(rows[j]), KeyOf(rows[i])))
  }

  ghost predicate HoldsGreatest(limits: Limits, rows: seq<Record>, key: string, e: Entity) {
    if forall i :: 0 <= i < |rows| ==> !StateRow(rows[i], key)
    then e.latestKey == None && e.flags == CLEAR
    else exists i: nat :: SetBy(limits, rows, key, e, i)
  }

  ghost predicate SetBy(limits: Limits, rows: seq<Record>, key: string, e: Entity, i: nat) {
    GreatestAt(rows, key, i) && e.latestKey == Some(KeyOf(rows[i])) && e.flags == FlagsOf(limits, rows[i])
  }

  // ---------------------------------------------------------------------
  // One row
  // ---------------------------------------------------------------------

  lemma {:induction false} FindPut(entities: seq<Entity>, e: Entity, key: string)
    ensures var i, j := Find(entities, key), Find(Put(entities, e), key);
            if key == e.traceId then j < |Put(entities, e)| && Put(entities, e)[j] == e
            else (j < |Put(entities, e)| <==> i < |entities|)
                 && (i < |entities| ==> j < |Put(entities, e)| && Put(entities, e)[j] == entities[i])
  {
    if entities != [] && entities[0].traceId != e.traceId {
      FindPut(entities[1..], e, key);
      PutTail(entities, e);
      FindTail(entities, key);
      FindTail(Put(entities, e), key);
    }
  }

  lemma PutTail(entities: seq<Entity>, e: Entity)
    requires entities != [] && entities[0].traceId != e.traceId
    ensures Put(entities, e) == [entities[0]] + Put(entities[1..], e)
  {
  }

  lemma FindTail(entities: seq<Entity>, key: string)
    requires entities != []
    ensures Find(entities, key) == if entities[0].traceId == key then 0 else 1 + Find(entities[1..], key)
  {
  }

  lemma FlagsAfter(limits: Limits, e: Entity, r: Record)
    ensures var e' := Marked(limits, Observed(e, r), r);
            if IsState(r) && Supersedes(r, e)
            then e'.latestKey == Some(KeyOf(r)) && e'.flags == FlagsOf(limits, r)
            else e'.latestKey == e.latestKey && e'.flags == e.flags
  {
  }

  lemma EntitiesOfAccumulate(limits: Limits, acc: Acc, r: Record, next: Acc, used: bool)
    requires Accumulate(limits, acc, r) == Counted(next, used)
    ensures next.entities == if FromChecker(r) then acc.entities else EntitiesAfter(limits, acc.entities, r)
  {
  }

  lemma GreatestExtends(rows: seq<Record>, key: string, i: nat, r: Record)
    requires GreatestAt(rows, key, i)
    requires StateRow(r, key) ==> !KeyLess(KeyOf(rows[i]), KeyOf(r))
    ensures GreatestAt(rows + [r], key, i)
  {
    var longer := rows + [r];
    assert longer[i] == rows[i];
    forall j | 0 <= j < |longer| && StateRow(longer[j], key) ensures !KeyLess(KeyOf(longer[i]), KeyOf(longer[j])) {
      if j < |rows| { assert longer[j] == rows[j]; }
    }
  }

  lemma GreatestReplaced(rows: seq<Record>, key: string, i: nat, r: Record)
    requires GreatestAt(rows, key, i) && StateRow(r, key) && KeyLess(KeyOf(rows[i]), KeyOf(r))
    ensures GreatestAt(rows + [r], key, |rows|)
  {
    var longer := rows + [r];
    forall j | 0 <= j < |rows| && StateRow(rows[j], key) ensures KeyLess(KeyOf(rows[j]), KeyOf(r)) {
      KeyLessTotal(KeyOf(rows[i]), KeyOf(rows[j]));
      if KeyLess(KeyOf(rows[j]), KeyOf(rows[i])) {
        KeyLessTransitive(KeyOf(rows[j]), KeyOf(rows[i]), KeyOf(r));
      }
    }
    forall j | 0 <= j < |longer| && StateRow(longer[j], key) ensures !KeyLess(KeyOf(r), KeyOf(longer[j])) {
      KeyLessTotal(KeyOf(r), KeyOf(r));
      if j < |rows| && KeyLess(KeyOf(r), KeyOf(rows[j])) {
        KeyLessTransitive(KeyOf(rows[j]), KeyOf(r), KeyOf(rows[j]));
        KeyLessTotal(KeyOf(rows[j]), KeyOf(rows[j]));
      }
    }
  }

  lemma FirstIsGreatest(rows: seq<Record>, key: string, r: Record)
    requires StateRow(r, key) && forall i :: 0 <= i < |rows| ==> !StateRow(rows[i], key)
    ensures GreatestAt(rows + [r], key, |rows|)
  {
    KeyLessTotal(KeyOf(r), KeyOf(r));
    var longer := rows + [r];
    assert forall j :: 0 <= j < |rows| ==> longer[j] == rows[j];
  }

  /** The row just processed is for this entity. */
  lemma HoldsAfterOwn(limits: Limits, rows: seq<Record>, key: string, e: Entity, r: Record)
    requires HoldsGreatest(limits, rows, key, e) && NamesEntity(r, key)
    ensures HoldsGreatest(limits, rows + [r], key, Marked(limits, Observed(e, r), r))
  {
    var e', longer := Marked(limits, Observed(e, r), r), rows + [r];
    FlagsAfter(limits, e, r);
    assert longer[|rows|] == r;
    if forall i :: 0 <= i < |rows| ==> !StateRow(rows[i], key) {
      assert forall i :: 0 <= i < |rows| ==> longer[i] == rows[i];
      if IsState(r) {
        FirstIsGreatest(rows, key, r);
        assert SetBy(limits, longer, key, e', |rows|);
      }
    } else {
      var i: nat :| SetBy(limits, rows, key, e, i);
      assert longer[i] == rows[i];
      if IsState(r) && KeyLess(KeyOf(rows[i]), KeyOf(r)) {
        GreatestReplaced(rows, key, i, r);
        assert SetBy(limits, longer, key, e', |rows|);
      } else {
        GreatestExtends(rows, key, i, r);
        assert SetBy(limits, longer, key, e', i);
      }
    }
  }

  /** The row just processed is for another entity or for none. */
  lemma HoldsAfterOther(limits: Limits, rows: seq<Record>, key: string, e: Entity, r: Record)
    requires HoldsGreatest(limits, rows, key, e) && !NamesEntity(r, key)
    ensures HoldsGreatest(limits, rows + [r], key, e)
  {
    var longer := rows + [r];
    assert longer[|rows|] == r && forall i :: 0 <= i < |rows| ==> longer[i] == rows[i];
    if exists i :: 0 <= i < |rows| && StateRow(rows[i], key) {
      var i: nat :| SetBy(limits, rows, key, e, i);
      GreatestExtends(rows, key, i, r);
      assert longer[i] == rows[i] && SetBy(limits, longer, key, e, i);
    }
  }

  ghost predicate EntityMatches(limits: Limits, rows: seq<Record>, key: string, entities: seq<Entity>) {
    var i := Find(entities, key);
    && (i < |entities| <==> exists r :: r in rows && NamesEntity(r, key))
    && (i < |entities| ==> HoldsGreatest(limits, rows, key, entities[i]))
  }

  lemma MatchesAfter(limits: Limits, rows: seq<Record>, key: string, entities: seq<Entity>, r: Record)
    requires EntityMatches(limits, rows, key, entities) && !FromChecker(r)
    ensures EntityMatches(limits, rows + [r], key, EntitiesAfter(limits, entities, r))
  {
    var i, longer := Find(entities, key), rows + [r];
    var e := if i < |entities| then entities[i] else NewEntity(EntityKey(r), LineageOf(r));
    assert longer[|rows|] == r && forall j :: 0 <= j < |rows| ==> longer[j] == rows[j];
    ObservedKeepsId(limits, Observed(EntityAt(entities, r), r), r);
    ObservedKeepsId(limits, EntityAt(entities, r), r);
    FindPut(entities, Marked(limits, Observed(EntityAt(entities, r), r), r), key);
    assert longer[|rows|] in longer && forall x :: x in longer <==> x in rows || x == r;
    if NamesEntity(r, key) {
      if i >= |entities| {
        forall j | 0 <= j < |rows| ensures !StateRow(rows[j], key) { assert rows[j] in rows; }
      }
      HoldsAfterOwn(limits, rows, key, e, r);
    } else if i < |entities| {
      HoldsAfterOther(limits, rows, key, e, r);
    }
  }

  lemma LastRow(limits: Limits, rows: seq<Record>)
    requires rows != [] && FoldRows(limits, rows).Some?
    ensures var before := FoldRows(limits, rows[..|rows|-1]);
            && before.Some? && Accumulate(limits, before.value, rows[|rows|-1]).Counted?
            && FoldRows(limits, rows).value == Accumulate(limits, before.value, rows[|rows|-1]).acc
  {
  }

  /** For every processing order: an entity exists exactly for the keys some row
      names, its latest key is the greatest among its state rows, and its flags
      are exactly the ones that row sets. */
  lemma {:induction false} StreamingIsMaximum(limits: Limits, rows: seq<Record>, key: string)
    requires FoldRows(limits, rows).Some? && key != ""
    ensures EntityMatches(limits, rows, key, FoldRows(limits, rows).value.entities)
  {
    if rows != [] {
      var n := |rows| - 1;
      assert rows == rows[..n] + [rows[n]];
      var before := FoldRows(limits, rows[..n]);
      LastRow(limits, rows);
      StreamingIsMaximum(limits, rows[..n], key);
      MatchesThrough(limits, rows[..n], key, before.value, rows[n]);
    }
  }

  /** One accumulated row keeps the entity of `key` matching the rows. */
  lemma MatchesThrough(limits: Limits, rows: seq<Record>, key: string, acc: Acc, r: Record)
    requires EntityMatches(limits, rows, key, acc.entities) && Accumulate(limits, acc, r).Counted?
    ensures EntityMatches(limits, rows + [r], key, Accumulate(limits, acc, r).acc.entities)
  {
    var Counted(next, used) := Accumulate(limits, acc, r);
    EntitiesOfAccumulate(limits, acc, r, next, used);
    if FromChecker(r) {
      MatchesUnnamed(limits, rows, key, acc.entities, r);
    } else {
      MatchesAfter(limits, rows, key, acc.entities, r);
    }
  }

  lemma MatchesUnnamed(limits: Limits, rows: seq<Record>, key: string, entities: seq<Entity>, r: Record)
    requires EntityMatches(limits, rows, key, entities) && !NamesEntity(r, key)
    ensures EntityMatches(limits, rows + [r], key, entities)
  {
    assert r in rows + [r] && forall x :: x in rows + [r] <==> x in rows || x == r;
    var i := Find(entities, key);
    if i < |entities| {
      HoldsAfterOther(limits, rows, key, entities[i], r);
    }
  }

  /** Two processing orders of the same rows leave each entity with the same
      latest key, and the same flags wherever equal keys mean equal rows. */
  lemma StreamingOrderIndependent(limits: Limits, a: seq<Record>, b: seq<Record>, key: string)
    requires FoldRows(limits, a).Some? && FoldRows(limits, b).Some? && key != ""
    requires SameElements(a, b) && KeysTellRows(a)
    ensures var ea, eb := FoldRows(limits, a).value.entities, FoldRows(limits, b).value.entities;
            var i, j := Find(ea, key), Find(eb, key);
            && (i < |ea| <==> j < |eb|)
            && (i < |ea| ==> j < |eb| && ea[i].latestKey == eb[j].latestKey && ea[i].flags == eb[j].flags)
  {
    var ea, eb := FoldRows(limits, a).value.entities, FoldRows(limits, b).value.entities;
    var i, j := Find(ea, key), Find(eb, key);
    StreamingIsMaximum(limits, a, key);
    StreamingIsMaximum(limits, b, key);
    NamedTogether(limits, a, b, key);
    NamedTogether(limits, b, a, key);
    if i < |ea| && j < |eb| {
      SameGreatest(limits, a, b, key, ea[i], eb[j]);
    }
  }

  ghost predicate KeysTellRows(rows: seq<Record>) {
    forall a, b :: a in rows && b in rows && KeyOf(a) == KeyOf(b) ==> a == b
  }

  lemma NamedTogether(limits: Limits, a: seq<Record>, b: seq<Record>, key: string)
    requires FoldRows(limits, a).Some? && FoldRows(limits, b).Some? && key != "" && SameElements(a, b)
    ensures var ea, eb := FoldRows(limits, a).value.entities, FoldRows(limits, b).value.entities;
            Find(ea, key) < |ea| ==> Find(eb, key) < |eb|
  {
    StreamingIsMaximum(limits, a, key);
    StreamingIsMaximum(limits, b, key);
  }

  lemma SameGreatest(limits: Limits, a: seq<Record>, b: seq<Record>, key: string, x: Entity, y: Entity)
    requires SameElements(a, b) && KeysTellRows(a)
    requires HoldsGreatest(limits, a, key, x) && HoldsGreatest(limits, b, key, y)
    ensures x.latestKey == y.latestKey && x.flags == y.flags
  {
    if i: nat :| i < |a| && StateRow(a[i], key) {
      assert a[i] in b;
      var m: nat :| SetBy(limits, a, key, x, m);
      var n: nat :| SetBy(limits, b, key, y, n);
      assert a[m] in b && b[n] in a;
      KeyLessTotal(KeyOf(a[m]), KeyOf(b[n]));
      assert a[m] == b[n];
    } else {
      forall j | 0 <= j < |b| ensures !StateRow(b[j], key) {
        assert b[j] in a;
      }
    }
  }
}
