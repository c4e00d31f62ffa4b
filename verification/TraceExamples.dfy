/** Concrete rows for which the projection does not do what its comments say. */
module TraceExamples {
  import opened Options
  import opened TraceRecords
  import opened TraceState
  import opened TraceFinish
  import opened TraceProjection
  import opened TraceBridge

  /** A plain row of task "t" by worker "w". */
  function Row(sequence: nat, kind: string, exposure: string): Record {
    Record(sequence, "t", LabelOf(kind), "", "", "", "w", "worker", "", exposure, false, false, false,
           "", "", None, None, None, 1.0, false, 0, None, 0, "", "", "", LabelOf(""))
  }

  /** A worker was shown "x", or "y", and then found "x" helpful. */
  const SHOWN_X := Row(1, "worker_exposure", "x")
  const SHOWN_Y := Row(1, "worker_exposure", "y")
  const HELPFUL_X := Row(2, "feedback_helpful", "x").(
    terminal := true, effective := true, feedbackValue := Some(1.0), trustDeclared := true)

  const READ_X_FIRST := [Item(SHOWN_X, true), Item(SHOWN_Y, true), Item(HELPFUL_X, true)]
  const READ_Y_FIRST := [Item(SHOWN_Y, true), Item(SHOWN_X, true), Item(HELPFUL_X, true)]

  lemma RowsAreJudged()
    ensures JudgedExposure(SHOWN_X, HELPFUL_X) && SHOWN_Y == SHOWN_X.(exposureId := "y") && "x" != "y"
  {
    assert "semantic" == Identity(SHOWN_X)[0] == Identity(HELPFUL_X)[0];
    assert Identity(SHOWN_X)[3] == "worker_exposure" && Identity(HELPFUL_X)[3] == "feedback_helpful";
    assert "worker_exposure"[0] != "feedback_helpful"[0];
  }

  /** Rows that differ in their exposure do not contradict one another. */
  lemma RowsAreConsistent(r: Record, f: Record, s: Record)
    requires JudgedExposure(r, f) && s == r.(exposureId := s.exposureId) && s != r
    ensures Consistent([Item(r, true), Item(s, true), Item(f, true)])
  {
    assert ReplayIdentity(r)[|Identity(r)|] != ReplayIdentity(s)[|Identity(s)|];
    forall x | x == r || x == s ensures ReplayIdentity(x) != ReplayIdentity(f) {
      if ReplayIdentity(x) == ReplayIdentity(f) {
        IdentityPrefix(x, f);
      }
    }
  }

  lemma IdentityPrefix(a: Record, b: Record)
    requires ReplayIdentity(a) == ReplayIdentity(b) && a.recordId == ""
    ensures Identity(a) == Identity(b)
  {
    assert ReplayIdentity(a)[0] == "semantic";
    assert ReplayIdentity(b)[0] == "semantic";
    assert ReplayIdentity(a)[..10] == Identity(a) && ReplayIdentity(b)[..10] == Identity(b);
  }

  /** The same three rows, which pass the check for contradictions, project to a
      positive feedback fraction in one reading order and to none in the other. */
  lemma ExposureOrderMatters(limits: Limits)
    requires LimitsOk(limits) && limits.maxRecords >= 3 && limits.maxPerTask >= 2
    ensures Consistent(READ_X_FIRST) && Consistent(READ_Y_FIRST)
    ensures multiset(READ_X_FIRST) == multiset(READ_Y_FIRST)
    ensures var a := Project(limits, ["t"], READ_X_FIRST, None, {}, None);
            var b := Project(limits, ["t"], READ_Y_FIRST, None, {}, None);
            && a.Done? && b.Done? && |a.value| == |b.value| == 1
            && a.value[0].positive > 0.0 && b.value[0].positive == 0.0
  {
    RowsAreJudged();
    RowsAreConsistent(SHOWN_X, HELPFUL_X, SHOWN_Y);
    SwappedIsConsistent(Item(SHOWN_X, true), Item(SHOWN_Y, true), Item(HELPFUL_X, true));
    ReadingOrderMatters(limits, SHOWN_X, HELPFUL_X, SHOWN_Y);
  }

  lemma SwappedIsConsistent(x: Item, y: Item, z: Item)
    requires Consistent([x, y, z])
    ensures Consistent([y, x, z]) && multiset([x, y, z]) == multiset([y, x, z])
  {
    assert [x, y, z] == [x] + [y] + [z] && [y, x, z] == [y] + [x] + [z];
    assert forall i :: i in [y, x, z] ==> i in [x, y, z];
  }

  /** A row that links lineage "l" to evidence "e" and carries an outcome id. */
  function Linking(outcome: string): Record {
    Row(1, "evidence_link", "").(lineageId := "l", evidenceId := "e", outcomeId := outcome)
  }

  lemma LongOutcomeIdFails(limits: Limits)
    requires LimitsOk(limits) && limits.maxRecords >= 1 && limits.maxPerTask >= 1
    ensures var long := seq(513, _ => 'o');
            Project(limits, ["t"], [Item(Linking(long), true)], None, {}, None) == Failed(Unacceptable)
  {
    var long := seq(513, _ => 'o');
    assert Strip(long) == long;
    SingleRowFails(limits, Linking(long));
  }
}
