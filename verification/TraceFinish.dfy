/** From a task's accumulated state to its weighted fractions. */
module TraceFinish {
  import opened Options
  import opened Lexicographic
  import opened Quotients
  import opened TraceRecords
  import opened TraceState

  ghost predicate LimitsOk(limits: Limits) {
    && limits.duplicateWeight >= 0.0 && limits.refutationWeight >= 0.0
    && limits.staleWeight >= 0.0 && limits.stagnationWeight >= 0.0
    && limits.recencyWindow > 0.0 && limits.stagnationWindow > 0.0
    && limits.kappa >= 0.0 && limits.trustDefault >= 0.0
    && forall x :: x >= 0.0 ==> 0.0 < limits.decay(x) <= 1.0
  }

  function Unit(x: real): real {
    if x < 0.0 then 0.0 else if x > 1.0 then 1.0 else x
  }

  function Share(part: real, total: real): real {
    if total == 0.0 then 0.0 else Unit(part / total)
  }

  /** A share of nonnegative parts is exact: the clipping never bites. */
  lemma ShareIsExact(part: real, total: real)
    requires 0.0 <= part <= total
    ensures Share(part, total) * total == part
    ensures 0.0 <= Share(part, total) <= 1.0
    ensures Share(part, total) == 0.0 <==> part == 0.0
    ensures total > 0.0 ==> (Share(part, total) == 1.0 <==> part == total)
  {
    if total > 0.0 {
      var q := part / total;
      assert q * total == part;
      assert 0.0 <= q <= 1.0;
    }
  }

  // ---------------------------------------------------------------------
  // Weights
  // ---------------------------------------------------------------------

  function Recency(limits: Limits, now: real, e: Entity): (w: real)
    requires limits.recencyWindow > 0.0
    ensures LimitsOk(limits) ==> 0.0 <= w <= 1.0
  {
    if e.latestTime.None? then 1.0
    else
      var age := if now - e.latestTime.value > 0.0 then now - e.latestTime.value else 0.0;
      if age > limits.recencyWindow then 0.0
      else assert age / limits.recencyWindow >= 0.0; limits.decay(age / limits.recencyWindow)
  }

  /** A trace weighs nothing exactly when its last dated state is older than the window. */
  lemma WeighsNothingExactly(limits: Limits, now: real, e: Entity)
    requires LimitsOk(limits)
    ensures Recency(limits, now, e) == 0.0 <==> e.latestTime.Some? && now - e.latestTime.value > limits.recencyWindow
  {
    if e.latestTime.Some? {
      var age := if now - e.latestTime.value > 0.0 then now - e.latestTime.value else 0.0;
      if age <= limits.recencyWindow {
        assert age / limits.recencyWindow >= 0.0;
        assert limits.decay(age / limits.recencyWindow) > 0.0;
      }
    }
  }

  function WeightOf(limits: Limits, now: real, entities: seq<Entity>, pick: Entity -> bool): real
    requires limits.recencyWindow > 0.0
  {
    if entities == [] then 0.0
    else (if pick(entities[0]) then Recency(limits, now, entities[0]) else 0.0)
         + WeightOf(limits, now, entities[1..], pick)
  }

  lemma {:induction false} WeightMonotone(limits: Limits, now: real, entities: seq<Entity>,
                                          some: Entity -> bool, more: Entity -> bool)
    requires LimitsOk(limits)
    requires forall e :: e in entities && some(e) ==> more(e)
    ensures 0.0 <= WeightOf(limits, now, entities, some) <= WeightOf(limits, now, entities, more)
    ensures WeightOf(limits, now, entities, some) == WeightOf(limits, now, entities, more)
            <==> forall e :: e in entities && more(e) && !some(e) ==> Recency(limits, now, e) == 0.0
  {
    if entities != [] {
      assert entities[0] in entities;
      WeightMonotone(limits, now, entities[1..], some, more);
      assert forall e :: e in entities <==> e == entities[0] || e in entities[1..];
    }
  }

  predicate Anything(e: Entity) { true }

  predicate Nothing(e: Entity) { false }

  predicate Actionable(e: Entity) { e.actionable }

  lemma {:induction false} NothingWeighs(limits: Limits, now: real, entities: seq<Entity>)
    requires limits.recencyWindow > 0.0
    ensures WeightOf(limits, now, entities, Nothing) == 0.0
  {
    if entities != [] {
      NothingWeighs(limits, now, entities[1..]);
    }
  }

  /** All entities that are picked, or all that are not, have decayed to nothing. */
  ghost predicate Weightless(limits: Limits, now: real, entities: seq<Entity>, pick: Entity -> bool, picked: bool)
    requires limits.recencyWindow > 0.0
  {
    forall e :: e in entities && pick(e) == picked ==> Recency(limits, now, e) == 0.0
  }

  lemma WeightsOrdered(limits: Limits, now: real, entities: seq<Entity>, pick: Entity -> bool)
    requires LimitsOk(limits)
    ensures 0.0 <= WeightOf(limits, now, entities, pick) <= WeightOf(limits, now, entities, Anything)
  {
    WeightMonotone(limits, now, entities, pick, Anything);
  }

  /** The picked entities weigh nothing, or everything, exactly when it shows in
      every single entity. */
  lemma PickedWeight(limits: Limits, now: real, entities: seq<Entity>, pick: Entity -> bool)
    requires LimitsOk(limits)
    ensures var part, all := WeightOf(limits, now, entities, pick), WeightOf(limits, now, entities, Anything);
            && 0.0 <= part <= all
            && (part == all <==> Weightless(limits, now, entities, pick, false))
            && (part == 0.0 <==> Weightless(limits, now, entities, pick, true))
  {
    WeightMonotone(limits, now, entities, pick, Anything);
    WeightMonotone(limits, now, entities, Nothing, pick);
    NothingWeighs(limits, now, entities);
  }

  function Active(entities: seq<Entity>): seq<Entity> {
    if entities == [] then []
    else if IsActive(entities[0]) then [entities[0]] + Active(entities[1..])
    else Active(entities[1..])
  }

  // ---------------------------------------------------------------------
  // Lineages
  // ---------------------------------------------------------------------

  datatype LineageVote = LineageVote(lineage: string, weight: real, linked: bool)

  predicate Linked(e: Entity, ordinary: set<string>) {
    exists link :: link in e.evidence && link.0 != "" && link.0 !in ordinary && link.1 !in ordinary
  }

  function FindLineage(votes: seq<LineageVote>, lineage: string): (i: nat)
    ensures i <= |votes|
    ensures i < |votes| ==> votes[i].lineage == lineage
  {
    if votes == [] then 0
    else if votes[0].lineage == lineage then 0
    else 1 + FindLineage(votes[1..], lineage)
  }

  function CastLineage(limits: Limits, now: real, ordinary: set<string>, votes: seq<LineageVote>, e: Entity): seq<LineageVote>
    requires limits.recencyWindow > 0.0
  {
    if e.lineageId == "" then votes
    else
      var w := Recency(limits, now, e);
      var i := FindLineage(votes, e.lineageId);
      if i < |votes|
      then votes[i := LineageVote(e.lineageId, if votes[i].weight > w then votes[i].weight else w,
                                  votes[i].linked || Linked(e, ordinary))]
      else votes + [LineageVote(e.lineageId, if w > 0.0 then w else 0.0, Linked(e, ordinary))]
  }

  function LineageVotes(limits: Limits, now: real, ordinary: set<string>, entities: seq<Entity>): seq<LineageVote>
    requires limits.recencyWindow > 0.0
  {
    if entities == [] then []
    else CastLineage(limits, now, ordinary,
                     LineageVotes(limits, now, ordinary, entities[..|entities|-1]), entities[|entities|-1])
  }

  function VoteWeight(votes: seq<LineageVote>, linkedOnly: bool): real {
    if votes == [] then 0.0
    else (if votes[0].linked || !linkedOnly then votes[0].weight else 0.0) + VoteWeight(votes[1..], linkedOnly)
  }

  lemma {:induction false} VotesNonnegative(limits: Limits, now: real, ordinary: set<string>, entities: seq<Entity>)
    requires LimitsOk(limits)
    ensures forall v :: v in LineageVotes(limits, now, ordinary, entities) ==> 0.0 <= v.weight <= 1.0
  {
    if entities != [] {
      VotesNonnegative(limits, now, ordinary, entities[..|entities|-1]);
    }
  }

  lemma {:induction false} VoteWeightBounds(votes: seq<LineageVote>)
    requires forall v :: v in votes ==> 0.0 <= v.weight <= 1.0
    ensures 0.0 <= VoteWeight(votes, true) <= VoteWeight(votes, false)
    ensures VoteWeight(votes, false) <= |votes| as real
  {
    if votes != [] {
      assert votes[0] in votes;
      VoteWeightBounds(votes[1..]);
    }
  }

  // ---------------------------------------------------------------------
  // Feedback
  // ---------------------------------------------------------------------

  predicate WeakerFeedback(a: Record, b: Record) {
    var ca := if a.committedSequence != 0 then a.committedSequence else a.sequence;
    var cb := if b.committedSequence != 0 then b.committedSequence else b.sequence;
    || a.trustRank < b.trustRank
    || (a.trustRank == b.trustRank
        && (|| a.trust < b.trust
            || (a.trust == b.trust && (ca < cb || (ca == cb && TextLess(a.recordId, b.recordId))))))
  }

  function Filter(rows: seq<Record>, keep: Record -> bool): (kept: seq<Record>)
    ensures forall r :: r in kept <==> r in rows && keep(r)
  {
    if rows == [] then []
    else if keep(rows[0]) then [rows[0]] + Filter(rows[1..], keep)
    else Filter(rows[1..], keep)
  }

  /** The first of the strongest rows. */
  function Strongest(rows: seq<Record>): (r: Record)
    requires rows != []
    ensures r in rows
  {
    if |rows| == 1 then rows[0]
    else
      var best := Strongest(rows[..|rows|-1]);
      if WeakerFeedback(best, rows[|rows|-1]) then rows[|rows|-1] else best
  }

  lemma WeakerTransitive(a: Record, b: Record, c: Record)
    requires !WeakerFeedback(b, a) && !WeakerFeedback(c, b)
    ensures !WeakerFeedback(c, a)
  {
    TextTrichotomy(a.recordId, b.recordId);
    TextTrichotomy(b.recordId, c.recordId);
    if TextLess(c.recordId, a.recordId) {
      if TextLess(a.recordId, b.recordId) { TextTransitive(c.recordId, a.recordId, b.recordId); }
      if TextLess(b.recordId, c.recordId) { TextTransitive(b.recordId, c.recordId, a.recordId); }
    }
  }

  lemma {:induction false} StrongestBeatsAll(rows: seq<Record>)
    requires rows != []
    ensures forall r :: r in rows ==> !WeakerFeedback(Strongest(rows), r)
  {
    var n := |rows| - 1;
    assert rows == rows[..n] + [rows[n]];
    TextIrreflexive(rows[n].recordId);
    if n > 0 {
      StrongestBeatsAll(rows[..n]);
      var best := Strongest(rows[..n]);
      if WeakerFeedback(best, rows[n]) {
        NotBoth(best, rows[n]);
        forall r | r in rows[..n] ensures !WeakerFeedback(rows[n], r) {
          WeakerTransitive(r, best, rows[n]);
        }
      }
    }
  }

  lemma NotBoth(a: Record, b: Record)
    requires WeakerFeedback(a, b)
    ensures !WeakerFeedback(b, a)
  {
    if TextLess(a.recordId, b.recordId) && TextLess(b.recordId, a.recordId) {
      TextTransitive(a.recordId, b.recordId, a.recordId);
      TextIrreflexive(a.recordId);
    }
  }

  function Winner(rows: seq<Record>): Option<Record> {
    var terminal := Filter(rows, (r: Record) => r.terminal);
    var effective := Filter(terminal, (r: Record) => r.effective);
    if terminal == [] then None
    else if effective == [] && exists r :: r in terminal && r.effectiveDeclared then None
    else Some(Strongest(if effective != [] then effective else terminal))
  }

  /** An exposure has no winner exactly when none of its rows is terminal or the
      source declared all of them ineffective; otherwise the winner is terminal,
      effective if any row is, and as strong as every rival. */
  lemma WinnerIsArbitrated(rows: seq<Record>)
    ensures Winner(rows).None? <==>
              && (forall r :: r in rows && r.terminal ==> !r.effective)
              && ((forall r :: r in rows ==> !r.terminal) || exists r :: r in rows && r.terminal && r.effectiveDeclared)
    ensures Winner(rows).Some? ==>
              var w := Winner(rows).value;
              && w in rows && w.terminal
              && ((exists r :: r in rows && r.terminal && r.effective) ==> w.effective)
              && forall r :: r in rows && r.terminal && (r.effective || !w.effective) ==> !WeakerFeedback(w, r)
  {
    var terminal := Filter(rows, (r: Record) => r.terminal);
    var effective := Filter(terminal, (r: Record) => r.effective);
    if terminal != [] {
      assert terminal[0] in terminal;
      StrongestBeatsAll(terminal);
    } else {
      forall r | r in rows ensures !r.terminal {
        assert r.terminal ==> r in terminal;
      }
    }
    if effective != [] {
      assert effective[0] in effective;
      StrongestBeatsAll(effective);
    } else {
      forall r | r in rows && r.terminal ensures !r.effective {
        assert r.effective ==> r in effective;
      }
    }
  }

  function FeedbackValue(limits: Limits, r: Record): Option<real> {
    if r.feedbackValue.Some? then r.feedbackValue
    else if r.tag.text in limits.feedbackValues then Some(limits.feedbackValues[r.tag.text])
    else if limits.requireMapping then None
    else if r.tag.kind == PositiveFeedback then Some(1.0)
    else if r.tag.kind == NegativeFeedback then Some(-1.0)
    else None
  }

  function TrustOf(limits: Limits, r: Record): (trust: real)
    ensures trust >= 0.0
  {
    var t := if r.trustDeclared then r.trust else limits.trustDefault;
    if t < 0.0 then 0.0 else t
  }

  datatype Tally = Tally(positiveWeight: real, negativeWeight: real, positives: nat, negatives: nat, outcomes: set<string>)

  function Ballot(limits: Limits, exposures: set<ExposureKey>, f: Feedback): Option<Record> {
    if f.key !in exposures then None
    else match Winner(f.rows)
         case None => None
         case Some(w) =>
           if FeedbackValue(limits, w) in {None, Some(0.0)} then None else Some(w)
  }

  /** Count one exposure's winning feedback. */
  function CastFeedback(limits: Limits, exposures: set<ExposureKey>, t: Tally, f: Feedback): Tally {
    match Ballot(limits, exposures, f)
    case None => t
    case Some(w) =>
      var value, trust := FeedbackValue(limits, w).GetOrElse(0.0), TrustOf(limits, w);
      var counted := if value > 0.0
                     then t.(positiveWeight := t.positiveWeight + trust * value, positives := t.positives + 1)
                     else t.(negativeWeight := t.negativeWeight - trust * value, negatives := t.negatives + 1);
      counted.(outcomes := WithOutcome(counted.outcomes, w))
  }

  function TallyOf(limits: Limits, acc: Acc, feedback: seq<Feedback>): Tally {
    if feedback == [] then Tally(0.0, 0.0, 0, 0, acc.outcomes)
    else CastFeedback(limits, acc.exposures, TallyOf(limits, acc, feedback[..|feedback|-1]), feedback[|feedback|-1])
  }

  ghost predicate OneFeedbackPerExposure(feedback: seq<Feedback>) {
    forall i, j :: 0 <= i < j < |feedback| ==> feedback[i].key != feedback[j].key
  }

  /** A vote that weighs at most one. */
  predicate UnitVote(limits: Limits, r: Record) {
    TrustOf(limits, r) <= 1.0 && -1.0 <= FeedbackValue(limits, r).GetOrElse(0.0) <= 1.0
  }

  ghost predicate UnitVotes(limits: Limits, feedback: seq<Feedback>) {
    forall f, r :: f in feedback && r in f.rows ==> UnitVote(limits, r)
  }

  lemma CastFeedbackCounts(limits: Limits, exposures: set<ExposureKey>, t: Tally, f: Feedback)
    ensures var t' := CastFeedback(limits, exposures, t, f);
            && t'.positives + t'.negatives == t.positives + t.negatives + (if Ballot(limits, exposures, f).Some? then 1 else 0)
            && t'.positives >= t.positives && t'.negatives >= t.negatives
  {
  }

  lemma CastFeedbackWeighs(limits: Limits, exposures: set<ExposureKey>, t: Tally, f: Feedback)
    ensures var t' := CastFeedback(limits, exposures, t, f);
            && t'.positiveWeight >= t.positiveWeight && t'.negativeWeight >= t.negativeWeight
            && ((forall r :: r in f.rows ==> UnitVote(limits, r)) ==>
                  t'.positiveWeight - t.positiveWeight <= (t'.positives - t.positives) as real
                  && t'.negativeWeight - t.negativeWeight <= (t'.negatives - t.negatives) as real)
  {
    if Ballot(limits, exposures, f).Some? {
      var w := Winner(f.rows).value;
      WinnerIsOne(f.rows);
      ProductAtMostOne(TrustOf(limits, w), FeedbackValue(limits, w).GetOrElse(0.0));
    }
  }

  lemma WinnerIsOne(rows: seq<Record>)
    ensures Winner(rows).Some? ==> Winner(rows).value in rows
  {
  }

  lemma ProductAtMostOne(trust: real, value: real)
    requires trust >= 0.0
    ensures value >= 0.0 ==> trust * value >= 0.0
    ensures value <= 0.0 ==> trust * value <= 0.0
    ensures trust <= 1.0 && -1.0 <= value <= 1.0 ==> -1.0 <= trust * value <= 1.0
  {
    var size := if value < 0.0 then -value else value;
    assert trust * size >= 0.0;
    assert trust <= 1.0 ==> trust * size <= 1.0 * size;
    assert trust * value == trust * size || trust * value == -(trust * size);
  }

  /** Every exposure is counted at most once, and only if it was observed. */
  lemma {:induction false} FeedbackWithinExposures(limits: Limits, acc: Acc, feedback: seq<Feedback>)
    returns (counted: set<ExposureKey>)
    requires OneFeedbackPerExposure(feedback)
    ensures counted <= acc.exposures && forall k :: k in counted ==> exists f :: f in feedback && f.key == k
    ensures var t := TallyOf(limits, acc, feedback);
            t.positives + t.negatives == |counted|
  {
    if feedback == [] { return {}; }
    var n := |feedback| - 1;
    var last := feedback[n];
    counted := FeedbackWithinExposures(limits, acc, feedback[..n]);
    CastFeedbackCounts(limits, acc.exposures, TallyOf(limits, acc, feedback[..n]), last);
    assert feedback == feedback[..n] + [last];
    assert forall f :: f in feedback[..n] ==> f.key != last.key;
    if Ballot(limits, acc.exposures, last).Some? {
      counted := counted + {last.key};
    }
  }

  /** Counted weights are nonnegative, and unit votes weigh at most their number. */
  lemma {:induction false} FeedbackWeighs(limits: Limits, acc: Acc, feedback: seq<Feedback>)
    ensures var t := TallyOf(limits, acc, feedback);
            && t.positiveWeight >= 0.0 && t.negativeWeight >= 0.0
            && (UnitVotes(limits, feedback) ==>
                  t.positiveWeight <= t.positives as real && t.negativeWeight <= t.negatives as real)
  {
    if feedback != [] {
      var n := |feedback| - 1;
      FeedbackWeighs(limits, acc, feedback[..n]);
      CastFeedbackCounts(limits, acc.exposures, TallyOf(limits, acc, feedback[..n]), feedback[n]);
      CastFeedbackWeighs(limits, acc.exposures, TallyOf(limits, acc, feedback[..n]), feedback[n]);
    }
  }

  // ---------------------------------------------------------------------
  // The projection of one task
  // ---------------------------------------------------------------------

  datatype Shares = Shares(duplicate: real, refutation: real, stale: real, stagnation: real)

  datatype Projection = Projection(
    taskId: string, actionability: real, association: real, positive: real, negative: real, drag: real,
    frontiers: nat, associations: nat, exposures: nat, positives: nat, negatives: nat,
    duplicates: nat, refutations: nat, stales: nat, stagnations: nat, watermark: nat, outcomes: set<string>,
    isZero: bool, positiveWeight: real, negativeWeight: real, activeWeight: real, lineageWeight: real, shares: Shares)

  predicate IsDuplicate(e: Entity) { e.flags.duplicate }

  predicate IsRefuted(e: Entity) { e.flags.refuted || e.lifecycle == "refuted" }

  predicate IsStale(e: Entity) { e.flags.stale || e.lifecycle == "stale" }

  predicate IsStagnant(limits: Limits, now: real, e: Entity) {
    || e.flags.stagnation
    || (IsActive(e) && e.lastActivity.Some? && now - e.lastActivity.value >= limits.stagnationWindow)
  }

  function CountOf(entities: seq<Entity>, pick: Entity -> bool): (n: nat)
    ensures n <= |entities|
  {
    if entities == [] then 0 else (if pick(entities[0]) then 1 else 0) + CountOf(entities[1..], pick)
  }

  /** The recency-weighted share of the picked entities among all of them. */
  function Proportion(limits: Limits, now: real, entities: seq<Entity>, pick: Entity -> bool): real
    requires limits.recencyWindow > 0.0
  {
    ShareOr(WeightOf(limits, now, entities, pick), WeightOf(limits, now, entities, Anything), |entities|)
  }

  function ShareOr(part: real, all: real, count: nat): real {
    Share(part, if all <= 0.0 then count as real else all)
  }

  lemma ProportionIsShare(limits: Limits, now: real, entities: seq<Entity>, pick: Entity -> bool)
    requires LimitsOk(limits)
    ensures var p := Proportion(limits, now, entities, pick);
            var part, all := WeightOf(limits, now, entities, pick), WeightOf(limits, now, entities, Anything);
            IsShareOf(p, part, all)
  {
    WeightsOrdered(limits, now, entities, pick);
    FallbackShare(WeightOf(limits, now, entities, pick), WeightOf(limits, now, entities, Anything), |entities|);
  }

  /** `p` is exactly the fraction that `part` is of `all`. */
  predicate IsShareOf(p: real, part: real, all: real) {
    0.0 <= p <= 1.0 && p * all == part && (p == 0.0 <==> part == 0.0)
  }

  /** The count stands in for a weight of zero without changing the share. */
  lemma FallbackShare(part: real, all: real, count: nat)
    requires 0.0 <= part <= all
    ensures IsShareOf(ShareOr(part, all, count), part, all)
  {
    if all > 0.0 {
      ShareIsExact(part, all);
    } else {
      ShareIsExact(0.0, count as real);
    }
  }

  datatype Term = Term(weight: real, value: real)

  function WeightSum(terms: seq<Term>): real {
    if terms == [] then 0.0 else terms[0].weight + WeightSum(terms[1..])
  }

  function WeightedSum(terms: seq<Term>): real {
    if terms == [] then 0.0 else terms[0].weight * terms[0].value + WeightedSum(terms[1..])
  }

  function DragTerms(limits: Limits, s: Shares): seq<Term> {
    [Term(limits.duplicateWeight, s.duplicate), Term(limits.refutationWeight, s.refutation),
     Term(limits.staleWeight, s.stale), Term(limits.stagnationWeight, s.stagnation)]
  }

  function DragOf(limits: Limits, s: Shares): real {
    var terms := DragTerms(limits, s);
    if WeightSum(terms) > 0.0 then Unit(WeightedSum(terms) / WeightSum(terms)) else 0.0
  }

  lemma Scale(w: real, lo: real, x: real, hi: real)
    requires w >= 0.0 && lo <= x <= hi
    ensures lo * w <= w * x <= hi * w
  {
  }

  lemma {:induction false} WeightedSumBounds(terms: seq<Term>, lo: real, hi: real)
    requires forall t :: t in terms ==> t.weight >= 0.0 && lo <= t.value <= hi
    ensures lo * WeightSum(terms) <= WeightedSum(terms) <= hi * WeightSum(terms)
    ensures WeightSum(terms) >= 0.0
  {
    if terms != [] {
      assert terms[0] in terms;
      Scale(terms[0].weight, lo, terms[0].value, hi);
      WeightedSumBounds(terms[1..], lo, hi);
    }
  }

  /** Drag is a weighted mean of its four components: it lies between any bounds they do. */
  lemma DragIsMean(limits: Limits, s: Shares, lo: real, hi: real)
    requires LimitsOk(limits) && 0.0 <= lo <= hi <= 1.0
    requires lo <= s.duplicate <= hi && lo <= s.refutation <= hi && lo <= s.stale <= hi && lo <= s.stagnation <= hi
    requires WeightSum(DragTerms(limits, s)) > 0.0
    ensures lo <= DragOf(limits, s) <= hi
  {
    WeightedSumBounds(DragTerms(limits, s), lo, hi);
    QuotientBounds(WeightedSum(DragTerms(limits, s)), WeightSum(DragTerms(limits, s)), lo, hi);
  }

  /** A component of weight zero has no influence on the drag. */
  lemma DragIgnoresWeightless(limits: Limits, s: Shares, x: real)
    ensures limits.duplicateWeight == 0.0 ==> DragOf(limits, s.(duplicate := x)) == DragOf(limits, s)
    ensures limits.refutationWeight == 0.0 ==> DragOf(limits, s.(refutation := x)) == DragOf(limits, s)
    ensures limits.staleWeight == 0.0 ==> DragOf(limits, s.(stale := x)) == DragOf(limits, s)
    ensures limits.stagnationWeight == 0.0 ==> DragOf(limits, s.(stagnation := x)) == DragOf(limits, s)
  {
    var terms := DragTerms(limits, s);
    if limits.duplicateWeight == 0.0 { WeightlessTerm(terms, 0, x); }
    if limits.refutationWeight == 0.0 { WeightlessTerm(terms, 1, x); }
    if limits.staleWeight == 0.0 { WeightlessTerm(terms, 2, x); }
    if limits.stagnationWeight == 0.0 { WeightlessTerm(terms, 3, x); }
    assert DragTerms(limits, s.(duplicate := x)) == terms[0 := Term(limits.duplicateWeight, x)];
    assert DragTerms(limits, s.(refutation := x)) == terms[1 := Term(limits.refutationWeight, x)];
    assert DragTerms(limits, s.(stale := x)) == terms[2 := Term(limits.staleWeight, x)];
    assert DragTerms(limits, s.(stagnation := x)) == terms[3 := Term(limits.stagnationWeight, x)];
  }

  lemma {:induction false} WeightlessTerm(terms: seq<Term>, i: nat, x: real)
    requires i < |terms| && terms[i].weight == 0.0
    ensures WeightedSum(terms[i := Term(0.0, x)]) == WeightedSum(terms)
    ensures WeightSum(terms[i := Term(0.0, x)]) == WeightSum(terms)
  {
    if i > 0 {
      WeightlessTerm(terms[1..], i - 1, x);
      assert terms[i := Term(0.0, x)][1..] == terms[1..][i - 1 := Term(0.0, x)];
    }
  }

  function SharesOf(limits: Limits, now: real, entities: seq<Entity>): Shares
    requires limits.recencyWindow > 0.0
  {
    Shares(Proportion(limits, now, entities, IsDuplicate), Proportion(limits, now, entities, IsRefuted),
           Proportion(limits, now, entities, IsStale), Proportion(limits, now, entities, e => IsStagnant(limits, now, e)))
  }

  function ActionabilityOf(limits: Limits, now: real, active: seq<Entity>): real
    requires limits.recencyWindow > 0.0
  {
    Share(WeightOf(limits, now, active, Actionable), WeightOf(limits, now, active, Anything))
  }

  function AssociationOf(votes: seq<LineageVote>): real {
    Share(VoteWeight(votes, true), VoteWeight(votes, false))
  }

  function Denominator(limits: Limits, acc: Acc): real {
    limits.kappa + |acc.exposures| as real
  }

  function PositiveOf(limits: Limits, acc: Acc, t: Tally): real {
    Share(t.positiveWeight, Denominator(limits, acc))
  }

  function NegativeOf(limits: Limits, acc: Acc, t: Tally): real {
    Share(t.negativeWeight, Denominator(limits, acc))
  }

  /** The projection of one task from its final accumulator. */
  function Finish(limits: Limits, ordinary: set<string>, taskId: string, acc: Acc, watermark: nat, now: real): Projection
    requires limits.recencyWindow > 0.0
  {
    var active := Active(acc.entities);
    Assemble(limits, taskId, acc, watermark, now, active,
             LineageVotes(limits, now, ordinary, active), TallyOf(limits, acc, acc.feedback))
  }

  function Assemble(limits: Limits, taskId: string, acc: Acc, watermark: nat, now: real,
                    active: seq<Entity>, votes: seq<LineageVote>, tally: Tally): Projection
    requires limits.recencyWindow > 0.0
  {
    var actionability, association := ActionabilityOf(limits, now, active), AssociationOf(votes);
    var positive, negative := PositiveOf(limits, acc, tally), NegativeOf(limits, acc, tally);
    var shares := SharesOf(limits, now, acc.entities);
    var drag := DragOf(limits, shares);
    Projection(taskId, actionability, association, positive, negative, drag,
               CountOf(active, Actionable), |acc.associations|, |acc.exposures|,
               tally.positives, tally.negatives,
               CountOf(acc.entities, IsDuplicate), CountOf(acc.entities, IsRefuted), CountOf(acc.entities, IsStale),
               CountOf(acc.entities, e => IsStagnant(limits, now, e)), watermark, tally.outcomes,
               actionability == 0.0 && association == 0.0 && positive == 0.0 && negative == 0.0 && drag == 0.0,
               tally.positiveWeight, tally.negativeWeight, WeightOf(limits, now, active, Anything),
               VoteWeight(votes, false), shares)
  }

  /** The same, with the loops over lineages and feedback written out. */
  method FinishFull(limits: Limits, ordinary: set<string>, taskId: string, acc: Acc, watermark: nat, now: real)
    returns (p: Projection)
    requires limits.recencyWindow > 0.0
    ensures p == Finish(limits, ordinary, taskId, acc, watermark, now)
  {
    var active := Active(acc.entities);
    var votes: seq<LineageVote> := [];
    var i := 0;
    while i < |active|
      invariant i <= |active| && votes == LineageVotes(limits, now, ordinary, active[..i])
    {
      assert active[..i + 1][..i] == active[..i];
      votes := CastLineage(limits, now, ordinary, votes, active[i]);
      i := i + 1;
    }
    assert active[..i] == active;
    var tally := Tally(0.0, 0.0, 0, 0, acc.outcomes);
    i := 0;
    while i < |acc.feedback|
      invariant i <= |acc.feedback| && tally == TallyOf(limits, acc, acc.feedback[..i])
    {
      assert acc.feedback[..i + 1][..i] == acc.feedback[..i];
      tally := CastFeedback(limits, acc.exposures, tally, acc.feedback[i]);
      i := i + 1;
    }
    assert acc.feedback[..i] == acc.feedback;
    p := Assemble(limits, taskId, acc, watermark, now, active, votes, tally);
  }

  // ---------------------------------------------------------------------
  // What the fractions mean
  // ---------------------------------------------------------------------

  /** Actionability is one exactly when every weighty active trace is actionable
      and zero exactly when none is. */
  lemma ActionabilityExtremes(limits: Limits, now: real, active: seq<Entity>)
    requires LimitsOk(limits)
    ensures var share, total := ActionabilityOf(limits, now, active), WeightOf(limits, now, active, Anything);
            && (total > 0.0 ==> (share == 1.0 <==> Weightless(limits, now, active, Actionable, false)))
            && (share == 0.0 <==> Weightless(limits, now, active, Actionable, true))
  {
    PickedWeight(limits, now, active, Actionable);
    ShareIsExact(WeightOf(limits, now, active, Actionable), WeightOf(limits, now, active, Anything));
  }

  /** Actionability is exactly the recency-weighted share of the actionable
      traces among the active ones. */
  lemma ActionabilityIsShare(limits: Limits, now: real, active: seq<Entity>)
    requires LimitsOk(limits)
    ensures var share, total := ActionabilityOf(limits, now, active), WeightOf(limits, now, active, Anything);
            total >= 0.0 && 0.0 <= share <= 1.0 && share * total == WeightOf(limits, now, active, Actionable)
  {
    WeightsOrdered(limits, now, active, Actionable);
    ShareIsExact(WeightOf(limits, now, active, Actionable), WeightOf(limits, now, active, Anything));
  }

  lemma AssociationIsShare(limits: Limits, now: real, ordinary: set<string>, active: seq<Entity>)
    requires LimitsOk(limits)
    ensures var votes := LineageVotes(limits, now, ordinary, active);
            && IsShareOf(AssociationOf(votes), VoteWeight(votes, true), VoteWeight(votes, false))
            && VoteWeight(votes, false) >= 0.0
  {
    var votes := LineageVotes(limits, now, ordinary, active);
    VotesNonnegative(limits, now, ordinary, active);
    VotesShare(votes);
  }

  lemma VotesShare(votes: seq<LineageVote>)
    requires forall v :: v in votes ==> 0.0 <= v.weight <= 1.0
    ensures IsShareOf(AssociationOf(votes), VoteWeight(votes, true), VoteWeight(votes, false))
    ensures VoteWeight(votes, false) >= 0.0
  {
    VoteWeightBounds(votes);
    ShareIsExact(VoteWeight(votes, true), VoteWeight(votes, false));
  }

  lemma TallyIsBounded(limits: Limits, acc: Acc)
    requires LimitsOk(limits) && OneFeedbackPerExposure(acc.feedback)
    ensures var t, d := TallyOf(limits, acc, acc.feedback), Denominator(limits, acc);
            && t.positives + t.negatives <= |acc.exposures|
            && t.positiveWeight >= 0.0 && t.negativeWeight >= 0.0
            && (UnitVotes(limits, acc.feedback) ==> t.positiveWeight + t.negativeWeight <= d)
  {
    var counted := FeedbackWithinExposures(limits, acc, acc.feedback);
    SubsetSize(counted, acc.exposures);
    FeedbackWeighs(limits, acc, acc.feedback);
  }

  lemma SharesAddUp(a: real, b: real, d: real, p: real, n: real)
    requires a >= 0.0 && b >= 0.0 && a + b <= d
    requires p == Share(a, d) && n == Share(b, d)
    ensures p * d == a && n * d == b && p + n <= 1.0
  {
    ShareIsExact(a, d);
    ShareIsExact(b, d);
    ShareIsExact(a + b, d);
    if d > 0.0 { SplitShare(a, b, d); }
  }

  /** The two feedback fractions are the exact shares of their weights, never
      clipped, and add up to at most one. */
  predicate Unclipped(limits: Limits, acc: Acc, t: Tally) {
    && PositiveOf(limits, acc, t) + NegativeOf(limits, acc, t) <= 1.0
    && PositiveOf(limits, acc, t) * Denominator(limits, acc) == t.positiveWeight
    && NegativeOf(limits, acc, t) * Denominator(limits, acc) == t.negativeWeight
  }

  lemma BoundedIsUnclipped(limits: Limits, acc: Acc, t: Tally)
    requires t.positiveWeight >= 0.0 && t.negativeWeight >= 0.0
    requires t.positiveWeight + t.negativeWeight <= Denominator(limits, acc)
    ensures Unclipped(limits, acc, t)
  {
    SharesAddUp(t.positiveWeight, t.negativeWeight, Denominator(limits, acc),
                PositiveOf(limits, acc, t), NegativeOf(limits, acc, t));
  }

  lemma UnitVotesAddUp(limits: Limits, acc: Acc)
    requires LimitsOk(limits) && OneFeedbackPerExposure(acc.feedback) && UnitVotes(limits, acc.feedback)
    ensures Unclipped(limits, acc, TallyOf(limits, acc, acc.feedback))
  {
    TallyIsBounded(limits, acc);
    BoundedIsUnclipped(limits, acc, TallyOf(limits, acc, acc.feedback));
  }

  /** Feedback counts each observed exposure at most once, and both fractions lie
      between zero and one. */
  lemma FeedbackIsBounded(limits: Limits, acc: Acc)
    requires LimitsOk(limits) && OneFeedbackPerExposure(acc.feedback)
    ensures var t := TallyOf(limits, acc, acc.feedback);
            && t.positives + t.negatives <= |acc.exposures|
            && 0.0 <= PositiveOf(limits, acc, t) <= 1.0 && 0.0 <= NegativeOf(limits, acc, t) <= 1.0
            && t.positiveWeight >= 0.0 && t.negativeWeight >= 0.0
  {
    TallyIsBounded(limits, acc);
  }

  lemma SplitShare(a: real, b: real, d: real)
    requires a >= 0.0 && b >= 0.0 && d > 0.0 && a + b <= d
    ensures Share(a, d) + Share(b, d) == Share(a + b, d)
  {
    QuotientBounds(a, d, 0.0, 1.0);
    QuotientBounds(b, d, 0.0, 1.0);
    QuotientBounds(a + b, d, 0.0, 1.0);
    assert a / d + b / d == (a + b) / d;
  }

  lemma {:induction false} SubsetSize<T>(a: set<T>, b: set<T>)
    requires a <= b
    ensures |a| <= |b|
  {
    if a != {} {
      var x :| x in a;
      SubsetSize(a - {x}, b - {x});
    }
  }

  lemma {:induction false} NoneCounted(limits: Limits, now: real, entities: seq<Entity>, pick: Entity -> bool)
    requires limits.recencyWindow > 0.0 && CountOf(entities, pick) == 0
    ensures WeightOf(limits, now, entities, pick) == 0.0
  {
    if entities != [] {
      NoneCounted(limits, now, entities[1..], pick);
    }
  }

  lemma NoneShared(limits: Limits, now: real, entities: seq<Entity>, pick: Entity -> bool)
    requires LimitsOk(limits) && CountOf(entities, pick) == 0
    ensures Proportion(limits, now, entities, pick) == 0.0
  {
    NoneCounted(limits, now, entities, pick);
    ProportionIsShare(limits, now, entities, pick);
  }

  /** The counts and the fractions of a projection speak of the same traces: a
      feature whose count is zero is zero. */
  lemma CountsMatchFractions(limits: Limits, ordinary: set<string>, t: string, acc: Acc, w: nat, now: real)
    requires LimitsOk(limits)
    ensures var p := Finish(limits, ordinary, t, acc, w, now);
            && (p.frontiers == 0 ==> p.actionability == 0.0)
            && (p.duplicates == 0 ==> p.shares.duplicate == 0.0)
            && (p.refutations == 0 ==> p.shares.refutation == 0.0)
            && (p.stales == 0 ==> p.shares.stale == 0.0)
            && (p.stagnations == 0 ==> p.shares.stagnation == 0.0)
  {
    var p, active := Finish(limits, ordinary, t, acc, w, now), Active(acc.entities);
    if p.frontiers == 0 {
      NoneCounted(limits, now, active, Actionable);
      ActionabilityIsShare(limits, now, active);
    }
    if p.duplicates == 0 { NoneShared(limits, now, acc.entities, IsDuplicate); }
    if p.refutations == 0 { NoneShared(limits, now, acc.entities, IsRefuted); }
    if p.stales == 0 { NoneShared(limits, now, acc.entities, IsStale); }
    if p.stagnations == 0 { NoneShared(limits, now, acc.entities, e => IsStagnant(limits, now, e)); }
  }

  /** The characters a text is stripped of. */
  predicate IsSpace(c: char) {
    || '\t' <= c <= '\r' || '\U{1C}' <= c <= ' ' || c == '\U{85}' || c == '\U{A0}' || c == '\U{1680}'
    || '\U{2000}' <= c <= '\U{200A}' || c == '\U{2028}' || c == '\U{2029}' || c == '\U{202F}' || c == '\U{205F}'
    || c == '\U{3000}'
  }

  function Strip(s: string): string {
    if s == "" then ""
    else if IsSpace(s[0]) then Strip(s[1..])
    else if IsSpace(s[|s|-1]) then Strip(s[..|s|-1])
    else s
  }

  const MAX_OUTCOME_CHARS: nat := 512

  /** Outcome ids that are bounded and distinct once stripped. */
  predicate OutcomeIdsOk(ids: set<string>) {
    && (forall id :: id in ids ==> 0 < |Strip(id)| <= MAX_OUTCOME_CHARS)
    && (forall a, b :: a in ids && b in ids && Strip(a) == Strip(b) ==> a == b)
  }

  /** What the record's own validation demands of a projection. */
  predicate Acceptable(p: Projection) {
    FiguresOk(p) && OutcomeIdsOk(p.outcomes)
  }

  predicate FiguresOk(p: Projection) {
    && p.taskId != ""
    && 0.0 <= p.actionability <= 1.0 && 0.0 <= p.association <= 1.0
    && 0.0 <= p.positive <= 1.0 && 0.0 <= p.negative <= 1.0 && 0.0 <= p.drag <= 1.0
    && p.positiveWeight >= 0.0 && p.negativeWeight >= 0.0 && p.activeWeight >= 0.0 && p.lineageWeight >= 0.0
    && 0.0 <= p.shares.duplicate <= 1.0 && 0.0 <= p.shares.refutation <= 1.0
    && 0.0 <= p.shares.stale <= 1.0 && 0.0 <= p.shares.stagnation <= 1.0
  }

  /** The winners' outcome ids have all been noted before. */
  lemma {:induction false} TallyOutcomes(limits: Limits, acc: Acc, feedback: seq<Feedback>)
    requires FeedbackNoted(acc) && forall f :: f in feedback ==> f in acc.feedback
    ensures TallyOf(limits, acc, feedback).outcomes == acc.outcomes
  {
    if feedback != [] {
      var last := feedback[|feedback|-1];
      TallyOutcomes(limits, acc, feedback[..|feedback|-1]);
      WinnerIsOne(last.rows);
      assert last in acc.feedback;
    }
  }

  /** The figures of a projection always pass its validation, which therefore
      refuses exactly outcome ids that are blank, too long or alike when stripped. */
  lemma FinishIsAcceptable(limits: Limits, ordinary: set<string>, t: string, acc: Acc, w: nat, now: real)
    requires LimitsOk(limits) && OneFeedbackPerExposure(acc.feedback) && FeedbackNoted(acc) && t != ""
    ensures var p := Finish(limits, ordinary, t, acc, w, now);
            FiguresOk(p) && p.outcomes == acc.outcomes && (Acceptable(p) <==> OutcomeIdsOk(acc.outcomes))
  {
    ActionabilityIsShare(limits, now, Active(acc.entities));
    AssociationIsShare(limits, now, ordinary, Active(acc.entities));
    FeedbackIsBounded(limits, acc);
    TallyOutcomes(limits, acc, acc.feedback);
    ProportionIsShare(limits, now, acc.entities, IsDuplicate);
    ProportionIsShare(limits, now, acc.entities, IsRefuted);
    ProportionIsShare(limits, now, acc.entities, IsStale);
    ProportionIsShare(limits, now, acc.entities, e => IsStagnant(limits, now, e));
  }

  lemma {:induction false} StripShortens(s: string)
    ensures |Strip(s)| <= |s|
  {
    if s != "" {
      if IsSpace(s[0]) { StripShortens(s[1..]); }
      else if IsSpace(s[|s|-1]) { StripShortens(s[..|s|-1]); }
    }
  }
}
