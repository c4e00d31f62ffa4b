/** What the weights of a projection are made of: lineages, feedback, drag. */
module TraceVotes {
  import opened Lexicographic
  import opened Options
  import opened Quotients
  import opened TraceRecords
  import opened TraceState
  import opened TraceStreaming
  import opened TraceFinish
  import opened TraceScalars

  // ---------------------------------------------------------------------
  // Recency
  // ---------------------------------------------------------------------

  /** A trace without a time, or of the present or future, has not decayed. */
  lemma RecencyOfTheUndated(limits: Limits, now: real, e: Entity)
    requires LimitsOk(limits)
    ensures e.latestTime.None? ==> Recency(limits, now, e) == 1.0
    ensures e.latestTime.Some? && now <= e.latestTime.value ==> Recency(limits, now, e) == limits.decay(0.0)
  {
    if e.latestTime.Some? { RecencyAt(limits, now, e, now - e.latestTime.value); }
  }

  /** The decay depends on the age in windows alone: scaling both changes nothing. */
  lemma RecencyScales(limits: Limits, now: real, e: Entity, scale: real, window: real, later: real, time: real)
    requires LimitsOk(limits) && scale > 0.0 && e.latestTime.Some?
    requires window == scale * limits.recencyWindow && window > 0.0
    requires later - time == scale * (now - e.latestTime.value)
    ensures Recency(limits.(recencyWindow := window), later, e.(latestTime := Some(time))) == Recency(limits, now, e)
  {
    var w, d := limits.recencyWindow, now - e.latestTime.value;
    RecencyAt(limits, now, e, d);
    RecencyAt(limits.(recencyWindow := window), later, e.(latestTime := Some(time)), later - time);
    if d > 0.0 {
      SameProportion(d, w, scale, later - time, window);
    } else {
      Nonpositive(scale, d);
    }
  }

  lemma SameProportion(d: real, w: real, scale: real, scaledAge: real, scaledWindow: real)
    requires d > 0.0 && w > 0.0 && scale > 0.0 && scaledAge == scale * d && scaledWindow == scale * w
    ensures scaledAge > 0.0 && scaledWindow > 0.0
    ensures (scaledAge > scaledWindow <==> d > w) && scaledAge / scaledWindow == d / w
  {
    Positive(scale, d);
    Positive(scale, w);
    Rescales(d, w, scale);
    Orders(d, w, scale);
  }

  lemma RecencyAt(limits: Limits, now: real, e: Entity, age: real)
    requires limits.recencyWindow > 0.0 && e.latestTime.Some? && now - e.latestTime.value == age
    ensures age <= 0.0 ==> Recency(limits, now, e) == limits.decay(0.0)
    ensures age > 0.0 ==> Recency(limits, now, e) == if age > limits.recencyWindow then 0.0 else limits.decay(age / limits.recencyWindow)
  {
    assert 0.0 / limits.recencyWindow == 0.0;
  }

  lemma Positive(a: real, b: real)
    requires a > 0.0 && b > 0.0
    ensures a * b > 0.0
  {
  }

  lemma Nonpositive(a: real, b: real)
    requires a > 0.0 && b <= 0.0
    ensures a * b <= 0.0
  {
  }

  lemma Orders(a: real, b: real, c: real)
    requires c > 0.0
    ensures a <= b <==> c * a <= c * b
  {
    assert c * (b - a) == c * b - c * a;
    if a <= b { assert c * (b - a) >= 0.0; } else { Positive(c, a - b); }
  }

  lemma Rescales(a: real, b: real, c: real)
    requires b > 0.0 && c > 0.0 && c * b > 0.0
    ensures (c * a) / (c * b) == a / b
  {
    var q := a / b;
    assert q * b == a;
    assert q * (c * b) == c * a;
  }

  /** With a strictly falling decay an older trace within the window weighs less. */
  lemma RecencyFades(limits: Limits, now: real, older: Entity, newer: Entity)
    requires LimitsOk(limits) && forall x, y :: 0.0 <= x < y ==> limits.decay(x) > limits.decay(y)
    requires older.latestTime.Some? && newer.latestTime.Some?
    requires older.latestTime.value < newer.latestTime.value <= now
    requires now - older.latestTime.value <= limits.recencyWindow
    ensures Recency(limits, now, older) < Recency(limits, now, newer)
  {
    var w, a, b := limits.recencyWindow, now - newer.latestTime.value, now - older.latestTime.value;
    QuotientBounds(a, w, 0.0, a / w);
    Smaller(a, b, w);
  }

  lemma Smaller(a: real, b: real, w: real)
    requires 0.0 <= a < b && w > 0.0
    ensures 0.0 <= a / w < b / w
  {
    var p, q := a / w, b / w;
    assert p * w == a && q * w == b;
    assert p >= q ==> (p - q) * w >= 0.0;
    assert p < 0.0 ==> p * w < 0.0;
  }

  // ---------------------------------------------------------------------
  // Lineages
  // ---------------------------------------------------------------------

  /** Some evidence of the trace is not an ordinary outcome. */
  predicate HasOwnEvidence(e: Entity, ordinary: set<string>) {
    exists link :: link in e.evidence && link.0 != "" && link.0 !in ordinary && link.1 !in ordinary
  }

  ghost predicate OneVoteEach(votes: seq<LineageVote>) {
    forall i, j :: 0 <= i < j < |votes| ==> votes[i].lineage != votes[j].lineage
  }

  /** The vote is the heaviest of its lineage's traces, and linked if one of them is. */
  ghost predicate SpeaksFor(limits: Limits, now: real, ordinary: set<string>, entities: seq<Entity>, v: LineageVote)
    requires limits.recencyWindow > 0.0
  {
    && v.lineage != ""
    && (forall e :: e in entities && e.lineageId == v.lineage ==> Recency(limits, now, e) <= v.weight)
    && (exists e :: e in entities && e.lineageId == v.lineage && Recency(limits, now, e) == v.weight)
    && (v.linked <==> exists e :: e in entities && e.lineageId == v.lineage && HasOwnEvidence(e, ordinary))
  }

  lemma {:induction false} FindsLineage(votes: seq<LineageVote>, lineage: string)
    ensures FindLineage(votes, lineage) == |votes| <==> forall k :: 0 <= k < |votes| ==> votes[k].lineage != lineage
  {
    if votes != [] {
      FindsLineage(votes[1..], lineage);
    }
  }

  /** A trace of another lineage, or of none, does not concern a vote. */
  lemma SpeaksOn(limits: Limits, now: real, ordinary: set<string>, entities: seq<Entity>, v: LineageVote, e: Entity)
    requires limits.recencyWindow > 0.0 && SpeaksFor(limits, now, ordinary, entities, v) && e.lineageId != v.lineage
    ensures SpeaksFor(limits, now, ordinary, entities + [e], v)
  {
    assert forall x :: x in entities + [e] <==> x in entities || x == e;
  }

  lemma SpeaksForOneMore(limits: Limits, now: real, ordinary: set<string>, entities: seq<Entity>, v: LineageVote, e: Entity)
    requires limits.recencyWindow > 0.0 && SpeaksFor(limits, now, ordinary, entities, v) && e.lineageId == v.lineage
    ensures var w := Recency(limits, now, e);
            SpeaksFor(limits, now, ordinary, entities + [e],
                      LineageVote(v.lineage, if v.weight > w then v.weight else w, v.linked || HasOwnEvidence(e, ordinary)))
  {
    var all := entities + [e];
    assert e in all && forall x :: x in all <==> x in entities || x == e;
    var top :| top in entities && top.lineageId == v.lineage && Recency(limits, now, top) == v.weight;
    assert top in all;
  }

  lemma SpeaksForFirst(limits: Limits, now: real, ordinary: set<string>, entities: seq<Entity>, e: Entity)
    requires LimitsOk(limits) && e.lineageId != "" && forall x :: x in entities ==> x.lineageId != e.lineageId
    ensures var w := Recency(limits, now, e);
            w >= 0.0 && SpeaksFor(limits, now, ordinary, entities + [e],
                                  LineageVote(e.lineageId, if w > 0.0 then w else 0.0, HasOwnEvidence(e, ordinary)))
  {
    assert e in entities + [e] && forall x :: x in entities + [e] <==> x in entities || x == e;
  }

  /** One vote for each lineage of the traces, and it speaks for the lineage. */
  ghost predicate VotesFor(limits: Limits, now: real, ordinary: set<string>, entities: seq<Entity>, votes: seq<LineageVote>)
    requires limits.recencyWindow > 0.0
  {
    && OneVoteEach(votes)
    && (forall k :: 0 <= k < |votes| ==> SpeaksFor(limits, now, ordinary, entities, votes[k]))
    && Covers(entities, votes)
  }

  ghost predicate Covers(entities: seq<Entity>, votes: seq<LineageVote>) {
    forall j :: 0 <= j < |entities| && entities[j].lineageId != "" ==>
      exists k :: 0 <= k < |votes| && votes[k].lineage == entities[j].lineageId
  }

  /** Each lineage of the active traces has exactly one vote, with the greatest
      weight among its traces, linked exactly when some of them has own evidence. */
  lemma {:induction false} LineagesVoteOnce(limits: Limits, now: real, ordinary: set<string>, entities: seq<Entity>)
    requires LimitsOk(limits)
    ensures VotesFor(limits, now, ordinary, entities, LineageVotes(limits, now, ordinary, entities))
  {
    if entities != [] {
      var n := |entities| - 1;
      LineagesVoteOnce(limits, now, ordinary, entities[..n]);
      assert entities == entities[..n] + [entities[n]];
      VotesWithOneMore(limits, now, ordinary, entities[..n], LineageVotes(limits, now, ordinary, entities[..n]), entities[n]);
    }
  }

  lemma VotesWithOneMore(limits: Limits, now: real, ordinary: set<string>, entities: seq<Entity>, votes: seq<LineageVote>,
                         e: Entity)
    requires LimitsOk(limits) && VotesFor(limits, now, ordinary, entities, votes)
    ensures VotesFor(limits, now, ordinary, entities + [e], CastLineage(limits, now, ordinary, votes, e))
  {
    var i := FindLineage(votes, e.lineageId);
    FindsLineage(votes, e.lineageId);
    if e.lineageId == "" {
      OthersSpeakOn(limits, now, ordinary, entities, votes, e, |votes|);
      Covered(entities, votes, votes, e);
    } else if i < |votes| {
      RaisedVotes(limits, now, ordinary, entities, votes, e, i);
    } else {
      NewVotes(limits, now, ordinary, entities, votes, e);
    }
  }

  lemma RaisedVotes(limits: Limits, now: real, ordinary: set<string>, entities: seq<Entity>, votes: seq<LineageVote>,
                    e: Entity, i: nat)
    requires LimitsOk(limits) && VotesFor(limits, now, ordinary, entities, votes)
    requires e.lineageId != "" && i == FindLineage(votes, e.lineageId) < |votes|
    ensures VotesFor(limits, now, ordinary, entities + [e], CastLineage(limits, now, ordinary, votes, e))
  {
    var raised := Raised(limits, now, ordinary, votes[i], e);
    CastRaises(limits, now, ordinary, votes, e, i);
    SpeaksForOneMore(limits, now, ordinary, entities, votes[i], e);
    OthersSpeakOn(limits, now, ordinary, entities, votes, e, i);
    Covered(entities, votes, votes[i := raised], e);
    SpeakReplaced(limits, now, ordinary, entities + [e], votes, i, raised);
  }

  function Raised(limits: Limits, now: real, ordinary: set<string>, v: LineageVote, e: Entity): LineageVote
    requires limits.recencyWindow > 0.0
  {
    var w := Recency(limits, now, e);
    LineageVote(v.lineage, if v.weight > w then v.weight else w, v.linked || HasOwnEvidence(e, ordinary))
  }

  lemma CastRaises(limits: Limits, now: real, ordinary: set<string>, votes: seq<LineageVote>, e: Entity, i: nat)
    requires limits.recencyWindow > 0.0 && e.lineageId != "" && i == FindLineage(votes, e.lineageId) < |votes|
    ensures CastLineage(limits, now, ordinary, votes, e) == votes[i := Raised(limits, now, ordinary, votes[i], e)]
    ensures votes[i].lineage == e.lineageId
  {
  }

  lemma SpeakReplaced(limits: Limits, now: real, ordinary: set<string>, entities: seq<Entity>, votes: seq<LineageVote>,
                      i: nat, raised: LineageVote)
    requires limits.recencyWindow > 0.0 && i < |votes| && SpeaksFor(limits, now, ordinary, entities, raised)
    requires OneVoteEach(votes) && raised.lineage == votes[i].lineage && Covers(entities, votes[i := raised])
    requires forall k :: 0 <= k < |votes| && k != i ==> SpeaksFor(limits, now, ordinary, entities, votes[k])
    ensures VotesFor(limits, now, ordinary, entities, votes[i := raised])
  {
  }

  /** The votes of other lineages are not concerned. */
  lemma OthersSpeakOn(limits: Limits, now: real, ordinary: set<string>, entities: seq<Entity>, votes: seq<LineageVote>,
                      e: Entity, i: nat)
    requires limits.recencyWindow > 0.0 && forall k :: 0 <= k < |votes| ==> SpeaksFor(limits, now, ordinary, entities, votes[k])
    requires forall k :: 0 <= k < |votes| && k != i ==> votes[k].lineage != e.lineageId
    ensures forall k :: 0 <= k < |votes| && k != i ==> SpeaksFor(limits, now, ordinary, entities + [e], votes[k])
  {
    forall k | 0 <= k < |votes| && k != i ensures SpeaksFor(limits, now, ordinary, entities + [e], votes[k]) {
      SpeaksOn(limits, now, ordinary, entities, votes[k], e);
    }
  }

  /** Every lineage keeps its vote. */
  lemma Covered(entities: seq<Entity>, votes: seq<LineageVote>, cast: seq<LineageVote>, e: Entity)
    requires Covers(entities, votes)
    requires |votes| <= |cast| && forall k :: 0 <= k < |votes| ==> cast[k].lineage == votes[k].lineage
    requires e.lineageId != "" ==> exists k :: 0 <= k < |cast| && cast[k].lineage == e.lineageId
    ensures Covers(entities + [e], cast)
  {
    var all := entities + [e];
    forall j | 0 <= j < |all| && all[j].lineageId != ""
      ensures exists k :: 0 <= k < |cast| && cast[k].lineage == all[j].lineageId
    {
      if j < |entities| {
        var k :| 0 <= k < |votes| && votes[k].lineage == entities[j].lineageId;
        assert cast[k].lineage == all[j].lineageId;
      }
    }
  }

  lemma NewVotes(limits: Limits, now: real, ordinary: set<string>, entities: seq<Entity>, votes: seq<LineageVote>, e: Entity)
    requires LimitsOk(limits) && VotesFor(limits, now, ordinary, entities, votes)
    requires e.lineageId != "" && FindLineage(votes, e.lineageId) == |votes|
    ensures VotesFor(limits, now, ordinary, entities + [e], CastLineage(limits, now, ordinary, votes, e))
  {
    var w := Recency(limits, now, e);
    var added := LineageVote(e.lineageId, if w > 0.0 then w else 0.0, HasOwnEvidence(e, ordinary));
    FindsLineage(votes, e.lineageId);
    NoneUncovered(entities, votes, e.lineageId);
    SpeaksForFirst(limits, now, ordinary, entities, e);
    OthersSpeakOn(limits, now, ordinary, entities, votes, e, |votes|);
    assert (votes + [added])[|votes|].lineage == e.lineageId;
    Covered(entities, votes, votes + [added], e);
    SpeakAppended(limits, now, ordinary, entities + [e], votes, added);
    assert CastLineage(limits, now, ordinary, votes, e) == votes + [added];
  }

  lemma NoneUncovered(entities: seq<Entity>, votes: seq<LineageVote>, lineage: string)
    requires Covers(entities, votes) && lineage != "" && forall k :: 0 <= k < |votes| ==> votes[k].lineage != lineage
    ensures forall x :: x in entities ==> x.lineageId != lineage
  {
  }

  lemma SpeakAppended(limits: Limits, now: real, ordinary: set<string>, entities: seq<Entity>, votes: seq<LineageVote>,
                      added: LineageVote)
    requires limits.recencyWindow > 0.0 && SpeaksFor(limits, now, ordinary, entities, added)
    requires OneVoteEach(votes) && Covers(entities, votes + [added])
    requires forall k :: 0 <= k < |votes| ==> votes[k].lineage != added.lineage && SpeaksFor(limits, now, ordinary, entities, votes[k])
    ensures VotesFor(limits, now, ordinary, entities, votes + [added])
  {
  }

  /** The weight of the votes, of all or of the linked ones, is a plain sum. */
  lemma VoteWeightSums(votes: seq<LineageVote>, v: LineageVote)
    ensures VoteWeight([v] + votes, false) == VoteWeight(votes, false) + v.weight
    ensures VoteWeight([v] + votes, true) == VoteWeight(votes, true) + if v.linked then v.weight else 0.0
    ensures VoteWeight([], false) == VoteWeight([], true) == 0.0
  {
    assert ([v] + votes)[1..] == votes;
  }

  // ---------------------------------------------------------------------
  // Feedback
  // ---------------------------------------------------------------------

  /** What a row says of an exposure: its own value, else the one its kind is mapped
      to, else, where no mapping is demanded, one for or against. */
  predicate Says(limits: Limits, r: Record, value: real) {
    match r.feedbackValue
    case Some(v) => value == v
    case None =>
      if r.tag.text in limits.feedbackValues then value == limits.feedbackValues[r.tag.text]
      else
        && !limits.requireMapping
        && ((r.tag.kind == PositiveFeedback && value == 1.0) || (r.tag.kind == NegativeFeedback && value == -1.0))
  }

  /** How much it is trusted: as declared, or by default, and never below zero. */
  predicate Trusted(limits: Limits, r: Record, trust: real) {
    var given := if r.trustDeclared then r.trust else limits.trustDefault;
    trust >= 0.0 && trust >= given && (trust == 0.0 || trust == given)
  }

  /** One exposure's feedback, if it was observed and has a winner that says
      something, adds the winner's value times its trust to the side it is on, and
      one to that side's count; otherwise it adds nothing. */
  lemma VoteCounts(limits: Limits, exposures: set<ExposureKey>, t: Tally, f: Feedback, w: Record, value: real, trust: real)
    requires Winner(f.rows) == Some(w) && Says(limits, w, value) && Trusted(limits, w, trust)
    ensures var t' := CastFeedback(limits, exposures, t, f);
            if f.key !in exposures || value == 0.0 then t' == t
            else if value > 0.0 then
              && t'.positiveWeight == t.positiveWeight + trust * value && t'.positives == t.positives + 1
              && t'.negativeWeight == t.negativeWeight && t'.negatives == t.negatives
              && t'.outcomes == WithOutcome(t.outcomes, w)
            else
              && t'.negativeWeight == t.negativeWeight - trust * value && t'.negatives == t.negatives + 1
              && t'.positiveWeight == t.positiveWeight && t'.positives == t.positives
              && t'.outcomes == WithOutcome(t.outcomes, w)
  {
    assert FeedbackValue(limits, w) == Some(value) && TrustOf(limits, w) == trust;
  }

  lemma SilentVoteCountsNothing(limits: Limits, exposures: set<ExposureKey>, t: Tally, f: Feedback)
    requires Winner(f.rows).Some? ==> forall value :: !Says(limits, Winner(f.rows).value, value)
    ensures CastFeedback(limits, exposures, t, f) == t
  {
    if Winner(f.rows).Some? {
      var w := Winner(f.rows).value;
      assert FeedbackValue(limits, w).None? by {
        if FeedbackValue(limits, w).Some? { assert Says(limits, w, FeedbackValue(limits, w).value); }
      }
    }
  }

  /** When a row was committed: its commit sequence, or its own where there is none. */
  function CommittedAt(r: Record): nat {
    if r.committedSequence == 0 then r.sequence else r.committedSequence
  }

  /** Of two rows of feedback the one of higher authority counts, at equal authority
      the more trusted, then the later, then the one with the greater id. */
  lemma StrongerFeedback(a: Record, b: Record)
    ensures a.trustRank != b.trustRank ==> (WeakerFeedback(a, b) <==> a.trustRank < b.trustRank)
    ensures a.trustRank == b.trustRank && a.trust != b.trust ==> (WeakerFeedback(a, b) <==> a.trust < b.trust)
    ensures a.trustRank == b.trustRank && a.trust == b.trust && CommittedAt(a) != CommittedAt(b) ==>
              (WeakerFeedback(a, b) <==> CommittedAt(a) < CommittedAt(b))
    ensures a.trustRank == b.trustRank && a.trust == b.trust && CommittedAt(a) == CommittedAt(b) ==>
              (WeakerFeedback(a, b) <==> TextLess(a.recordId, b.recordId))
  {
  }

  /** A fraction is clipped to the unit interval at both ends. */
  lemma SharesAreClipped(part: real, total: real)
    requires total > 0.0
    ensures part >= total ==> Share(part, total) == 1.0
    ensures part <= 0.0 ==> Share(part, total) == 0.0
    ensures 0.0 <= part <= total ==> Share(part, total) * total == part
  {
    if part >= total { AtLeastOne(part, total); }
    if part <= 0.0 { AtMostZero(part, total); }
    if 0.0 <= part <= total { ShareIsExact(part, total); }
  }

  lemma AtLeastOne(part: real, total: real)
    requires part >= total > 0.0
    ensures part / total >= 1.0
  {
    QuotientBounds(part, total, 1.0, part / total);
  }

  lemma AtMostZero(part: real, total: real)
    requires part <= 0.0 < total
    ensures part / total <= 0.0
  {
    QuotientBounds(part, total, part / total, 0.0);
  }

  // ---------------------------------------------------------------------
  // Drag
  // ---------------------------------------------------------------------

  /** The weights of the drag, and its weighted components. */
  lemma DragSums(limits: Limits, s: Shares)
    ensures WeightSum(DragTerms(limits, s))
         == limits.duplicateWeight + limits.refutationWeight + limits.staleWeight + limits.stagnationWeight
    ensures WeightedSum(DragTerms(limits, s))
         == limits.duplicateWeight * s.duplicate + limits.refutationWeight * s.refutation
            + limits.staleWeight * s.stale + limits.stagnationWeight * s.stagnation
  {
    SumsOfFour(DragTerms(limits, s));
  }

  /** Drag is exactly the weighted mean of its four components, and zero without weights. */
  lemma DragIsExact(limits: Limits, s: Shares)
    requires LimitsOk(limits)
    requires 0.0 <= s.duplicate <= 1.0 && 0.0 <= s.refutation <= 1.0 && 0.0 <= s.stale <= 1.0 && 0.0 <= s.stagnation <= 1.0
    ensures WeightSum(DragTerms(limits, s)) == 0.0 ==> DragOf(limits, s) == 0.0
    ensures DragOf(limits, s) * WeightSum(DragTerms(limits, s)) == WeightedSum(DragTerms(limits, s))
  {
    WeightedSumBounds(DragTerms(limits, s), 0.0, 1.0);
    DragOfSums(limits, s, WeightedSum(DragTerms(limits, s)), WeightSum(DragTerms(limits, s)));
  }

  lemma DragOfSums(limits: Limits, s: Shares, weighted: real, weights: real)
    requires weighted == WeightedSum(DragTerms(limits, s)) && weights == WeightSum(DragTerms(limits, s))
    requires 0.0 <= weighted <= weights
    ensures weights == 0.0 ==> DragOf(limits, s) == 0.0
    ensures DragOf(limits, s) * weights == weighted
  {
    if weights > 0.0 { ShareIsExact(weighted, weights); }
  }

  lemma SumsOfFour(terms: seq<Term>)
    requires |terms| == 4
    ensures WeightSum(terms) == terms[0].weight + terms[1].weight + terms[2].weight + terms[3].weight
    ensures WeightedSum(terms)
         == terms[0].weight * terms[0].value + terms[1].weight * terms[1].value
            + terms[2].weight * terms[2].value + terms[3].weight * terms[3].value
  {
    var b, c, d := terms[1..], terms[2..], terms[3..];
    assert b[1..] == c && c[1..] == d && d[1..] == [];
    assert WeightSum(d) == d[0].weight && WeightedSum(d) == d[0].weight * d[0].value;
    assert WeightSum(c) == c[0].weight + WeightSum(d) && WeightedSum(c) == c[0].weight * c[0].value + WeightedSum(d);
    assert WeightSum(b) == b[0].weight + WeightSum(c) && WeightedSum(b) == b[0].weight * b[0].value + WeightedSum(c);
  }

  /** Which drags a trace carries: those its greatest state row reports, with
      refutation and staleness lasting as long as its lifecycle says so; and one
      that has been active, but not within the window, stagnates. */
  lemma DragsOfTrace(limits: Limits, rows: seq<Record>, key: string, i: nat, now: real)
    requires FoldRows(limits, rows).Some? && key != "" && GreatestAt(rows, key, i)
    ensures var entities := FoldRows(limits, rows).value.entities;
            var k := Find(entities, key);
            && k < |entities|
            && (IsDuplicate(entities[k]) <==> FlagsOf(limits, rows[i]).duplicate)
            && (IsRefuted(entities[k]) <==> LastTold(rows, key, TellsLifecycle(limits), Some("refuted")))
            && (IsStale(entities[k]) <==> LastTold(rows, key, TellsLifecycle(limits), Some("stale")))
            && (IsStagnant(limits, now, entities[k])
                <==> || FlagsOf(limits, rows[i]).stagnation
                     || (entities[k] in Active(entities)
                         && exists at :: LastActive(rows, key, Some(at)) && at + limits.stagnationWindow <= now))
  {
    var entities := FoldRows(limits, rows).value.entities;
    GreatestIsHeld(limits, rows, key, i);
    StreamingIsMaximum(limits, rows, key);
    EntitiesAreTold(limits, rows, key);
    var e := entities[Find(entities, key)];
    LastingDrags(limits, rows, key, e, i);
    ActiveMembers(entities);
    ActivityIs(rows, key, e.lastActivity);
  }

  lemma LastingDrags(limits: Limits, rows: seq<Record>, key: string, e: Entity, i: nat)
    requires HoldsGreatest(limits, rows, key, e) && ScalarsTold(limits, rows, key, e) && GreatestAt(rows, key, i)
    ensures e.flags == FlagsOf(limits, rows[i])
    ensures IsRefuted(e) <==> LastTold(rows, key, TellsLifecycle(limits), Some("refuted"))
    ensures IsStale(e) <==> LastTold(rows, key, TellsLifecycle(limits), Some("stale"))
  {
    FlagsAreGreatest(limits, rows, key, e, i);
    LifecycleToldIs(limits, rows, key, e, "refuted");
    LifecycleToldIs(limits, rows, key, e, "stale");
    FlagsMakeLifecycle(limits, rows, key, e, i);
  }

  /** A refutation or stale row that sets the state sets the lifecycle too. */
  lemma FlagsMakeLifecycle(limits: Limits, rows: seq<Record>, key: string, e: Entity, i: nat)
    requires ScalarsTold(limits, rows, key, e) && GreatestAt(rows, key, i)
    ensures FlagsOf(limits, rows[i]).refuted ==> e.lifecycle == "refuted"
    ensures FlagsOf(limits, rows[i]).stale ==> e.lifecycle == "stale"
  {
    var told := if e.lifecycle == "" then None else Some(e.lifecycle);
    if TellsLifecycle(limits)(rows[i]).Some? {
      ToldByGreatest(rows, key, TellsLifecycle(limits), told, i);
    }
  }

  lemma FlagsAreGreatest(limits: Limits, rows: seq<Record>, key: string, e: Entity, i: nat)
    requires HoldsGreatest(limits, rows, key, e) && GreatestAt(rows, key, i)
    ensures e.flags == FlagsOf(limits, rows[i])
  {
    var k: nat :| SetBy(limits, rows, key, e, k);
    GreatestSetsLast(rows, key, i);
    GreatestSetsLast(rows, key, k);
  }

  lemma LifecycleToldIs(limits: Limits, rows: seq<Record>, key: string, e: Entity, lifecycle: string)
    requires ScalarsTold(limits, rows, key, e) && lifecycle != ""
    ensures LastTold(rows, key, TellsLifecycle(limits), Some(lifecycle)) <==> e.lifecycle == lifecycle
  {
    var told := if e.lifecycle == "" then None else Some(e.lifecycle);
    if LastTold(rows, key, TellsLifecycle(limits), Some(lifecycle)) {
      ToldOnce(rows, key, TellsLifecycle(limits), told, Some(lifecycle));
    }
  }

  lemma ToldOnce<T(!new)>(rows: seq<Record>, key: string, tells: Record -> Option<T>, a: Option<T>, b: Option<T>)
    requires LastTold(rows, key, tells, a) && LastTold(rows, key, tells, b)
    ensures a == b
  {
    if a != None && b != None {
      var i: nat :| ToldAt(rows, key, tells, a, i);
      var j: nat :| ToldAt(rows, key, tells, b, j);
    }
  }

  lemma ActivityIs(rows: seq<Record>, key: string, at: Option<real>)
    requires LastActive(rows, key, at)
    ensures forall x :: LastActive(rows, key, Some(x)) <==> at == Some(x)
  {
    forall x | LastActive(rows, key, Some(x)) ensures at == Some(x) {
      var r :| r in rows && Dates(r, key) && r.eventTime == Some(x);
      var q :| q in rows && Dates(q, key) && q.eventTime == at;
    }
  }

  // ---------------------------------------------------------------------
  // The collections of a task
  // ---------------------------------------------------------------------

  /** What an exposure is of: the trace a row names, else its evidence. */
  function SubjectOf(r: Record): string {
    if r.traceId == "" then r.evidenceId else r.traceId
  }

  /** Two rows speak of one exposure exactly when it is the same exposure of the same
      subject to the same worker in the same episode and run. */
  lemma SameExposureExactly(a: Record, b: Record)
    ensures ExposureOf(a) == ExposureOf(b)
       <==> && a.exposureId == b.exposureId && SubjectOf(a) == SubjectOf(b) && a.workerId == b.workerId
            && a.episodeId == b.episodeId && a.runId == b.runId
  {
  }

  // ---------------------------------------------------------------------
  // What a task collects
  // ---------------------------------------------------------------------

  /** The row is feedback that counts for an exposure. */
  predicate Votes(limits: Limits, r: Record) {
    && !FromChecker(r) && r.tag.kind !in {Frontier, Association, Exposure} && !(r.tag.kind == Trace && EntityKey(r) == "")
    && (r.tag.kind in {PositiveFeedback, NegativeFeedback} || r.tag.text in limits.feedbackValues || r.feedbackValue.Some?)
    && r.exposureId != "" && r.terminal
  }

  function VotesOn(limits: Limits, rows: seq<Record>, key: ExposureKey): seq<Record> {
    if rows == [] then []
    else
      var r := rows[|rows|-1];
      VotesOn(limits, rows[..|rows|-1], key) + if Votes(limits, r) && ExposureOf(r) == key then [r] else []
  }

  function ExposuresOf(rows: seq<Record>): set<ExposureKey> {
    set r | r in rows && !FromChecker(r) && r.tag.kind == Exposure && r.exposureId != "" :: ExposureOf(r)
  }

  function AssociationsOf(rows: seq<Record>): set<(string, string)> {
    set r | r in rows && !FromChecker(r) && r.tag.kind == Association && EntityKey(r) != "" && r.lineageId != "" && r.evidenceId != ""
      :: (r.lineageId, r.evidenceId)
  }

  ghost predicate FeedbackGrouped(limits: Limits, rows: seq<Record>, feedback: seq<Feedback>) {
    && OneFeedbackPerExposure(feedback)
    && forall key :: var i := FindFeedback(feedback, key);
         if i < |feedback| then feedback[i].rows == VotesOn(limits, rows, key) != [] else VotesOn(limits, rows, key) == []
  }

  lemma FindAdded(feedback: seq<Feedback>, r: Record, key: ExposureKey)
    requires OneFeedbackPerExposure(feedback)
    ensures OneFeedbackPerExposure(AddFeedback(feedback, r))
    ensures var before, after := FindFeedback(feedback, key), FindFeedback(AddFeedback(feedback, r), key);
            if key == ExposureOf(r)
            then after < |AddFeedback(feedback, r)|
                 && AddFeedback(feedback, r)[after].rows == (if before < |feedback| then feedback[before].rows else []) + [r]
            else (after < |AddFeedback(feedback, r)| <==> before < |feedback|)
                 && (before < |feedback| ==> AddFeedback(feedback, r)[after] == feedback[before])
  {
    var added, i := AddFeedback(feedback, r), FindFeedback(feedback, ExposureOf(r));
    FoundIsFirst(feedback, ExposureOf(r));
    FoundIsFirst(feedback, key);
    assert forall k :: 0 <= k < |feedback| ==> added[k].key == feedback[k].key;
    assert |added| > |feedback| ==> added[|feedback|].key == ExposureOf(r);
    FoundIsFirst(added, key);
    if key == ExposureOf(r) {
      assert added[i].key == key;
    } else if FindFeedback(feedback, key) < |feedback| {
      assert added[FindFeedback(feedback, key)].key == key;
    }
  }

  lemma {:induction false} FoundIsFirst(feedback: seq<Feedback>, key: ExposureKey)
    ensures FindFeedback(feedback, key) == |feedback| <==> forall k :: 0 <= k < |feedback| ==> feedback[k].key != key
    ensures OneFeedbackPerExposure(feedback) ==> forall k :: 0 <= k < |feedback| && feedback[k].key == key ==> k == FindFeedback(feedback, key)
  {
    if feedback != [] {
      FoundIsFirst(feedback[1..], key);
    }
  }

  lemma CollectedNext(limits: Limits, acc: Acc, r: Record)
    requires Accumulate(limits, acc, r).Counted?
    ensures var next := Accumulate(limits, acc, r).acc;
            && next.feedback == (if Votes(limits, r) then AddFeedback(acc.feedback, r) else acc.feedback)
            && next.exposures == acc.exposures + ExposuresOf([r])
            && next.associations == acc.associations + AssociationsOf([r])
  {
    assert r in [r];
  }

  /** What a task has collected: the exposures observed, the evidence associated with
      its lineages, and for each exposure the votes on it in order. */
  lemma {:induction false} CollectionsAreTold(limits: Limits, rows: seq<Record>)
    requires FoldRows(limits, rows).Some?
    ensures var acc := FoldRows(limits, rows).value;
            && acc.exposures == ExposuresOf(rows) && acc.associations == AssociationsOf(rows)
            && FeedbackGrouped(limits, rows, acc.feedback)
  {
    if rows != [] {
      var n := |rows| - 1;
      CollectionsAreTold(limits, rows[..n]);
      LastRow(limits, rows);
      CollectedNext(limits, FoldRows(limits, rows[..n]).value, rows[n]);
      assert rows == rows[..n] + [rows[n]];
      GroupedNext(limits, rows, FoldRows(limits, rows[..n]).value.feedback);
    }
  }

  lemma GroupedNext(limits: Limits, rows: seq<Record>, feedback: seq<Feedback>)
    requires rows != [] && FeedbackGrouped(limits, rows[..|rows|-1], feedback)
    ensures var r := rows[|rows|-1];
            FeedbackGrouped(limits, rows, if Votes(limits, r) then AddFeedback(feedback, r) else feedback)
  {
    var r := rows[|rows|-1];
    if Votes(limits, r) {
      FindAdded(feedback, r, ExposureOf(r));
      forall key ensures var i := FindFeedback(AddFeedback(feedback, r), key);
                         if i < |AddFeedback(feedback, r)|
                         then AddFeedback(feedback, r)[i].rows == VotesOn(limits, rows, key) != []
                         else VotesOn(limits, rows, key) == []
      {
        FindAdded(feedback, r, key);
      }
    }
  }

  /** What a finished projection reports, figure by figure. */
  lemma FinishReports(limits: Limits, ordinary: set<string>, t: string, acc: Acc, w: nat, now: real)
    requires LimitsOk(limits)
    ensures var p, tally := Finish(limits, ordinary, t, acc, w, now), TallyOf(limits, acc, acc.feedback);
            && p.taskId == t && p.watermark == w
            && p.exposures == |acc.exposures| && p.associations == |acc.associations|
            && p.positives == tally.positives && p.negatives == tally.negatives
            && p.positiveWeight == tally.positiveWeight && p.negativeWeight == tally.negativeWeight
            && (p.isZero <==> p.actionability == p.association == p.positive == p.negative == p.drag == 0.0)
            && p.negative == Share(tally.negativeWeight, limits.kappa + |acc.exposures| as real)
            && p.positive == Share(tally.positiveWeight, limits.kappa + |acc.exposures| as real)
  {
  }
}
