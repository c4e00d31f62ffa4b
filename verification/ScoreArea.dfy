/** The area under an accepted-score trajectory, computed by its producer and
    recomputed by its consumer. */
module ScoreArea {
  import opened Options

  datatype Point = Point(time: real, score: real)

  /** Times and scores never fall and stay within the horizon and the maximum. */
  ghost predicate Monotone(points: seq<Point>, horizon: real, maxScore: real) {
    && (forall i :: 0 <= i < |points| ==> 0.0 <= points[i].time <= horizon && 0.0 <= points[i].score <= maxScore)
    && (forall i :: 0 < i < |points| ==>
          points[i - 1].time <= points[i].time && points[i - 1].score <= points[i].score)
  }

  ghost predicate NoRepeats(points: seq<Point>) {
    forall i :: 0 < i < |points| ==> points[i] != points[i - 1]
  }

  function LastTime(points: seq<Point>): real {
    if points == [] then 0.0 else points[|points|-1].time
  }

  function LastScore(points: seq<Point>): real {
    if points == [] then 0.0 else points[|points|-1].score
  }

  /** A rectangle under the step curve: a score held for a span of time, with
      its size and the score rounded down to whole layers. */
  datatype Step = Step(height: real, span: real, size: real, layers: nat)

  function StepOf(height: real, span: real): Step {
    Step(height, span, height * span, if height >= 0.0 then Floor(height) else 0)
  }

  /** The steps between time zero and the last point. */
  function Closed(points: seq<Point>): seq<Step> {
    if points == [] then []
    else
      var front, p := points[..|points|-1], points[|points|-1];
      Closed(front) + [StepOf(LastScore(front), p.time - LastTime(front))]
  }

  /** All steps up to time `until`. */
  function Steps(points: seq<Point>, until: real): seq<Step> {
    Closed(points) + [StepOf(LastScore(points), until - LastTime(points))]
  }

  function Value(steps: seq<Step>): real {
    if steps == [] then 0.0
    else Value(steps[..|steps|-1]) + steps[|steps|-1].size
  }

  /** The area under the step curve of the points, up to time `until`. */
  function Area(points: seq<Point>, until: real): real {
    Value(Steps(points, until))
  }

  /** When the curve first reaches `k`. */
  function TimeTo(points: seq<Point>, k: nat): Option<real> {
    if points == [] then None
    else
      var earlier := TimeTo(points[..|points|-1], k);
      if earlier.None? && points[|points|-1].score >= k as real then Some(points[|points|-1].time) else earlier
  }

  function Times(points: seq<Point>, targets: nat): map<nat, Option<real>> {
    map k: nat | 1 <= k <= targets :: TimeTo(points, k)
  }

  function Floor(x: real): (n: int)
    ensures n as real <= x < n as real + 1.0
  {
    x.Floor
  }

  function NAuc(points: seq<Point>, horizon: real, maxScore: real): real
    requires horizon > 0.0 && maxScore > 0.0
  {
    PositiveProduct(horizon, maxScore);
    Area(points, horizon) / (horizon * maxScore)
  }

  lemma PositiveProduct(a: real, b: real)
    requires a > 0.0 && b > 0.0
    ensures a * b > 0.0
  {
  }

  // ---------------------------------------------------------------------
  // Layers
  // ---------------------------------------------------------------------

  /** How long each whole score up to `targets` has been held by time `until`, summed. */
  function Layers(points: seq<Point>, until: real, targets: nat): real {
    if targets == 0 then 0.0
    else Layers(points, until, targets - 1) + LayerOf(points, until, targets)
  }

  /** How long the score `k` has been held by time `until`. */
  function LayerOf(points: seq<Point>, until: real, k: nat): real {
    match TimeTo(points, k) case None => 0.0 case Some(t) => until - t
  }

  /** A rectangle of whole height, as layers of height one. */
  function Stack(height: nat, span: real): real {
    if height == 0 then 0.0 else Stack(height - 1, span) + span
  }

  predicate Upward(steps: seq<Step>) {
    forall i :: 0 <= i < |steps| ==> Rounded(steps[i])
  }

  /** The size of a step is that of its layers, and less than one layer more. */
  predicate Rounded(s: Step) {
    && Near(s.size, Stack(s.layers, s.span), s.span)
    && (s.height == s.layers as real ==> s.size == Stack(s.layers, s.span))
  }

  /** What rounding loses, as a relation of three sizes. */
  predicate Near(value: real, stacks: real, span: real) {
    span >= 0.0 && stacks <= value <= stacks + span && (span > 0.0 ==> value < stacks + span)
  }

  predicate Rounds(layers: nat, height: real) {
    layers as real <= height < layers as real + 1.0
  }

  /** The area under the heights rounded down, in layers. */
  function StackValue(steps: seq<Step>): real {
    if steps == [] then 0.0
    else StackValue(steps[..|steps|-1]) + Stack(steps[|steps|-1].layers, steps[|steps|-1].span)
  }

  function TotalSpan(steps: seq<Step>): real {
    if steps == [] then 0.0 else TotalSpan(steps[..|steps|-1]) + steps[|steps|-1].span
  }

  /** A score is reached exactly when the last, highest point reaches it. */
  lemma {:induction false} ReachedByLast(points: seq<Point>, horizon: real, maxScore: real, k: nat)
    requires Monotone(points, horizon, maxScore) && k >= 1
    ensures TimeTo(points, k).Some? <==> LastScore(points) >= k as real
    ensures TimeTo(points, k).Some? ==> 0.0 <= TimeTo(points, k).value <= LastTime(points)
  {
    if points != [] {
      ReachedByLast(points[..|points|-1], horizon, maxScore, k);
    }
  }

  function Least(a: nat, b: int): (n: nat)
    requires b >= 0
  {
    if a <= b then a else b
  }

  /** One more point adds its whole score, for the rest of the time, to the layers. */
  lemma {:induction false} LayersStep(points: seq<Point>, p: Point, horizon: real, maxScore: real, until: real, targets: nat)
    requires Monotone(points + [p], horizon, maxScore)
    ensures Floor(p.score) >= 0
    ensures Layers(points + [p], until, targets)
         == Layers(points, p.time, targets) + Stack(Least(targets, Floor(p.score)), until - p.time)
  {
    assert (points + [p])[|points|] == p;
    if targets > 0 {
      LayersStep(points, p, horizon, maxScore, until, targets - 1);
      LayerAdded(points, p, horizon, maxScore, until, targets);
    }
  }

  /** What a single layer gains. */
  lemma LayerAdded(points: seq<Point>, p: Point, horizon: real, maxScore: real, until: real, k: nat)
    requires Monotone(points + [p], horizon, maxScore) && k >= 1
    ensures LayerOf(points + [p], until, k)
         == LayerOf(points, p.time, k) + if k <= Floor(p.score) then until - p.time else 0.0
  {
    var longer := points + [p];
    assert longer[..|points|] == points && longer[|points|] == p;
    assert forall i :: 0 <= i < |points| ==> longer[i] == points[i];
    ReachedByLast(points, horizon, maxScore, k);
    ReachedByLast(longer, horizon, maxScore, k);
    assert p.score >= k as real <==> k <= Floor(p.score);
  }

  lemma StepsSnoc(points: seq<Point>, p: Point, until: real)
    ensures Closed(points + [p]) == Steps(points, p.time)
    ensures Steps(points + [p], until) == Steps(points, p.time) + [StepOf(p.score, until - p.time)]
  {
    assert (points + [p])[..|points|] == points;
  }

  lemma StepIsRounded(height: real, span: real)
    requires height >= 0.0 && span >= 0.0
    ensures Rounded(StepOf(height, span))
  {
    RoundedStep(height, Floor(height), span);
  }

  /** The steps of a monotone history are rounded and span the whole time. */
  lemma {:induction false} StepsUpward(points: seq<Point>, horizon: real, maxScore: real, until: real)
    requires Monotone(points, horizon, maxScore) && LastTime(points) <= until
    ensures Upward(Steps(points, until)) && TotalSpan(Steps(points, until)) == until
  {
    if points == [] {
      StepIsRounded(0.0, until);
      NoSteps(until);
    } else {
      var front, p := points[..|points|-1], points[|points|-1];
      assert points == front + [p];
      assert LastTime(front) <= p.time;
      StepsUpward(front, horizon, maxScore, p.time);
      StepIsRounded(p.score, until - p.time);
      StepsSnoc(front, p, until);
      TotalSpanSnoc(Steps(front, p.time), StepOf(p.score, until - p.time));
    }
  }

  lemma NoSteps(until: real)
    ensures Steps([], until) == [StepOf(0.0, until)]
    ensures TotalSpan(Steps([], until)) == until && StackValue(Steps([], until)) == 0.0
  {
    TotalSpanSnoc([], StepOf(0.0, until));
    StackValueSnoc([], StepOf(0.0, until));
    assert [] + [StepOf(0.0, until)] == Steps([], until);
  }

  /** No step is larger than the maximum score held for its span. */
  predicate Capped(steps: seq<Step>, maxScore: real) {
    forall i :: 0 <= i < |steps| ==> CappedStep(steps[i], maxScore)
  }

  predicate CappedStep(s: Step, maxScore: real) {
    0.0 <= s.size <= maxScore * s.span
  }

  lemma StepIsCapped(height: real, maxScore: real, span: real)
    requires 0.0 <= height <= maxScore && span >= 0.0
    ensures CappedStep(StepOf(height, span), maxScore)
  {
    assert height * span >= 0.0;
    assert (maxScore - height) * span >= 0.0;
  }

  lemma {:induction false} StepsCapped(points: seq<Point>, horizon: real, maxScore: real, until: real)
    requires Monotone(points, horizon, maxScore) && LastTime(points) <= until && maxScore >= 0.0
    ensures Capped(Steps(points, until), maxScore)
  {
    if points == [] {
      StepIsCapped(0.0, maxScore, until);
      NoSteps(until);
    } else {
      var front, p := points[..|points|-1], points[|points|-1];
      assert points == front + [p];
      assert LastTime(front) <= p.time;
      StepsCapped(front, horizon, maxScore, p.time);
      StepIsCapped(p.score, maxScore, until - p.time);
      StepsSnoc(front, p, until);
    }
  }

  lemma TotalSpanSnoc(steps: seq<Step>, s: Step)
    ensures TotalSpan(steps + [s]) == TotalSpan(steps) + s.span
  {
    assert (steps + [s])[..|steps|] == steps;
  }

  lemma StackValueSnoc(steps: seq<Step>, s: Step)
    ensures StackValue(steps + [s]) == StackValue(steps) + Stack(s.layers, s.span)
  {
    assert (steps + [s])[..|steps|] == steps && (steps + [s])[|steps|] == s;
  }

  /** The layers sum to the area under the rounded-down scores. */
  lemma {:induction false} LayersAreStacks(points: seq<Point>, horizon: real, maxScore: real, until: real, targets: nat)
    requires Monotone(points, horizon, maxScore) && maxScore < targets as real + 1.0
    ensures Layers(points, until, targets) == StackValue(Steps(points, until))
  {
    if points == [] {
      NoLayers(until, targets);
      NoSteps(until);
    } else {
      var front, p := points[..|points|-1], points[|points|-1];
      assert points == front + [p];
      LayersAreStacks(front, horizon, maxScore, p.time, targets);
      LayersStep(front, p, horizon, maxScore, until, targets);
      StackOfPoint(front, p, until, targets);
    }
  }

  lemma StackOfPoint(points: seq<Point>, p: Point, until: real, targets: nat)
    requires 0.0 <= p.score < targets as real + 1.0
    ensures StackValue(Steps(points + [p], until))
         == StackValue(Steps(points, p.time)) + Stack(Least(targets, Floor(p.score)), until - p.time)
  {
    StepsSnoc(points, p, until);
    StackValueSnoc(Steps(points, p.time), StepOf(p.score, until - p.time));
  }

  lemma {:induction false} NoLayers(until: real, targets: nat)
    ensures Layers([], until, targets) == 0.0
  {
    if targets > 0 { NoLayers(until, targets - 1); }
  }

  lemma FractionOf(fraction: real, span: real)
    requires 0.0 <= fraction < 1.0 && span >= 0.0
    ensures 0.0 <= fraction * span <= span
    ensures span > 0.0 ==> fraction * span < span
  {
    assert (1.0 - fraction) * span >= 0.0;
    assert span > 0.0 ==> (1.0 - fraction) * span > 0.0;
  }

  lemma OneLayer(height: real, span: real)
    ensures height * span == (height - 1.0) * span + span
  {
  }

  /** Rounding a rectangle's height down loses less than its span, and nothing
      when the height is whole. */
  lemma {:induction false} RoundedStep(height: real, layers: nat, span: real)
    requires Rounds(layers, height) && span >= 0.0
    ensures Near(height * span, Stack(layers, span), span)
    ensures height == layers as real ==> height * span == Stack(layers, span)
  {
    if layers == 0 {
      FractionOf(height, span);
    } else {
      RoundedStep(height - 1.0, layers - 1, span);
      OneLayer(height, span);
    }
  }

  lemma NearAdds(v: real, s: real, t: real, v': real, s': real, t': real)
    requires Near(v, s, t) && Near(v', s', t')
    ensures Near(v + v', s + s', t + t')
  {
  }

  /** Rounding all heights down loses less than the time spanned, and nothing
      when every height is whole. */
  lemma {:induction false} ValueNearStacks(steps: seq<Step>)
    requires Upward(steps)
    ensures Near(Value(steps), StackValue(steps), TotalSpan(steps))
    ensures (forall i :: 0 <= i < |steps| ==> steps[i].height == steps[i].layers as real) ==>
              Value(steps) == StackValue(steps)
  {
    if steps != [] {
      var n := |steps| - 1;
      ValueNearStacks(steps[..n]);
      assert Rounded(steps[n]);
      NearAdds(Value(steps[..n]), StackValue(steps[..n]), TotalSpan(steps[..n]),
               steps[n].size, Stack(steps[n].layers, steps[n].span), steps[n].span);
    }
  }

  lemma {:induction false} WholeSteps(points: seq<Point>, until: real)
    requires forall p :: p in points ==> 0.0 <= p.score == Floor(p.score) as real
    ensures forall i :: 0 <= i < |Steps(points, until)| ==>
              Steps(points, until)[i].height == Steps(points, until)[i].layers as real
  {
    if points != [] {
      var front, p := points[..|points|-1], points[|points|-1];
      assert points == front + [p];
      WholeSteps(front, p.time);
      StepsSnoc(front, p, until);
    }
  }

  /** Undoing the normalisation gives back the area. */
  lemma Unnormalised(points: seq<Point>, horizon: real, maxScore: real)
    requires horizon > 0.0 && maxScore > 0.0
    ensures horizon * maxScore * NAuc(points, horizon, maxScore) == Area(points, horizon)
  {
    PositiveProduct(horizon, maxScore);
    TimesQuotient(Area(points, horizon), horizon * maxScore);
  }

  lemma TimesQuotient(n: real, d: real)
    requires d != 0.0
    ensures d * (n / d) == n
  {
  }

  /** The layer-cake identity.  The unnormalised area exceeds the summed times
      past each reached target by less than one horizon, and by nothing at all
      when every score is whole. */
  lemma LayerCake(points: seq<Point>, horizon: real, maxScore: real)
    requires Monotone(points, horizon, maxScore) && horizon > 0.0 && maxScore > 0.0
    ensures var layers, area := Layers(points, horizon, Floor(maxScore)), horizon * maxScore * NAuc(points, horizon, maxScore);
            && layers <= area < layers + horizon
            && ((forall p :: p in points ==> p.score == Floor(p.score) as real) ==> area == layers)
  {
    Unnormalised(points, horizon, maxScore);
    LayersAreStacks(points, horizon, maxScore, horizon, Floor(maxScore));
    StepsUpward(points, horizon, maxScore, horizon);
    ValueNearStacks(Steps(points, horizon));
    if forall p :: p in points ==> p.score == Floor(p.score) as real {
      WholeSteps(points, horizon);
    }
  }

  lemma {:induction false} ValueBounds(steps: seq<Step>, maxScore: real)
    requires Capped(steps, maxScore)
    ensures 0.0 <= Value(steps) <= maxScore * TotalSpan(steps)
  {
    if steps != [] {
      var n := |steps| - 1;
      ValueBounds(steps[..n], maxScore);
      assert CappedStep(steps[n], maxScore);
      Distribute(maxScore, TotalSpan(steps[..n]), steps[n].span);
    }
  }

  lemma Distribute(x: real, a: real, b: real)
    ensures x * (a + b) == x * a + x * b
  {
  }

  /** The normalised area of every accepted history lies between zero and one. */
  lemma NAucIsFraction(points: seq<Point>, horizon: real, maxScore: real)
    requires Monotone(points, horizon, maxScore) && horizon > 0.0 && maxScore > 0.0
    ensures 0.0 <= NAuc(points, horizon, maxScore) <= 1.0
  {
    PositiveProduct(horizon, maxScore);
    StepsUpward(points, horizon, maxScore, horizon);
    StepsCapped(points, horizon, maxScore, horizon);
    ValueBounds(Steps(points, horizon), maxScore);
    Quotient(Area(points, horizon), horizon * maxScore);
  }

  lemma Quotient(n: real, d: real)
    requires d > 0.0 && 0.0 <= n <= d
    ensures 0.0 <= n / d <= 1.0
  {
    var q := n / d;
    assert q * d == n;
    assert q < 0.0 ==> q * d < 0.0;
    assert q > 1.0 ==> q * d > 1.0 * d;
  }

  // ---------------------------------------------------------------------
  // The producer
  // ---------------------------------------------------------------------

  /** The times after one more point: its own time for every target it reaches first. */
  function Marked(times: map<nat, Option<real>>, p: Point): map<nat, Option<real>> {
    map k | k in times :: if times[k].None? && p.score >= k as real then Some(p.time) else times[k]
  }

  lemma TimesSnoc(points: seq<Point>, p: Point, targets: nat)
    ensures Times(points + [p], targets) == Marked(Times(points, targets), p)
  {
    assert (points + [p])[..|points|] == points;
  }

  datatype Result = Scored(nauc: real, times: map<nat, Option<real>>) | Rejected

  /** Record the targets a point reaches for the first time, up to its own score. */
  method MarkReached(times: map<nat, Option<real>>, targets: nat, p: Point) returns (marked: map<nat, Option<real>>)
    requires forall k :: k in times <==> 1 <= k <= targets
    requires 0.0 <= p.score < targets as real + 1.0
    ensures marked == Marked(times, p)
  {
    marked := times;
    var reached := Floor(p.score);
    var k := 1;
    while k <= reached
      invariant 1 <= k <= reached + 1 && marked.Keys == times.Keys
      invariant forall j :: j in times ==> marked[j] == if j < k && times[j].None? then Some(p.time) else times[j]
    {
      if k in marked && marked[k].None? {
        marked := marked[k := Some(p.time)];
      }
      k := k + 1;
    }
  }

  /** What the area loops carry: the last point seen and the area up to it. */
  ghost predicate Swept(points: seq<Point>, i: nat, previous: real, score: real, area: real)
    requires i <= |points|
  {
    previous == LastTime(points[..i]) && score == LastScore(points[..i]) && area == Value(Closed(points[..i]))
  }

  lemma ValueSnoc(steps: seq<Step>, s: Step)
    ensures Value(steps + [s]) == Value(steps) + s.size
  {
    assert (steps + [s])[..|steps|] == steps && (steps + [s])[|steps|] == s;
  }

  /** Going on to point `i` closes the step before it. */
  lemma NextStep(points: seq<Point>, i: nat, previous: real, score: real, area: real)
    requires i < |points| && Swept(points, i, previous, score, area)
    ensures Swept(points, i + 1, points[i].time, points[i].score, area + score * (points[i].time - previous))
  {
    assert points[..i + 1][..i] == points[..i];
    ValueSnoc(Closed(points[..i]), StepOf(score, points[i].time - previous));
  }

  lemma MonotoneSnoc(points: seq<Point>, p: Point, horizon: real, maxScore: real)
    requires Monotone(points, horizon, maxScore) && maxScore > 0.0
    ensures 0.0 <= LastTime(points) && 0.0 <= LastScore(points)
    ensures Monotone(points + [p], horizon, maxScore) <==>
              LastTime(points) <= p.time <= horizon && LastScore(points) <= p.score <= maxScore
  {
    var longer := points + [p];
    assert longer[|points|] == p && forall i :: 0 <= i < |points| ==> longer[i] == points[i];
  }

  lemma MonotonePrefix(points: seq<Point>, k: nat, horizon: real, maxScore: real)
    requires k <= |points|
    ensures Monotone(points, horizon, maxScore) ==> Monotone(points[..k], horizon, maxScore)
  {
  }

  /** What the producer's loop carries. */
  datatype Sweep = Sweep(previous: real, score: real, area: real, times: map<nat, Option<real>>)

  ghost predicate Carries(points: seq<Point>, i: nat, horizon: real, maxScore: real, s: Sweep)
    requires i <= |points| && maxScore > 0.0
  {
    && Monotone(points[..i], horizon, maxScore)
    && Swept(points, i, s.previous, s.score, s.area) && s.times == Times(points[..i], Floor(maxScore))
  }

  /** The area grown by the step that ends at point `i`. */
  method Widen(points: seq<Point>, i: nat, previous: real, score: real, area: real) returns (wider: real)
    requires i < |points| && Swept(points, i, previous, score, area)
    ensures Swept(points, i + 1, points[i].time, points[i].score, wider)
  {
    NextStep(points, i, previous, score, area);
    return area + score * (points[i].time - previous);
  }

  /** One row of the history, refused when it falls back or leaves its bounds. */
  method TakePoint(points: seq<Point>, i: nat, horizon: real, maxScore: real, s: Sweep) returns (next: Option<Sweep>)
    requires i < |points| && horizon > 0.0 && maxScore > 0.0 && Carries(points, i, horizon, maxScore, s)
    ensures next.Some? <==> Monotone(points[..i + 1], horizon, maxScore)
    ensures next.Some? ==> Carries(points, i + 1, horizon, maxScore, next.value)
  {
    var p := points[i];
    assert points[..i + 1] == points[..i] + [p];
    MonotoneSnoc(points[..i], p, horizon, maxScore);
    if p.time < s.previous || p.time > horizon || p.score < s.score || p.score > maxScore {
      return None;
    }
    TimesSnoc(points[..i], p, Floor(maxScore));
    var area := Widen(points, i, s.previous, s.score, s.area);
    var times := MarkReached(s.times, Floor(maxScore), p);
    return Some(Sweep(p.time, p.score, area, times));
  }

  /** The producer's single loop over the history. */
  method Produce(points: seq<Point>, horizon: real, maxScore: real) returns (r: Result)
    ensures r.Scored? <==> horizon > 0.0 && maxScore > 0.0 && Monotone(points, horizon, maxScore)
    ensures r.Scored? ==>
              r.nauc == NAuc(points, horizon, maxScore) && r.times == Times(points, Floor(maxScore))
  {
    if horizon <= 0.0 || maxScore <= 0.0 {
      return Rejected;
    }
    var s := Sweep(0.0, 0.0, 0.0, Times([], Floor(maxScore)));
    var i := 0;
    while i < |points|
      invariant i <= |points| && Carries(points, i, horizon, maxScore, s)
    {
      var next := TakePoint(points, i, horizon, maxScore, s);
      if next.None? {
        MonotonePrefix(points, i + 1, horizon, maxScore);
        return Rejected;
      }
      s := next.value;
      i := i + 1;
    }
    assert points[..i] == points;
    var nauc := Normalised(points, horizon, maxScore, s.area, s.score, s.previous);
    return Scored(nauc, s.times);
  }

  /** Close the last step at the horizon and normalise. */
  method Normalised(ghost points: seq<Point>, horizon: real, maxScore: real, area: real, score: real, previous: real)
    returns (nauc: real)
    requires horizon > 0.0 && maxScore > 0.0 && Swept(points, |points|, previous, score, area)
    ensures nauc == NAuc(points, horizon, maxScore)
  {
    assert points[..|points|] == points;
    PositiveProduct(horizon, maxScore);
    ValueSnoc(Closed(points), StepOf(score, horizon - previous));
    var closed := area + score * (horizon - previous);
    return closed / (horizon * maxScore);
  }

  // ---------------------------------------------------------------------
  // The consumer
  // ---------------------------------------------------------------------

  /** The consumer's own validation of a history. */
  method CheckHistory(points: seq<Point>, horizon: real, maxScore: real) returns (ok: bool)
    requires horizon > 0.0 && maxScore > 0.0
    ensures ok <==> Monotone(points, horizon, maxScore) && NoRepeats(points)
  {
    var previous, score := -1.0, 0.0;
    var i := 0;
    while i < |points|
      invariant i <= |points| && Monotone(points[..i], horizon, maxScore) && NoRepeats(points[..i])
      invariant score == LastScore(points[..i]) && previous == if i == 0 then -1.0 else LastTime(points[..i])
    {
      var p := points[i];
      assert points[..i + 1] == points[..i] + [p];
      MonotoneSnoc(points[..i], p, horizon, maxScore);
      if p.time < 0.0 || p.time > horizon || p.score < 0.0 || p.score > maxScore
         || p.time < previous || p.score < score
      {
        MonotonePrefix(points, i + 1, horizon, maxScore);
        return false;
      }
      if p.time == previous && p.score == score && i > 0 {
        assert points[i] == points[i - 1];
        return false;
      }
      previous, score := p.time, p.score;
      i := i + 1;
    }
    assert points[..i] == points;
    return true;
  }

  method ComputeTimes(points: seq<Point>, targets: nat) returns (times: map<nat, Option<real>>)
    ensures times == Times(points, targets)
  {
    times := Times([], targets);
    var i := 0;
    while i < |points|
      invariant i <= |points| && times == Times(points[..i], targets)
    {
      assert points[..i + 1] == points[..i] + [points[i]];
      TimesSnoc(points[..i], points[i], targets);
      times := MarkTargets(times, targets, points[i]);
      i := i + 1;
    }
    assert points[..i] == points;
  }

  /** The consumer's check of a history against the reported times. */
  method History(points: seq<Point>, reported: map<nat, Option<real>>, horizon: real, maxScore: real)
    returns (accepted: bool)
    requires horizon > 0.0 && maxScore > 0.0
    ensures accepted <==>
              Monotone(points, horizon, maxScore) && NoRepeats(points) && reported == Times(points, Floor(maxScore))
  {
    var ok := CheckHistory(points, horizon, maxScore);
    if !ok {
      return false;
    }
    var times := ComputeTimes(points, Floor(maxScore));
    return reported == times;
  }

  /** The consumer's inner loop runs over every target instead of the reached ones. */
  method MarkTargets(times: map<nat, Option<real>>, targets: nat, p: Point) returns (marked: map<nat, Option<real>>)
    requires forall k :: k in times <==> 1 <= k <= targets
    ensures marked == Marked(times, p)
  {
    marked := times;
    var k := 1;
    while k <= targets
      invariant 1 <= k <= targets + 1 && marked.Keys == times.Keys
      invariant forall j :: j in times ==>
                  marked[j] == if j < k && times[j].None? && p.score >= j as real then Some(p.time) else times[j]
    {
      if marked[k].None? && p.score >= k as real {
        marked := marked[k := Some(p.time)];
      }
      k := k + 1;
    }
  }

  /** The consumer's second loop over the area. */
  method Recompute(points: seq<Point>, horizon: real, maxScore: real) returns (nauc: real)
    requires horizon > 0.0 && maxScore > 0.0
    ensures nauc == NAuc(points, horizon, maxScore)
  {
    var previous, score, area := 0.0, 0.0, 0.0;
    var i := 0;
    while i < |points|
      invariant i <= |points| && Swept(points, i, previous, score, area)
    {
      area := Widen(points, i, previous, score, area);
      score, previous := points[i].score, points[i].time;
      i := i + 1;
    }
    assert points[..i] == points;
    nauc := Normalised(points, horizon, maxScore, area, score, previous);
  }

  /** Whatever the producer scores, the consumer accepts with the same times and
      recomputes to the same area, exactly when no point repeats its predecessor. */
  method ProducedIsConsumed(points: seq<Point>, horizon: real, maxScore: real)
    returns (produced: Result, accepted: bool, recomputed: real)
    requires horizon > 0.0 && maxScore > 0.0
    ensures produced.Scored? ==> (accepted <==> NoRepeats(points)) && recomputed == produced.nauc
    ensures produced.Rejected? ==> !accepted
  {
    produced := Produce(points, horizon, maxScore);
    accepted := History(points, if produced.Scored? then produced.times else map[], horizon, maxScore);
    recomputed := Recompute(points, horizon, maxScore);
  }
}
