/** The paged read of one pinned snapshot, failing closed to an empty view. */
module TraceBridge {
  import opened Options
  import opened TraceRecords
  import opened TraceState
  import opened TraceFinish
  import opened TraceProjection

  datatype Mark = Number(n: nat) | Text(text: string)

  datatype Page = Page(
    items: seq<Item>, traceWatermark: string, nextCursor: string, complete: bool,
    sourceWatermark: Option<Mark>, snapshotId: string, referenceTime: Option<real>)

  datatype Reason =
    | SourceFailed | WatermarkChanged | SnapshotChanged | ReferenceChanged | SourceWatermarkChanged | TooManyRecords
    | Contradictory | CursorOnComplete | CursorStuck | TooManyPages | ProjectionFailed(failure: Failure)

  /** What pagination has pinned so far. */
  datatype Cut = Cut(traceWatermark: string, snapshotId: string, reference: Option<real>, source: Option<Mark>)

  datatype View = View(projections: seq<Projection>, cut: Cut, items: seq<Item>)

  datatype Reading = Read(view: View) | Zero(reason: Reason)

  // ---------------------------------------------------------------------
  // Contradictory rows
  // ---------------------------------------------------------------------

  /** The identity replays are checked under; unlike the projection's own it
      names the exposure. */
  function ReplayIdentity(r: Record): seq<string> {
    if r.recordId != "" then Identity(r) else Identity(r) + [r.exposureId]
  }

  ghost predicate Consistent(items: seq<Item>) {
    forall x, y :: x in items && y in items && ReplayIdentity(x.record) == ReplayIdentity(y.record) ==>
      x.record == y.record
  }

  /** `seen` remembers the row of every identity among the items. */
  ghost predicate Indexes(items: seq<Item>, seen: map<seq<string>, Record>) {
    && (forall x :: x in items ==> ReplayIdentity(x.record) in seen && seen[ReplayIdentity(x.record)] == x.record)
    && (forall id :: id in seen ==> exists x :: x in items && ReplayIdentity(x.record) == id)
  }

  lemma IndexStep(items: seq<Item>, seen: map<seq<string>, Record>, x: Item)
    requires Indexes(items, seen)
    ensures var id := ReplayIdentity(x.record);
            if id in seen && seen[id] != x.record then !Consistent(items + [x])
            else Indexes(items + [x], seen[id := x.record])
  {
    var longer := items + [x];
    assert x in longer && forall y :: y in longer <==> y in items || y == x;
  }

  lemma IndexedIsConsistent(items: seq<Item>, seen: map<seq<string>, Record>)
    requires Indexes(items, seen)
    ensures Consistent(items)
  {
  }

  lemma InconsistentPrefix(items: seq<Item>, k: nat)
    requires k <= |items| && !Consistent(items[..k])
    ensures !Consistent(items)
  {
  }

  /** Remembering one more item, or finding that it contradicts an earlier one. */
  lemma IndexNext(items: seq<Item>, seen: map<seq<string>, Record>, i: nat)
    requires i < |items| && Indexes(items[..i], seen)
    ensures var r := items[i].record;
            if ReplayIdentity(r) in seen && seen[ReplayIdentity(r)] != r then !Consistent(items)
            else Indexes(items[..i + 1], seen[ReplayIdentity(r) := r])
  {
    assert items[..i + 1] == items[..i] + [items[i]];
    IndexStep(items[..i], seen, items[i]);
    if !Consistent(items[..i + 1]) { InconsistentPrefix(items, i + 1); }
  }

  method ValidateRecords(items: seq<Item>) returns (ok: bool)
    ensures ok <==> Consistent(items)
  {
    var seen: map<seq<string>, Record> := map[];
    var i := 0;
    while i < |items|
      invariant i <= |items| && Indexes(items[..i], seen)
    {
      var r := items[i].record;
      var id := ReplayIdentity(r);
      IndexNext(items, seen, i);
      if id in seen && seen[id] != r {
        return false;
      }
      seen := seen[id := r];
      i := i + 1;
    }
    assert items[..i] == items;
    IndexedIsConsistent(items, seen);
    return true;
  }

  // ---------------------------------------------------------------------
  // What an acceptable sequence of pages is
  // ---------------------------------------------------------------------

  function ItemsOf(pages: seq<Page>): seq<Item> {
    if pages == [] then [] else ItemsOf(pages[..|pages|-1]) + pages[|pages|-1].items
  }

  /** Combine a pinned value with one a page may carry; they must not differ. */
  function Pinned(cut: Cut, page: Page): Cut {
    Cut(cut.traceWatermark,
        if page.snapshotId != "" then page.snapshotId else cut.snapshotId,
        if page.referenceTime.Some? then page.referenceTime else cut.reference,
        if page.sourceWatermark.Some? then page.sourceWatermark else cut.source)
  }

  /** The pages, read as an answer to one request, speak of one snapshot. */
  ghost predicate SameSnapshot(reference: Option<real>, pages: seq<Page>) {
    && (forall p, q :: p in pages && q in pages ==> p.traceWatermark == q.traceWatermark)
    && (forall p, q :: p in pages && q in pages && p.snapshotId != "" && q.snapshotId != "" ==> p.snapshotId == q.snapshotId)
    && (forall p, q :: p in pages && q in pages && p.referenceTime.Some? && q.referenceTime.Some? ==>
          p.referenceTime == q.referenceTime)
    && (forall p :: p in pages && p.referenceTime.Some? && reference.Some? ==> p.referenceTime == reference)
    && (forall p, q :: p in pages && q in pages && p.sourceWatermark.Some? && q.sourceWatermark.Some? ==>
          p.sourceWatermark == q.sourceWatermark)
  }

  ghost predicate CursorsAdvance(pages: seq<Page>) {
    && (forall i :: 0 <= i < |pages| - 1 ==> !pages[i].complete && pages[i].nextCursor != "")
    && (forall i, j :: 0 <= i < j < |pages| - 1 ==> pages[i].nextCursor != pages[j].nextCursor)
  }

  /** A complete, consistent reading: the last page and only it is complete. */
  ghost predicate Complete(limits: Limits, reference: Option<real>, pages: seq<Page>) {
    && 0 < |pages| <= limits.maxRecords + 1
    && SameSnapshot(reference, pages)
    && CursorsAdvance(pages)
    && pages[|pages|-1].complete && pages[|pages|-1].nextCursor == ""
    && |ItemsOf(pages)| <= limits.maxRecords
    && Consistent(ItemsOf(pages))
  }

  /** What is pinned agrees with every page read. */
  ghost predicate Pins(reference: Option<real>, pages: seq<Page>, cut: Cut) {
    && (forall p :: p in pages ==>
          && p.traceWatermark == cut.traceWatermark
          && (p.snapshotId != "" ==> p.snapshotId == cut.snapshotId)
          && (p.referenceTime.Some? ==> p.referenceTime == cut.reference)
          && (p.sourceWatermark.Some? ==> p.sourceWatermark == cut.source))
    && (reference.Some? ==> cut.reference == reference)
    && (cut.snapshotId != "" ==> exists p :: p in pages && p.snapshotId == cut.snapshotId)
    && (cut.reference.Some? && reference.None? ==> exists p :: p in pages && p.referenceTime == cut.reference)
    && (cut.source.Some? ==> exists p :: p in pages && p.sourceWatermark == cut.source)
  }

  /** Whether a page may follow what is pinned. */
  predicate Fits(cut: Cut, page: Page) {
    && page.traceWatermark == cut.traceWatermark
    && (page.snapshotId != "" && cut.snapshotId != "" ==> page.snapshotId == cut.snapshotId)
    && (page.referenceTime.Some? && cut.reference.Some? ==> page.referenceTime == cut.reference)
    && (page.sourceWatermark.Some? && cut.source.Some? ==> page.sourceWatermark == cut.source)
  }

  /** The pages, extended by one that fits, still speak of one snapshot. */
  lemma FitsExactly(reference: Option<real>, pages: seq<Page>, cut: Cut, page: Page)
    requires pages != [] && Pins(reference, pages, cut)
    ensures Fits(cut, page) <==> SameSnapshot(reference, pages + [page])
    ensures Fits(cut, page) ==> Pins(reference, pages + [page], Pinned(cut, page))
  {
    var longer := pages + [page];
    assert page in longer && pages[0] in pages && forall p :: p in longer <==> p in pages || p == page;
  }

  lemma FirstFits(reference: Option<real>, page: Page)
    ensures var cut := Cut(page.traceWatermark, "", reference, None);
            && (Fits(cut, page) <==> SameSnapshot(reference, [page]))
            && (Fits(cut, page) ==> Pins(reference, [page], Pinned(cut, page)))
  {
    assert page in [page];
  }

  lemma PrefixSame(reference: Option<real>, pages: seq<Page>, k: nat)
    requires k <= |pages| && SameSnapshot(reference, pages)
    ensures SameSnapshot(reference, pages[..k])
  {
  }

  lemma {:induction false} PrefixItems(pages: seq<Page>, k: nat)
    requires k <= |pages|
    ensures |ItemsOf(pages[..k])| <= |ItemsOf(pages)|
    ensures forall x :: x in ItemsOf(pages[..k]) ==> x in ItemsOf(pages)
  {
    if k == |pages| {
      assert pages[..k] == pages;
    } else {
      PrefixItems(pages[..|pages|-1], k);
      assert pages[..|pages|-1][..k] == pages[..k];
    }
  }

  // ---------------------------------------------------------------------
  // Reading page by page
  // ---------------------------------------------------------------------

  /** Pages that may be followed by more. */
  ghost predicate Partial(limits: Limits, reference: Option<real>, pages: seq<Page>) {
    && SameSnapshot(reference, pages)
    && |ItemsOf(pages)| <= limits.maxRecords
    && Consistent(ItemsOf(pages))
    && (forall i :: 0 <= i < |pages| ==> !pages[i].complete && pages[i].nextCursor != "")
    && (forall i, j :: 0 <= i < j < |pages| ==> pages[i].nextCursor != pages[j].nextCursor)
  }

  ghost predicate Answered(answers: nat -> Option<Page>, n: nat) {
    forall i: nat :: i < n ==> answers(i).Some?
  }

  /** The first `n` answers of the source. */
  ghost function Pages(answers: nat -> Option<Page>, n: nat): (pages: seq<Page>)
    requires Answered(answers, n)
    ensures |pages| == n && forall i :: 0 <= i < n ==> pages[i] == answers(i).value
  {
    seq(n, i requires 0 <= i < n => answers(i).value)
  }

  /** The source completes its snapshot with its `n`th answer. */
  ghost predicate CompletesAt(limits: Limits, reference: Option<real>, answers: nat -> Option<Page>, n: nat) {
    Answered(answers, n) && Complete(limits, reference, Pages(answers, n))
  }

  lemma CompleteHasPartialFront(limits: Limits, reference: Option<real>, pages: seq<Page>, k: nat)
    requires k < |pages|
    ensures Complete(limits, reference, pages) ==> Partial(limits, reference, pages[..k])
  {
    if Complete(limits, reference, pages) {
      PrefixSame(reference, pages, k);
      PrefixItems(pages, k);
    }
  }

  /** Once an answer neither completes the snapshot nor may be followed, nothing will. */
  lemma Doomed(limits: Limits, reference: Option<real>, answers: nat -> Option<Page>, k: nat, n: nat)
    requires Answered(answers, k) && Partial(limits, reference, Pages(answers, k))
    requires Answered(answers, k + 1) ==>
               && !Partial(limits, reference, Pages(answers, k + 1))
               && !Complete(limits, reference, Pages(answers, k + 1))
    ensures !CompletesAt(limits, reference, answers, n)
  {
    if Answered(answers, n) {
      var pages := Pages(answers, n);
      if 0 < n <= k {
        assert Pages(answers, k)[n - 1] == pages[n - 1];
      } else if n > k + 1 {
        CompleteHasPartialFront(limits, reference, pages, k + 1);
        assert pages[..k + 1] == Pages(answers, k + 1);
      }
    }
  }

  function WatermarkOf(cut: Cut): Option<nat> {
    if cut.source.Some? && cut.source.value.Number? then Some(cut.source.value.n) else None
  }

  /** The reading is exactly what the first complete sequence of pages projects to. */
  ghost predicate ReadsAt(limits: Limits, tasks: seq<string>, ordinary: set<string>, reference: Option<real>,
                          answers: nat -> Option<Page>, reading: Reading, n: nat)
    requires limits.recencyWindow > 0.0
  {
    && CompletesAt(limits, reference, answers, n)
    && match reading
       case Read(view) =>
         && view.items == ItemsOf(Pages(answers, n))
         && Pins(reference, Pages(answers, n), view.cut)
         && Project(limits, tasks, view.items, WatermarkOf(view.cut), ordinary, view.cut.reference)
            == Done(view.projections)
       case Zero(reason) =>
         && reason.ProjectionFailed?
         && exists cut ::
              && Pins(reference, Pages(answers, n), cut)
              && Project(limits, tasks, ItemsOf(Pages(answers, n)), WatermarkOf(cut), ordinary, cut.reference)
                 == Failed(reason.failure)
  }

  /** Take one page into the pinned cut and the rows read so far. */
  method TakePage(limits: Limits, ghost reference: Option<real>, ghost pages: seq<Page>, cut: Cut, items: seq<Item>, page: Page)
    returns (refused: Option<Reason>, cut': Cut, items': seq<Item>)
    requires items == ItemsOf(pages) && Partial(limits, reference, pages)
    requires pages != [] ==> Pins(reference, pages, cut)
    requires pages == [] ==> cut == Cut(page.traceWatermark, "", reference, None)
    ensures refused.None? <==>
              && SameSnapshot(reference, pages + [page])
              && |ItemsOf(pages + [page])| <= limits.maxRecords && Consistent(ItemsOf(pages + [page]))
    ensures refused.Some? ==> !refused.value.ProjectionFailed?
    ensures refused.None? ==> items' == ItemsOf(pages + [page]) && Pins(reference, pages + [page], cut')
  {
    assert (pages + [page])[..|pages|] == pages;
    if pages == [] {
      assert pages + [page] == [page];
      FirstFits(reference, page);
    } else {
      FitsExactly(reference, pages, cut, page);
    }
    cut', items' := Pinned(cut, page), items + page.items;
    if page.traceWatermark != cut.traceWatermark {
      return Some(WatermarkChanged), cut, items;
    }
    if page.snapshotId != "" && cut.snapshotId != "" && page.snapshotId != cut.snapshotId {
      return Some(SnapshotChanged), cut, items;
    }
    if page.referenceTime.Some? && cut.reference.Some? && page.referenceTime != cut.reference {
      return Some(ReferenceChanged), cut, items;
    }
    if page.sourceWatermark.Some? && cut.source.Some? && page.sourceWatermark != cut.source {
      return Some(SourceWatermarkChanged), cut, items;
    }
    if |items'| > limits.maxRecords {
      return Some(TooManyRecords), cut, items;
    }
    var ok := ValidateRecords(items');
    return if ok then None else Some(Contradictory), cut', items';
  }

  ghost predicate CursorsOf(pages: seq<Page>, cursors: set<string>) {
    forall c :: c in cursors <==> exists i :: 0 <= i < |pages| && pages[i].nextCursor == c
  }

  datatype Paged = Paged(cut: Cut, items: seq<Item>) | Refused(reason: Reason)

  /** A page that fits either completes the reading or must bring a new cursor. */
  lemma PageEnds(limits: Limits, reference: Option<real>, pages: seq<Page>, cursors: set<string>, page: Page)
    requires Partial(limits, reference, pages) && CursorsOf(pages, cursors) && |pages| <= limits.maxRecords
    requires SameSnapshot(reference, pages + [page])
    requires |ItemsOf(pages + [page])| <= limits.maxRecords && Consistent(ItemsOf(pages + [page]))
    ensures Complete(limits, reference, pages + [page]) <==> page.complete && page.nextCursor == ""
    ensures Partial(limits, reference, pages + [page]) <==>
              !page.complete && page.nextCursor != "" && page.nextCursor !in cursors
    ensures CursorsOf(pages + [page], cursors + {page.nextCursor})
  {
    var longer := pages + [page];
    assert longer[|pages|] == page && forall i :: 0 <= i < |pages| ==> longer[i] == pages[i];
  }

  /** A page that does not fit neither completes the reading nor may be followed. */
  lemma PageRefused(limits: Limits, reference: Option<real>, pages: seq<Page>)
    requires !SameSnapshot(reference, pages) || |ItemsOf(pages)| > limits.maxRecords || !Consistent(ItemsOf(pages))
    ensures !Complete(limits, reference, pages) && !Partial(limits, reference, pages)
  {
  }

  lemma PagesExtend(answers: nat -> Option<Page>, k: nat)
    requires Answered(answers, k) && answers(k).Some?
    ensures Answered(answers, k + 1) && Pages(answers, k + 1) == Pages(answers, k) + [answers(k).value]
  {
  }

  /** The state of pagination after `k` pages that may be followed by more. */
  ghost predicate Paging(limits: Limits, reference: Option<real>, answers: nat -> Option<Page>, k: nat,
                         cut: Cut, items: seq<Item>, cursors: set<string>) {
    && Answered(answers, k)
    && var pages := Pages(answers, k);
       && Partial(limits, reference, pages) && items == ItemsOf(pages) && CursorsOf(pages, cursors)
       && (if k == 0 then cut == Cut("", "", reference, None) else Pins(reference, pages, cut))
  }

  ghost predicate Finished(limits: Limits, reference: Option<real>, answers: nat -> Option<Page>, n: nat,
                           cut: Cut, items: seq<Item>) {
    && CompletesAt(limits, reference, answers, n)
    && items == ItemsOf(Pages(answers, n)) && Pins(reference, Pages(answers, n), cut)
  }

  datatype Verdict = More | Whole | Stop(why: Reason)

  /** What one taken page does to the state of pagination. */
  lemma PageTaken(limits: Limits, reference: Option<real>, answers: nat -> Option<Page>, k: nat,
                  cut: Cut, items: seq<Item>, cursors: set<string>, page: Page, cut': Cut)
    requires Paging(limits, reference, answers, k, cut, items, cursors) && k <= limits.maxRecords
    requires answers(k) == Some(page)
    requires var longer := Pages(answers, k) + [page];
             && SameSnapshot(reference, longer)
             && |ItemsOf(longer)| <= limits.maxRecords && Consistent(ItemsOf(longer)) && Pins(reference, longer, cut')
    ensures page.complete && page.nextCursor == "" ==>
              Finished(limits, reference, answers, k + 1, cut', ItemsOf(Pages(answers, k) + [page]))
    ensures !page.complete && page.nextCursor != "" && page.nextCursor !in cursors ==>
              Paging(limits, reference, answers, k + 1, cut', ItemsOf(Pages(answers, k) + [page]),
                     cursors + {page.nextCursor})
    ensures page.complete != (page.nextCursor == "") || page.nextCursor in cursors ==>
              forall n: nat :: !CompletesAt(limits, reference, answers, n)
  {
    PagesExtend(answers, k);
    PageEnds(limits, reference, Pages(answers, k), cursors, page);
    if page.complete != (page.nextCursor == "") || page.nextCursor in cursors {
      assert CursorsOf(Pages(answers, k), cursors);
      DoomedForAll(limits, reference, answers, k);
    }
  }

  method NextPage(limits: Limits, reference: Option<real>, answers: nat -> Option<Page>, k: nat,
                  cut: Cut, items: seq<Item>, cursors: set<string>)
    returns (verdict: Verdict, cut': Cut, items': seq<Item>, cursors': set<string>)
    requires Paging(limits, reference, answers, k, cut, items, cursors) && k <= limits.maxRecords
    ensures match verdict
            case More => Paging(limits, reference, answers, k + 1, cut', items', cursors')
            case Whole => Finished(limits, reference, answers, k + 1, cut', items')
            case Stop(why) => !why.ProjectionFailed? && forall n: nat :: !CompletesAt(limits, reference, answers, n)
  {
    cut', items', cursors' := cut, items, cursors;
    var answer := answers(k);
    if answer.None? {
      DoomedForAll(limits, reference, answers, k);
      return Stop(SourceFailed), cut', items', cursors';
    }
    var page := answer.value;
    PagesExtend(answers, k);
    if k == 0 {
      cut' := cut.(traceWatermark := page.traceWatermark);
    }
    var refused;
    refused, cut', items' := TakePage(limits, reference, Pages(answers, k), cut', items, page);
    if refused.Some? {
      PageRefused(limits, reference, Pages(answers, k) + [page]);
      DoomedForAll(limits, reference, answers, k);
      return Stop(refused.value), cut', items', cursors';
    }
    PageTaken(limits, reference, answers, k, cut, items, cursors, page, cut');
    if page.complete {
      return if page.nextCursor != "" then Stop(CursorOnComplete) else Whole, cut', items', cursors';
    }
    if page.nextCursor == "" || page.nextCursor in cursors {
      return Stop(CursorStuck), cut', items', cursors';
    }
    return More, cut', items', cursors + {page.nextCursor};
  }

  /** After the last page allowed, none of them complete, nothing completes. */
  lemma NoneCompletes(limits: Limits, reference: Option<real>, answers: nat -> Option<Page>, k: nat)
    requires k == limits.maxRecords + 1 && Answered(answers, k) && Partial(limits, reference, Pages(answers, k))
    ensures forall m: nat :: !CompletesAt(limits, reference, answers, m)
  {
    forall m: nat ensures !CompletesAt(limits, reference, answers, m) {
      if Answered(answers, m) && 0 < m <= k {
        assert Pages(answers, m)[m - 1] == Pages(answers, k)[m - 1];
      }
    }
  }

  /** Ask for pages until the snapshot is complete.  It is refused only when no
      number of this source's answers makes a complete, consistent reading. */
  method ReadPages(limits: Limits, reference: Option<real>, answers: nat -> Option<Page>)
    returns (paged: Paged, ghost n: nat)
    ensures paged.Paged? ==> Finished(limits, reference, answers, n, paged.cut, paged.items)
    ensures paged.Refused? ==> !paged.reason.ProjectionFailed? && forall k: nat :: !CompletesAt(limits, reference, answers, k)
  {
    n := 0;
    var cut := Cut("", "", reference, None);
    var items: seq<Item> := [];
    var cursors: set<string> := {};
    var k := 0;
    while k <= limits.maxRecords
      invariant k <= limits.maxRecords + 1 && Paging(limits, reference, answers, k, cut, items, cursors)
    {
      var verdict;
      verdict, cut, items, cursors := NextPage(limits, reference, answers, k, cut, items, cursors);
      k := k + 1;
      match verdict
      case More =>
      case Whole => return Paged(cut, items), k;
      case Stop(why) => return Refused(why), n;
    }
    NoneCompletes(limits, reference, answers, k);
    return Refused(TooManyPages), n;
  }

  /** Read one snapshot: the projection of the first complete sequence of pages,
      or the empty view with the reason why there is none. */
  method ReadSnapshot(limits: Limits, tasks: seq<string>, ordinary: set<string>, reference: Option<real>,
                      answers: nat -> Option<Page>) returns (reading: Reading, ghost n: nat)
    requires limits.recencyWindow > 0.0
    ensures reading.Read? || reading.reason.ProjectionFailed? ==>
              ReadsAt(limits, tasks, ordinary, reference, answers, reading, n)
    ensures reading.Zero? && !reading.reason.ProjectionFailed? ==>
              forall k: nat :: !CompletesAt(limits, reference, answers, k)
  {
    var paged;
    paged, n := ReadPages(limits, reference, answers);
    if paged.Refused? {
      return Zero(paged.reason), n;
    }
    var out := ProjectFull(limits, tasks, paged.items, WatermarkOf(paged.cut), ordinary, paged.cut.reference);
    reading := match out
               case Done(projections) => Read(View(projections, paged.cut, paged.items))
               case Failed(f) => Zero(ProjectionFailed(f));
    assert out.Failed? ==> Pins(reference, Pages(answers, n), paged.cut);
  }

  lemma DoomedForAll(limits: Limits, reference: Option<real>, answers: nat -> Option<Page>, k: nat)
    requires Answered(answers, k) && Partial(limits, reference, Pages(answers, k))
    requires Answered(answers, k + 1) ==>
               && !Partial(limits, reference, Pages(answers, k + 1))
               && !Complete(limits, reference, Pages(answers, k + 1))
    ensures forall n: nat :: !CompletesAt(limits, reference, answers, n)
  {
    forall n: nat ensures !CompletesAt(limits, reference, answers, n) {
      Doomed(limits, reference, answers, k, n);
    }
  }

  // ---------------------------------------------------------------------
  // How a snapshot is cut into pages does not matter
  // ---------------------------------------------------------------------

  /** The rows the replay check lets through are one per projection identity
      exactly where no two of them differ in exposure alone. */
  ghost predicate ExposuresTold(items: seq<Item>) {
    forall x, y :: x in items && y in items && x.record.recordId == "" && Identity(x.record) == Identity(y.record) ==>
      x.record.exposureId == y.record.exposureId
  }

  lemma IdentityKinds(a: Record, b: Record)
    requires Identity(a) == Identity(b)
    ensures a.recordId == "" <==> b.recordId == ""
  {
    assert Identity(a)[0] == Identity(b)[0];
    assert "id" != "semantic";
  }

  lemma ConsistentExactly(items: seq<Item>)
    requires Consistent(items) && AllExplicit(items)
    ensures ExposuresTold(items) <==> OneRowPerIdentity(items)
  {
    if ExposuresTold(items) {
      forall x, y | x in items && y in items && Identity(x.record) == Identity(y.record) ensures x == y {
        IdentityKinds(x.record, y.record);
        assert ReplayIdentity(x.record) == ReplayIdentity(y.record);
      }
    }
  }

  /** Two accepted readings of the same rows at the same cut agree on every
      task, however the source pages, repeats or orders them, provided no two
      rows without a record id differ in their exposure alone. */
  lemma ReadingsAgree(limits: Limits, tasks: seq<string>, ordinary: set<string>, reference: Option<real>,
                      a: nat -> Option<Page>, b: nat -> Option<Page>, n: nat, m: nat, u: View, v: View)
    requires limits.recencyWindow > 0.0
    requires ReadsAt(limits, tasks, ordinary, reference, a, Read(u), n)
    requires ReadsAt(limits, tasks, ordinary, reference, b, Read(v), m)
    requires u.cut.reference == v.cut.reference && u.cut.source == v.cut.source
    requires AllExplicit(u.items) && ExposuresTold(u.items)
    requires forall x :: x in u.items <==> x in v.items
    ensures u.projections == v.projections
  {
    ConsistentExactly(u.items);
    PermutedAndReplayed(limits, tasks, u.items, v.items, WatermarkOf(u.cut), ordinary, u.cut.reference);
  }
}
