/** Round-robin allocation over a fixed task order, and its bounded fairness. */
module RoundRobin {
  import opened Options
  import opened Cyclic
  import opened Lexicographic

  // ---------------------------------------------------------------------
  // What a selection is
  // ---------------------------------------------------------------------

  /** Which places of the order hold an eligible task. */
  function Marks(order: seq<string>, eligible: seq<string>): (marks: seq<bool>)
    ensures |marks| == |order| && forall i :: 0 <= i < |order| ==> (marks[i] <==> order[i] in eligible)
  {
    seq(|order|, i requires 0 <= i < |order| => order[i] in eligible)
  }

  predicate Least(eligible: seq<string>, task: string) {
    task in eligible && forall t :: t in eligible ==> !TextLess(t, task)
  }

  /** The outcome of one selection: the first eligible task of the order at or
      after the cursor, which moves past it; failing that the least eligible id,
      the cursor staying; nothing when nothing is eligible. */
  predicate Selection(order: seq<string>, cursor: nat, eligible: seq<string>, task: string, next: nat) {
    if eligible == [] then task == "" && next == cursor
    else if exists i :: 0 <= i < |order| && order[i] in eligible then
      exists i: nat ::
        && FirstInTurn(Marks(order, eligible), cursor, i) && i < |order|
        && task == order[i] && next == (i + 1) % |order|
    else Least(eligible, task) && next == cursor
  }

  lemma FirstIsUnique(marked: seq<bool>, start: nat, i: nat, j: nat)
    requires FirstInTurn(marked, start, i) && FirstInTurn(marked, start, j)
    ensures i == j
  {
    AtTurn(|marked|, start, i);
    AtTurn(|marked|, start, j);
  }

  lemma LeastIsUnique(eligible: seq<string>, a: string, b: string)
    requires Least(eligible, a) && Least(eligible, b)
    ensures a == b && forall t :: t in eligible ==> t == a || TextLess(a, t)
  {
    TextTrichotomy(a, b);
    forall t | t in eligible ensures t == a || TextLess(a, t) { TextTrichotomy(a, t); }
  }

  /** The order, the cursor and the eligible tasks leave no choice; outside the
      order it is the least eligible id, and the cursor stays. */
  lemma SelectionIsUnique(order: seq<string>, cursor: nat, eligible: seq<string>, a: string, m: nat, b: string, n: nat)
    requires Selection(order, cursor, eligible, a, m) && Selection(order, cursor, eligible, b, n)
    ensures a == b && m == n
    ensures (forall k :: 0 <= k < |order| ==> order[k] !in eligible) && eligible != [] ==>
              m == cursor && a in eligible && forall t :: t in eligible ==> t == a || TextLess(a, t)
  {
    if eligible != [] {
      if exists i :: 0 <= i < |order| && order[i] in eligible {
        PlaceIsUnique(order, cursor, eligible, a, m, b, n);
      } else {
        LeastIsUnique(eligible, a, b);
      }
    }
  }

  lemma PlaceIsUnique(order: seq<string>, cursor: nat, eligible: seq<string>, a: string, m: nat, b: string, n: nat)
    requires Selection(order, cursor, eligible, a, m) && Selection(order, cursor, eligible, b, n)
    requires eligible != [] && exists i :: 0 <= i < |order| && order[i] in eligible
    ensures a == b && m == n
  {
    var j := SelectedPlace(order, cursor, eligible, a, m);
    var k := SelectedPlace(order, cursor, eligible, b, n);
    FirstIsUnique(Marks(order, eligible), cursor, j, k);
  }

  lemma SelectedPlace(order: seq<string>, cursor: nat, eligible: seq<string>, task: string, next: nat) returns (i: nat)
    requires Selection(order, cursor, eligible, task, next)
    requires eligible != [] && exists k :: 0 <= k < |order| && order[k] in eligible
    ensures FirstInTurn(Marks(order, eligible), cursor, i) && i < |order| && task == order[i] && next == (i + 1) % |order|
  {
    i :| FirstInTurn(Marks(order, eligible), cursor, i) && i < |order| && task == order[i] && next == (i + 1) % |order|;
  }

  method LeastOf(eligible: seq<string>) returns (task: string)
    requires eligible != []
    ensures Least(eligible, task)
  {
    task := eligible[0];
    TextIrreflexive(task);
    var i := 1;
    while i < |eligible|
      invariant 1 <= i <= |eligible| && task in eligible
      invariant forall k :: 0 <= k < i ==> !TextLess(eligible[k], task)
    {
      if TextLess(eligible[i], task) {
        forall k | 0 <= k < i ensures !TextLess(eligible[k], eligible[i]) {
          if TextLess(eligible[k], eligible[i]) { TextTransitive(eligible[k], eligible[i], task); }
        }
        TextIrreflexive(eligible[i]);
        task := eligible[i];
      }
      i := i + 1;
    }
  }

  class UniformPolicy {
    const order: seq<string>
    var cursor: nat
    var decisions: seq<string>

    ghost predicate Valid()
      reads this
    {
      order == [] || cursor < |order|
    }

    constructor (order: seq<string>)
      ensures Valid() && this.order == order && cursor == 0 && decisions == []
    {
      this.order, cursor, decisions := order, 0, [];
    }

    method Select(eligible: seq<string>) returns (task: string)
      requires Valid()
      modifies this`cursor
      ensures Valid() && Selection(order, old(cursor), eligible, task, cursor)
    {
      if eligible == [] {
        return "";
      }
      if order == [] {
        task := LeastOf(eligible);
        return;
      }
      var found := ScanFrom(Marks(order, eligible), cursor);
      if found.Some? {
        ghost var i := found.value;
        assert FirstInTurn(Marks(order, eligible), cursor, i) && order[i] in eligible;
        cursor := (found.value + 1) % |order|;
        return order[found.value];
      }
      assert forall i :: 0 <= i < |order| ==> Marks(order, eligible)[i] == (order[i] in eligible);
      task := LeastOf(eligible);
    }

    method Choose(eligible: seq<string>) returns (task: string)
      requires Valid()
      modifies this`cursor, this`decisions
      ensures Valid() && Selection(order, old(cursor), eligible, task, cursor)
      ensures decisions == old(decisions) + [task]
    {
      task := Select(eligible);
      decisions := decisions + [task];
    }
  }

  // ---------------------------------------------------------------------
  // Bounded fairness
  // ---------------------------------------------------------------------

  /** A run of selections: cursors before each, picks in order. */
  ghost predicate Run(order: seq<string>, rounds: seq<seq<string>>, cursors: seq<nat>, picks: seq<string>) {
    && |cursors| == |rounds| + 1 && |picks| == |rounds|
    && forall k :: 0 <= k < |rounds| ==> Selection(order, cursors[k], rounds[k], picks[k], cursors[k + 1])
  }

  lemma PassedOver(order: seq<string>, cursor: nat, eligible: seq<string>, task: string, next: nat, j: nat)
    requires j < |order| && cursor < |order| && order[j] in eligible
    requires Selection(order, cursor, eligible, task, next) && task != order[j]
    ensures next < |order| && Turn(|order|, next, j) < Turn(|order|, cursor, j)
  {
    var marks := Marks(order, eligible);
    assert marks[j];
    var i: nat :| FirstInTurn(marks, cursor, i) && i < |order| && task == order[i] && next == (i + 1) % |order|;
    TurnAfter(|order|, cursor, i, j);
  }

  /** A task that stays eligible is chosen within as many selections as places
      the cursor is away from it, whatever happens to the other tasks. */
  lemma {:induction false} ChosenInTurn(order: seq<string>, rounds: seq<seq<string>>, cursors: seq<nat>,
                                        picks: seq<string>, j: nat)
    requires Run(order, rounds, cursors, picks)
    requires j < |order| && cursors[0] < |order| && |rounds| > Turn(|order|, cursors[0], j)
    requires forall k :: 0 <= k <= Turn(|order|, cursors[0], j) ==> order[j] in rounds[k]
    ensures exists k :: 0 <= k <= Turn(|order|, cursors[0], j) && picks[k] == order[j]
    decreases |rounds|
  {
    if picks[0] != order[j] {
      PassedOver(order, cursors[0], rounds[0], picks[0], cursors[1], j);
      var rest := picks[1..];
      ChosenInTurn(order, rounds[1..], cursors[1..], rest, j);
      var k :| 0 <= k <= Turn(|order|, cursors[1], j) && rest[k] == order[j];
      assert picks[k + 1] == order[j];
    }
  }

  /** In any `|order|` consecutive selections, a task of the order that is
      eligible throughout is chosen at least once. */
  lemma BoundedFairness(order: seq<string>, rounds: seq<seq<string>>, cursors: seq<nat>, picks: seq<string>,
                        task: string)
    requires Run(order, rounds, cursors, picks) && task in order && cursors[0] < |order|
    requires |rounds| == |order| && forall k :: 0 <= k < |rounds| ==> task in rounds[k]
    ensures task in picks
  {
    var j :| 0 <= j < |order| && order[j] == task;
    ChosenInTurn(order, rounds, cursors, picks, j);
  }

  // ---------------------------------------------------------------------
  // The formula policy's tie rank
  // ---------------------------------------------------------------------

  function IndexOf(order: seq<string>, task: string): (i: nat)
    ensures i <= |order|
    ensures i < |order| ==> order[i] == task && forall k :: 0 <= k < i ==> order[k] != task
    ensures i == |order| ==> task !in order
  {
    if order == [] || order[0] == task then 0 else 1 + IndexOf(order[1..], task)
  }

  /** How far the cursor is from a task, ids outside the order coming last. */
  function TieRank(order: seq<string>, cursor: nat, task: string): nat
    requires order == [] || cursor < |order|
  {
    var i := IndexOf(order, task);
    if i == |order| then |order| else Turn(|order|, cursor, i)
  }

  datatype Scored = Scored(task: string, score: real)

  /** `a` is served before `b`: a higher score, or an equal one and a lower rank. */
  predicate Outranks(order: seq<string>, cursor: nat, a: Scored, b: Scored)
    requires order == [] || cursor < |order|
  {
    a.score > b.score || (a.score == b.score && TieRank(order, cursor, a.task) < TieRank(order, cursor, b.task))
  }

  class FormulaPolicy {
    const order: seq<string>
    var cursor: nat
    var decisions: seq<string>

    ghost predicate Valid()
      reads this
    {
      order == [] || cursor < |order|
    }

    constructor (order: seq<string>)
      ensures Valid() && this.order == order && cursor == 0 && decisions == []
    {
      this.order, cursor, decisions := order, 0, [];
    }

    /** Choose the highest score, ties in round-robin order. */
    method Choose(scored: seq<Scored>) returns (task: string)
      requires Valid()
      modifies this`cursor, this`decisions
      ensures Valid() && decisions == old(decisions) + [task]
      ensures scored == [] ==> task == "" && cursor == old(cursor)
      ensures scored != [] ==>
                && (exists k :: 0 <= k < |scored| && scored[k].task == task
                      && (forall j :: 0 <= j < |scored| ==> !Outranks(order, old(cursor), scored[j], scored[k]))
                      && (forall j :: 0 <= j < k ==> Outranks(order, old(cursor), scored[k], scored[j])))
                && cursor == if task in order then (IndexOf(order, task) + 1) % |order| else old(cursor)
    {
      task := "";
      if scored != [] {
        var k := BestOf(order, cursor, scored);
        task := scored[k].task;
        if task in order {
          cursor := (IndexOf(order, task) + 1) % |order|;
        }
      }
      decisions := decisions + [task];
    }
  }

  /** The first of the outranking rows, as `min` finds it. */
  method BestOf(order: seq<string>, cursor: nat, scored: seq<Scored>) returns (k: nat)
    requires scored != [] && (order == [] || cursor < |order|)
    ensures k < |scored| && forall j :: 0 <= j < |scored| ==> !Outranks(order, cursor, scored[j], scored[k])
    ensures forall j :: 0 <= j < k ==> Outranks(order, cursor, scored[k], scored[j])
  {
    k := 0;
    var i := 1;
    while i < |scored|
      invariant 1 <= i <= |scored| && k < i
      invariant forall j :: 0 <= j < i ==> !Outranks(order, cursor, scored[j], scored[k])
      invariant forall j :: 0 <= j < k ==> Outranks(order, cursor, scored[k], scored[j])
    {
      if Outranks(order, cursor, scored[i], scored[k]) {
        k := i;
      }
      i := i + 1;
    }
  }

  function TasksOf(scored: seq<Scored>): (tasks: seq<string>)
    ensures |tasks| == |scored| && forall i :: 0 <= i < |scored| ==> tasks[i] == scored[i].task
  {
    seq(|scored|, i requires 0 <= i < |scored| => scored[i].task)
  }

  lemma FirstIndex(order: seq<string>, i: nat)
    requires i < |order| && forall a, b :: 0 <= a < b < |order| ==> order[a] != order[b]
    ensures IndexOf(order, order[i]) == i
  {
    var k := IndexOf(order, order[i]);
    assert k <= i;
  }

  /** With equal scores the formula policy is the round robin: it serves what a
      uniform selection over the same tasks serves and moves the cursor alike. */
  lemma EqualScoresAreRoundRobin(order: seq<string>, cursor: nat, scored: seq<Scored>, k: nat, score: real)
    requires cursor < |order| && forall a, b :: 0 <= a < b < |order| ==> order[a] != order[b]
    requires k < |scored| && scored[k].task in order
    requires forall j :: 0 <= j < |scored| ==> scored[j].score == score && !Outranks(order, cursor, scored[j], scored[k])
    ensures Selection(order, cursor, TasksOf(scored), scored[k].task, (IndexOf(order, scored[k].task) + 1) % |order|)
  {
    var tasks, i := TasksOf(scored), IndexOf(order, scored[k].task);
    var marks := Marks(order, tasks);
    assert tasks[k] == scored[k].task && marks[i];
    forall j | 0 <= j < |order| && marks[j] ensures Turn(|order|, cursor, i) <= Turn(|order|, cursor, j) {
      var m :| 0 <= m < |tasks| && tasks[m] == order[j];
      FirstIndex(order, j);
      assert !Outranks(order, cursor, scored[m], scored[k]);
    }
    assert FirstInTurn(marks, cursor, i);
  }
}
