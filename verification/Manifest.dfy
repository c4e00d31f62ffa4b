/** Manifest inheritance: the memoised closure walk and the path-recursive merge. */
module Manifest {
  import opened Options

  /** A parsed table, or any other value. */
  datatype Json = Leaf(value: string) | Table(entries: map<string, Json>)

  /** A readable file: a manifest with its parents resolved in order, or a fault. */
  datatype File = Manifest(parents: seq<string>, payload: Json) | InvalidToml | BadExtends

  /** The files that exist, by resolved path. */
  type Tree = map<string, File>

  datatype Fault = Cycle(path: string) | NotFound(path: string) | Invalid(path: string) | BadParents(path: string)

  datatype Outcome<+T> = Done(value: T) | Failed(fault: Fault)

  // ---------------------------------------------------------------------
  // Deep merge
  // ---------------------------------------------------------------------

  function Merge(base: Json, update: Json): Json
    decreases update
  {
    if base.Table? && update.Table? then
      Table(map k | k in base.entries.Keys + update.entries.Keys ::
              if k !in update.entries then base.entries[k]
              else if k in base.entries then Merge(base.entries[k], update.entries[k])
              else update.entries[k])
    else update
  }

  /** Merge the entries of one table over another. */
  method DeepMerge(base: Json, update: Json) returns (result: Json)
    requires base.Table? && update.Table?
    ensures result == Merge(base, update)
    decreases update
  {
    var entries := base.entries;
    var rest := update.entries.Keys;
    while rest != {}
      invariant rest <= update.entries.Keys
      invariant entries.Keys == base.entries.Keys + (update.entries.Keys - rest)
      invariant forall k :: k in entries ==>
                  (entries[k] == if k in rest || k !in update.entries then base.entries[k]
                                 else Merge(base, update).entries[k])
      decreases rest
    {
      var k :| k in rest;
      var value := update.entries[k];
      if value.Table? && k in entries && entries[k].Table? {
        value := DeepMerge(entries[k], value);
      }
      entries := entries[k := value];
      rest := rest - {k};
    }
    assert entries == Merge(base, update).entries;
    return Table(entries);
  }

  datatype Probe = Found(value: Json) | Absent | Blocked

  /** Follow a key path; `Blocked` when a plain value stands in the way. */
  function Lookup(j: Json, path: seq<string>): Probe
    decreases |path|
  {
    if path == [] then Found(j)
    else if !j.Table? then Blocked
    else if path[0] !in j.entries then Absent
    else Lookup(j.entries[path[0]], path[1..])
  }

  /** What a merged table answers at any key path: the update wins where it has
      a value, tables merge, and the base shows through where it has nothing. */
  lemma {:induction false} LookupMerged(base: Json, update: Json, path: seq<string>)
    requires base.Table? && update.Table?
    ensures match Lookup(update, path)
            case Found(v) =>
              Lookup(Merge(base, update), path)
              == Found(if v.Table? && Lookup(base, path).Found? && Lookup(base, path).value.Table?
                       then Merge(Lookup(base, path).value, v) else v)
            case Absent =>
              Lookup(Merge(base, update), path) == if Lookup(base, path).Blocked? && !BlocksFirst(base, update, path)
                                                   then Absent else Lookup(base, path)
            case Blocked => Lookup(Merge(base, update), path) == Blocked
    decreases |path|
  {
    if path != [] {
      var k := path[0];
      if k in base.entries && k in update.entries && base.entries[k].Table? && update.entries[k].Table? {
        LookupMerged(base.entries[k], update.entries[k], path[1..]);
      }
    }
  }

  /** A plain value of the base blocks the path beyond where the update has gone. */
  predicate BlocksFirst(base: Json, update: Json, path: seq<string>)
    decreases |path|
  {
    && path != [] && base.Table? && update.Table?
    && path[0] in base.entries
    && (path[0] !in update.entries || BlocksFirst(base.entries[path[0]], update.entries[path[0]], path[1..]))
  }

  // ---------------------------------------------------------------------
  // The path-recursive merge
  // ---------------------------------------------------------------------

  lemma FewerLeft(keys: set<string>, seen: set<string>, p: string)
    requires p in keys && p !in seen
    ensures |keys - (seen + {p})| < |keys - seen|
  {
    assert keys - seen == (keys - (seen + {p})) + {p};
  }

  /** Load a manifest: its parents merged in order, then its own entries. */
  function Load(tree: Tree, p: string, seen: set<string>): Outcome<Json>
    decreases |tree.Keys - seen|, 0
  {
    if p in seen then Failed(Cycle(p))
    else if p !in tree then Failed(NotFound(p))
    else match tree[p]
         case InvalidToml => Failed(Invalid(p))
         case BadExtends => Failed(BadParents(p))
         case Manifest(parents, payload) =>
           FewerLeft(tree.Keys, seen, p);
           match LoadAll(tree, parents, seen + {p})
           case Failed(f) => Failed(f)
           case Done(merged) => Done(Merge(merged, payload))
  }

  function LoadAll(tree: Tree, parents: seq<string>, seen: set<string>): Outcome<Json>
    decreases |tree.Keys - seen|, |parents| + 1
  {
    if parents == [] then Done(Table(map[]))
    else match LoadAll(tree, parents[..|parents|-1], seen)
         case Failed(f) => Failed(f)
         case Done(merged) =>
           match Load(tree, parents[|parents|-1], seen)
           case Failed(f) => Failed(f)
           case Done(j) => Done(Merge(merged, j))
  }

  predicate AllTables(tree: Tree) {
    forall p :: p in tree && tree[p].Manifest? ==> tree[p].payload.Table?
  }

  /** What was loaded below some path is what is loaded on its own. */
  lemma {:induction false} LoadIgnoresPath(tree: Tree, p: string, seen: set<string>, fewer: set<string>)
    requires fewer <= seen && Load(tree, p, seen).Done?
    ensures Load(tree, p, fewer) == Load(tree, p, seen)
    decreases |tree.Keys - seen|, 0
  {
    FewerLeft(tree.Keys, seen, p);
    AllLoadIgnorePath(tree, tree[p].parents, seen + {p}, fewer + {p});
  }

  lemma {:induction false} AllLoadIgnorePath(tree: Tree, parents: seq<string>, seen: set<string>, fewer: set<string>)
    requires fewer <= seen && LoadAll(tree, parents, seen).Done?
    ensures LoadAll(tree, parents, fewer) == LoadAll(tree, parents, seen)
    decreases |tree.Keys - seen|, |parents| + 1
  {
    if parents != [] {
      AllLoadIgnorePath(tree, parents[..|parents|-1], seen, fewer);
      LoadIgnoresPath(tree, parents[|parents|-1], seen, fewer);
    }
  }

  /** What the parents, in order, answer at a key path. */
  function Inherited(tree: Tree, parents: seq<string>, path: seq<string>): Probe {
    if LoadAll(tree, parents, {}).Done? then Lookup(LoadAll(tree, parents, {}).value, path) else Absent
  }

  /** What one manifest, with all it inherits, answers at a key path. */
  function Answers(tree: Tree, p: string, path: seq<string>): Probe {
    if Load(tree, p, {}).Done? then Lookup(Load(tree, p, {}).value, path) else Absent
  }

  lemma {:induction false} LoadedTables(tree: Tree, parents: seq<string>)
    requires AllTables(tree) && LoadAll(tree, parents, {}).Done?
    ensures LoadAll(tree, parents, {}).value.Table?
    ensures forall k :: 0 <= k < |parents| ==> Load(tree, parents[k], {}).Done? && Load(tree, parents[k], {}).value.Table?
    decreases |parents|
  {
    if parents != [] {
      LoadedTables(tree, parents[..|parents|-1]);
      assert forall k :: 0 <= k < |parents| - 1 ==> parents[..|parents|-1][k] == parents[k];
      OneLoadedTable(tree, parents[|parents|-1]);
    }
  }

  lemma OneLoadedTable(tree: Tree, p: string)
    requires AllTables(tree) && Load(tree, p, {}).Done?
    ensures p in tree && tree[p].Manifest? && Load(tree, p, {}).value.Table?
  {
    assert {} + {p} == {p};
    LoadAllIsTable(tree, tree[p].parents, {p});
  }

  lemma {:induction false} LoadAllIsTable(tree: Tree, parents: seq<string>, seen: set<string>)
    requires AllTables(tree) && LoadAll(tree, parents, seen).Done?
    ensures LoadAll(tree, parents, seen).value.Table?
    decreases |tree.Keys - seen|, |parents|
  {
    if parents != [] {
      var p := parents[|parents|-1];
      LoadAllIsTable(tree, parents[..|parents|-1], seen);
      FewerLeft(tree.Keys, seen, p);
      LoadAllIsTable(tree, tree[p].parents, seen + {p});
    }
  }

  /** Somewhere on the way the base has a plain value where the update has an entry. */
  ghost predicate Displaced(base: Json, update: Json, path: seq<string>) {
    exists k :: 0 < k < |path| && PlainAt(base, path[..k]) && Lookup(update, path[..k]).Found?
  }

  predicate PlainAt(j: Json, path: seq<string>) {
    Lookup(j, path).Found? && Lookup(j, path).value.Leaf?
  }

  lemma {:induction false} DisplacedExactly(base: Json, update: Json, path: seq<string>)
    requires base.Table? && update.Table? && Lookup(base, path) == Blocked && Lookup(update, path) == Absent
    ensures BlocksFirst(base, update, path) <==> !Displaced(base, update, path)
    decreases |path|
  {
    var k, rest := path[0], path[1..];
    var b := base.entries[k];
    assert path[..1][0] == k && path[..1][1..] == [];
    assert Lookup(base, path[..1]) == Lookup(b, []) == Found(b);
    if k in update.entries { assert Lookup(update, path[..1]) == Lookup(update.entries[k], []) == Found(update.entries[k]); }
    forall i | 0 < i < |path| ensures path[..i][0] == k && path[..i][1..] == rest[..i - 1] {}
    if b.Leaf? {
      if k in update.entries { assert PlainAt(base, path[..1]) && Lookup(update, path[..1]).Found?; }
    } else if k in update.entries {
      DisplacedExactly(b, update.entries[k], rest);
      if Displaced(b, update.entries[k], rest) {
        var i :| 0 < i < |rest| && PlainAt(b, rest[..i]) && Lookup(update.entries[k], rest[..i]).Found?;
        assert path[..i + 1][1..] == rest[..i];
        assert PlainAt(base, path[..i + 1]) && Lookup(update, path[..i + 1]).Found?;
      }
      if Displaced(base, update, path) {
        var i :| 0 < i < |path| && PlainAt(base, path[..i]) && Lookup(update, path[..i]).Found?;
        assert i > 1 && PlainAt(b, rest[..i - 1]) && Lookup(update.entries[k], rest[..i - 1]).Found?;
      }
    }
  }

  /** Which value a manifest's own entries give it: a plain value of its own is
      the loaded one, a table of its own is merged over what it inherits, and where
      it has nothing the inherited answer shows, unless a table of its own took
      the place of the plain value that blocked it. */
  lemma OwnEntriesWin(tree: Tree, p: string, path: seq<string>)
    requires AllTables(tree) && Load(tree, p, {}).Done?
    ensures p in tree && tree[p].Manifest? && LoadAll(tree, tree[p].parents, {}).Done?
    ensures var inherited := Inherited(tree, tree[p].parents, path);
            match Lookup(tree[p].payload, path)
            case Found(v) =>
              Answers(tree, p, path)
              == Found(if v.Table? && inherited.Found? && inherited.value.Table? then Merge(inherited.value, v) else v)
            case Absent =>
              Answers(tree, p, path)
              == if inherited == Blocked && Displaced(LoadAll(tree, tree[p].parents, {}).value, tree[p].payload, path)
                 then Absent else inherited
            case Blocked => Answers(tree, p, path) == Blocked
  {
    OneLoadedTable(tree, p);
    var parents, payload := tree[p].parents, tree[p].payload;
    assert {} + {p} == {p};
    AllLoadIgnorePath(tree, parents, {p}, {});
    LoadAllIsTable(tree, parents, {});
    var merged := LoadAll(tree, parents, {}).value;
    LookupMerged(merged, payload, path);
    if Lookup(payload, path) == Absent && Lookup(merged, path) == Blocked {
      DisplacedExactly(merged, payload, path);
    }
  }

  /** Among parents the last one that answers with a plain value decides, however
      the earlier ones answer; where none of them has anything neither has the merge. */
  lemma {:induction false} LaterParentsWin(tree: Tree, parents: seq<string>, path: seq<string>, i: nat)
    requires AllTables(tree) && LoadAll(tree, parents, {}).Done? && path != [] && i <= |parents|
    requires forall k :: i <= k < |parents| ==> Answers(tree, parents[k], path) == Absent
    ensures i == 0 ==> Inherited(tree, parents, path) == Absent
    ensures i > 0 && Answers(tree, parents[i - 1], path).Found? && Answers(tree, parents[i - 1], path).value.Leaf? ==>
              Inherited(tree, parents, path) == Answers(tree, parents[i - 1], path)
    decreases |parents|
  {
    if parents != [] {
      var n := |parents| - 1;
      LoadedTables(tree, parents[..n]);
      OneLoadedTable(tree, parents[n]);
      LookupMerged(LoadAll(tree, parents[..n], {}).value, Load(tree, parents[n], {}).value, path);
      if i <= n {
        assert forall k :: 0 <= k < n ==> parents[..n][k] == parents[k];
        LaterParentsWin(tree, parents[..n], path, i);
      }
    }
  }

  /** A child's plain value overrides whatever its parents say. */
  lemma ChildOverridesParents(tree: Tree, p: string, path: seq<string>, v: string)
    requires AllTables(tree) && Load(tree, p, {}).Done? && path != []
    requires p in tree && tree[p].Manifest? && Lookup(tree[p].payload, path) == Found(Leaf(v))
    ensures Lookup(Load(tree, p, {}).value, path) == Found(Leaf(v))
  {
    OwnEntriesWin(tree, p, path);
  }

  // ---------------------------------------------------------------------
  // The memoised walk
  // ---------------------------------------------------------------------

  datatype Walk = Walk(ordered: seq<string>, visited: set<string>, active: set<string>)

  function Visit(tree: Tree, w: Walk, p: string): (out: Outcome<Walk>)
    ensures out.Done? ==> out.value.active == w.active
    decreases |tree.Keys - w.active|, 0
  {
    if p in w.active then Failed(Cycle(p))
    else if p in w.visited then Done(w)
    else if p !in tree then Failed(NotFound(p))
    else match tree[p]
         case InvalidToml => Failed(Invalid(p))
         case BadExtends => Failed(BadParents(p))
         case Manifest(parents, _) =>
           FewerLeft(tree.Keys, w.active, p);
           match VisitAll(tree, w.(active := w.active + {p}), parents)
           case Failed(f) => Failed(f)
           case Done(v) => Done(Walk(v.ordered + [p], v.visited + {p}, v.active - {p}))
  }

  function VisitAll(tree: Tree, w: Walk, parents: seq<string>): (out: Outcome<Walk>)
    ensures out.Done? ==> out.value.active == w.active
    decreases |tree.Keys - w.active|, |parents| + 1
  {
    if parents == [] then Done(w)
    else match VisitAll(tree, w, parents[..|parents|-1])
         case Failed(f) => Failed(f)
         case Done(v) => Visit(tree, v, parents[|parents|-1])
  }

  const START := Walk([], {}, {})

  /** The inheritance closure of a manifest, parents before children. */
  function Sources(tree: Tree, root: string): Outcome<seq<string>> {
    match Visit(tree, START, root)
    case Failed(f) => Failed(f)
    case Done(w) => Done(w.ordered)
  }

  // ---------------------------------------------------------------------
  // The two walks agree
  // ---------------------------------------------------------------------

  /** Every listed file is a manifest whose parents are listed before it. */
  ghost predicate ParentsFirst(tree: Tree, ordered: seq<string>) {
    forall i :: 0 <= i < |ordered| ==>
      && ordered[i] in tree && tree[ordered[i]].Manifest?
      && forall q :: q in tree[ordered[i]].parents ==> q in ordered[..i]
  }

  ghost predicate WalkOk(tree: Tree, w: Walk) {
    && (forall p :: p in w.visited <==> p in w.ordered)
    && (forall i, j :: 0 <= i < j < |w.ordered| ==> w.ordered[i] != w.ordered[j])
    && w.active !! w.visited
    && ParentsFirst(tree, w.ordered)
  }

  /** A listed file loads, whatever unlisted files are on the path. */
  lemma {:induction false} ListedLoads(tree: Tree, ordered: seq<string>, i: nat, seen: set<string>)
    requires ParentsFirst(tree, ordered) && i < |ordered|
    requires forall k :: 0 <= k <= i ==> ordered[k] !in seen
    requires forall j, k :: 0 <= j < k < |ordered| ==> ordered[j] != ordered[k]
    ensures Load(tree, ordered[i], seen).Done?
    decreases i, 1, 0
  {
    var p := ordered[i];
    AllListedLoad(tree, ordered, i, tree[p].parents, seen + {p});
  }

  lemma {:induction false} AllListedLoad(tree: Tree, ordered: seq<string>, i: nat, parents: seq<string>, seen: set<string>)
    requires ParentsFirst(tree, ordered) && i < |ordered|
    requires forall k :: 0 <= k < i ==> ordered[k] !in seen
    requires forall j, k :: 0 <= j < k < |ordered| ==> ordered[j] != ordered[k]
    requires forall q :: q in parents ==> q in ordered[..i]
    ensures LoadAll(tree, parents, seen).Done?
    decreases i, 0, |parents|
  {
    if parents != [] {
      AllListedLoad(tree, ordered, i, parents[..|parents|-1], seen);
      var q := parents[|parents|-1];
      assert q in parents;
      var k :| 0 <= k < i && ordered[k] == q;
      ListedLoads(tree, ordered, k, seen);
    }
  }

  predicate Extends(v: Walk, w: Walk) {
    w.ordered <= v.ordered && w.visited <= v.visited
  }

  lemma Listed(tree: Tree, w: Walk, p: string, parents: seq<string>)
    requires WalkOk(tree, w) && p !in w.visited
    requires p in tree && tree[p].Manifest? && tree[p].parents == parents
    requires forall q :: q in parents ==> q in w.visited
    ensures WalkOk(tree, Walk(w.ordered + [p], w.visited + {p}, w.active - {p}))
  {
    var longer := w.ordered + [p];
    forall i | 0 <= i < |longer|
      ensures longer[i] in tree && tree[longer[i]].Manifest?
              && forall q :: q in tree[longer[i]].parents ==> q in longer[..i]
    {
      assert longer[..|w.ordered|] == w.ordered;
      if i < |w.ordered| { assert longer[..i] == w.ordered[..i]; }
    }
  }

  /** The memoised walk succeeds exactly where the path-recursive merge does,
      and fails with the same fault. */
  lemma {:induction false} VisitMatchesLoad(tree: Tree, w: Walk, p: string)
    requires WalkOk(tree, w)
    ensures match Visit(tree, w, p)
            case Failed(f) => Load(tree, p, w.active) == Failed(f)
            case Done(v) =>
              Load(tree, p, w.active).Done? && WalkOk(tree, v) && p in v.visited && Extends(v, w)
    decreases |tree.Keys - w.active|, 0
  {
    if p !in w.active && p in w.visited {
      var i :| 0 <= i < |w.ordered| && w.ordered[i] == p;
      assert forall k :: 0 <= k <= i ==> w.ordered[k] in w.visited;
      ListedLoads(tree, w.ordered, i, w.active);
    } else if p !in w.active && p in tree && tree[p].Manifest? {
      FewerLeft(tree.Keys, w.active, p);
      var inside := w.(active := w.active + {p});
      AllMatchLoad(tree, inside, tree[p].parents);
      var walked := VisitAll(tree, inside, tree[p].parents);
      if walked.Done? {
        Listed(tree, walked.value, p, tree[p].parents);
      }
    }
  }

  lemma {:induction false} AllMatchLoad(tree: Tree, w: Walk, parents: seq<string>)
    requires WalkOk(tree, w)
    ensures match VisitAll(tree, w, parents)
            case Failed(f) => LoadAll(tree, parents, w.active) == Failed(f)
            case Done(v) =>
              && LoadAll(tree, parents, w.active).Done? && WalkOk(tree, v) && Extends(v, w)
              && forall q :: q in parents ==> q in v.visited
    decreases |tree.Keys - w.active|, |parents| + 1
  {
    if parents != [] {
      var front, last := parents[..|parents|-1], parents[|parents|-1];
      AllMatchLoad(tree, w, front);
      assert parents == front + [last];
      var walked := VisitAll(tree, w, front);
      if walked.Done? {
        VisitMatchesLoad(tree, walked.value, last);
      }
    }
  }

  // ---------------------------------------------------------------------
  // The closure
  // ---------------------------------------------------------------------

  predicate IsParent(tree: Tree, q: string, p: string) {
    p in tree && tree[p].Manifest? && q in tree[p].parents
  }

  /** A chain of parent links from the root. */
  ghost predicate Chain(tree: Tree, root: string, links: seq<string>) {
    && links != [] && links[0] == root
    && forall i :: 0 < i < |links| ==> IsParent(tree, links[i], links[i - 1])
  }

  ghost predicate Reaches(tree: Tree, root: string, p: string) {
    exists links :: Chain(tree, root, links) && links[|links|-1] == p
  }

  lemma ReachesParent(tree: Tree, root: string, p: string, q: string)
    requires Reaches(tree, root, p) && IsParent(tree, q, p)
    ensures Reaches(tree, root, q)
  {
    var links :| Chain(tree, root, links) && links[|links|-1] == p;
    var longer := links + [q];
    assert Chain(tree, root, longer) && longer[|longer|-1] == q;
  }

  /** Everything a visit adds is reachable. */
  lemma {:induction false} VisitAddsReachable(tree: Tree, root: string, w: Walk, p: string)
    requires Reaches(tree, root, p) && Visit(tree, w, p).Done?
    ensures forall x :: x in Visit(tree, w, p).value.ordered ==> x in w.ordered || Reaches(tree, root, x)
    decreases |tree.Keys - w.active|, 0
  {
    if p !in w.visited {
      FewerLeft(tree.Keys, w.active, p);
      forall q | q in tree[p].parents ensures Reaches(tree, root, q) {
        ReachesParent(tree, root, p, q);
      }
      AllAddReachable(tree, root, w.(active := w.active + {p}), tree[p].parents);
    }
  }

  lemma {:induction false} AllAddReachable(tree: Tree, root: string, w: Walk, parents: seq<string>)
    requires VisitAll(tree, w, parents).Done? && forall q :: q in parents ==> Reaches(tree, root, q)
    ensures forall x :: x in VisitAll(tree, w, parents).value.ordered ==> x in w.ordered || Reaches(tree, root, x)
    decreases |tree.Keys - w.active|, |parents| + 1
  {
    if parents != [] {
      AllAddReachable(tree, root, w, parents[..|parents|-1]);
      var v := VisitAll(tree, w, parents[..|parents|-1]).value;
      VisitAddsReachable(tree, root, v, parents[|parents|-1]);
    }
  }

  lemma {:induction false} ChainListed(tree: Tree, ordered: seq<string>, root: string, links: seq<string>)
    requires ParentsFirst(tree, ordered) && root in ordered && Chain(tree, root, links)
    ensures links[|links|-1] in ordered
  {
    if |links| > 1 {
      var front := links[..|links|-1];
      assert Chain(tree, root, front);
      ChainListed(tree, ordered, root, front);
      var i :| 0 <= i < |ordered| && ordered[i] == front[|front|-1];
      assert IsParent(tree, links[|links|-1], links[|links|-2]);
      assert links[|links|-1] in ordered[..i];
    }
  }

  /** The closure lists each reachable file exactly once, every parent before
      its children, the root last. */
  lemma SourcesAreTheClosure(tree: Tree, root: string)
    requires Sources(tree, root).Done?
    ensures var ordered := Sources(tree, root).value;
            && (forall i, j :: 0 <= i < j < |ordered| ==> ordered[i] != ordered[j])
            && ParentsFirst(tree, ordered)
            && (forall p :: p in ordered <==> Reaches(tree, root, p))
            && ordered != [] && ordered[|ordered|-1] == root
  {
    VisitMatchesLoad(tree, START, root);
    var ordered := Sources(tree, root).value;
    assert Chain(tree, root, [root]) && Reaches(tree, root, root);
    VisitAddsReachable(tree, root, START, root);
    forall p | Reaches(tree, root, p) ensures p in ordered {
      var links :| Chain(tree, root, links) && links[|links|-1] == p;
      ChainListed(tree, ordered, root, links);
    }
  }

  /** The closure walk and the merge accept the same trees and report the same fault. */
  lemma SameFaults(tree: Tree, root: string)
    ensures Sources(tree, root).Done? <==> Load(tree, root, {}).Done?
    ensures Sources(tree, root).Failed? ==> Load(tree, root, {}) == Failed(Sources(tree, root).fault)
  {
    VisitMatchesLoad(tree, START, root);
  }

  // ---------------------------------------------------------------------
  // The closure covers what the merge reads
  // ---------------------------------------------------------------------

  ghost predicate AgreeOn(s: Tree, t: Tree, files: seq<string>) {
    forall p :: p in files ==> p in s && p in t && s[p] == t[p]
  }

  lemma {:induction false} LoadAgrees(s: Tree, t: Tree, ordered: seq<string>, i: nat, seen: set<string>, seen': set<string>)
    requires ParentsFirst(s, ordered) && AgreeOn(s, t, ordered) && i < |ordered|
    requires forall k :: 0 <= k <= i ==> ordered[k] !in seen && ordered[k] !in seen'
    requires forall j, k :: 0 <= j < k < |ordered| ==> ordered[j] != ordered[k]
    ensures Load(s, ordered[i], seen) == Load(t, ordered[i], seen')
    decreases i, 1, 0
  {
    var p := ordered[i];
    assert p in ordered;
    AllLoadAgree(s, t, ordered, i, s[p].parents, seen + {p}, seen' + {p});
  }

  lemma {:induction false} AllLoadAgree(s: Tree, t: Tree, ordered: seq<string>, i: nat, parents: seq<string>,
                                        seen: set<string>, seen': set<string>)
    requires ParentsFirst(s, ordered) && AgreeOn(s, t, ordered) && i < |ordered|
    requires forall k :: 0 <= k < i ==> ordered[k] !in seen && ordered[k] !in seen'
    requires forall j, k :: 0 <= j < k < |ordered| ==> ordered[j] != ordered[k]
    requires forall q :: q in parents ==> q in ordered[..i]
    ensures LoadAll(s, parents, seen) == LoadAll(t, parents, seen')
    decreases i, 0, |parents|
  {
    if parents != [] {
      AllLoadAgree(s, t, ordered, i, parents[..|parents|-1], seen, seen');
      var q := parents[|parents|-1];
      assert q in parents;
      var k :| 0 <= k < i && ordered[k] == q;
      LoadAgrees(s, t, ordered, k, seen, seen');
    }
  }

  lemma {:induction false} VisitAgrees(s: Tree, t: Tree, files: seq<string>, w: Walk, p: string)
    requires AgreeOn(s, t, files) && p in files
    requires forall x, q :: x in files && IsParent(s, q, x) ==> q in files
    ensures Visit(s, w, p) == Visit(t, w, p)
    decreases |s.Keys - w.active|, 0
  {
    if p !in w.active && p !in w.visited && s[p].Manifest? {
      FewerLeft(s.Keys, w.active, p);
      forall q | q in s[p].parents ensures q in files { assert IsParent(s, q, p); }
      AllVisitAgree(s, t, files, w.(active := w.active + {p}), s[p].parents);
    }
  }

  lemma {:induction false} AllVisitAgree(s: Tree, t: Tree, files: seq<string>, w: Walk, parents: seq<string>)
    requires AgreeOn(s, t, files) && forall q :: q in parents ==> q in files
    requires forall x, q :: x in files && IsParent(s, q, x) ==> q in files
    ensures VisitAll(s, w, parents) == VisitAll(t, w, parents)
    decreases |s.Keys - w.active|, |parents| + 1
  {
    if parents != [] {
      AllVisitAgree(s, t, files, w, parents[..|parents|-1]);
      if VisitAll(s, w, parents[..|parents|-1]).Done? {
        VisitAgrees(s, t, files, VisitAll(s, w, parents[..|parents|-1]).value, parents[|parents|-1]);
      }
    }
  }

  /** A tree that agrees with another on its closure has the same closure and
      loads the same merged manifest: hashing the closure covers everything the
      merge reads. */
  lemma ClosureDeterminesManifest(s: Tree, t: Tree, root: string)
    requires Sources(s, root).Done? && AgreeOn(s, t, Sources(s, root).value)
    ensures Sources(t, root) == Sources(s, root) && Load(t, root, {}) == Load(s, root, {})
  {
    SourcesAreTheClosure(s, root);
    var ordered := Sources(s, root).value;
    LoadAgrees(s, t, ordered, |ordered| - 1, {}, {});
    forall x, q | x in ordered && IsParent(s, q, x) ensures q in ordered {
      ReachesParent(s, root, x, q);
    }
    VisitAgrees(s, t, ordered, START, root);
  }

  // ---------------------------------------------------------------------
  // The walks as written
  // ---------------------------------------------------------------------

  class ClosureWalk {
    var ordered: seq<string>
    var visited: set<string>
    var active: set<string>

    function View(): Walk
      reads this
    {
      Walk(ordered, visited, active)
    }

    constructor ()
      ensures View() == START
    {
      ordered, visited, active := [], {}, {};
    }

    /** Visit one manifest after its parents; a fault leaves the walk unfinished. */
    method VisitFile(tree: Tree, p: string) returns (fault: Option<Fault>)
      modifies this
      ensures match Visit(tree, old(View()), p)
              case Failed(f) => fault == Some(f)
              case Done(w) => fault == None && View() == w
      decreases |tree.Keys - active|, 0
    {
      if p in active {
        return Some(Cycle(p));
      }
      if p in visited {
        return None;
      }
      if p !in tree {
        return Some(NotFound(p));
      }
      FewerLeft(tree.Keys, active, p);
      active := active + {p};
      match tree[p]
      case InvalidToml => return Some(Invalid(p));
      case BadExtends => return Some(BadParents(p));
      case Manifest(parents, _) =>
        fault := VisitParents(tree, parents);
        if fault.Some? {
          return;
        }
        active := active - {p};
        visited := visited + {p};
        ordered := ordered + [p];
    }

    /** Visit the parents in order, up to the first fault. */
    method VisitParents(tree: Tree, parents: seq<string>) returns (fault: Option<Fault>)
      modifies this
      ensures match VisitAll(tree, old(View()), parents)
              case Failed(f) => fault == Some(f)
              case Done(w) => fault == None && View() == w
      decreases |tree.Keys - active|, 1
    {
      ghost var inside := View();
      var i := 0;
      while i < |parents|
        invariant i <= |parents| && VisitAll(tree, inside, parents[..i]) == Done(View())
      {
        VisitNext(tree, inside, parents, i);
        fault := VisitFile(tree, parents[i]);
        if fault.Some? {
          return;
        }
        i := i + 1;
      }
      assert parents[..i] == parents;
      return None;
    }
  }

  lemma {:induction false} VisitPrefixFails(tree: Tree, w: Walk, parents: seq<string>, k: nat)
    requires k <= |parents|
    ensures VisitAll(tree, w, parents[..k]).Failed? ==> VisitAll(tree, w, parents) == VisitAll(tree, w, parents[..k])
  {
    if k == |parents| {
      assert parents[..k] == parents;
    } else {
      VisitPrefixFails(tree, w, parents[..|parents|-1], k);
      assert parents[..|parents|-1][..k] == parents[..k];
    }
  }

  /** One more parent: the walk goes on from where it stands, and a fault there
      is the fault of the whole. */
  lemma VisitNext(tree: Tree, w: Walk, parents: seq<string>, i: nat)
    requires i < |parents| && VisitAll(tree, w, parents[..i]).Done?
    ensures VisitAll(tree, w, parents[..i]).value.active == w.active
    ensures VisitAll(tree, w, parents[..i + 1]) == Visit(tree, VisitAll(tree, w, parents[..i]).value, parents[i])
    ensures VisitAll(tree, w, parents[..i + 1]).Failed? ==>
              VisitAll(tree, w, parents) == VisitAll(tree, w, parents[..i + 1])
  {
    assert parents[..i + 1][..i] == parents[..i];
    VisitPrefixFails(tree, w, parents, i + 1);
  }

  method ManifestSources(tree: Tree, root: string) returns (out: Outcome<seq<string>>)
    ensures out == Sources(tree, root)
  {
    var walk := new ClosureWalk();
    var fault := walk.VisitFile(tree, root);
    return if fault.Some? then Failed(fault.value) else Done(walk.ordered);
  }

  lemma {:induction false} LoadPrefixFails(tree: Tree, parents: seq<string>, seen: set<string>, k: nat)
    requires k <= |parents|
    ensures LoadAll(tree, parents[..k], seen).Failed? ==> LoadAll(tree, parents, seen) == LoadAll(tree, parents[..k], seen)
  {
    if k == |parents| {
      assert parents[..k] == parents;
    } else {
      LoadPrefixFails(tree, parents[..|parents|-1], seen, k);
      assert parents[..|parents|-1][..k] == parents[..k];
    }
  }

  /** Load one manifest by recursion over its parents, copying the path seen. */
  method LoadMapping(tree: Tree, p: string, seen: set<string>) returns (out: Outcome<Json>)
    requires AllTables(tree)
    ensures out == Load(tree, p, seen)
    ensures out.Done? ==> out.value.Table?
    decreases |tree.Keys - seen|, 0
  {
    if p in seen {
      return Failed(Cycle(p));
    }
    if p !in tree {
      return Failed(NotFound(p));
    }
    FewerLeft(tree.Keys, seen, p);
    match tree[p]
    case InvalidToml => return Failed(Invalid(p));
    case BadExtends => return Failed(BadParents(p));
    case Manifest(parents, payload) =>
      var loaded := LoadParents(tree, parents, seen + {p});
      if loaded.Failed? {
        return loaded;
      }
      var merged := DeepMerge(loaded.value, payload);
      return Done(merged);
  }

  /** Merge the parents in order, each loaded with its own copy of the path. */
  method LoadParents(tree: Tree, parents: seq<string>, seen: set<string>) returns (out: Outcome<Json>)
    requires AllTables(tree)
    ensures out == LoadAll(tree, parents, seen)
    ensures out.Done? ==> out.value.Table?
    decreases |tree.Keys - seen|, 1
  {
    var merged := Table(map[]);
    var i := 0;
    while i < |parents|
      invariant i <= |parents| && merged.Table?
      invariant LoadAll(tree, parents[..i], seen) == Done(merged)
    {
      assert parents[..i + 1][..i] == parents[..i];
      LoadPrefixFails(tree, parents, seen, i + 1);
      var one := LoadMapping(tree, parents[i], seen);
      if one.Failed? {
        return one;
      }
      merged := DeepMerge(merged, one.value);
      i := i + 1;
    }
    assert parents[..i] == parents;
    return Done(merged);
  }
}
