/** What the digest of a manifest closure is fed, and that it determines the
    merged manifest. */
module ManifestDigest {
  import opened Lexicographic
  import opened Manifest
  import opened Sequences

  type Byte = x | 0 <= x < 256

  /** The bytes of the files, by resolved path. */
  type Files = map<string, seq<Byte>>

  /** How a file's bytes read as a manifest, and how a path is written. */
  datatype Reader = Reader(parse: (string, seq<Byte>) -> File, encode: string -> seq<Byte>)

  /** Paths are written injectively and without NUL; TOML allows no NUL. */
  ghost predicate ReaderLaw(r: Reader) {
    && (forall p, q :: r.encode(p) == r.encode(q) ==> p == q)
    && (forall p :: '\0' !in p ==> 0 !in r.encode(p))
    && (forall p, bytes :: r.parse(p, bytes).Manifest? ==> 0 !in bytes)
  }

  function TreeOf(r: Reader, files: Files): Tree {
    map p | p in files :: r.parse(p, files[p])
  }

  // ---------------------------------------------------------------------
  // Sorting paths
  // ---------------------------------------------------------------------

  function InsertPath(paths: seq<string>, p: string): seq<string> {
    if paths == [] then [p]
    else if TextLess(p, paths[0]) then [p] + paths
    else [paths[0]] + InsertPath(paths[1..], p)
  }

  function SortPaths(paths: seq<string>): seq<string> {
    if paths == [] then [] else InsertPath(SortPaths(paths[..|paths|-1]), paths[|paths|-1])
  }

  ghost predicate Ascending(paths: seq<string>) {
    forall i, j :: 0 <= i < j < |paths| ==> TextLess(paths[i], paths[j])
  }

  lemma {:induction false} InsertPathSorts(paths: seq<string>, p: string)
    requires Ascending(paths) && p !in paths
    ensures Ascending(InsertPath(paths, p))
    ensures forall x :: x in InsertPath(paths, p) <==> x in paths || x == p
  {
    if paths != [] {
      TextTrichotomy(p, paths[0]);
      if TextLess(p, paths[0]) {
        forall x | x in paths[1..] ensures TextLess(p, x) { TextTransitive(p, paths[0], x); }
      } else {
        InsertPathSorts(paths[1..], p);
        assert forall x :: x in InsertPath(paths[1..], p) ==> TextLess(paths[0], x);
      }
    }
  }

  lemma {:induction false} SortPathsSorts(paths: seq<string>)
    requires Distinct(paths)
    ensures Ascending(SortPaths(paths)) && forall x :: x in SortPaths(paths) <==> x in paths
  {
    if paths != [] {
      var n := |paths| - 1;
      SortPathsSorts(paths[..n]);
      InsertPathSorts(SortPaths(paths[..n]), paths[n]);
      assert paths == paths[..n] + [paths[n]];
    }
  }

  lemma {:induction false} AscendingUnique(a: seq<string>, b: seq<string>)
    requires Ascending(a) && Ascending(b) && forall x :: x in a <==> x in b
    ensures a == b
  {
    EmptyTogether(a, b);
    if a != [] {
      assert a[0] in b && b[0] in a;
      LeastIsFirst(a, b[0]);
      LeastIsFirst(b, a[0]);
      if a[0] != b[0] {
        TextTransitive(a[0], b[0], a[0]);
        TextIrreflexive(a[0]);
      }
      forall x ensures x in a[1..] <==> x in b[1..] { TailHas(a, x); TailHas(b, x); }
      AscendingUnique(a[1..], b[1..]);
      assert a == [a[0]] + a[1..] && b == [b[0]] + b[1..];
    }
  }

  lemma EmptyTogether(a: seq<string>, b: seq<string>)
    requires forall x :: x in a <==> x in b
    ensures a == [] <==> b == []
  {
    if a != [] { assert a[0] in b; }
    if b != [] { assert b[0] in a; }
  }

  lemma LeastIsFirst(paths: seq<string>, x: string)
    requires Ascending(paths) && x in paths
    ensures x == paths[0] || TextLess(paths[0], x)
  {
  }

  lemma TailHas(paths: seq<string>, x: string)
    requires Ascending(paths) && paths != []
    ensures x in paths[1..] <==> x in paths && x != paths[0]
  {
    TextIrreflexive(paths[0]);
    assert paths == [paths[0]] + paths[1..];
  }

  // ---------------------------------------------------------------------
  // The feed
  // ---------------------------------------------------------------------

  /** The bytes fed for the paths in order: each path and each content, both
      followed by a NUL. */
  function Feed(r: Reader, files: Files, paths: seq<string>): seq<Byte>
    requires forall p :: p in paths ==> p in files
  {
    if paths == [] then []
    else Feed(r, files, paths[..|paths|-1]) + r.encode(paths[|paths|-1]) + [0] + files[paths[|paths|-1]] + [0]
  }

  /** The feed for a closure. */
  function DigestFeed(r: Reader, files: Files, closure: seq<string>): seq<Byte>
    requires Distinct(closure) && forall p :: p in closure ==> p in files
  {
    SortPathsSorts(closure);
    Feed(r, files, SortPaths(closure))
  }

  method FeedDigest(r: Reader, files: Files, closure: seq<string>) returns (fed: seq<Byte>)
    requires Distinct(closure) && forall p :: p in closure ==> p in files
    ensures fed == DigestFeed(r, files, closure)
  {
    SortPathsSorts(closure);
    var sorted := SortPaths(closure);
    fed := [];
    var i := 0;
    while i < |sorted|
      invariant i <= |sorted| && fed == Feed(r, files, sorted[..i])
    {
      assert sorted[..i + 1][..i] == sorted[..i];
      fed := fed + r.encode(sorted[i]);
      fed := fed + [0];
      fed := fed + files[sorted[i]];
      fed := fed + [0];
      i := i + 1;
    }
    assert sorted[..i] == sorted;
  }

  /** Every path is written, and every content is, without NUL. */
  ghost predicate NulFree(r: Reader, files: Files, paths: seq<string>)
    requires forall p :: p in paths ==> p in files
  {
    forall p :: p in paths ==> 0 !in r.encode(p) && 0 !in files[p]
  }

  /** The last NUL-terminated field of a text is determined by the text. */
  lemma LastFieldUnique(a: seq<Byte>, x: seq<Byte>, b: seq<Byte>, y: seq<Byte>)
    requires a + x + [0] == b + y + [0] && 0 !in x && 0 !in y
    requires (a == [] || a[|a|-1] == 0) && (b == [] || b[|b|-1] == 0)
    ensures a == b && x == y
  {
    var whole := a + x + [0];
    assert a + x == whole[..|whole|-1] == b + y;
    if |a| < |b| {
      FieldStops(a, x, b, y);
    } else if |b| < |a| {
      FieldStops(b, y, a, x);
    } else {
      assert a == (a + x)[..|a|] == b && x == (a + x)[|a|..] == y;
    }
  }

  lemma FieldStops(a: seq<Byte>, x: seq<Byte>, b: seq<Byte>, y: seq<Byte>)
    requires a + x == b + y && |a| < |b| && b[|b|-1] == 0
    ensures 0 in x
  {
    assert (a + x)[|b|-1] == (b + y)[|b|-1] == 0;
    assert x[|b|-1-|a|] == 0;
  }

  lemma FeedEndsInNul(r: Reader, files: Files, paths: seq<string>)
    requires forall p :: p in paths ==> p in files
    ensures var f := Feed(r, files, paths); (f == [] <==> paths == []) && (f != [] ==> f[|f|-1] == 0)
  {
  }

  /** Without NULs in paths and contents, the feed determines both. */
  lemma {:induction false} FeedIsInjective(r: Reader, s: Files, a: seq<string>, t: Files, b: seq<string>)
    requires ReaderLaw(r) && (forall p :: p in a ==> p in s) && (forall p :: p in b ==> p in t)
    requires NulFree(r, s, a) && NulFree(r, t, b) && Feed(r, s, a) == Feed(r, t, b)
    ensures a == b && forall p :: p in a ==> s[p] == t[p]
  {
    FeedEndsInNul(r, s, a);
    FeedEndsInNul(r, t, b);
    if a != [] && b != [] {
      var n, m := |a| - 1, |b| - 1;
      var p, q := a[n], b[m];
      var f, g := Feed(r, s, a[..n]), Feed(r, t, b[..m]);
      FeedEndsInNul(r, s, a[..n]);
      FeedEndsInNul(r, t, b[..m]);
      LastFieldUnique(f + r.encode(p) + [0], s[p], g + r.encode(q) + [0], t[q]);
      LastFieldUnique(f, r.encode(p), g, r.encode(q));
      FeedIsInjective(r, s, a[..n], t, b[..m]);
      assert a == a[..n] + [p] && b == b[..m] + [q];
    }
  }

  // ---------------------------------------------------------------------
  // The feed determines the manifest
  // ---------------------------------------------------------------------

  lemma ClosureIsReadable(r: Reader, files: Files, root: string)
    requires ReaderLaw(r) && Sources(TreeOf(r, files), root).Done? && forall p :: p in files ==> '\0' !in p
    ensures var closure := Sources(TreeOf(r, files), root).value;
            Distinct(closure) && (forall p :: p in closure ==> p in files) && NulFree(r, files, closure)
  {
    SourcesAreTheClosure(TreeOf(r, files), root);
    var closure := Sources(TreeOf(r, files), root).value;
    forall p | p in closure ensures p in files && 0 !in r.encode(p) && 0 !in files[p] {
      var i :| 0 <= i < |closure| && closure[i] == p;
      assert TreeOf(r, files)[p].Manifest?;
    }
  }

  /** In a closure whatever a file reaches is listed no later than the file. */
  lemma {:induction false} ChainGoesDown(tree: Tree, ordered: seq<string>, i: nat, links: seq<string>) returns (k: nat)
    requires ParentsFirst(tree, ordered) && i < |ordered| && Chain(tree, ordered[i], links)
    ensures k <= i && ordered[k] == links[|links|-1] && (|links| > 1 ==> k < i)
  {
    if |links| == 1 { return i; }
    var front := links[..|links|-1];
    assert Chain(tree, ordered[i], front);
    var j := ChainGoesDown(tree, ordered, i, front);
    assert IsParent(tree, links[|links|-1], links[|links|-2]);
    assert links[|links|-1] in ordered[..j];
    k :| 0 <= k < j && ordered[k] == links[|links|-1];
  }

  /** A closure has one root. */
  lemma RootIsDetermined(tree: Tree, a: string, b: string)
    requires Sources(tree, a).Done? && Sources(tree, b).Done?
    requires forall p :: p in Sources(tree, a).value <==> p in Sources(tree, b).value
    ensures a == b
  {
    SourcesAreTheClosure(tree, a);
    SourcesAreTheClosure(tree, b);
    var ordered := Sources(tree, a).value;
    assert b in Sources(tree, b).value && b in ordered && a in ordered;
    var i :| 0 <= i < |ordered| && ordered[i] == b;
    assert Reaches(tree, b, a);
    var links :| Chain(tree, b, links) && links[|links|-1] == a;
    var k := ChainGoesDown(tree, ordered, i, links);
  }

  /** Two launches whose digests are fed the same bytes start from the same
      manifest, inherit the same files and merge to the same result. */
  lemma FeedDeterminesManifest(r: Reader, s: Files, a: string, t: Files, b: string)
    requires ReaderLaw(r) && (forall p :: p in s || p in t ==> '\0' !in p)
    requires Sources(TreeOf(r, s), a).Done? && Sources(TreeOf(r, t), b).Done?
    requires FedFor(r, s, a) == FedFor(r, t, b)
    ensures a == b && Sources(TreeOf(r, s), a) == Sources(TreeOf(r, t), b)
    ensures Load(TreeOf(r, s), a, {}) == Load(TreeOf(r, t), b, {})
  {
    var x, y := Sources(TreeOf(r, s), a).value, Sources(TreeOf(r, t), b).value;
    ClosureIsReadable(r, s, a);
    ClosureIsReadable(r, t, b);
    SortPathsSorts(x);
    SortPathsSorts(y);
    FeedIsInjective(r, s, SortPaths(x), t, SortPaths(y));
    SameFilesSameManifest(r, s, a, t, b);
  }

  /** The bytes fed for the closure of a root, none if it has no closure. */
  function FedFor(r: Reader, files: Files, root: string): seq<Byte> {
    match Sources(TreeOf(r, files), root)
    case Failed(_) => []
    case Done(closure) =>
      SourcesAreTheClosure(TreeOf(r, files), root);
      ListedExist(r, files, closure);
      DigestFeed(r, files, closure)
  }

  lemma ListedExist(r: Reader, files: Files, closure: seq<string>)
    requires ParentsFirst(TreeOf(r, files), closure)
    ensures forall p :: p in closure ==> p in files
  {
    forall p | p in closure ensures p in files {
      var i :| 0 <= i < |closure| && closure[i] == p;
      assert closure[i] in TreeOf(r, files);
    }
  }

  lemma SameFilesSameManifest(r: Reader, s: Files, a: string, t: Files, b: string)
    requires Sources(TreeOf(r, s), a).Done? && Sources(TreeOf(r, t), b).Done?
    requires forall p :: p in Sources(TreeOf(r, s), a).value <==> p in Sources(TreeOf(r, t), b).value
    requires forall p :: p in Sources(TreeOf(r, s), a).value ==> p in s && p in t && s[p] == t[p]
    ensures a == b && Sources(TreeOf(r, s), a) == Sources(TreeOf(r, t), b)
    ensures Load(TreeOf(r, s), a, {}) == Load(TreeOf(r, t), b, {})
  {
    ClosureDeterminesManifest(TreeOf(r, s), TreeOf(r, t), a);
    RootIsDetermined(TreeOf(r, t), a, b);
  }

  /** Conversely the feed is a function of the closure: two closures with the
      same files and contents are fed the same, in whatever order they were walked. */
  lemma FeedDependsOnFiles(r: Reader, s: Files, x: seq<string>, t: Files, y: seq<string>)
    requires Distinct(x) && Distinct(y) && forall p :: p in x <==> p in y
    requires forall p :: p in x ==> p in s && p in t && s[p] == t[p]
    ensures DigestFeed(r, s, x) == DigestFeed(r, t, y)
  {
    SortPathsSorts(x);
    SortPathsSorts(y);
    AscendingUnique(SortPaths(x), SortPaths(y));
    SameFeed(r, s, t, SortPaths(x));
  }

  lemma {:induction false} SameFeed(r: Reader, s: Files, t: Files, paths: seq<string>)
    requires forall p :: p in paths ==> p in s && p in t && s[p] == t[p]
    ensures Feed(r, s, paths) == Feed(r, t, paths)
  {
    if paths != [] { SameFeed(r, s, t, paths[..|paths|-1]); }
  }

  /** A NUL inside a file would let one file be taken for two. */
  lemma NulConfusesFeed(r: Reader, p: string, q: string, body: seq<Byte>, rest: seq<Byte>)
    requires p != q
    ensures var one, two := map[p := body + [0] + r.encode(q) + [0] + rest], map[p := body, q := rest];
            Feed(r, one, [p]) == Feed(r, two, [p, q])
  {
    var two: Files := map[p := body, q := rest];
    assert [p, q][..1] == [p] && [p][..0] == [];
    assert Feed(r, two, [p]) == r.encode(p) + [0] + body + [0];
  }
}
