/** The bounded validation of allocation parameters: a walk over caller-owned
    objects, which may be shared or cyclic, with one node budget for the whole
    walk and a set of the containers being visited. */
module Parameters {
  import opened Options

  const MAX_NODES: nat := 4096
  const MAX_DEPTH: nat := 16
  const MAX_KEYS: nat := 256
  const MAX_ITEMS: nat := 256
  const MAX_KEY_CHARS: nat := 512

  /** A scalar, which is acceptable or not, or a reference to a container. */
  datatype Value = Scalar(fits: bool) | Ref(id: nat)

  datatype Entry = Entry(key: string, value: Value)

  datatype Container = Mapping(entries: seq<Entry>) | List(items: seq<Value>)

  /** The caller's objects, by identity. */
  type Heap = nat -> Container

  function Children(c: Container): (children: seq<Value>)
    ensures c.Mapping? ==> |children| == |c.entries| && forall i :: 0 <= i < |children| ==> children[i] == c.entries[i].value
    ensures c.List? ==> children == c.items
  {
    match c
    case Mapping(entries) => seq(|entries|, i requires 0 <= i < |entries| => entries[i].value)
    case List(items) => items
  }

  predicate KeyOk(key: string) {
    0 < |key| <= MAX_KEY_CHARS
  }

  /** The checks on a container that do not look into its children. */
  predicate ShapeOk(c: Container) {
    match c
    case Mapping(entries) => |entries| <= MAX_KEYS && forall i :: 0 <= i < |entries| ==> KeyOk(entries[i].key)
    case List(items) => |items| <= MAX_ITEMS
  }

  // ---------------------------------------------------------------------
  // What the limits mean
  // ---------------------------------------------------------------------

  /** The value unfolds, sharing written out, into a tree at most `room` levels
      deep below its root, with every scalar and container within its limits. */
  predicate Fits(h: Heap, v: Value, room: nat)
    decreases room, 1
  {
    match v
    case Scalar(fits) => fits
    case Ref(id) => ShapeOk(h(id)) && (Children(h(id)) == [] || (room > 0 && AllFit(h, Children(h(id)), room - 1)))
  }

  predicate AllFit(h: Heap, vs: seq<Value>, room: nat)
    decreases room, 2, |vs|
  {
    vs == [] || (AllFit(h, vs[..|vs|-1], room) && Fits(h, vs[|vs|-1], room))
  }

  /** How many nodes the unfolded tree has. */
  function Size(h: Heap, v: Value, room: nat): (n: nat)
    requires Fits(h, v, room)
    ensures n >= 1
    decreases room, 1
  {
    match v
    case Scalar(_) => 1
    case Ref(id) => 1 + if Children(h(id)) == [] then 0 else Sizes(h, Children(h(id)), room - 1)
  }

  function Sizes(h: Heap, vs: seq<Value>, room: nat): nat
    requires AllFit(h, vs, room)
    decreases room, 2, |vs|
  {
    if vs == [] then 0 else Sizes(h, vs[..|vs|-1], room) + Size(h, vs[|vs|-1], room)
  }

  // ---------------------------------------------------------------------
  // The walk
  // ---------------------------------------------------------------------

  /** The node count after a successful walk, or none once anything is refused. */
  function Walk(h: Heap, v: Value, depth: nat, used: nat, active: set<nat>): (r: Option<nat>)
    decreases MAX_DEPTH + 1 - depth, 1
  {
    if used + 1 > MAX_NODES || depth > MAX_DEPTH then None
    else match v
         case Scalar(fits) => if fits then Some(used + 1) else None
         case Ref(id) =>
           if id in active || !ShapeOk(h(id)) then None
           else WalkAll(h, Children(h(id)), depth + 1, used + 1, active + {id})
  }

  function WalkAll(h: Heap, vs: seq<Value>, depth: nat, used: nat, active: set<nat>): (r: Option<nat>)
    requires depth <= MAX_DEPTH + 1
    decreases MAX_DEPTH + 1 - depth, 2, |vs|
  {
    if vs == [] then Some(used)
    else match WalkAll(h, vs[..|vs|-1], depth, used, active)
         case None => None
         case Some(n) => Walk(h, vs[|vs|-1], depth, n, active)
  }

  /** A walk that succeeds counted exactly the nodes of a tree within the limits. */
  lemma {:induction false} WalkedFits(h: Heap, v: Value, depth: nat, used: nat, active: set<nat>)
    requires Walk(h, v, depth, used, active).Some?
    ensures depth <= MAX_DEPTH && Fits(h, v, MAX_DEPTH - depth)
    ensures Walk(h, v, depth, used, active).value == used + Size(h, v, MAX_DEPTH - depth) <= MAX_NODES
    decreases MAX_DEPTH + 1 - depth, 1
  {
    if v.Ref? {
      var children := Children(h(v.id));
      if children != [] {
        AllWalkedFit(h, children, depth + 1, used + 1, active + {v.id});
      }
    }
  }

  lemma {:induction false} AllWalkedFit(h: Heap, vs: seq<Value>, depth: nat, used: nat, active: set<nat>)
    requires 0 < depth <= MAX_DEPTH + 1 && vs != [] && WalkAll(h, vs, depth, used, active).Some?
    ensures depth <= MAX_DEPTH && AllFit(h, vs, MAX_DEPTH - depth)
    ensures WalkAll(h, vs, depth, used, active).value == used + Sizes(h, vs, MAX_DEPTH - depth) <= MAX_NODES
    decreases MAX_DEPTH + 1 - depth, 2, |vs|
  {
    var front, last := vs[..|vs|-1], vs[|vs|-1];
    if front != [] {
      AllWalkedFit(h, front, depth, used, active);
    }
    WalkedFits(h, last, depth, WalkAll(h, front, depth, used, active).value, active);
  }

  // ---------------------------------------------------------------------
  // Finite trees have no cycles
  // ---------------------------------------------------------------------

  /** The container occurs in the unfolded tree. */
  predicate Occurs(h: Heap, id: nat, v: Value, room: nat)
    requires Fits(h, v, room)
    decreases room, 1
  {
    v.Ref? && (v.id == id || (Children(h(v.id)) != [] && OccursAmong(h, id, Children(h(v.id)), room - 1)))
  }

  predicate OccursAmong(h: Heap, id: nat, vs: seq<Value>, room: nat)
    requires AllFit(h, vs, room)
    decreases room, 2, |vs|
  {
    vs != [] && (OccursAmong(h, id, vs[..|vs|-1], room) || Occurs(h, id, vs[|vs|-1], room))
  }

  /** Sizes do not depend on how much room was left over. */
  lemma {:induction false} SizeIsIntrinsic(h: Heap, v: Value, a: nat, b: nat)
    requires Fits(h, v, a) && Fits(h, v, b)
    ensures Size(h, v, a) == Size(h, v, b)
    decreases a, 1
  {
    if v.Ref? && Children(h(v.id)) != [] {
      SizesAreIntrinsic(h, Children(h(v.id)), a - 1, b - 1);
    }
  }

  lemma {:induction false} SizesAreIntrinsic(h: Heap, vs: seq<Value>, a: nat, b: nat)
    requires AllFit(h, vs, a) && AllFit(h, vs, b)
    ensures Sizes(h, vs, a) == Sizes(h, vs, b)
    decreases a, 2, |vs|
  {
    if vs != [] {
      SizesAreIntrinsic(h, vs[..|vs|-1], a, b);
      SizeIsIntrinsic(h, vs[|vs|-1], a, b);
    }
  }

  /** A container that occurs in a tree unfolds to a tree no larger. */
  lemma {:induction false} OccurringIsSmaller(h: Heap, id: nat, v: Value, room: nat) returns (inner: nat)
    requires Fits(h, v, room) && Occurs(h, id, v, room)
    ensures Fits(h, Ref(id), inner) && Size(h, Ref(id), inner) <= Size(h, v, room)
    decreases room, 1
  {
    if v.id == id { return room; }
    inner := OccurringAmongIsSmaller(h, id, Children(h(v.id)), room - 1);
  }

  lemma {:induction false} OccurringAmongIsSmaller(h: Heap, id: nat, vs: seq<Value>, room: nat) returns (inner: nat)
    requires AllFit(h, vs, room) && OccursAmong(h, id, vs, room)
    ensures Fits(h, Ref(id), inner) && Size(h, Ref(id), inner) <= Sizes(h, vs, room)
    decreases room, 2, |vs|
  {
    if OccursAmong(h, id, vs[..|vs|-1], room) {
      inner := OccurringAmongIsSmaller(h, id, vs[..|vs|-1], room);
    } else {
      inner := OccurringIsSmaller(h, id, vs[|vs|-1], room);
    }
  }

  /** A container does not occur below itself in a finite tree. */
  lemma NoSelfBelow(h: Heap, id: nat, room: nat)
    requires Fits(h, Ref(id), room) && Children(h(id)) != []
    ensures !OccursAmong(h, id, Children(h(id)), room - 1)
  {
    if OccursAmong(h, id, Children(h(id)), room - 1) {
      var inner := OccurringAmongIsSmaller(h, id, Children(h(id)), room - 1);
      SizeIsIntrinsic(h, Ref(id), room, inner);
    }
  }

  // ---------------------------------------------------------------------
  // The walk accepts exactly the bounded trees
  // ---------------------------------------------------------------------

  lemma {:induction false} FittingWalks(h: Heap, v: Value, depth: nat, used: nat, active: set<nat>)
    requires depth <= MAX_DEPTH && Fits(h, v, MAX_DEPTH - depth)
    requires used + Size(h, v, MAX_DEPTH - depth) <= MAX_NODES
    requires forall id :: id in active ==> !Occurs(h, id, v, MAX_DEPTH - depth)
    ensures Walk(h, v, depth, used, active).Some?
    decreases MAX_DEPTH + 1 - depth, 1
  {
    if v.Ref? {
      assert Occurs(h, v.id, v, MAX_DEPTH - depth);
      var children := Children(h(v.id));
      if children != [] {
        NoSelfBelow(h, v.id, MAX_DEPTH - depth);
        forall id | id in active + {v.id} ensures !OccursAmong(h, id, children, MAX_DEPTH - depth - 1) {
          if id in active { assert !Occurs(h, id, v, MAX_DEPTH - depth); }
        }
        AllFittingWalk(h, children, depth + 1, used + 1, active + {v.id});
      }
    }
  }

  lemma {:induction false} AllFittingWalk(h: Heap, vs: seq<Value>, depth: nat, used: nat, active: set<nat>)
    requires 0 < depth <= MAX_DEPTH && AllFit(h, vs, MAX_DEPTH - depth)
    requires used + Sizes(h, vs, MAX_DEPTH - depth) <= MAX_NODES
    requires forall id :: id in active ==> !OccursAmong(h, id, vs, MAX_DEPTH - depth)
    ensures WalkAll(h, vs, depth, used, active).Some?
    ensures WalkAll(h, vs, depth, used, active).value == used + Sizes(h, vs, MAX_DEPTH - depth)
    decreases MAX_DEPTH + 1 - depth, 2, |vs|
  {
    if vs != [] {
      var front, last := vs[..|vs|-1], vs[|vs|-1];
      forall id | id in active
        ensures !OccursAmong(h, id, front, MAX_DEPTH - depth) && !Occurs(h, id, last, MAX_DEPTH - depth) {
        assert !OccursAmong(h, id, vs, MAX_DEPTH - depth);
      }
      AllFittingWalk(h, front, depth, used, active);
      var n := WalkAll(h, front, depth, used, active).value;
      FittingWalks(h, last, depth, n, active);
      WalkedFits(h, last, depth, n, active);
    }
  }

  /** Validation accepts exactly the values that unfold, sharing written out and
      every occurrence counted, into a tree of at most 4096 nodes and 16 levels
      below the root with all containers and scalars within their limits. */
  lemma AcceptsExactly(h: Heap, v: Value)
    ensures Walk(h, v, 0, 0, {}).Some? <==> Fits(h, v, MAX_DEPTH) && Size(h, v, MAX_DEPTH) <= MAX_NODES
  {
    if Walk(h, v, 0, 0, {}).Some? {
      WalkedFits(h, v, 0, 0, {});
    }
    if Fits(h, v, MAX_DEPTH) && Size(h, v, MAX_DEPTH) <= MAX_NODES {
      FittingWalks(h, v, 0, 0, {});
    }
  }

  /** The parent links of a cyclic chain. */
  predicate Below(h: Heap, child: nat, parent: nat) {
    Ref(child) in Children(h(parent))
  }

  ghost predicate Descends(h: Heap, links: seq<nat>) {
    links != [] && forall i :: 0 < i < |links| ==> Below(h, links[i], links[i - 1])
  }

  lemma {:induction false} MemberOccurs(h: Heap, id: nat, v: Value, vs: seq<Value>, room: nat)
    requires AllFit(h, vs, room) && v in vs
    ensures Fits(h, v, room) && (Occurs(h, id, v, room) ==> OccursAmong(h, id, vs, room))
  {
    if v != vs[|vs|-1] {
      assert vs == vs[..|vs|-1] + [vs[|vs|-1]];
      MemberOccurs(h, id, v, vs[..|vs|-1], room);
    }
  }

  /** Whatever a chain of children leads to occurs in the tree. */
  lemma {:induction false} ChainOccurs(h: Heap, links: seq<nat>, room: nat)
    requires Descends(h, links) && Fits(h, Ref(links[0]), room)
    ensures Occurs(h, links[|links|-1], Ref(links[0]), room)
    ensures |links| > 1 ==> room > 0 && OccursAmong(h, links[|links|-1], Children(h(links[0])), room - 1)
    decreases |links|
  {
    if |links| > 1 {
      var rest := links[1..];
      assert Below(h, links[1], links[0]);
      MemberOccurs(h, links[|links|-1], Ref(rest[0]), Children(h(links[0])), room - 1);
      assert Descends(h, rest) by {
        forall i | 0 < i < |rest| ensures Below(h, rest[i], rest[i - 1]) {
          assert Below(h, links[i + 1], links[i]);
        }
      }
      ChainOccurs(h, rest, room - 1);
    }
  }

  /** A container on a cycle is never accepted. */
  lemma CyclesAreRefused(h: Heap, links: seq<nat>)
    requires Descends(h, links) && |links| > 1 && links[|links|-1] == links[0]
    ensures Walk(h, Ref(links[0]), 0, 0, {}).None?
  {
    AcceptsExactly(h, Ref(links[0]));
    if Fits(h, Ref(links[0]), MAX_DEPTH) {
      assert Below(h, links[1], links[0]);
      NoSelfBelow(h, links[0], MAX_DEPTH);
      ChainOccurs(h, links, MAX_DEPTH);
    }
  }

  // ---------------------------------------------------------------------
  // The walk as written
  // ---------------------------------------------------------------------

  /** The mutable budget and active set that the recursive calls share. */
  class Validator {
    var used: nat
    var active: set<nat>

    constructor ()
      ensures used == 0 && active == {}
    {
      used, active := 0, {};
    }

    /** Validate one value; a success leaves the active set as it was. */
    method Validate(h: Heap, v: Value, depth: nat) returns (ok: bool)
      modifies this
      ensures ok <==> Walk(h, v, depth, old(used), old(active)).Some?
      ensures ok ==> Some(used) == Walk(h, v, depth, old(used), old(active)) && active == old(active)
      decreases MAX_DEPTH + 1 - depth, 1
    {
      used := used + 1;
      if used > MAX_NODES || depth > MAX_DEPTH {
        return false;
      }
      if v.Scalar? {
        return v.fits;
      }
      if v.id in active || !ShapeOk(h(v.id)) {
        return false;
      }
      active := active + {v.id};
      ok := ValidateAll(h, Children(h(v.id)), depth + 1);
      active := active - {v.id};
    }

    method ValidateAll(h: Heap, vs: seq<Value>, depth: nat) returns (ok: bool)
      requires depth <= MAX_DEPTH + 1
      modifies this
      ensures ok <==> WalkAll(h, vs, depth, old(used), old(active)).Some?
      ensures ok ==> Some(used) == WalkAll(h, vs, depth, old(used), old(active)) && active == old(active)
      decreases MAX_DEPTH + 1 - depth, 2
    {
      var i := 0;
      while i < |vs|
        invariant i <= |vs| && active == old(active)
        invariant WalkAll(h, vs[..i], depth, old(used), old(active)) == Some(used)
      {
        assert vs[..i + 1][..i] == vs[..i];
        WalkPrefixFails(h, vs, depth, old(used), old(active), i + 1);
        var one := Validate(h, vs[i], depth);
        if !one {
          return false;
        }
        i := i + 1;
      }
      assert vs[..i] == vs;
      return true;
    }
  }

  lemma {:induction false} WalkPrefixFails(h: Heap, vs: seq<Value>, depth: nat, used: nat, active: set<nat>, k: nat)
    requires k <= |vs| && depth <= MAX_DEPTH + 1
    ensures WalkAll(h, vs[..k], depth, used, active).None? ==> WalkAll(h, vs, depth, used, active).None?
  {
    if k == |vs| {
      assert vs[..k] == vs;
    } else {
      WalkPrefixFails(h, vs[..|vs|-1], depth, used, active, k);
      assert vs[..|vs|-1][..k] == vs[..k];
    }
  }

  method ValidateParameters(h: Heap, v: Value) returns (ok: bool)
    ensures ok <==> Fits(h, v, MAX_DEPTH) && Size(h, v, MAX_DEPTH) <= MAX_NODES
  {
    var validator := new Validator();
    ok := validator.Validate(h, v, 0);
    AcceptsExactly(h, v);
  }
}
