/** The part of the structure-building library (tgStructure, tgBuildSpec)
    that the two models use, stated abstractly: a structure owns an ordered
    node list, an ordered pair list, a set of structure-level tags and an
    ordered list of child structures; it can be translated and can take a
    copy of another structure as a child. A build spec maps tags to the
    builders that realize matching pairs.

    A tag string such as "outer right muscle" stands here for the set of
    its whitespace-separated tokens, {"outer", "right", "muscle"}; a query
    matches a tagged item when the query's tokens are all among the item's. */
module Structures {
  import opened Geometry

  type Tags = set<string>

  datatype Node = Node(pos: Vec3, tags: Tags)

  /** A pair either refers to two nodes of its own structure by index, or
      carries the positions of two node values (taken, for instance, from
      the node lists of two other structures). */
  datatype Pair =
    | IndexPair(from: nat, to: nat, tags: Tags)
    | PointPair(a: Vec3, b: Vec3, tags: Tags)

  /** The value of a structure at one moment: what a copy of it holds. */
  datatype Snapshot = Snapshot(nodes: seq<Node>, pairs: seq<Pair>, tags: Tags, children: seq<Snapshot>)

  const Empty := Snapshot([], [], {}, [])

  // ---------------------------------------------------------------------
  // Translation (`move`)

  function MoveNode(n: Node, v: Vec3): Node {
    n.(pos := Add(n.pos, v))
  }

  function MovePair(p: Pair, v: Vec3): Pair {
    match p
    case IndexPair(_, _, _) => p
    case PointPair(a, b, t) => PointPair(Add(a, v), Add(b, v), t)
  }

  /** The structure moved by `v`: every node, every pair that carries
      positions and, recursively, every child. */
  function Translate(s: Snapshot, v: Vec3): (r: Snapshot)
    ensures |r.nodes| == |s.nodes| && |r.pairs| == |s.pairs| && |r.children| == |s.children|
    ensures r.tags == s.tags
    decreases s
  {
    Snapshot(
      seq(|s.nodes|, i requires 0 <= i < |s.nodes| => MoveNode(s.nodes[i], v)),
      seq(|s.pairs|, i requires 0 <= i < |s.pairs| => MovePair(s.pairs[i], v)),
      s.tags,
      seq(|s.children|, i requires 0 <= i < |s.children| => Translate(s.children[i], v)))
  }

  /** Translation moves each node by `v` and keeps its tags, keeps every
      pair's endpoints (indices or moved positions) and tags, and keeps the
      structure's tags and the number of children. */
  lemma TranslateShape(s: Snapshot, v: Vec3)
    ensures var r := Translate(s, v);
      && |r.nodes| == |s.nodes| && |r.pairs| == |s.pairs| && |r.children| == |s.children|
      && r.tags == s.tags
      && (forall i :: 0 <= i < |s.nodes| ==>
            r.nodes[i].pos == Add(s.nodes[i].pos, v) && r.nodes[i].tags == s.nodes[i].tags)
      && (forall i :: 0 <= i < |s.pairs| ==> r.pairs[i].tags == s.pairs[i].tags)
      && (forall i :: 0 <= i < |s.pairs| && s.pairs[i].IndexPair? ==> r.pairs[i] == s.pairs[i])
      && (forall i :: 0 <= i < |s.pairs| && s.pairs[i].PointPair? ==>
            r.pairs[i] == PointPair(Add(s.pairs[i].a, v), Add(s.pairs[i].b, v), s.pairs[i].tags))
      && (forall i :: 0 <= i < |s.children| ==> r.children[i] == Translate(s.children[i], v))
  {
  }

  /** A structure whose pairs are all index pairs keeps its pair list under translation. */
  lemma TranslateIndexPairs(s: Snapshot, v: Vec3)
    requires forall i :: 0 <= i < |s.pairs| ==> s.pairs[i].IndexPair?
    ensures Translate(s, v).pairs == s.pairs
  {
    TranslateShape(s, v);
  }

  /** Moving by `v` and then by `-v` restores every coordinate. */
  lemma {:induction false} TranslateRoundTrip(s: Snapshot, v: Vec3)
    ensures Translate(Translate(s, v), Neg(v)) == s
    decreases s
  {
    var r := Translate(Translate(s, v), Neg(v));
    forall i | 0 <= i < |s.children|
      ensures r.children[i] == s.children[i]
    {
      TranslateRoundTrip(s.children[i], v);
    }
    forall i | 0 <= i < |s.nodes|
      ensures r.nodes[i] == s.nodes[i]
    {
      AddNegCancels(s.nodes[i].pos, v);
    }
    forall i | 0 <= i < |s.pairs| && s.pairs[i].PointPair?
      ensures r.pairs[i] == s.pairs[i]
    {
      AddNegCancels(s.pairs[i].a, v);
      AddNegCancels(s.pairs[i].b, v);
    }
    assert r.nodes == s.nodes;
    assert r.pairs == s.pairs;
    assert r.children == s.children;
  }

  /** Two moves are one move by the sum of the offsets. */
  lemma {:induction false} TranslateCompose(s: Snapshot, u: Vec3, v: Vec3)
    ensures Translate(Translate(s, u), v) == Translate(s, Add(u, v))
    decreases s
  {
    var r := Translate(Translate(s, u), v);
    var t := Translate(s, Add(u, v));
    forall i | 0 <= i < |s.children|
      ensures r.children[i] == t.children[i]
    {
      TranslateCompose(s.children[i], u, v);
    }
    forall i | 0 <= i < |s.nodes|
      ensures r.nodes[i] == t.nodes[i]
    {
      AddAssociates(s.nodes[i].pos, u, v);
    }
    forall i | 0 <= i < |s.pairs| && s.pairs[i].PointPair?
      ensures r.pairs[i] == t.pairs[i]
    {
      AddAssociates(s.pairs[i].a, u, v);
      AddAssociates(s.pairs[i].b, u, v);
    }
    assert r.nodes == t.nodes;
    assert r.pairs == t.pairs;
    assert r.children == t.children;
  }

  // ---------------------------------------------------------------------
  // Index validity

  /** Every index pair of the structure, and of each child within the
      child, names a node of the same structure. */
  predicate WellFormed(s: Snapshot)
    decreases s
  {
    && (forall i :: 0 <= i < |s.pairs| && s.pairs[i].IndexPair? ==>
          s.pairs[i].from < |s.nodes| && s.pairs[i].to < |s.nodes|)
    && (forall i :: 0 <= i < |s.children| ==> WellFormed(s.children[i]))
  }

  /** Translation keeps every index in range. */
  lemma {:induction false} TranslateWellFormed(s: Snapshot, v: Vec3)
    requires WellFormed(s)
    ensures WellFormed(Translate(s, v))
    decreases s
  {
    forall i | 0 <= i < |s.children|
      ensures WellFormed(Translate(s.children[i], v))
    {
      TranslateWellFormed(s.children[i], v);
    }
  }

  // ---------------------------------------------------------------------
  // Tag queries (`find`)

  /** The pairs of `ps` whose tags contain every token of `query`, in order. */
  function Find(query: Tags, ps: seq<Pair>): (found: seq<Pair>)
    ensures |found| <= |ps|
  {
    if ps == [] then []
    else Find(query, ps[..|ps| - 1]) + (if query <= ps[|ps| - 1].tags then [ps[|ps| - 1]] else [])
  }

  /** A pair is found exactly when it is listed and its tags contain the query. */
  lemma {:induction false} FindMembers(query: Tags, ps: seq<Pair>)
    ensures forall p :: p in Find(query, ps) <==> p in ps && query <= p.tags
  {
    if ps != [] {
      FindMembers(query, ps[..|ps| - 1]);
      assert ps == ps[..|ps| - 1] + [ps[|ps| - 1]];
    }
  }

  /** Finding distributes over concatenation, so results keep insertion order. */
  lemma {:induction false} FindAppend(query: Tags, a: seq<Pair>, b: seq<Pair>)
    ensures Find(query, a + b) == Find(query, a) + Find(query, b)
    decreases |b|
  {
    if b != [] {
      assert (a + b)[..|a + b| - 1] == a + b[..|b| - 1];
      FindAppend(query, a, b[..|b| - 1]);
    } else {
      assert a + b == a;
    }
  }

  /** A query that every pair matches finds the whole list. */
  lemma {:induction false} FindAll(query: Tags, ps: seq<Pair>)
    requires forall i :: 0 <= i < |ps| ==> query <= ps[i].tags
    ensures Find(query, ps) == ps
  {
    if ps != [] {
      FindAll(query, ps[..|ps| - 1]);
    }
  }

  /** A query that no pair matches finds nothing. */
  lemma {:induction false} FindNone(query: Tags, ps: seq<Pair>)
    requires forall i :: 0 <= i < |ps| ==> !(query <= ps[i].tags)
    ensures Find(query, ps) == []
  {
    if ps != [] {
      FindNone(query, ps[..|ps| - 1]);
    }
  }

  /** When the pairs that match are exactly those at positions `lo` up to
      `hi`, the query finds that slice. */
  lemma FindRange(query: Tags, ps: seq<Pair>, lo: nat, hi: nat)
    requires lo <= hi <= |ps|
    requires forall k :: 0 <= k < |ps| ==> (query <= ps[k].tags <==> lo <= k < hi)
    ensures Find(query, ps) == ps[lo..hi]
  {
    var upTo := ps[..hi];
    assert Find(query, ps[hi..]) == [] by {
      FindNone(query, ps[hi..]);
    }
    assert Find(query, ps) == Find(query, upTo) by {
      assert ps == upTo + ps[hi..];
      FindAppend(query, upTo, ps[hi..]);
    }
    assert Find(query, upTo[..lo]) == [] by {
      FindNone(query, upTo[..lo]);
    }
    assert Find(query, upTo[lo..]) == upTo[lo..] by {
      FindAll(query, upTo[lo..]);
    }
    assert upTo == upTo[..lo] + upTo[lo..];
    FindAppend(query, upTo[..lo], upTo[lo..]);
  }

  /** Every pair of the structure and of its descendants has exactly one
      registered tag among its tokens, so the builder that realizes it is
      determined without any tie-break. */
  predicate DispatchedBelow(reg: Registry, s: Snapshot)
    decreases s
  {
    && (forall i :: 0 <= i < |s.pairs| ==> Dispatched(reg, s.pairs[i].tags))
    && (forall i :: 0 <= i < |s.children| ==> DispatchedBelow(reg, s.children[i]))
  }

  /** A pair of the flattened tree is one of the structure's own pairs or a
      pair of the flattened tree of one of its children. */
  lemma {:induction false} AllPairsMembers(s: Snapshot, p: Pair)
    ensures p in AllPairs(s) <==>
      p in s.pairs || exists i :: 0 <= i < |s.children| && p in AllPairs(s.children[i])
  {
    ChildPairsMembers(s, |s.children|, p);
  }

  lemma {:induction false} ChildPairsMembers(s: Snapshot, k: nat, p: Pair)
    requires k <= |s.children|
    ensures p in ChildPairs(s, k) <==> exists i :: 0 <= i < k && p in AllPairs(s.children[i])
    decreases k
  {
    if k > 0 {
      ChildPairsMembers(s, k - 1, p);
    }
  }

  /** Dispatch below a structure covers every pair it hands to the realizer. */
  lemma {:induction false} DispatchedAllPairs(reg: Registry, s: Snapshot, p: Pair)
    requires DispatchedBelow(reg, s)
    requires p in AllPairs(s)
    ensures Dispatched(reg, p.tags)
    decreases s
  {
    AllPairsMembers(s, p);
    if p !in s.pairs {
      var i :| 0 <= i < |s.children| && p in AllPairs(s.children[i]);
      DispatchedAllPairs(reg, s.children[i], p);
    }
  }

  /** The children of `cs` whose structure-level tags contain the query, in order. */
  function FindChildren(query: Tags, cs: seq<Snapshot>): (found: seq<Snapshot>)
    ensures |found| <= |cs|
  {
    if cs == [] then []
    else FindChildren(query, cs[..|cs| - 1]) + (if query <= cs[|cs| - 1].tags then [cs[|cs| - 1]] else [])
  }

  lemma {:induction false} FindChildrenAll(query: Tags, cs: seq<Snapshot>)
    requires forall i :: 0 <= i < |cs| ==> query <= cs[i].tags
    ensures FindChildren(query, cs) == cs
  {
    if cs != [] {
      FindChildrenAll(query, cs[..|cs| - 1]);
    }
  }

  /** Every pair of a structure and of its descendants, depth first: the
      structure's own pairs, then each child's in order. */
  function AllPairs(s: Snapshot): seq<Pair>
    decreases s, |s.children| + 1
  {
    s.pairs + ChildPairs(s, |s.children|)
  }

  function ChildPairs(s: Snapshot, k: nat): seq<Pair>
    requires k <= |s.children|
    decreases s, k
  {
    if k == 0 then [] else ChildPairs(s, k - 1) + AllPairs(s.children[k - 1])
  }

  /** No pair of the structure or of any descendant matches `query`. */
  predicate NoMatchBelow(query: Tags, s: Snapshot)
    decreases s
  {
    && (forall i :: 0 <= i < |s.pairs| ==> !(query <= s.pairs[i].tags))
    && (forall i :: 0 <= i < |s.children| ==> NoMatchBelow(query, s.children[i]))
  }

  /** A query that matches no pair of any child finds, over the whole tree,
      exactly what it finds among the structure's own pairs. */
  lemma ChildrenInvisible(query: Tags, s: Snapshot)
    requires forall i :: 0 <= i < |s.children| ==> NoMatchBelow(query, s.children[i])
    ensures Find(query, AllPairs(s)) == Find(query, s.pairs)
  {
    ChildPairsInvisible(query, s, |s.children|);
    FindAppend(query, s.pairs, ChildPairs(s, |s.children|));
  }

  lemma {:induction false} ChildPairsInvisible(query: Tags, s: Snapshot, k: nat)
    requires k <= |s.children|
    requires forall i :: 0 <= i < |s.children| ==> NoMatchBelow(query, s.children[i])
    ensures Find(query, ChildPairs(s, k)) == []
    decreases s, k
  {
    if k > 0 {
      ChildPairsInvisible(query, s, k - 1);
      NoMatchInvisible(query, s.children[k - 1]);
      FindAppend(query, ChildPairs(s, k - 1), AllPairs(s.children[k - 1]));
    }
  }

  lemma {:induction false} NoMatchInvisible(query: Tags, s: Snapshot)
    requires NoMatchBelow(query, s)
    ensures Find(query, AllPairs(s)) == []
    decreases s, |s.children| + 1
  {
    FindNone(query, s.pairs);
    ChildPairsInvisible(query, s, |s.children|);
    FindAppend(query, s.pairs, ChildPairs(s, |s.children|));
  }

  // ---------------------------------------------------------------------
  // The mutable structure

  /** A structure under construction: its methods append to the node and
      pair lists, add tags, translate, and take a copy of another structure
      as a child. */
  class Structure {
    var nodes: seq<Node>
    var pairs: seq<Pair>
    var tags: Tags
    var children: seq<Snapshot>

    function Value(): Snapshot
      reads this
    {
      Snapshot(nodes, pairs, tags, children)
    }

    constructor ()
      ensures Value() == Empty
    {
      nodes, pairs, tags, children := [], [], {}, [];
    }

    /** The copy constructor: an independent structure with the same value. */
    constructor Copy(other: Structure)
      ensures Value() == other.Value()
    {
      nodes, pairs, tags, children := other.nodes, other.pairs, other.tags, other.children;
    }

    method AddNode(pos: Vec3, t: Tags)
      modifies this
      ensures nodes == old(nodes) + [Node(pos, t)]
      ensures pairs == old(pairs) && tags == old(tags) && children == old(children)
    {
      nodes := nodes + [Node(pos, t)];
    }

    /** Adds a node value built elsewhere, with the tags it carries. */
    method AddNodeValue(n: Node)
      modifies this
      ensures nodes == old(nodes) + [n]
      ensures pairs == old(pairs) && tags == old(tags) && children == old(children)
    {
      nodes := nodes + [n];
    }

    /** Adds a pair between two nodes of this structure, given by index. */
    method AddPair(i: nat, j: nat, t: Tags)
      requires i < |nodes| && j < |nodes|
      modifies this
      ensures pairs == old(pairs) + [IndexPair(i, j, t)]
      ensures nodes == old(nodes) && tags == old(tags) && children == old(children)
    {
      pairs := pairs + [IndexPair(i, j, t)];
    }

    /** Adds a pair between two positions given by value. */
    method AddPointPair(a: Vec3, b: Vec3, t: Tags)
      modifies this
      ensures pairs == old(pairs) + [PointPair(a, b, t)]
      ensures nodes == old(nodes) && tags == old(tags) && children == old(children)
    {
      pairs := pairs + [PointPair(a, b, t)];
    }

    /** Tags the structure as a whole; the nodes' own tags do not change. */
    method AddTags(t: Tags)
      modifies this
      ensures tags == old(tags) + t
      ensures nodes == old(nodes) && pairs == old(pairs) && children == old(children)
    {
      tags := tags + t;
    }

    method Move(v: Vec3)
      modifies this
      ensures Value() == Translate(old(Value()), v)
    {
      var moved := Translate(Value(), v);
      nodes, pairs, children := moved.nodes, moved.pairs, moved.children;
    }

    /** Appends a child. The child is held by value, so nothing done later
        to the object it came from reaches it. */
    method AddChild(c: Snapshot)
      modifies this
      ensures children == old(children) + [c]
      ensures nodes == old(nodes) && pairs == old(pairs) && tags == old(tags)
    {
      children := children + [c];
    }
  }

  // ---------------------------------------------------------------------
  // The build spec: tag -> builder registry

  /** Which library builder realizes a matching pair. */
  datatype BuilderKind = RodInfo | LinearStringInfo | BasicActuatorInfo

  /** A builder with the name of the configuration record it was given;
      the physical parameters inside that record are not modelled. */
  datatype Builder = Builder(kind: BuilderKind, config: string)

  type Registry = map<Tags, Builder>

  /** Some registered tag's tokens are all among `tags`. */
  predicate Covered(reg: Registry, tags: Tags) {
    exists k :: k in reg && k <= tags
  }

  /** Exactly one registered tag has all its tokens among `tags`. */
  predicate Dispatched(reg: Registry, tags: Tags) {
    exists k :: k in reg && k <= tags && forall k' :: k' in reg && k' <= tags ==> k' == k
  }

  lemma DispatchedIsCovered(reg: Registry, tags: Tags)
    requires Dispatched(reg, tags)
    ensures Covered(reg, tags)
  {
  }

  class BuildSpec {
    var builders: Registry

    constructor ()
      ensures builders == map[]
    {
      builders := map[];
    }

    /** Registers `b` for `tag`; a later registration for the same tag replaces it. */
    method AddBuilder(tag: Tags, b: Builder)
      modifies this
      ensures builders == old(builders)[tag := b]
    {
      builders := builders[tag := b];
    }
  }

  // ---------------------------------------------------------------------
  // Stepping

  /** What a model's `step` does with a time step: passes it on, or throws
      `std::invalid_argument` with the given message. */
  datatype StepOutcome = Stepped | InvalidArgument(message: string)
}
