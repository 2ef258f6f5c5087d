/** The tetrahedral spine of TetraSpineStaticModel: one six-node tetrahedral
    unit with eight rods, replicated into a chain of segments offset along
    -z, with six muscles wired between each pair of adjacent segments, and
    the build spec that realizes rods and muscles by tag. */
module TetraSpine {
  import opened Geometry
  import opened TgString
  import opened Structures

  // ---------------------------------------------------------------------
  // Tags

  const Base: Tags := {"base"}
  const Tip: Tags := {"tip"}
  const Pcb: Tags := {"PCB"}

  const OuterRight: Tags := {"outer", "right", "muscle"}
  const OuterLeft: Tags := {"outer", "left", "muscle"}
  const OuterTop: Tags := {"outer", "top", "muscle"}
  const InnerRight: Tags := {"inner", "right", "muscle"}
  const InnerLeft: Tags := {"inner", "left", "muscle"}
  const InnerTop: Tags := {"inner", "top", "muscle"}

  /** The tags of the six muscles of one junction, in the order they are added. */
  const MuscleRoles: seq<Tags> := [OuterRight, OuterLeft, OuterTop, InnerRight, InnerLeft, InnerTop]

  /** `tgString("segment num", k)`: the tokens "segment" and "num" followed by k's digits. */
  function SegmentTags(k: nat): (t: Tags)
    ensures |t| == 2 && "segment" in t && ("num" + Decimal(k)) in t
  {
    assert ("num" + Decimal(k))[0] != "segment"[0];
    {"segment", "num" + Decimal(k)}
  }

  // ---------------------------------------------------------------------
  // One tetrahedral unit

  /** The six nodes `addNodes` puts into an empty structure: the three base
      corners, the tip, and the midpoints of the right and left base edges.
      The midpoints carry only "PCB": tags are not inherited from the
      nodes they are computed from. `tipZ` stands for the rounded height of
      the tip, which `addNodes` computes from `height` in floating point. */
  function TetraNodes(edge: real, height: real, tipZ: real): (ns: seq<Node>)
    ensures |ns| == 6
    ensures ns[0].tags == Base && ns[1].tags == Base && ns[2].tags == Base
    ensures ns[3].tags == Tip
    ensures ns[4] == Node(Midpoint(ns[0].pos, ns[2].pos), Pcb)
    ensures ns[5] == Node(Midpoint(ns[1].pos, ns[2].pos), Pcb)
    ensures ns[0].pos.y == ns[1].pos.y == 0.0 && ns[1].pos.x - ns[0].pos.x == edge
  {
    var b := [Node(Vec3(-edge / 2.0, 0.0, 0.0), Base), Node(Vec3(edge / 2.0, 0.0, 0.0), Base),
              Node(Vec3(0.0, height, 0.0), Base), Node(Vec3(0.0, height / 2.0, tipZ), Tip)];
    b + [Node(Midpoint(b[0].pos, b[2].pos), Pcb), Node(Midpoint(b[1].pos, b[2].pos), Pcb)]
  }

  method AddNodes(tetra: Structure, edge: real, height: real, tipZ: real)
    modifies tetra
    ensures var b := old(tetra.nodes) + [Node(Vec3(-edge / 2.0, 0.0, 0.0), Base),
                                         Node(Vec3(edge / 2.0, 0.0, 0.0), Base),
                                         Node(Vec3(0.0, height, 0.0), Base),
                                         Node(Vec3(0.0, height / 2.0, tipZ), Tip)];
      // the midpoints are taken from whatever stands at indices 0, 1 and 2
      tetra.nodes == b + [Node(Midpoint(b[0].pos, b[2].pos), Pcb), Node(Midpoint(b[1].pos, b[2].pos), Pcb)]
    ensures old(tetra.nodes) == [] ==> tetra.nodes == TetraNodes(edge, height, tipZ)
    ensures tetra.pairs == old(tetra.pairs) && tetra.tags == old(tetra.tags)
    ensures tetra.children == old(tetra.children)
  {
    tetra.AddNode(Vec3(-edge / 2.0, 0.0, 0.0), Base);
    tetra.AddNode(Vec3(edge / 2.0, 0.0, 0.0), Base);
    tetra.AddNode(Vec3(0.0, height, 0.0), Base);
    tetra.AddNode(Vec3(0.0, height / 2.0, tipZ), Tip);
    var oldNodes := tetra.nodes;
    var nn1 := Node(Midpoint(oldNodes[0].pos, oldNodes[2].pos), {});
    nn1 := nn1.(tags := nn1.tags + Pcb);
    assert nn1.tags == Pcb;
    tetra.AddNodeValue(nn1);
    var nn2 := Node(Midpoint(oldNodes[1].pos, oldNodes[2].pos), {});
    nn2 := nn2.(tags := nn2.tags + Pcb);
    assert nn2.tags == Pcb;
    tetra.AddNodeValue(nn2);
  }

  /** The eight rods of the unit, in the order `addPairs` adds them. */
  function TetraPairs(): (ps: seq<Pair>)
    ensures |ps| == 8
    ensures forall i :: 0 <= i < 8 ==>
      && ps[i].IndexPair? && ps[i].from < 6 && ps[i].to < 6 && ps[i].from != ps[i].to
      && "rod" in ps[i].tags && "muscle" !in ps[i].tags && "outer" !in ps[i].tags
      && "inner" !in ps[i].tags && "static" !in ps[i].tags && "segment" !in ps[i].tags
  {
    [IndexPair(0, 1, {"back", "bottom", "rod"}),
     IndexPair(0, 4, {"back", "rightBottom", "rod"}),
     IndexPair(4, 2, {"back", "rightTop", "rod"}),
     IndexPair(0, 3, {"front", "right", "rod"}),
     IndexPair(1, 5, {"back", "leftBottom", "rod"}),
     IndexPair(5, 2, {"back", "leftTop", "rod"}),
     IndexPair(1, 3, {"front", "left", "rod"}),
     IndexPair(2, 3, {"front", "top", "rod"})]
  }

  method AddPairs(tetra: Structure)
    requires |tetra.nodes| >= 6
    modifies tetra
    ensures tetra.pairs == old(tetra.pairs) + TetraPairs()
    ensures tetra.nodes == old(tetra.nodes) && tetra.tags == old(tetra.tags)
    ensures tetra.children == old(tetra.children)
  {
    tetra.AddPair(0, 1, {"back", "bottom", "rod"});
    tetra.AddPair(0, 4, {"back", "rightBottom", "rod"});
    tetra.AddPair(4, 2, {"back", "rightTop", "rod"});
    tetra.AddPair(0, 3, {"front", "right", "rod"});
    tetra.AddPair(1, 5, {"back", "leftBottom", "rod"});
    tetra.AddPair(5, 2, {"back", "leftTop", "rod"});
    tetra.AddPair(1, 3, {"front", "left", "rod"});
    tetra.AddPair(2, 3, {"front", "top", "rod"});
  }

  // ---------------------------------------------------------------------
  // Segments

  /** The step between consecutive segments. */
  const Offset := Vec3(0.0, 0.0, -21.5)

  /** Segment `i` (from 0): a copy of the unit tagged "segment num<i+1>"
      and moved by (i + 1) times the offset. */
  function Segment(unit: Snapshot, i: nat): Snapshot {
    Translate(unit.(tags := unit.tags + SegmentTags(i + 1)), Scale((i + 1) as real, Offset))
  }

  /** The first `n` segments, in order. */
  function Segments(unit: Snapshot, n: nat): (ss: seq<Snapshot>)
    ensures |ss| == n
    decreases n
  {
    if n == 0 then [] else Segments(unit, n - 1) + [Segment(unit, n - 1)]
  }

  lemma {:induction false} SegmentsAt(unit: Snapshot, n: nat)
    ensures |Segments(unit, n)| == n
    ensures forall i :: 0 <= i < n ==> Segments(unit, n)[i] == Segment(unit, i)
  {
    if n > 0 {
      SegmentsAt(unit, n - 1);
    }
  }

  /** Segment `i` has the unit's nodes, each moved by (i + 1) times the
      offset and keeping its tags; the unit's pairs with their tags (index
      pairs unchanged); the unit's children moved likewise; and the unit's
      tags plus its segment tag. */
  lemma SegmentShape(unit: Snapshot, i: nat)
    ensures var s := Segment(unit, i);
      && |s.nodes| == |unit.nodes| && |s.pairs| == |unit.pairs| && |s.children| == |unit.children|
      && s.tags == unit.tags + SegmentTags(i + 1)
      && (forall k :: 0 <= k < |unit.nodes| ==>
            s.nodes[k] == Node(Add(unit.nodes[k].pos, Scale((i + 1) as real, Offset)), unit.nodes[k].tags))
      && (forall k :: 0 <= k < |unit.pairs| ==> s.pairs[k].tags == unit.pairs[k].tags)
      && (forall k :: 0 <= k < |unit.pairs| && unit.pairs[k].IndexPair? ==> s.pairs[k] == unit.pairs[k])
  {
    TranslateShape(unit.(tags := unit.tags + SegmentTags(i + 1)), Scale((i + 1) as real, Offset));
  }

  /** Adds `segmentCount` segments of `tetra` to `snake`'s children;
      `tetra` itself is only read. `edge` is accepted and not used. */
  method AddSegments(snake: Structure, tetra: Structure, edge: real, segmentCount: nat)
    requires snake != tetra
    modifies snake
    ensures snake.children == old(snake.children) + Segments(tetra.Value(), segmentCount)
    ensures tetra.Value() == old(tetra.Value())
    ensures snake.nodes == old(snake.nodes) && snake.pairs == old(snake.pairs)
    ensures snake.tags == old(snake.tags)
  {
    var i := 0;
    while i < segmentCount
      invariant i <= segmentCount
      invariant snake.children == old(snake.children) + Segments(tetra.Value(), i)
      invariant snake.nodes == old(snake.nodes) && snake.pairs == old(snake.pairs)
      invariant snake.tags == old(snake.tags)
    {
      var t := new Structure.Copy(tetra);
      t.AddTags(SegmentTags(i + 1));
      t.Move(Scale((i + 1) as real, Offset));
      snake.AddChild(t.Value());
      i := i + 1;
    }
  }

  // ---------------------------------------------------------------------
  // Muscles between adjacent segments

  /** Every segment has the nodes the wiring reads: with two or more
      segments, nodes 0 to 2 of the first, and nodes 0 to 3 of every later
      one (each later segment is read as `n1`, and again as `n0` for the
      next junction, which reads only its nodes 0 to 2). With fewer than
      two segments nothing is read. */
  predicate SegmentsShaped(cs: seq<Snapshot>) {
    |cs| >= 2 ==> |cs[0].nodes| >= 3 && forall i :: 1 <= i < |cs| ==> |cs[i].nodes| >= 4
  }

  /** The six muscles between a segment with nodes `n0` and the next one,
      with nodes `n1`: each of the first three base corners to the same
      corner of the next segment ("outer"), then each of them to the next
      segment's tip, node 3 ("inner"). */
  function JunctionPairs(n0: seq<Node>, n1: seq<Node>): (ps: seq<Pair>)
    requires |n0| >= 3 && |n1| >= 4
    ensures |ps| == 6
    ensures forall k :: 0 <= k < 6 ==> ps[k].PointPair? && ps[k].tags == MuscleRoles[k]
    ensures forall k :: 0 <= k < 3 ==> ps[k].a == n0[k].pos && ps[k].b == n1[k].pos
    ensures forall k :: 3 <= k < 6 ==> ps[k].a == n0[k - 3].pos && ps[k].b == n1[3].pos
  {
    [PointPair(n0[0].pos, n1[0].pos, OuterRight),
     PointPair(n0[1].pos, n1[1].pos, OuterLeft),
     PointPair(n0[2].pos, n1[2].pos, OuterTop),
     PointPair(n0[0].pos, n1[3].pos, InnerRight),
     PointPair(n0[1].pos, n1[3].pos, InnerLeft),
     PointPair(n0[2].pos, n1[3].pos, InnerTop)]
  }

  /** Of each junction of `cs`, the muscles at positions `lo` up to `hi`,
      junction after junction. */
  function JunctionSelect(cs: seq<Snapshot>, lo: nat, hi: nat): seq<Pair>
    requires SegmentsShaped(cs) && lo <= hi <= 6
    decreases |cs|
  {
    if |cs| < 2 then []
    else JunctionSelect(cs[..|cs| - 1], lo, hi) + JunctionPairs(cs[|cs| - 2].nodes, cs[|cs| - 1].nodes)[lo..hi]
  }

  /** All muscles `addMuscles` adds for the children `cs`: six per
      junction, none with fewer than two segments. */
  function Muscles(cs: seq<Snapshot>): (ms: seq<Pair>)
    requires SegmentsShaped(cs)
    ensures |ms| == if |cs| < 2 then 0 else 6 * (|cs| - 1)
    decreases |cs|
  {
    if |cs| < 2 then []
    else Muscles(cs[..|cs| - 1]) + JunctionPairs(cs[|cs| - 2].nodes, cs[|cs| - 1].nodes)
  }

  /** Muscle `k` of junction `i` (between segments i - 1 and i) stands at
      position 6 * (i - 1) + k. */
  lemma {:induction false} MusclesAt(cs: seq<Snapshot>, i: nat, k: nat)
    requires SegmentsShaped(cs)
    requires 1 <= i < |cs| && k < 6
    ensures 6 * (i - 1) + k < |Muscles(cs)|
    ensures Muscles(cs)[6 * (i - 1) + k] == JunctionPairs(cs[i - 1].nodes, cs[i].nodes)[k]
    decreases |cs|
  {
    var n := |cs|;
    var init := cs[..n - 1];
    var last := JunctionPairs(cs[n - 2].nodes, cs[n - 1].nodes);
    var idx := 6 * (i - 1) + k;
    assert Muscles(cs) == Muscles(init) + last;
    if i < n - 1 {
      MusclesAt(init, i, k);
      assert init[i - 1] == cs[i - 1] && init[i] == cs[i];
      assert Muscles(cs)[idx] == Muscles(init)[idx];
    } else {
      assert |Muscles(init)| == 6 * (i - 1);
      assert Muscles(cs)[idx] == last[k];
    }
  }

  /** Taking one more segment adds the muscles of one more junction. */
  lemma MusclesExtend(cs: seq<Snapshot>, i: nat)
    requires SegmentsShaped(cs) && 1 <= i < |cs|
    ensures SegmentsShaped(cs[..i]) && SegmentsShaped(cs[..i + 1])
    ensures Muscles(cs[..i + 1]) == Muscles(cs[..i]) + JunctionPairs(cs[i - 1].nodes, cs[i].nodes)
  {
    assert cs[..i + 1][..i] == cs[..i];
  }

  /** One pass of the `addMuscles` loop: the six muscles between the
      segments with nodes `n0` and `n1`. */
  method AddJunction(snake: Structure, n0: seq<Node>, n1: seq<Node>)
    requires |n0| >= 3 && |n1| >= 4
    modifies snake
    ensures snake.pairs == old(snake.pairs) + JunctionPairs(n0, n1)
    ensures snake.nodes == old(snake.nodes) && snake.tags == old(snake.tags)
    ensures snake.children == old(snake.children)
  {
    snake.AddPointPair(n0[0].pos, n1[0].pos, OuterRight);
    snake.AddPointPair(n0[1].pos, n1[1].pos, OuterLeft);
    snake.AddPointPair(n0[2].pos, n1[2].pos, OuterTop);
    snake.AddPointPair(n0[0].pos, n1[3].pos, InnerRight);
    snake.AddPointPair(n0[1].pos, n1[3].pos, InnerLeft);
    snake.AddPointPair(n0[2].pos, n1[3].pos, InnerTop);
  }

  /** `addMuscles`: six muscles for every pair of adjacent children. */
  method AddMuscles(snake: Structure)
    requires SegmentsShaped(snake.children)
    modifies snake
    ensures snake.children == old(snake.children)
    ensures snake.pairs == old(snake.pairs) + Muscles(snake.children)
    ensures snake.nodes == old(snake.nodes) && snake.tags == old(snake.tags)
  {
    var children := snake.children;
    var i := 1;
    while i < |children|
      invariant 1 <= i
      invariant children != [] ==> i <= |children| && snake.pairs == old(snake.pairs) + Muscles(children[..i])
      invariant children == [] ==> snake.pairs == old(snake.pairs)
      invariant snake.nodes == old(snake.nodes) && snake.children == children
      invariant snake.tags == old(snake.tags)
    {
      AddJunction(snake, children[i - 1].nodes, children[i].nodes);
      MusclesExtend(children, i);
      i := i + 1;
    }
    assert children != [] ==> children[..i] == children;
  }

  lemma {:induction false} MusclesSelectAll(cs: seq<Snapshot>)
    requires SegmentsShaped(cs)
    ensures JunctionSelect(cs, 0, 6) == Muscles(cs)
    decreases |cs|
  {
    if |cs| >= 2 {
      MusclesSelectAll(cs[..|cs| - 1]);
      var last := JunctionPairs(cs[|cs| - 2].nodes, cs[|cs| - 1].nodes);
      assert last[0..6] == last;
    }
  }

  lemma MulSucc(a: nat, b: nat)
    ensures a * (b + 1) == a * b + a
  {
  }

  lemma {:induction false} JunctionSelectLength(cs: seq<Snapshot>, lo: nat, hi: nat)
    requires SegmentsShaped(cs) && lo <= hi <= 6
    ensures |JunctionSelect(cs, lo, hi)| == if |cs| < 2 then 0 else (hi - lo) * (|cs| - 1)
    decreases |cs|
  {
    if |cs| >= 2 {
      var init := cs[..|cs| - 1];
      JunctionSelectLength(init, lo, hi);
      var a, m := hi - lo, |cs| - 2;
      assert |JunctionSelect(cs, lo, hi)| == |JunctionSelect(init, lo, hi)| + a;
      if m == 0 {
        assert a * (m + 1) == a;
      } else {
        assert |init| - 1 == m;
        MulSucc(a, m);
      }
    }
  }

  // ---------------------------------------------------------------------
  // Tag queries over the muscles

  /** The muscles a query matches within one junction are those at
      positions `lo` up to `hi`. */
  predicate Selects(query: Tags, lo: nat, hi: nat) {
    forall k :: 0 <= k < 6 ==> (query <= MuscleRoles[k] <==> lo <= k < hi)
  }

  /** A query that selects positions `lo` up to `hi` of a junction finds,
      among all muscles, exactly those positions of every junction, in
      insertion order. */
  lemma {:induction false} FindMuscles(query: Tags, cs: seq<Snapshot>, lo: nat, hi: nat)
    requires SegmentsShaped(cs) && lo <= hi <= 6 && Selects(query, lo, hi)
    ensures Find(query, Muscles(cs)) == JunctionSelect(cs, lo, hi)
    decreases |cs|
  {
    if |cs| >= 2 {
      var last := JunctionPairs(cs[|cs| - 2].nodes, cs[|cs| - 1].nodes);
      FindMuscles(query, cs[..|cs| - 1], lo, hi);
      FindAppend(query, Muscles(cs[..|cs| - 1]), last);
      FindRange(query, last, lo, hi);
    }
  }

  /** The queries the model issues: "muscle" selects all six muscles of a
      junction, "outer" the first three ("inner" the last three), and each
      full muscle tag the one muscle that carries it. */
  lemma QuerySelections()
    ensures Selects({"muscle"}, 0, 6)
    ensures Selects({"outer"}, 0, 3) && Selects({"inner"}, 3, 6)
    ensures Selects(OuterRight, 0, 1) && Selects(OuterLeft, 1, 2) && Selects(OuterTop, 2, 3)
    ensures Selects(InnerRight, 3, 4) && Selects(InnerLeft, 4, 5) && Selects(InnerTop, 5, 6)
  {
  }

  // ---------------------------------------------------------------------
  // The build spec

  /** The builders `setup` registers: "rod" and "static rod" realize rods,
      "top muscle", "left muscle" and "right muscle" realize muscles. */
  const SpineRegistry: Registry :=
    map[{"rod"} := Builder(RodInfo, "rodConfig"),
        {"static", "rod"} := Builder(RodInfo, "staticConfig"),
        {"top", "muscle"} := Builder(LinearStringInfo, "muscleConfig"),
        {"left", "muscle"} := Builder(LinearStringInfo, "muscleConfig2"),
        {"right", "muscle"} := Builder(LinearStringInfo, "muscleConfig2")]

  /** Each rod tag matches the "rod" builder and no other. */
  lemma RodsDispatched(i: nat)
    requires i < 8
    ensures Dispatched(SpineRegistry, TetraPairs()[i].tags)
  {
    var t := TetraPairs()[i].tags;
    assert {"rod"} in SpineRegistry && {"rod"} <= t;
    forall k | k in SpineRegistry && k <= t
      ensures k == {"rod"}
    {
      assert "static" !in t && "muscle" !in t;
    }
  }

  /** Each muscle tag matches exactly one muscle builder: the one for its
      direction ("right", "left" or "top"). */
  lemma MusclesDispatched(k: nat)
    requires k < 6
    ensures Dispatched(SpineRegistry, MuscleRoles[k])
  {
    var t := MuscleRoles[k];
    var side := if k % 3 == 0 then "right" else if k % 3 == 1 then "left" else "top";
    assert {side, "muscle"} in SpineRegistry && {side, "muscle"} <= t;
    forall key | key in SpineRegistry && key <= t
      ensures key == {side, "muscle"}
    {
    }
  }

  // ---------------------------------------------------------------------
  // The assembled spine

  const Edge: real := 38.1

  /** How far `setup` moves the unit before replicating it. */
  const Lift := Vec3(0.0, 2.0, 100.0)

  /** The unit `setup` replicates: the six nodes and eight rods, moved by the lift. */
  function Unit(edge: real, height: real, tipZ: real): Snapshot {
    Translate(Snapshot(TetraNodes(edge, height, tipZ), TetraPairs(), {}, []), Lift)
  }

  lemma UnitShape(edge: real, height: real, tipZ: real)
    ensures var u := Unit(edge, height, tipZ);
      && |u.nodes| == 6 && u.pairs == TetraPairs() && u.tags == {} && u.children == []
      && forall k :: 0 <= k < 6 ==> u.nodes[k] == MoveNode(TetraNodes(edge, height, tipZ)[k], Lift)
  {
    var raw := Snapshot(TetraNodes(edge, height, tipZ), TetraPairs(), {}, []);
    TranslateShape(raw, Lift);
    assert Unit(edge, height, tipZ).pairs == TetraPairs();
  }

  /** Segment `i` of the unit: six nodes and the eight rods, no children. */
  lemma SegmentOfUnit(edge: real, height: real, tipZ: real, i: nat)
    ensures var s := Segment(Unit(edge, height, tipZ), i);
      && |s.nodes| == 6 && s.children == [] && s.tags == SegmentTags(i + 1)
      && |s.pairs| == 8 && (forall k :: 0 <= k < 8 ==> s.pairs[k] == TetraPairs()[k])
  {
    UnitShape(edge, height, tipZ);
    SegmentShape(Unit(edge, height, tipZ), i);
  }

  lemma SpineSegmentsShaped(edge: real, height: real, tipZ: real, n: nat)
    ensures SegmentsShaped(Segments(Unit(edge, height, tipZ), n))
  {
    SegmentsAt(Unit(edge, height, tipZ), n);
    forall i | 0 <= i < n {
      SegmentOfUnit(edge, height, tipZ, i);
    }
  }

  /** The structure `setup` hands to the realizer: no nodes of its own, the
      muscles between its segments, and the `n` segments as children. */
  function Spine(n: nat, edge: real, height: real, tipZ: real): (sp: Snapshot)
    ensures SegmentsShaped(sp.children)
  {
    var cs := Segments(Unit(edge, height, tipZ), n);
    SpineSegmentsShaped(edge, height, tipZ, n);
    Snapshot([], Muscles(cs), {}, cs)
  }

  /** The spine has no nodes of its own and `n` children, child `i` being
      segment `i` of the unit: six nodes, the eight rods, no children, and
      the tag "segment num<i+1>". */
  lemma SpineChildren(n: nat, edge: real, height: real, tipZ: real)
    ensures var sp := Spine(n, edge, height, tipZ);
      && sp.nodes == [] && sp.tags == {} && |sp.children| == n
      && forall i :: 0 <= i < n ==>
           && sp.children[i] == Segment(Unit(edge, height, tipZ), i)
           && |sp.children[i].nodes| == 6 && sp.children[i].children == []
           && sp.children[i].tags == SegmentTags(i + 1)
           && sp.children[i].pairs == TetraPairs()
  {
    var u := Unit(edge, height, tipZ);
    var cs := Spine(n, edge, height, tipZ).children;
    assert cs == Segments(u, n);
    SegmentsAt(u, n);
    forall i | 0 <= i < n
      ensures |Segment(u, i).nodes| == 6 && Segment(u, i).children == []
      ensures Segment(u, i).tags == SegmentTags(i + 1) && Segment(u, i).pairs == TetraPairs()
    {
      SegmentOfUnit(edge, height, tipZ, i);
      assert Segment(u, i).pairs == TetraPairs();
    }
  }

  /** Node `k` of segment `i` is node `k` of the lifted unit moved by
      (i + 1) times the offset, with the unit node's tags. */
  lemma SpineNodes(n: nat, edge: real, height: real, tipZ: real, i: nat, k: nat)
    requires i < n && k < 6
    ensures var sp := Spine(n, edge, height, tipZ); var t := TetraNodes(edge, height, tipZ)[k];
      && i < |sp.children| && k < |sp.children[i].nodes|
      && sp.children[i].nodes[k].pos == Add(Add(t.pos, Lift), Scale((i + 1) as real, Offset))
      && sp.children[i].nodes[k].tags == t.tags
  {
    SpineChildren(n, edge, height, tipZ);
    UnitShape(edge, height, tipZ);
    SegmentShape(Unit(edge, height, tipZ), i);
  }

  /** The spine holds six muscles per junction, all pairs of positions, and
      every index pair in it (the rods of the segments) is in range. */
  lemma SpinePairs(n: nat, edge: real, height: real, tipZ: real)
    ensures var sp := Spine(n, edge, height, tipZ);
      && |sp.pairs| == (if n < 2 then 0 else 6 * (n - 1))
      && (forall j :: 0 <= j < |sp.pairs| ==> sp.pairs[j].PointPair?)
      && WellFormed(sp)
  {
    var sp := Spine(n, edge, height, tipZ);
    SpineChildren(n, edge, height, tipZ);
    forall j | 0 <= j < |sp.pairs|
      ensures sp.pairs[j].PointPair?
    {
      MusclesPointPairs(sp.children, j);
    }
    WiredWellFormed(sp);
  }

  /** A structure whose own pairs are all positional and whose children are
      copies of the unit (six nodes, the eight rods, no children) has every
      index in range. */
  lemma WiredWellFormed(s: Snapshot)
    requires forall j :: 0 <= j < |s.pairs| ==> s.pairs[j].PointPair?
    requires forall i :: 0 <= i < |s.children| ==>
      |s.children[i].nodes| == 6 && s.children[i].pairs == TetraPairs() && s.children[i].children == []
    ensures WellFormed(s)
  {
    forall i | 0 <= i < |s.children|
      ensures WellFormed(s.children[i])
    {
      var c := s.children[i];
      assert forall j :: 0 <= j < |c.pairs| ==> c.pairs[j].from < 6 && c.pairs[j].to < 6;
    }
  }

  lemma {:induction false} MusclesPointPairs(cs: seq<Snapshot>, j: nat)
    requires SegmentsShaped(cs) && j < |Muscles(cs)|
    ensures Muscles(cs)[j].PointPair? && Muscles(cs)[j].tags in MuscleRoles
    decreases |cs|
  {
    var init := cs[..|cs| - 1];
    if j < |Muscles(init)| {
      MusclesPointPairs(init, j);
    }
  }

  /** No rod of a segment matches a query naming "muscle", "outer" or "inner". */
  lemma SegmentsInvisible(query: Tags, n: nat, edge: real, height: real, tipZ: real)
    requires "muscle" in query || "outer" in query || "inner" in query
    ensures var sp := Spine(n, edge, height, tipZ);
      forall i :: 0 <= i < |sp.children| ==> NoMatchBelow(query, sp.children[i])
  {
    SpineChildren(n, edge, height, tipZ);
  }

  /** Every pair the spine hands to the realizer, rod or muscle, matches
      exactly one registered builder. */
  lemma SpineDispatched(n: nat, edge: real, height: real, tipZ: real)
    ensures DispatchedBelow(SpineRegistry, Spine(n, edge, height, tipZ))
  {
    var sp := Spine(n, edge, height, tipZ);
    SpineChildren(n, edge, height, tipZ);
    forall j | 0 <= j < |sp.pairs|
      ensures sp.pairs[j].tags in MuscleRoles
    {
      MusclesPointPairs(sp.children, j);
    }
    WiredDispatched(sp);
  }

  /** A structure whose own pairs are muscles and whose children are copies
      of the unit has exactly one builder for every pair at every depth. */
  lemma WiredDispatched(s: Snapshot)
    requires forall j :: 0 <= j < |s.pairs| ==> s.pairs[j].tags in MuscleRoles
    requires forall i :: 0 <= i < |s.children| ==>
      s.children[i].pairs == TetraPairs() && s.children[i].children == []
    ensures DispatchedBelow(SpineRegistry, s)
  {
    forall j | 0 <= j < |s.pairs|
      ensures Dispatched(SpineRegistry, s.pairs[j].tags)
    {
      var k :| 0 <= k < 6 && MuscleRoles[k] == s.pairs[j].tags;
      MusclesDispatched(k);
    }
    forall i | 0 <= i < |s.children|
      ensures DispatchedBelow(SpineRegistry, s.children[i])
    {
      forall j | 0 <= j < 8
        ensures Dispatched(SpineRegistry, s.children[i].pairs[j].tags)
      {
        RodsDispatched(j);
      }
    }
  }

  /** Over the whole realized spine, a query that selects positions `lo`
      up to `hi` of each junction finds exactly those muscles, junction
      after junction, (hi - lo) * (n - 1) of them. */
  lemma SpineFind(query: Tags, lo: nat, hi: nat, n: nat, edge: real, height: real, tipZ: real)
    requires lo <= hi <= 6 && Selects(query, lo, hi)
    requires "muscle" in query || "outer" in query || "inner" in query
    ensures var sp := Spine(n, edge, height, tipZ);
      && Find(query, AllPairs(sp)) == JunctionSelect(sp.children, lo, hi)
      && |Find(query, AllPairs(sp))| == (if n < 2 then 0 else (hi - lo) * (n - 1))
  {
    var sp := Spine(n, edge, height, tipZ);
    SpineChildren(n, edge, height, tipZ);
    SegmentsInvisible(query, n, edge, height, tipZ);
    ChildrenInvisible(query, sp);
    FindMuscles(query, sp.children, lo, hi);
    JunctionSelectLength(sp.children, lo, hi);
  }

  /** "muscle" finds every muscle of the spine and nothing else, in
      insertion order, 6 * (n - 1) of them. */
  lemma SpineFindMuscles(n: nat, edge: real, height: real, tipZ: real)
    ensures var sp := Spine(n, edge, height, tipZ);
      && Find({"muscle"}, AllPairs(sp)) == sp.pairs
      && |sp.pairs| == (if n < 2 then 0 else 6 * (n - 1))
  {
    QuerySelections();
    SpineFind({"muscle"}, 0, 6, n, edge, height, tipZ);
    MusclesSelectAll(Spine(n, edge, height, tipZ).children);
  }

  /** "outer" finds the three outer muscles of every junction, 3 * (n - 1). */
  lemma SpineFindOuter(n: nat, edge: real, height: real, tipZ: real)
    ensures var sp := Spine(n, edge, height, tipZ);
      && Find({"outer"}, AllPairs(sp)) == JunctionSelect(sp.children, 0, 3)
      && |Find({"outer"}, AllPairs(sp))| == (if n < 2 then 0 else 3 * (n - 1))
  {
    QuerySelections();
    SpineFind({"outer"}, 0, 3, n, edge, height, tipZ);
  }

  /** Each full muscle tag finds that muscle of every junction, n - 1 of them. */
  lemma SpineFindRole(k: nat, n: nat, edge: real, height: real, tipZ: real)
    requires k < 6
    ensures var sp := Spine(n, edge, height, tipZ);
      && Find(MuscleRoles[k], AllPairs(sp)) == JunctionSelect(sp.children, k, k + 1)
      && |Find(MuscleRoles[k], AllPairs(sp))| == (if n < 2 then 0 else n - 1)
  {
    QuerySelections();
    SpineFind(MuscleRoles[k], k, k + 1, n, edge, height, tipZ);
  }

  /** "segment" finds every segment; the token "num<j>" is carried by
      segment j - 1 and by no other, so each segment can be picked out alone. */
  lemma SegmentQueries(n: nat, edge: real, height: real, tipZ: real)
    ensures var cs := Spine(n, edge, height, tipZ).children;
      && |cs| == n
      && FindChildren({"segment"}, cs) == cs
      && forall i, j :: 0 <= i < |cs| && 1 <= j <= |cs| ==>
           (("num" + Decimal(j)) in cs[i].tags <==> i + 1 == j)
  {
    var cs := Spine(n, edge, height, tipZ).children;
    SpineChildren(n, edge, height, tipZ);
    SegmentsFound(cs);
    SegmentsNumbered(cs);
  }

  /** Children tagged "segment num<k>" are all found, in order, by "segment". */
  lemma SegmentsFound(cs: seq<Snapshot>)
    requires forall i :: 0 <= i < |cs| ==> cs[i].tags == SegmentTags(i + 1)
    ensures FindChildren({"segment"}, cs) == cs
  {
    forall i | 0 <= i < |cs|
      ensures {"segment"} <= cs[i].tags
    {
      SegmentToken(cs[i], i + 1);
    }
    FindChildrenAll({"segment"}, cs);
  }

  /** Of children tagged "segment num<1>", "segment num<2>", ... in order,
      the token "num<j>" picks out child j - 1 alone. */
  lemma SegmentsNumbered(cs: seq<Snapshot>)
    requires forall i :: 0 <= i < |cs| ==> cs[i].tags == SegmentTags(i + 1)
    ensures forall i, j :: 0 <= i < |cs| && 1 <= j <= |cs| ==>
      (("num" + Decimal(j)) in cs[i].tags <==> i + 1 == j)
  {
    forall i, j | 0 <= i < |cs| && 1 <= j <= |cs|
      ensures ("num" + Decimal(j)) in cs[i].tags <==> i + 1 == j
    {
      NumTokenOf(cs[i], i + 1, j);
    }
  }

  lemma SegmentToken(c: Snapshot, k: nat)
    requires c.tags == SegmentTags(k)
    ensures {"segment"} <= c.tags
  {
  }

  lemma NumTokenOf(c: Snapshot, k: nat, j: nat)
    requires c.tags == SegmentTags(k)
    ensures ("num" + Decimal(j)) in c.tags <==> k == j
  {
    NumToken(k, j);
  }

  /** No rod or muscle anywhere in the spine carries the token "segment", so
      a "segment" query over every realized model below the spine finds
      nothing but its segment children. */
  lemma SpineSegmentsOnly(n: nat, edge: real, height: real, tipZ: real)
    ensures NoMatchBelow({"segment"}, Spine(n, edge, height, tipZ))
  {
    var sp := Spine(n, edge, height, tipZ);
    SpineChildren(n, edge, height, tipZ);
    forall j | 0 <= j < |sp.pairs|
      ensures sp.pairs[j].tags in MuscleRoles
    {
      MusclesPointPairs(sp.children, j);
    }
    NoSegmentTokenBelow(sp);
  }

  /** A structure whose own pairs are muscles and whose children are copies
      of the unit has no pair with the token "segment" at any depth. */
  lemma NoSegmentTokenBelow(s: Snapshot)
    requires forall j :: 0 <= j < |s.pairs| ==> s.pairs[j].tags in MuscleRoles
    requires forall i :: 0 <= i < |s.children| ==>
      s.children[i].pairs == TetraPairs() && s.children[i].children == []
    ensures NoMatchBelow({"segment"}, s)
  {
    forall i | 0 <= i < |s.children|
      ensures NoMatchBelow({"segment"}, s.children[i])
    {
      var c := s.children[i];
      assert forall j :: 0 <= j < |c.pairs| ==> "segment" !in c.pairs[j].tags;
    }
  }

  /** The token "num<j>" belongs to the tags of segment number k exactly when j == k. */
  lemma NumToken(k: nat, j: nat)
    ensures ("num" + Decimal(j)) in SegmentTags(k) <==> k == j
  {
    var a, b := "num" + Decimal(j), "num" + Decimal(k);
    assert a != "segment" by { assert a[0] == 'n'; }
    if a == b {
      assert a[3..] == Decimal(j) && b[3..] == Decimal(k);
      DecimalInjective(j, k);
    }
  }

  /** The construction steps of `setup`: the unit is built, lifted, and
      replicated into `segmentCount` segments wired by muscles. */
  method BuildSnake(segmentCount: nat, height: real, tipZ: real) returns (snake: Structure)
    ensures fresh(snake) && snake.Value() == Spine(segmentCount, Edge, height, tipZ)
  {
    var edge := Edge;
    var tetra := new Structure();
    AddNodes(tetra, edge, height, tipZ);
    AddPairs(tetra);
    assert tetra.pairs == TetraPairs();
    tetra.Move(Lift);
    assert tetra.Value() == Unit(edge, height, tipZ);
    snake := new Structure();
    AddSegments(snake, tetra, edge, segmentCount);
    SpineSegmentsShaped(edge, height, tipZ, segmentCount);
    assert snake.children == Segments(Unit(edge, height, tipZ), segmentCount);
    AddMuscles(snake);
  }

  /** The builder registrations of `setup`. */
  method RegisterBuilders() returns (spec: BuildSpec)
    ensures fresh(spec) && spec.builders == SpineRegistry
  {
    spec := new BuildSpec();
    spec.AddBuilder({"rod"}, Builder(RodInfo, "rodConfig"));
    spec.AddBuilder({"static", "rod"}, Builder(RodInfo, "staticConfig"));
    spec.AddBuilder({"top", "muscle"}, Builder(LinearStringInfo, "muscleConfig"));
    spec.AddBuilder({"left", "muscle"}, Builder(LinearStringInfo, "muscleConfig2"));
    spec.AddBuilder({"right", "muscle"}, Builder(LinearStringInfo, "muscleConfig2"));
  }

  /** `mapMuscles`: each of the six labels is bound to what its muscle tag
      finds; there are no other labels. */
  function MapMuscles(s: Snapshot): (m: map<string, seq<Pair>>)
    ensures m.Keys == {"inner left", "inner right", "inner top", "outer left", "outer right", "outer top"}
    ensures m["inner left"] == Find(InnerLeft, AllPairs(s)) && m["inner right"] == Find(InnerRight, AllPairs(s))
    ensures m["inner top"] == Find(InnerTop, AllPairs(s)) && m["outer left"] == Find(OuterLeft, AllPairs(s))
    ensures m["outer right"] == Find(OuterRight, AllPairs(s)) && m["outer top"] == Find(OuterTop, AllPairs(s))
  {
    map["inner left" := Find(InnerLeft, AllPairs(s)),
        "inner right" := Find(InnerRight, AllPairs(s)),
        "inner top" := Find(InnerTop, AllPairs(s)),
        "outer left" := Find(OuterLeft, AllPairs(s)),
        "outer right" := Find(OuterRight, AllPairs(s)),
        "outer top" := Find(OuterTop, AllPairs(s))]
  }

  /** When each muscle tag finds that muscle of every junction of `cs`,
      each label of the muscle map holds exactly those muscles. */
  lemma MuscleMapOf(s: Snapshot, cs: seq<Snapshot>)
    requires SegmentsShaped(cs)
    requires forall k :: 0 <= k < 6 ==> Find(MuscleRoles[k], AllPairs(s)) == JunctionSelect(cs, k, k + 1)
    ensures MapMuscles(s) == map[
      "inner left" := JunctionSelect(cs, 4, 5),
      "inner right" := JunctionSelect(cs, 3, 4),
      "inner top" := JunctionSelect(cs, 5, 6),
      "outer left" := JunctionSelect(cs, 1, 2),
      "outer right" := JunctionSelect(cs, 0, 1),
      "outer top" := JunctionSelect(cs, 2, 3)]
  {
    assert Find(MuscleRoles[0], AllPairs(s)) == JunctionSelect(cs, 0, 1);
    assert Find(MuscleRoles[1], AllPairs(s)) == JunctionSelect(cs, 1, 2);
    assert Find(MuscleRoles[2], AllPairs(s)) == JunctionSelect(cs, 2, 3);
    assert Find(MuscleRoles[3], AllPairs(s)) == JunctionSelect(cs, 3, 4);
    assert Find(MuscleRoles[4], AllPairs(s)) == JunctionSelect(cs, 4, 5);
    assert Find(MuscleRoles[5], AllPairs(s)) == JunctionSelect(cs, 5, 6);
  }

  /** On the spine, each label of the muscle map holds that muscle of every
      junction, in insertion order, and nothing else. */
  lemma SpineMuscleMap(n: nat, edge: real, height: real, tipZ: real)
    ensures var sp := Spine(n, edge, height, tipZ);
      MapMuscles(sp) == map[
        "inner left" := JunctionSelect(sp.children, 4, 5),
        "inner right" := JunctionSelect(sp.children, 3, 4),
        "inner top" := JunctionSelect(sp.children, 5, 6),
        "outer left" := JunctionSelect(sp.children, 1, 2),
        "outer right" := JunctionSelect(sp.children, 0, 1),
        "outer top" := JunctionSelect(sp.children, 2, 3)]
  {
    var sp := Spine(n, edge, height, tipZ);
    forall k | 0 <= k < 6
      ensures Find(MuscleRoles[k], AllPairs(sp)) == JunctionSelect(sp.children, k, k + 1)
    {
      SpineFindRole(k, n, edge, height, tipZ);
    }
    MuscleMapOf(sp, sp.children);
  }

  // ---------------------------------------------------------------------
  // The model

  class TetraSpineStaticModel {
    const segments: nat
    /** The structure handed to the realizer by `setup`. */
    var structure: Snapshot
    var registry: Registry
    /** What `find` returns for "muscle" and "segment" after realization. */
    var allMuscles: seq<Pair>
    var allSegments: seq<Snapshot>
    var muscleMap: map<string, seq<Pair>>
    /** The time steps passed on to the base spine model, oldest first. */
    var stepped: seq<real>

    constructor (segments: nat)
      ensures this.segments == segments && structure == Empty && registry == map[]
      ensures allMuscles == [] && allSegments == [] && muscleMap == map[] && stepped == []
    {
      this.segments := segments;
      structure, registry := Empty, map[];
      allMuscles, allSegments, muscleMap, stepped := [], [], map[], [];
    }

    /** Builds the unit, moves it, replicates it into `segments` segments,
        wires the muscles, registers the builders and issues the tag
        queries. `height` and `tipZ` stand for the two rounded square-root
        expressions of the source. What the queries return on the spine is
        stated by `SpineFindMuscles`, `SegmentQueries` and `SpineMuscleMap`. */
    method Setup(height: real, tipZ: real)
      modifies this
      ensures structure == Spine(segments, Edge, height, tipZ)
      ensures registry == SpineRegistry
      ensures allMuscles == Find({"muscle"}, AllPairs(structure))
      ensures allSegments == FindChildren({"segment"}, structure.children)
      ensures muscleMap == MapMuscles(structure)
      ensures stepped == old(stepped)
    {
      var snake := BuildSnake(segments, height, tipZ);
      var spec := RegisterBuilders();
      structure, registry := snake.Value(), spec.builders;
      CollectQueries();
    }

    /** The tag queries `setup` issues on the realized structure. */
    method CollectQueries()
      modifies this
      ensures allMuscles == Find({"muscle"}, AllPairs(structure))
      ensures allSegments == FindChildren({"segment"}, structure.children)
      ensures muscleMap == MapMuscles(structure)
      ensures structure == old(structure) && registry == old(registry) && stepped == old(stepped)
    {
      allMuscles := Find({"muscle"}, AllPairs(structure));
      allSegments := FindChildren({"segment"}, structure.children);
      muscleMap := MapMuscles(structure);
    }

    /** Rejects a negative time step; any other, zero included, is passed on. */
    method Step(dt: real) returns (r: StepOutcome)
      modifies this
      ensures r.InvalidArgument? <==> dt < 0.0
      ensures r.InvalidArgument? ==> r.message == "dt is not positive" && stepped == old(stepped)
      ensures r.Stepped? ==> stepped == old(stepped) + [dt]
      ensures structure == old(structure) && registry == old(registry)
      ensures allMuscles == old(allMuscles) && allSegments == old(allSegments)
      ensures muscleMap == old(muscleMap)
    {
      if dt < 0.0 {
        r := InvalidArgument("dt is not positive");
      } else {
        stepped := stepped + [dt];
        r := Stepped;
      }
    }
  }
}
