/** TensegrityModel: a structure built from a parsed description (node
    coordinates, rods and muscles as one-based node numbers), lifted by
    10 along y, and realized with one builder for "rod" and one for "muscle". */
module GenericTensegrity {
  import opened Geometry
  import opened Structures

  const Rod: Tags := {"rod"}
  const Muscle: Tags := {"muscle"}

  /** How far `setup` moves the structure so that it does not start in the ground. */
  const Lift := Vec3(0.0, 10.0, 0.0)

  /** One entry [n1, n2] of the "rods" or "muscles" array: one-based node numbers. */
  datatype Entry = Entry(n1: int, n2: int)

  /** The parsed description: the coordinates of each node, then the rod and
      muscle entries. */
  datatype Description = Description(nodes: seq<Vec3>, rods: seq<Entry>, muscles: seq<Entry>)

  /** Every entry names two of the first `count` nodes. */
  predicate InRange(es: seq<Entry>, count: nat) {
    forall i :: 0 <= i < |es| ==> 1 <= es[i].n1 <= count && 1 <= es[i].n2 <= count
  }

  predicate WellIndexed(d: Description) {
    InRange(d.rods, |d.nodes|) && InRange(d.muscles, |d.nodes|)
  }

  /** One untagged node per coordinate triple, in order. */
  function NodesOf(cs: seq<Vec3>): seq<Node> {
    seq(|cs|, i requires 0 <= i < |cs| => Node(cs[i], {}))
  }

  /** One pair per entry, in order, from node n1 - 1 to node n2 - 1, tagged `t`. */
  function PairsOf(es: seq<Entry>, t: Tags): seq<Pair>
    requires forall i :: 0 <= i < |es| ==> es[i].n1 >= 1 && es[i].n2 >= 1
  {
    seq(|es|, i requires 0 <= i < |es| => IndexPair(es[i].n1 - 1, es[i].n2 - 1, t))
  }

  method AddNodes(s: Structure, coords: seq<Vec3>)
    modifies s
    ensures s.nodes == old(s.nodes) + NodesOf(coords)
    ensures s.pairs == old(s.pairs) && s.tags == old(s.tags) && s.children == old(s.children)
  {
    var i := 0;
    while i < |coords|
      invariant i <= |coords|
      invariant s.nodes == old(s.nodes) + NodesOf(coords[..i])
      invariant s.pairs == old(s.pairs) && s.tags == old(s.tags) && s.children == old(s.children)
    {
      var c := coords[i];
      s.AddNode(Vec3(c.x, c.y, c.z), {});
      assert NodesOf(coords[..i + 1]) == NodesOf(coords[..i]) + [Node(coords[i], {})];
      i := i + 1;
    }
    assert coords[..i] == coords;
  }

  /** Appends one pair per entry tagged `t`; shared by `addRods` and `addMuscles`. */
  method AddEntries(s: Structure, es: seq<Entry>, t: Tags)
    requires InRange(es, |s.nodes|)
    modifies s
    ensures s.pairs == old(s.pairs) + PairsOf(es, t)
    ensures s.nodes == old(s.nodes) && s.tags == old(s.tags) && s.children == old(s.children)
  {
    var i := 0;
    while i < |es|
      invariant i <= |es|
      invariant s.pairs == old(s.pairs) + PairsOf(es[..i], t)
      invariant s.nodes == old(s.nodes) && s.tags == old(s.tags) && s.children == old(s.children)
    {
      var n1 := es[i].n1;
      var n2 := es[i].n2;
      s.AddPair(n1 - 1, n2 - 1, t);
      assert PairsOf(es[..i + 1], t) == PairsOf(es[..i], t) + [IndexPair(n1 - 1, n2 - 1, t)];
      i := i + 1;
    }
    assert es[..i] == es;
  }

  method AddRods(s: Structure, rods: seq<Entry>)
    requires InRange(rods, |s.nodes|)
    modifies s
    ensures s.pairs == old(s.pairs) + PairsOf(rods, Rod)
    ensures s.nodes == old(s.nodes) && s.tags == old(s.tags) && s.children == old(s.children)
  {
    AddEntries(s, rods, Rod);
  }

  method AddMuscles(s: Structure, muscles: seq<Entry>)
    requires InRange(muscles, |s.nodes|)
    modifies s
    ensures s.pairs == old(s.pairs) + PairsOf(muscles, Muscle)
    ensures s.nodes == old(s.nodes) && s.tags == old(s.tags) && s.children == old(s.children)
  {
    AddEntries(s, muscles, Muscle);
  }

  /** The structure `setup` builds from a description before it is moved. */
  function Unmoved(d: Description): Snapshot
    requires WellIndexed(d)
  {
    Snapshot(NodesOf(d.nodes), PairsOf(d.rods, Rod) + PairsOf(d.muscles, Muscle), {}, [])
  }

  /** The structure `setup` hands to the realizer: one node per triple,
      one pair per rod and per muscle, no tags and no children. */
  function Assembled(d: Description): (s: Snapshot)
    requires WellIndexed(d)
    ensures |s.nodes| == |d.nodes| && |s.pairs| == |d.rods| + |d.muscles|
    ensures s.tags == {} && s.children == []
  {
    Translate(Unmoved(d), Lift)
  }

  /** The pairs handed to the realizer are the rods, then the muscles:
      the move leaves index pairs as they are. */
  lemma AssembledPairs(d: Description)
    requires WellIndexed(d)
    ensures Assembled(d).pairs == PairsOf(d.rods, Rod) + PairsOf(d.muscles, Muscle)
    ensures Assembled(d).tags == {} && Assembled(d).children == []
  {
    var u := Unmoved(d);
    var rods, muscles := PairsOf(d.rods, Rod), PairsOf(d.muscles, Muscle);
    forall i | 0 <= i < |u.pairs|
      ensures u.pairs[i].IndexPair?
    {
      if i < |rods| {
        assert u.pairs[i] == rods[i];
      } else {
        assert u.pairs[i] == muscles[i - |rods|];
      }
    }
    TranslateIndexPairs(u, Lift);
  }

  /** Node i is the i-th coordinate triple raised by 10 along y, untagged. */
  lemma AssembledNodes(d: Description)
    requires WellIndexed(d)
    ensures |Assembled(d).nodes| == |d.nodes|
    ensures forall i :: 0 <= i < |d.nodes| ==>
      Assembled(d).nodes[i] == Node(Vec3(d.nodes[i].x, d.nodes[i].y + 10.0, d.nodes[i].z), {})
  {
    TranslateShape(Unmoved(d), Lift);
  }

  /** Every rod and muscle of the built structure names one of its nodes. */
  lemma AssembledWellFormed(d: Description)
    requires WellIndexed(d)
    ensures WellFormed(Assembled(d))
  {
    var u := Unmoved(d);
    var rods, muscles := PairsOf(d.rods, Rod), PairsOf(d.muscles, Muscle);
    forall i | 0 <= i < |u.pairs| && u.pairs[i].IndexPair?
      ensures u.pairs[i].from < |u.nodes| && u.pairs[i].to < |u.nodes|
    {
      if i < |rods| {
        assert u.pairs[i] == rods[i];
      } else {
        assert u.pairs[i] == muscles[i - |rods|];
      }
    }
    TranslateWellFormed(u, Lift);
  }

  /** Node i sits at the i-th coordinate triple raised by 10 along y, with
      no tags; the pairs are the rods in order, then the muscles in order,
      each from node n1 - 1 to node n2 - 1; every index is in range. */
  lemma AssembledLayout(d: Description)
    requires WellIndexed(d)
    ensures var s := Assembled(d);
      && |s.nodes| == |d.nodes| && s.tags == {} && s.children == []
      && (forall i :: 0 <= i < |d.nodes| ==>
            s.nodes[i] == Node(Vec3(d.nodes[i].x, d.nodes[i].y + 10.0, d.nodes[i].z), {}))
      && |s.pairs| == |d.rods| + |d.muscles|
      && (forall i :: 0 <= i < |d.rods| ==>
            s.pairs[i] == IndexPair(d.rods[i].n1 - 1, d.rods[i].n2 - 1, Rod))
      && (forall j :: 0 <= j < |d.muscles| ==>
            s.pairs[|d.rods| + j] == IndexPair(d.muscles[j].n1 - 1, d.muscles[j].n2 - 1, Muscle))
      && WellFormed(s)
  {
    AssembledNodes(d);
    AssembledPairs(d);
    AssembledWellFormed(d);
    var s := Assembled(d);
    var rods, muscles := PairsOf(d.rods, Rod), PairsOf(d.muscles, Muscle);
    forall i | 0 <= i < |d.rods|
      ensures s.pairs[i] == IndexPair(d.rods[i].n1 - 1, d.rods[i].n2 - 1, Rod)
    {
      assert s.pairs[i] == rods[i];
    }
    forall j | 0 <= j < |d.muscles|
      ensures s.pairs[|d.rods| + j] == IndexPair(d.muscles[j].n1 - 1, d.muscles[j].n2 - 1, Muscle)
    {
      assert s.pairs[|d.rods| + j] == muscles[j];
    }
  }

  /** "rod" finds exactly the rods and "muscle" exactly the muscles, each
      in the order of its array. */
  lemma AssembledFind(d: Description)
    requires WellIndexed(d)
    ensures Find(Rod, AllPairs(Assembled(d))) == PairsOf(d.rods, Rod)
    ensures Find(Muscle, AllPairs(Assembled(d))) == PairsOf(d.muscles, Muscle)
  {
    var s := Assembled(d);
    AssembledPairs(d);
    assert AllPairs(s) == s.pairs;
    FindSplit(PairsOf(d.rods, Rod), PairsOf(d.muscles, Muscle));
  }

  /** Over rods followed by muscles, each of the two tags finds its own kind. */
  lemma FindSplit(rods: seq<Pair>, muscles: seq<Pair>)
    requires forall i :: 0 <= i < |rods| ==> rods[i].tags == Rod
    requires forall i :: 0 <= i < |muscles| ==> muscles[i].tags == Muscle
    ensures Find(Rod, rods + muscles) == rods
    ensures Find(Muscle, rods + muscles) == muscles
  {
    assert !(Rod <= Muscle) && !(Muscle <= Rod) by {
      assert "rod" !in Muscle;
      assert "muscle" !in Rod;
    }
    FindAppend(Rod, rods, muscles);
    FindAll(Rod, rods);
    FindNone(Rod, muscles);
    FindAppend(Muscle, rods, muscles);
    FindNone(Muscle, rods);
    FindAll(Muscle, muscles);
  }

  /** The two builders `setup` registers. */
  const TensegrityRegistry: Registry :=
    map[Rod := Builder(RodInfo, "rodConfig"), Muscle := Builder(BasicActuatorInfo, "muscleConfig")]

  /** "rod" and "muscle" each match exactly one registered builder: their own. */
  lemma TagsDispatched(t: Tags)
    requires t == Rod || t == Muscle
    ensures Dispatched(TensegrityRegistry, t)
  {
    assert t in TensegrityRegistry && t <= t;
    forall k | k in TensegrityRegistry && k <= t
      ensures k == t
    {
      assert "rod" != "muscle";
    }
  }

  /** Every pair is tagged exactly "rod" or exactly "muscle", and so is
      realized by exactly one of the two registered builders. */
  lemma AssembledDispatched(d: Description)
    requires WellIndexed(d)
    ensures forall p :: p in Assembled(d).pairs ==> p.tags == Rod || p.tags == Muscle
    ensures DispatchedBelow(TensegrityRegistry, Assembled(d))
  {
    var s := Assembled(d);
    var rods, muscles := PairsOf(d.rods, Rod), PairsOf(d.muscles, Muscle);
    AssembledPairs(d);
    assert forall p :: p in rods ==> p.tags == Rod;
    assert forall p :: p in muscles ==> p.tags == Muscle;
    forall i | 0 <= i < |s.pairs|
      ensures Dispatched(TensegrityRegistry, s.pairs[i].tags)
    {
      assert s.pairs[i] in rods + muscles;
      TagsDispatched(s.pairs[i].tags);
    }
  }

  /** Moving the built structure back by the lift gives what the three
      adding steps produced. */
  lemma AssembledUnlift(d: Description)
    requires WellIndexed(d)
    ensures Translate(Assembled(d), Neg(Lift)) == Unmoved(d)
  {
    TranslateRoundTrip(Unmoved(d), Lift);
  }

  /** The construction steps of `setup`: nodes, rods and muscles are added
      to an empty structure, which is then moved by the lift. */
  method BuildStructure(d: Description) returns (s: Structure)
    requires WellIndexed(d)
    ensures fresh(s) && s.Value() == Assembled(d)
  {
    s := new Structure();
    AddNodes(s, d.nodes);
    AddRods(s, d.rods);
    AddMuscles(s, d.muscles);
    assert s.Value() == Unmoved(d);
    s.Move(Lift);
  }

  /** The builder registrations of `setup`. */
  method RegisterBuilders() returns (spec: BuildSpec)
    ensures fresh(spec) && spec.builders == TensegrityRegistry
  {
    spec := new BuildSpec();
    spec.AddBuilder(Rod, Builder(RodInfo, "rodConfig"));
    spec.AddBuilder(Muscle, Builder(BasicActuatorInfo, "muscleConfig"));
  }

  // ---------------------------------------------------------------------
  // The model

  /** What the model reports to its observers and does to its children. */
  datatype Event = NotifySetup | NotifyStep(dt: real) | StepChildren(dt: real)

  class TensegrityModel {
    var built: bool
    /** The structure handed to the realizer, and the builders it was given. */
    var structure: Snapshot
    var registry: Registry
    /** The muscles, which the realizer turns into the model's actuators. */
    var allActuators: seq<Pair>
    var events: seq<Event>

    constructor ()
      ensures !built && structure == Empty && registry == map[] && allActuators == [] && events == []
    {
      built, structure, registry, allActuators, events := false, Empty, map[], [], [];
    }

    /** Builds from the parsed description; when parsing failed nothing is
        built, registered or notified. */
    method Setup(parsed: bool, d: Description)
      requires parsed ==> WellIndexed(d)
      modifies this
      ensures !parsed ==> built == old(built) && structure == old(structure) && registry == old(registry)
      ensures !parsed ==> allActuators == old(allActuators) && events == old(events)
      ensures parsed ==> built && structure == Assembled(d) && registry == TensegrityRegistry
      ensures parsed ==> allActuators == PairsOf(d.muscles, Muscle)
      ensures parsed ==> events == old(events) + [NotifySetup]
    {
      if !parsed {
        return;
      }
      var s := BuildStructure(d);
      var spec := RegisterBuilders();
      var value := s.Value();
      var actuators := Find(Muscle, AllPairs(value));
      assert actuators == PairsOf(d.muscles, Muscle) by {
        AssembledFind(d);
      }
      built, structure, registry := true, value, spec.builders;
      allActuators := actuators;
      events := events + [NotifySetup];
    }

    /** Rejects a time step that is not strictly positive; otherwise notifies
        the observers and then steps the children. */
    method Step(dt: real) returns (r: StepOutcome)
      modifies this
      ensures r.InvalidArgument? <==> dt <= 0.0
      ensures r.InvalidArgument? ==> r.message == "dt is not positive" && events == old(events)
      ensures r.Stepped? ==> events == old(events) + [NotifyStep(dt), StepChildren(dt)]
      ensures built == old(built) && structure == old(structure) && registry == old(registry)
      ensures allActuators == old(allActuators)
    {
      if dt <= 0.0 {
        r := InvalidArgument("dt is not positive");
      } else {
        events := events + [NotifyStep(dt)];
        events := events + [StepChildren(dt)];
        r := Stepped;
      }
    }
  }
}
