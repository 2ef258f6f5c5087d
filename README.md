# Tensegrity structure builders, modelled in Dafny

This project models the topology-building code of two NTRT tensegrity models.
In both, points and index pairs become a tagged structure: nodes, pairs
(rods and muscles) and child structures. A build spec maps tags to the
builders that later realize each pair as a rigid rod or a cable actuator.

- `TetraSpineStaticModel` builds a six-node tetrahedral unit with eight rods
  and lifts it. It copies the unit into `segments` segments, each tagged
  "segment num<k>" and moved by k · (0, 0, −21.5). Between each pair of
  adjacent segments it wires six muscles, with a fixed node-index
  correspondence. It then registers one builder for rods, one for static
  rods and three for muscles, and collects muscles and segments by tag query.
- `TensegrityModel` builds its structure from a parsed description: node
  coordinates, plus rods and muscles given as one-based node numbers. The
  adapter turns them into zero-based "rod" and "muscle" pairs and lifts the
  structure by (0, 10, 0). When parsing fails, nothing is built.

Files:

- `geometry.dfy` (module `Geometry`): exact real vectors.
- `tg_string.dfy` (module `TgString`): the decimal suffix that `tgString`
  appends to a segment tag.
- `structures.dfy` (module `Structures`): the library structure as far as
  these files use it. It has node, pair and snapshot values, translation,
  tag queries, the mutable `Structure` class and the `BuildSpec` registry.
- `tetra_spine.dfy` (module `TetraSpine`): `TetraSpineStaticModel.cpp`.
- `tensegrity_model.dfy` (module `GenericTensegrity`): `TensegrityModel.cpp`.

Modelling choices:

- A tag string stands for the set of its whitespace-separated tokens. For
  example, "outer right muscle" is `{"outer", "right", "muscle"}`. A query
  matches an item when all of the query's tokens are among the item's tokens.
  This is the superset matching that the comment at
  `TetraSpineStaticModel.cpp:133-134` relies on.
- A child structure is held by value (a `Snapshot`). `addSegments` hands
  `addChild` a fresh heap copy that nothing touches afterwards, so this
  gives the same copy semantics.
- An index pair is kept as two indices into its own structure's node list.
  A pair made from two node values (the muscles of `addMuscles`) keeps the
  two positions.
- `find` over the realized model is modelled as `Find` over the pairs the
  structure hands to the realizer. The order is depth first: a structure's
  own pairs, then each child's. Every query proved about here matches none
  of the children's rods, so the results do not depend on that order.
  "The actuators" are the muscle pairs the actuator builder realizes.
- The segment query `find<tgModel>("segment")` searches every realized model
  below the spine, and the realized rods and muscles are models too. It is
  modelled as `FindChildren` over the spine's direct children.
  `SpineSegmentsOnly` proves that no rod or muscle at any depth carries the
  token "segment", so the two agree.
- `height` and node 3's z coordinate are parameters (`height`, `tipZ`),
  because the source computes them with `sqrt` and `tgUtil::round`. The
  edge length is the constant 38.1.
- In `TetraSpineStaticModel::step`, only `dt < 0` throws: `dt == 0` is
  accepted and passed on, even though the message says "dt is not
  positive". The model follows the code. `TensegrityModel::step` rejects
  `dt <= 0`.
- The midpoints in `addNodes` are taken from indices 0, 1 and 2 of the
  whole node list. `AddNodes` states this in general, and gives the
  six-node unit when the structure starts empty, as it does in
  `setup`.

## Model

| member | source | states |
|---|---|---|
| `Geometry.Midpoint` | src/dev/btietz/TetraSpineStatic/TetraSpineStaticModel.cpp:70-73 | the derived node is equidistant from both source nodes: 2·m = a + b |
| `TgString.Decimal` | src/dev/btietz/TetraSpineStatic/TetraSpineStaticModel.cpp:101 | the number appended to "segment num" is a non-empty string of decimal digits |
| `TgString.DecimalRoundTrip` | src/dev/btietz/TetraSpineStatic/TetraSpineStaticModel.cpp:101 | reading back the appended digits gives the segment number |
| `TgString.DecimalInjective` | src/dev/btietz/TetraSpineStatic/TetraSpineStaticModel.cpp:101 | different segment numbers give different suffixes |
| `Structures.Translate` | src/dev/btietz/TetraSpineStatic/TetraSpineStaticModel.cpp:103 | `move` keeps the number of nodes, pairs and children, and the structure-level tags |
| `Structures.TranslateShape` | src/dev/btietz/TetraSpineStatic/TetraSpineStaticModel.cpp:103 | `move` shifts every node by v and keeps its tags; index pairs are unchanged; positional pairs move; tags and child count are kept |
| `Structures.TranslateRoundTrip` | src/examples/GenericTensegrity/TensegrityModel.cpp:130 | moving by V and then by −V restores every coordinate |
| `Structures.TranslateCompose` | src/dev/btietz/TetraSpineStatic/TetraSpineStaticModel.cpp:103 | two moves equal one move by the sum (lift, then segment offset) |
| `Structures.TranslateWellFormed` | src/dev/btietz/TetraSpineStatic/TetraSpineStaticModel.cpp:103 | moving a structure keeps every pair index in range |
| `Structures.Find` | src/dev/btietz/TetraSpineStatic/TetraSpineStaticModel.cpp:251 | a query never returns more pairs than it is given |
| `Structures.FindMembers` | src/dev/btietz/TetraSpineStatic/TetraSpineStaticModel.cpp:133-140 | a pair is found exactly when it is listed and the query's tokens are among its tags |
| `Structures.FindAppend` | src/dev/btietz/TetraSpineStatic/TetraSpineStaticModel.cpp:251 | a query over a concatenation is the concatenation of the queries, so results keep insertion order |
| `Structures.FindAll` | src/dev/btietz/TetraSpineStatic/TetraSpineStaticModel.cpp:251 | a query every pair matches returns the whole list |
| `Structures.FindNone` | src/dev/btietz/TetraSpineStatic/TetraSpineStaticModel.cpp:251 | a query no pair matches returns nothing |
| `Structures.FindRange` | src/dev/btietz/TetraSpineStatic/TetraSpineStaticModel.cpp:135-140 | if the matching pairs are exactly those at positions lo up to hi, the query returns that slice |
| `Structures.FindChildren` | src/dev/btietz/TetraSpineStatic/TetraSpineStaticModel.cpp:252 | a query over child structures never returns more children than it is given |
| `Structures.FindChildrenAll` | src/dev/btietz/TetraSpineStatic/TetraSpineStaticModel.cpp:252 | a structure-tag query every child matches returns all children in order |
| `Structures.ChildrenInvisible` | src/dev/btietz/TetraSpineStatic/TetraSpineStaticModel.cpp:251 | if a query matches no pair of any child, the query over the whole tree equals the query over the structure's own pairs |
| `Structures.ChildPairsInvisible` | src/dev/btietz/TetraSpineStatic/TetraSpineStaticModel.cpp:251 | a query matching nothing below the children finds nothing among the first k children's pairs |
| `Structures.NoMatchInvisible` | src/dev/btietz/TetraSpineStatic/TetraSpineStaticModel.cpp:251 | a query matching nothing in a tree finds nothing in its flattened pairs |
| `Structures.AllPairsMembers` | src/dev/btietz/TetraSpineStatic/TetraSpineStaticModel.cpp:244-247 | a flattened pair is either the structure's own pair or one of a child's flattened pairs |
| `Structures.ChildPairsMembers` | src/dev/btietz/TetraSpineStatic/TetraSpineStaticModel.cpp:244-247 | a pair among the first k children's flattened pairs belongs to one of those children |
| `Structures.DispatchedAllPairs` | src/dev/btietz/TetraSpineStatic/TetraSpineStaticModel.cpp:244-247 | if every pair of the tree matches exactly one builder, so does every pair handed to the realizer |
| `Structures.DispatchedIsCovered` | src/dev/btietz/TetraSpineStatic/TetraSpineStaticModel.cpp:231-241 | a pair that matches exactly one builder is covered by some builder |
| `Structures.Structure.constructor` | src/dev/btietz/TetraSpineStatic/TetraSpineStaticModel.cpp:199 | a new structure is empty |
| `Structures.Structure.Copy` | src/dev/btietz/TetraSpineStatic/TetraSpineStaticModel.cpp:100 | the copy has the same nodes, pairs, tags and children as the original |
| `Structures.Structure.AddNode` | src/dev/btietz/TetraSpineStatic/TetraSpineStaticModel.cpp:60-66 | appends one node with its tags; nothing else changes |
| `Structures.Structure.AddNodeValue` | src/dev/btietz/TetraSpineStatic/TetraSpineStaticModel.cpp:72-75 | appends a node value with exactly the tags it carries |
| `Structures.Structure.AddPair` | src/dev/btietz/TetraSpineStatic/TetraSpineStaticModel.cpp:81-88 | for in-range indices, appends one index pair; nothing else changes |
| `Structures.Structure.AddPointPair` | src/dev/btietz/TetraSpineStatic/TetraSpineStaticModel.cpp:120-126 | appends one pair between two positions; nothing else changes |
| `Structures.Structure.AddTags` | src/dev/btietz/TetraSpineStatic/TetraSpineStaticModel.cpp:101 | adds structure-level tags without touching the nodes' tags |
| `Structures.Structure.Move` | src/dev/btietz/TetraSpineStatic/TetraSpineStaticModel.cpp:205 | the new value is the old value translated |
| `Structures.Structure.AddChild` | src/dev/btietz/TetraSpineStatic/TetraSpineStaticModel.cpp:106 | appends a child by value; own nodes, pairs and tags are unchanged |
| `Structures.BuildSpec.constructor` | src/dev/btietz/TetraSpineStatic/TetraSpineStaticModel.cpp:230 | a new build spec has no builders |
| `Structures.BuildSpec.AddBuilder` | src/dev/btietz/TetraSpineStatic/TetraSpineStaticModel.cpp:231-241 | registers a builder for a tag; re-registering a tag replaces it |
| `TetraSpine.SegmentTags` | src/dev/btietz/TetraSpineStatic/TetraSpineStaticModel.cpp:101 | `tgString("segment num", k)` gives exactly two tokens: "segment" and "num" followed by the digits of k |
| `TetraSpine.TetraNodes` | src/dev/btietz/TetraSpineStatic/TetraSpineStaticModel.cpp:56-77 | six nodes: 0–2 "base", 3 "tip", 4 and 5 the midpoints of 0–2 and 1–2, tagged "PCB" only |
| `TetraSpine.AddNodes` | src/dev/btietz/TetraSpineStatic/TetraSpineStaticModel.cpp:56-77 | appends the four computed nodes and two midpoints of the nodes at indices 0, 1 and 2; on an empty structure the result is `TetraNodes`; pairs, tags and children are unchanged |
| `TetraSpine.TetraPairs` | src/dev/btietz/TetraSpineStatic/TetraSpineStaticModel.cpp:79-89 | eight index pairs; both endpoints in 0..5; no self-loops; each tag contains "rod" and none of "muscle", "outer", "inner" or "static" |
| `TetraSpine.AddPairs` | src/dev/btietz/TetraSpineStatic/TetraSpineStaticModel.cpp:79-89 | appends exactly those eight rods in the listed order |
| `TetraSpine.Segments` | src/dev/btietz/TetraSpineStatic/TetraSpineStaticModel.cpp:94-107 | the replication loop produces exactly `segmentCount` segments |
| `TetraSpine.SegmentsAt` | src/dev/btietz/TetraSpineStatic/TetraSpineStaticModel.cpp:96-108 | there are exactly n segments, and the i-th is segment i |
| `TetraSpine.SegmentShape` | src/dev/btietz/TetraSpineStatic/TetraSpineStaticModel.cpp:100-103 | segment i is a copy of the unit: every node moved by (i+1)·(0,0,−21.5) keeping its tags, pairs kept, tagged "segment num<i+1>" |
| `TetraSpine.AddSegments` | src/dev/btietz/TetraSpineStatic/TetraSpineStaticModel.cpp:92-109 | appends exactly `segmentCount` segments to the children; `tetra` and the snake's own nodes, pairs and tags are unchanged |
| `TetraSpine.JunctionPairs` | src/dev/btietz/TetraSpineStatic/TetraSpineStaticModel.cpp:120-126 | six muscles in order: corners 0,1,2 to the same corner ("outer"), then 0,1,2 to the next tip, node 3 ("inner"), with their right/left/top tags |
| `TetraSpine.AddJunction` | src/dev/btietz/TetraSpineStatic/TetraSpineStaticModel.cpp:117-126 | one pass of the wiring loop appends exactly the six junction muscles between two segments; nodes, tags and children are unchanged |
| `TetraSpine.Muscles` | src/dev/btietz/TetraSpineStatic/TetraSpineStaticModel.cpp:115-127 | the wiring loop adds six muscles per pair of adjacent segments: 6·(children−1), and none with fewer than two children |
| `TetraSpine.MusclesAt` | src/dev/btietz/TetraSpineStatic/TetraSpineStaticModel.cpp:115-127 | muscle k of junction i stands at position 6·(i−1)+k and connects segments i−1 and i |
| `TetraSpine.AddMuscles` | src/dev/btietz/TetraSpineStatic/TetraSpineStaticModel.cpp:112-128 | appends exactly the junction muscles; the children, nodes and tags are unchanged |
| `TetraSpine.MusclesSelectAll` | src/dev/btietz/TetraSpineStatic/TetraSpineStaticModel.cpp:115-127 | taking all six positions of every junction gives all the muscles |
| `TetraSpine.JunctionSelectLength` | src/dev/btietz/TetraSpineStatic/TetraSpineStaticModel.cpp:115-127 | taking positions lo up to hi of every junction yields (hi−lo)·(children−1) muscles |
| `TetraSpine.FindMuscles` | src/dev/btietz/TetraSpineStatic/TetraSpineStaticModel.cpp:135-140 | a query that selects positions lo up to hi of a junction finds exactly those muscles of every junction, in insertion order |
| `TetraSpine.QuerySelections` | src/dev/btietz/TetraSpineStatic/TetraSpineStaticModel.cpp:178-179 | "muscle" selects all six muscles of a junction; "outer" the first three; "inner" the last three; each full muscle tag its own muscle |
| `TetraSpine.RodsDispatched` | src/dev/btietz/TetraSpineStatic/TetraSpineStaticModel.cpp:231-234 | every rod tag matches the "rod" builder and no other |
| `TetraSpine.MusclesDispatched` | src/dev/btietz/TetraSpineStatic/TetraSpineStaticModel.cpp:239-241 | every muscle tag matches exactly one of "right muscle", "left muscle" or "top muscle" |
| `TetraSpine.UnitShape` | src/dev/btietz/TetraSpineStatic/TetraSpineStaticModel.cpp:199-205 | the lifted unit has six nodes, each moved by (0,2,100); the eight rods; no tags and no children |
| `TetraSpine.SegmentOfUnit` | src/dev/btietz/TetraSpineStatic/TetraSpineStaticModel.cpp:100-103 | each segment of the unit has six nodes, the eight rods, no children and only its segment tag |
| `TetraSpine.SpineSegmentsShaped` | src/dev/btietz/TetraSpineStatic/TetraSpineStaticModel.cpp:117-126 | every segment has the nodes that the muscle wiring indexes |
| `TetraSpine.Spine` | src/dev/btietz/TetraSpineStatic/TetraSpineStaticModel.cpp:208-210 | the snake's children all have the nodes that the muscle wiring reads |
| `TetraSpine.SpineChildren` | src/dev/btietz/TetraSpineStatic/TetraSpineStaticModel.cpp:208-210 | the snake has no nodes of its own and n children; child i is segment i, with six nodes, the eight rods and tag "segment num<i+1>" |
| `TetraSpine.SpineNodes` | src/dev/btietz/TetraSpineStatic/TetraSpineStaticModel.cpp:103 | node k of segment i is the unit node plus the lift plus (i+1)·offset, with the unit node's tags |
| `TetraSpine.SpinePairs` | src/dev/btietz/TetraSpineStatic/TetraSpineStaticModel.cpp:208-210 | the snake holds 6·(n−1) positional muscles, and every index pair in the tree is in range |
| `TetraSpine.MusclesPointPairs` | src/dev/btietz/TetraSpineStatic/TetraSpineStaticModel.cpp:120-126 | every synthesized muscle is a positional pair tagged with one of the six muscle tags |
| `TetraSpine.SegmentsInvisible` | src/dev/btietz/TetraSpineStatic/TetraSpineStaticModel.cpp:81-88 | no rod of any segment matches a query that contains "muscle", "outer" or "inner" |
| `TetraSpine.SpineDispatched` | src/dev/btietz/TetraSpineStatic/TetraSpineStaticModel.cpp:231-244 | every pair of the snake and of its segments matches exactly one registered builder |
| `TetraSpine.SpineFind` | src/dev/btietz/TetraSpineStatic/TetraSpineStaticModel.cpp:135-140 | over the whole tree, a query selecting positions lo up to hi finds those muscles of every junction: (hi−lo)·(n−1) of them, in insertion order |
| `TetraSpine.SpineFindMuscles` | src/dev/btietz/TetraSpineStatic/TetraSpineStaticModel.cpp:251 | "muscle" finds every muscle and nothing else, 6·(n−1) of them, in insertion order |
| `TetraSpine.SpineFindOuter` | src/dev/btietz/TetraSpineStatic/TetraSpineStaticModel.cpp:178-179 | "outer" finds the three outer muscles of every junction, 3·(n−1) of them, in insertion order |
| `TetraSpine.SpineFindRole` | src/dev/btietz/TetraSpineStatic/TetraSpineStaticModel.cpp:135-140 | each full muscle tag finds that muscle of every junction, n−1 of them |
| `TetraSpine.SegmentQueries` | src/dev/btietz/TetraSpineStatic/TetraSpineStaticModel.cpp:252 | "segment" finds every segment; the token "num<j>" is carried by segment j−1 and no other |
| `TetraSpine.SegmentsFound` | src/dev/btietz/TetraSpineStatic/TetraSpineStaticModel.cpp:101-106 | children tagged in turn "segment num<1>", "segment num<2>", ... are all found, in order, by "segment" |
| `TetraSpine.SegmentsNumbered` | src/dev/btietz/TetraSpineStatic/TetraSpineStaticModel.cpp:101-106 | among such children, the token "num<j>" is carried by child j−1 and by no other |
| `TetraSpine.SpineSegmentsOnly` | src/dev/btietz/TetraSpineStatic/TetraSpineStaticModel.cpp:81-126 | no rod or muscle anywhere in the spine has the token "segment", so a "segment" query over all realized models below the spine finds only its segments |
| `TetraSpine.NumToken` | src/dev/btietz/TetraSpineStatic/TetraSpineStaticModel.cpp:101 | the token "num<j>" is among the tags of segment number k exactly when j = k |
| `TetraSpine.MapMuscles` | src/dev/btietz/TetraSpineStatic/TetraSpineStaticModel.cpp:130-141 | the map has exactly the six labels "inner left", "inner right", "inner top", "outer left", "outer right", "outer top", each bound to what its full muscle tag finds in the tree |
| `TetraSpine.SpineMuscleMap` | src/dev/btietz/TetraSpineStatic/TetraSpineStaticModel.cpp:130-141 | each label is bound to that muscle of every junction, in insertion order |
| `TetraSpine.BuildSnake` | src/dev/btietz/TetraSpineStatic/TetraSpineStaticModel.cpp:194-210 | the built snake is the lifted unit replicated into n segments and wired |
| `TetraSpine.RegisterBuilders` | src/dev/btietz/TetraSpineStatic/TetraSpineStaticModel.cpp:226-241 | the five builders: "rod", "static rod", "top muscle", "left muscle", "right muscle" |
| `TetraSpine.TetraSpineStaticModel.constructor` | src/dev/btietz/TetraSpineStatic/TetraSpineStaticModel.cpp:46-49 | a new model holds its segment count and nothing else |
| `TetraSpine.TetraSpineStaticModel.Setup` | src/dev/btietz/TetraSpineStatic/TetraSpineStaticModel.cpp:192-253 | the realized structure is the spine; the registry is the five builders; all muscles, all segments and the muscle map are the results of their tag queries on it |
| `TetraSpine.TetraSpineStaticModel.CollectQueries` | src/dev/btietz/TetraSpineStatic/TetraSpineStaticModel.cpp:251-253 | the muscles are what "muscle" finds, the segments what "segment" finds among the children, and the muscle map is built from the six muscle tags; the structure and registry are unchanged |
| `TetraSpine.TetraSpineStaticModel.Step` | src/dev/btietz/TetraSpineStatic/TetraSpineStaticModel.cpp:272-283 | throws invalid_argument exactly when dt < 0, changing nothing; otherwise passes dt on, dt = 0 included |
| `GenericTensegrity.AddNodes` | src/examples/GenericTensegrity/TensegrityModel.cpp:58-67 | appends one untagged node per coordinate triple, in array order |
| `GenericTensegrity.AddEntries` | src/examples/GenericTensegrity/TensegrityModel.cpp:69-87 | appends one pair (n1−1, n2−1) per entry, in array order, with the given tag |
| `GenericTensegrity.AddRods` | src/examples/GenericTensegrity/TensegrityModel.cpp:69-77 | appends the rods as zero-based pairs tagged "rod" |
| `GenericTensegrity.AddMuscles` | src/examples/GenericTensegrity/TensegrityModel.cpp:79-87 | appends the muscles as zero-based pairs tagged "muscle" |
| `GenericTensegrity.Assembled` | src/examples/GenericTensegrity/TensegrityModel.cpp:118-130 | the structure has one node per coordinate triple and one pair per rod and per muscle, with no structure tags and no children |
| `GenericTensegrity.AssembledPairs` | src/examples/GenericTensegrity/TensegrityModel.cpp:124-130 | the pairs handed to the realizer are the rods in order followed by the muscles in order; the move leaves them unchanged |
| `GenericTensegrity.AssembledNodes` | src/examples/GenericTensegrity/TensegrityModel.cpp:121-130 | node i is coordinate triple i raised by 10 along y, untagged |
| `GenericTensegrity.AssembledWellFormed` | src/examples/GenericTensegrity/TensegrityModel.cpp:69-87 | every rod and muscle of a well-indexed description names a node of the structure |
| `GenericTensegrity.AssembledLayout` | src/examples/GenericTensegrity/TensegrityModel.cpp:118-130 | node i is triple i raised by 10 along y; pairs are all rods in order, then all muscles in order, \|rods\|+\|muscles\| in all; every index is in range |
| `GenericTensegrity.AssembledFind` | src/examples/GenericTensegrity/TensegrityModel.cpp:124-127 | "rod" finds exactly the rods and "muscle" exactly the muscles, each in array order |
| `GenericTensegrity.FindSplit` | src/examples/GenericTensegrity/TensegrityModel.cpp:75-85 | over rods followed by muscles, "rod" finds exactly the rods and "muscle" exactly the muscles |
| `GenericTensegrity.TagsDispatched` | src/examples/GenericTensegrity/TensegrityModel.cpp:134-135 | "rod" and "muscle" each match exactly their own registered builder |
| `GenericTensegrity.AssembledDispatched` | src/examples/GenericTensegrity/TensegrityModel.cpp:75-135 | every pair is tagged exactly "rod" or "muscle" and matches exactly one registered builder |
| `GenericTensegrity.AssembledUnlift` | src/examples/GenericTensegrity/TensegrityModel.cpp:130 | moving the built structure back by (0,−10,0) gives the structure before the move |
| `GenericTensegrity.BuildStructure` | src/examples/GenericTensegrity/TensegrityModel.cpp:118-130 | nodes, rods and muscles added to an empty structure and then moved give the assembled structure |
| `GenericTensegrity.RegisterBuilders` | src/examples/GenericTensegrity/TensegrityModel.cpp:133-135 | exactly two builders are registered: "rod" for rods and "muscle" for the actuators |
| `GenericTensegrity.TensegrityModel.constructor` | src/examples/GenericTensegrity/TensegrityModel.cpp:48-52 | a new model is empty |
| `GenericTensegrity.TensegrityModel.Setup` | src/examples/GenericTensegrity/TensegrityModel.cpp:89-148 | on parse failure nothing changes; otherwise the structure is the assembled one, the registry is "rod" and "muscle", the actuators are the muscles, and setup is notified once |
| `GenericTensegrity.TensegrityModel.Step` | src/examples/GenericTensegrity/TensegrityModel.cpp:154-167 | throws invalid_argument exactly when dt ≤ 0, changing nothing; otherwise notifies observers of dt, then steps the children |

## Left out

- Realization (`tgStructureInfo::buildInto`) and the physics of rods and cables: that library code is not part of this model. The model stops at the structure handed to the realizer and its registry.
- The "most specific builder wins" tie-break of the realizer is not modelled. What is proved instead is that every pair produced matches exactly one registered builder, so no tie-break is ever needed.
- `addMarkers` (`TetraSpineStaticModel.cpp:143-169`): it needs the centre-of-mass positions of realized rigid bodies.
- `trace`, and all console output.
- JSON parsing and file reading. The parsed arrays are inputs, and parse success is a boolean parameter. A coordinate entry is a triple; jsoncpp's reading of missing array elements is not modelled.
- The scalar parameters (radius, density, stiffness, damping, pretension) and the values inside the `Config` records. Each builder carries only the name of its configuration record.
- `sqrt` and `tgUtil::round`: `height` and the tip's z coordinate are parameters.
- Observer internals, `teardown`, `onVisit`, `tgCast::filter`, and the base-class `setup` and `step`. A step is recorded as the dt passed on (spine), or as notify-then-step events (generic model).
- The static `jsonPath` field.
- Tokenisation of tag strings by the tag library: each tag string is written as its token set.
- `TetraSpine.AddPairs`, `GenericTensegrity.AddRods`, `GenericTensegrity.AddMuscles`: the source does no bounds check on pair indices, and an out-of-range index is undefined behaviour there. These methods therefore require in-range indices rather than modelling an `InvalidIndex` error.
- `TetraSpine.AddMuscles`: with two or more children, it requires nodes 0 to 2 of the first child and nodes 0 to 3 of every later one, because the source reads those nodes without a check (undefined behaviour when they are missing). With fewer than two children it requires nothing, as the loop does not run.
- The realizer's order of construction is assumed, not modelled: `buildInto` and `find` are taken to visit a structure's own pairs and then each child's, depth first, in insertion order. The order of the results depends on that assumption, but which pairs and which segments are found does not. This applies to `TetraSpine.FindMuscles`, `TetraSpine.SpineFind`, `TetraSpine.SpineFindMuscles`, `TetraSpine.SpineFindOuter`, `TetraSpine.SpineFindRole`, `TetraSpine.SpineMuscleMap`, `TetraSpine.SegmentQueries` (the order of `allSegments`), `TetraSpine.TetraSpineStaticModel.Setup`, `TetraSpine.TetraSpineStaticModel.CollectQueries`, `GenericTensegrity.AssembledFind` and `GenericTensegrity.TensegrityModel.Setup`. For the last, `allActuators` stands for `tgCast::filter` over the realized descendants, which returns them in the realizer's order.
- `TetraSpine.TetraSpineStaticModel.CollectQueries`: the muscle map is replaced by a new six-entry map rather than updated key by key in place, as `mapMuscles` (`TetraSpineStaticModel.cpp:135-140`) does. The two differ only when the map already holds other keys, and in `setup` it is still empty.
