// A pointer that is incremented on one of two ways to its use. The increment has no expression
// and is recorded as complete, so at convergence the use is published as a must-alias of what the
// pointer held before.
module BumpedPointer {
  import opened Graphs
  import opened Options
  import opened DataFlow
  import opened DataFlowPaths
  import opened DataFlowSolver
  import opened PathValues
  import opened PointsToSoundness
  import SweepUnfolding
  import opened GraphShapes

  const CURSOR := 1
  const TARGET := 2
  const USE := 3

  const TAKES := Access(10, CURSOR, Initialization, Some(AddressOf(TARGET)), true)
  const BUMPS := Access(11, CURSOR, Increment, None, true)
  const FOLLOWS := Access(12, USE, ReadAccess, None, true)

  // int x[2], *p = x; if (c) ++p; *p: entry 2, the increment 1, the use 0.
  function Bumped(): Flowgraph {
    Flowgraph([0, 1, 2], map[0 := {1, 2}, 1 := {2}], map[0 := [FOLLOWS], 1 := [BUMPS], 2 := [TAKES]],
              map[CURSOR := LocationInfo(true, false, None), USE := LocationInfo(false, false, Some(CURSOR))], false)
  }

  lemma BumpedConverges()
    ensures Distinct(Bumped()) && Fixpoint(Bumped(), Swept(Bumped(), 3).inputs, Swept(Bumped(), 3).outputs)
  {
    hide Fixpoint, Swept, SweepUnfolding.Turn;
    RankedConverges(Bumped(), (b: nat) => if b <= 2 then 2 - b else 0, 3);
  }

  // One access, and what it leaves in the pointer.
  lemma OneAccess(f: Flowgraph, s: State, a: Access)
    ensures Transfer(f, s, [a]) == Step(f, s, a)
  {
    assert [a][..0] == [];
    assert Transfer(f, s, [a]) == Step(f, Transfer(f, s, []), a);
  }

  lemma Along(f: Flowgraph, a: Access, held: Held, held': Held)
    requires Leaves(f, a, held, held')
    ensures Performs(f, [a], held, held')
  {
    hide Leaves;
    assert Performs(f, [], held, held);
    PerformsMore(f, [], a, held, held, held');
    assert [] + [a] == [a];
  }

  // What the use's block is entered with: the joined value is complete and names the target.
  lemma JoinedAtUse(f: Flowgraph, outputs: Outputs)
    requires 1 in outputs && CURSOR in outputs[1].pointsTo && outputs[1].pointsTo[CURSOR] == PointsTo({}, {}, true, false)
    requires 2 in outputs && CURSOR in outputs[2].pointsTo && outputs[2].pointsTo[CURSOR] == PointsTo({}, {TARGET}, true, false)
    ensures CURSOR in Join(f, {1, 2}, outputs).pointsTo
    ensures Join(f, {1, 2}, outputs).pointsTo[CURSOR] == PointsTo({}, {TARGET}, true, false)
  {
    var v := JoinedPointsTo({1, 2}, outputs, CURSOR);
    assert Present({1, 2}, outputs) == {1, 2};
    assert 2 in {1, 2} && CURSOR in PointsToKeys({1, 2}, outputs);
    assert v.functions == {} && v.locations == {TARGET};
    assert v == PointsTo({}, {TARGET}, true, false);
  }

  // A must-alias published at convergence for the first access of w's last block, while on a run
  // along w the pointer holds something else.
  ghost predicate Belied(f: Flowgraph, m: Maps, w: Walk, x: Alias, held: Held) {
    && Fixpoint(f, m.inputs, m.outputs) && IsFlowPath(f, w) && Last(w) in m.inputs
    && x.certain && x in BlockAliases(f, m.inputs[Last(w)], AccessesOf(f, Last(w)))
    && BringsTo(f, w, 0, held)
    && x.source in f.locations && f.locations[x.source].pointer == Some(CURSOR)
    && CURSOR in held && held[CURSOR] != TheStorage(x.target)
  }

  lemma BumpedAlias()
    ensures Belied(Bumped(), Swept(Bumped(), 3), [2, 1, 0], Alias(true, USE, TARGET), map[CURSOR := Untold])
    ensures !Candid(Bumped())
  {
    hide Fixpoint, Swept, Join, Brings, BringsTo, Performs, IsFlowPath, BlockAliases;
    BumpedConverges();
    var f, m := Bumped(), Swept(Bumped(), 3);
    FixpointAt(f, m, 0);
    FixpointAt(f, m, 1);
    FixpointAt(f, m, 2);
    OneAccess(f, m.inputs[2], TAKES);
    OneAccess(f, m.inputs[1], BUMPS);
    JoinedAtUse(f, m.outputs);
    UsePublished(f, m.inputs[0]);
    BumpedRun();
    assert BUMPS in AccessesOf(f, 1);
  }

  lemma UsePublished(f: Flowgraph, s: State)
    requires f == Bumped() && CURSOR in s.pointsTo && s.pointsTo[CURSOR] == PointsTo({}, {TARGET}, true, false)
    ensures Alias(true, USE, TARGET) in BlockAliases(f, s, [FOLLOWS])
  {
    assert [FOLLOWS][..0] == [];
    assert Transfer(f, s, []) == s;
    assert Alias(true, USE, TARGET) in AliasesTo(USE, s.pointsTo[CURSOR]);
    assert Alias(true, USE, TARGET) in AliasesOf(f, s, FOLLOWS);
  }

  lemma BumpedPath()
    ensures IsFlowPath(Bumped(), [2, 1, 0])
    ensures AccessesOf(Bumped(), 2) == [TAKES] && AccessesOf(Bumped(), 1) == [BUMPS]
  {
  }

  lemma BumpedRun()
    ensures IsFlowPath(Bumped(), [2, 1, 0]) && BringsTo(Bumped(), [2, 1, 0], 0, map[CURSOR := Untold])
  {
    hide Performs, IsFlowPath;
    var f := Bumped();
    var taken, bumped: Held := map[CURSOR := TheStorage(TARGET)], map[CURSOR := Untold];
    BumpedPath();
    BumpedSteps(f);
    hide Bumped, Leaves;
    Along(f, TAKES, map[], taken);
    Along(f, BUMPS, taken, bumped);
    assert Brings(f, [], map[]);
    hide Brings;
    assert [] + [2] == [2] && [2] + [1] == [2, 1] && [2, 1, 0][..2] == [2, 1];
    BringsMore(f, [], 2, map[], taken);
    BringsMore(f, [2], 1, taken, bumped);
    BringsToStart(f, [2, 1, 0], bumped);
  }

  lemma BumpedSteps(f: Flowgraph)
    requires f == Bumped()
    ensures Leaves(f, TAKES, map[], map[CURSOR := TheStorage(TARGET)])
    ensures Leaves(f, BUMPS, map[CURSOR := TheStorage(TARGET)], map[CURSOR := Untold])
  {
    var taken, bumped: Held := map[CURSOR := TheStorage(TARGET)], map[CURSOR := Untold];
    assert Puts(TAKES, map[], TheStorage(TARGET)) && Puts(BUMPS, taken, Untold);
    assert taken[CURSOR := Untold] == bumped;
  }
}
