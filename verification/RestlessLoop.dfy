// A five-block function that no number of sweeps settles: its completeness bits never stop
// changing, so raising the cap does not help a loop.
module RestlessLoop {
  import opened Graphs
  import opened Options
  import opened DataFlow
  import opened DataFlowPaths
  import opened DataFlowSolver
  import opened PointsToSoundness
  import opened SweepUnfolding

  const SLOT := 7

  // Entry 4 and the loop block 0 store the same function; 1 is the loop head, from which 3 and
  // 2 lead back to it, directly or through 0.
  function Predecessors(b: nat): set<nat> {
    if b == 0 then {2} else if b == 1 then {0, 2, 4} else if b == 2 then {3} else if b == 3 then {1} else {}
  }

  function BlockAccesses(b: nat): seq<Access> {
    if b == 0 || b == 4 then [Access(b, SLOT, Assignment, Some(FunctionRef(100, true)), true)] else []
  }

  function Restless(): Flowgraph {
    Flowgraph([0, 1, 2, 3, 4], map b: nat | b < 5 :: Predecessors(b), map b: nat | b < 5 :: BlockAccesses(b),
              map[SLOT := LocationInfo(true, false, None)], false)
  }

  ghost predicate Shaped(f: Flowgraph) {
    && f.blocks == [0, 1, 2, 3, 4] && Distinct(f)
    && (forall b: nat :: b < 5 ==> Place(f.blocks, b) == b && Preds(f, b) == Predecessors(b) && AccessesOf(f, b) == BlockAccesses(b))
    && f.locations == map[SLOT := LocationInfo(true, false, None)] && !f.navigationOnly
  }

  lemma RestlessShaped()
    ensures Shaped(Restless())
  {
    hide Predecessors, BlockAccesses, Place, Distinct;
    FivePlaces(Restless());
  }

  lemma FivePlaces(f: Flowgraph)
    requires f.blocks == [0, 1, 2, 3, 4]
    ensures Distinct(f) && forall b: nat :: b < 5 ==> Place(f.blocks, b) == b
  {
    forall b: nat | b < 5
      ensures Place(f.blocks, b) == b
    {
      assert f.blocks[b] == b;
    }
  }

  // The slot holds the one function, complete or not.
  ghost predicate HoldsOne(t: State, complete: bool) {
    SLOT in t.pointsTo && t.pointsTo[SLOT] == PointsTo({100}, {}, complete, false)
  }

  lemma StoringBlock(f: Flowgraph, k: nat, b: nat)
    requires Shaped(f) && k > 0 && (b == 0 || b == 4)
    ensures HoldsOne(OutAt(f, k, b), true)
  {
    hide Join, Transfer, InAt, Shaped;
    ShapedAt(f, b);
    OutIs(f, k, b);
    var a := Access(b, SLOT, Assignment, Some(FunctionRef(100, true)), true);
    StoreOne(f, InAt(f, k, b), a);
  }

  lemma ShapedAt(f: Flowgraph, b: nat)
    requires Shaped(f) && b < 5
    ensures b in f.blocks && Place(f.blocks, b) == b && Preds(f, b) == Predecessors(b) && AccessesOf(f, b) == BlockAccesses(b)
    ensures f.locations == map[SLOT := LocationInfo(true, false, None)] && !f.navigationOnly && Distinct(f)
  {
    assert f.blocks[b] == b;
  }

  lemma StoreOne(f: Flowgraph, t: State, a: Access)
    requires f.locations == map[SLOT := LocationInfo(true, false, None)]
    requires a.location == SLOT && a.kind.Assignment? && a.expression == Some(FunctionRef(100, true))
    ensures HoldsOne(Transfer(f, t, [a]), true)
  {
    assert [a][..0] == [];
    assert Transfer(f, t, [a]) == Step(f, Transfer(f, t, []), a);
  }

  // A join of blocks that hold the function, or nothing, is complete when all hold it complete.
  lemma JoinOne(f: Flowgraph, incoming: set<nat>, outputs: Outputs, r: nat, complete: bool)
    requires r in Present(incoming, outputs) && (exists c :: HoldsOne(outputs[r], c))
    requires forall q :: q in Present(incoming, outputs) && SLOT in outputs[q].pointsTo ==> exists c :: HoldsOne(outputs[q], c)
    requires complete <==> forall q :: q in Present(incoming, outputs) ==> HoldsOne(outputs[q], true)
    ensures HoldsOne(Join(f, incoming, outputs), complete)
  {
    hide Cap;
    var present := Present(incoming, outputs);
    var v := JoinedPointsTo(present, outputs, SLOT);
    assert SLOT in PointsToKeys(present, outputs);
    assert v.functions == {100} && v.locations == {} && !v.includesNull;
    assert v.complete == complete;
    JustOne(v);
  }

  lemma JustOne(v: PointsTo)
    requires v.functions == {100} && v.locations == {}
    ensures Cap(v) == v
  {
  }

  // The other blocks pass on what comes in.
  lemma PassingBlock(f: Flowgraph, k: nat, b: nat)
    requires Shaped(f) && k > 0 && 0 < b < 4
    ensures b in f.blocks && OutAt(f, k, b) == Join(f, Predecessors(b), Seen(f, k, b))
  {
    hide Join, Seen, Shaped;
    ShapedAt(f, b);
    OutIs(f, k, b);
    NothingAssigned(f, InAt(f, k, b));
  }

  // With one predecessor a block repeats it.
  lemma Repeats(f: Flowgraph, k: nat, b: nat, q: nat, complete: bool)
    requires Shaped(f) && k > 0 && 0 < b < 4 && q < 5 && Predecessors(b) == {q}
    requires var l := if q >= b then k - 1 else k; l > 0 && HoldsOne(OutAt(f, l, q), complete)
    ensures HoldsOne(OutAt(f, k, b), complete)
  {
    hide Join, Shaped, Seen, OutAt;
    PassingBlock(f, k, b);
    ShapedAt(f, b);
    ShapedAt(f, q);
    SeenIs(f, k, q, b);
    JoinOne(f, {q}, Seen(f, k, b), q, complete);
  }

  // The head sees 0 as of this sweep, 2 and 4 as of the last.
  lemma HeadOne(f: Flowgraph, k: nat, complete: bool)
    requires Shaped(f) && k > 1
    requires if complete then HoldsOne(OutAt(f, k - 1, 2), true) else HoldsOne(OutAt(f, k - 1, 2), false) || SLOT !in OutAt(f, k - 1, 2).pointsTo
    ensures HoldsOne(OutAt(f, k, 1), complete)
  {
    hide Join, Shaped, Seen, OutAt;
    PassingBlock(f, k, 1);
    StoringBlock(f, k, 0);
    StoringBlock(f, k - 1, 4);
    forall q | q == 0 || q == 1 || q == 2 || q == 4
      ensures q in f.blocks && Place(f.blocks, q) == q && Preds(f, 1) == {0, 2, 4}
    {
      ShapedAt(f, q);
      ShapedAt(f, 1);
    }
    SeenIs(f, k, 0, 1);
    SeenIs(f, k, 2, 1);
    SeenIs(f, k, 4, 1);
    var seen := Seen(f, k, 1);
    assert HoldsOne(seen[0], true) && HoldsOne(seen[4], true);
    assert 2 in Present({0, 2, 4}, seen) && seen[2] == OutAt(f, k - 1, 2);
    assert HoldsOne(seen[2], true) <==> complete;
    JoinOne(f, {0, 2, 4}, seen, 0, complete);
  }

  // Odd sweeps leave the head complete, even ones incomplete.
  lemma {:induction false} HeadAlternates(f: Flowgraph, k: nat)
    requires Shaped(f) && k > 0
    ensures HoldsOne(OutAt(f, k, 1), k % 2 == 1)
  {
    hide Join, Shaped, Seen, OutAt, HoldsOne;
    if k == 1 {
      FirstHead(f);
    } else {
      if k == 2 {
        FirstBack(f);
      } else {
        HeadAlternates(f, k - 2);
        Repeats(f, k - 2, 3, 1, k % 2 == 1);
        Repeats(f, k - 1, 2, 3, k % 2 == 1);
      }
      HeadOne(f, k, k % 2 == 1);
    }
  }

  lemma FirstHead(f: Flowgraph)
    requires Shaped(f)
    ensures HoldsOne(OutAt(f, 1, 1), true)
  {
    hide Join, Shaped, Seen, OutAt;
    PassingBlock(f, 1, 1);
    StoringBlock(f, 1, 0);
    forall q | q == 0 || q == 1 || q == 2 || q == 4
      ensures q in f.blocks && Place(f.blocks, q) == q && Preds(f, 1) == {0, 2, 4}
    {
      ShapedAt(f, q);
      ShapedAt(f, 1);
    }
    SeenIs(f, 1, 0, 1);
    SeenIs(f, 1, 2, 1);
    SeenIs(f, 1, 4, 1);
    JoinOne(f, {0, 2, 4}, Seen(f, 1, 1), 0, true);
  }

  // In the first sweep block 2 sees nothing.
  lemma FirstBack(f: Flowgraph)
    requires Shaped(f)
    ensures SLOT !in OutAt(f, 1, 2).pointsTo
    ensures HoldsOne(OutAt(f, 1, 2), false) || SLOT !in OutAt(f, 1, 2).pointsTo
  {
    hide Shaped, Seen, OutAt;
    PassingBlock(f, 1, 2);
    ShapedAt(f, 2);
    ShapedAt(f, 3);
    SeenIs(f, 1, 3, 2);
    assert Present({3}, Seen(f, 1, 2)) == {};
    assert PointsToKeys({}, Seen(f, 1, 2)) == {};
  }

  lemma AlwaysChanges(f: Flowgraph, k: nat)
    requires Shaped(f) && k > 0
    ensures 1 in f.blocks && OutAt(f, k, 1) != OutAt(f, k + 1, 1)
  {
    hide OutAt, Shaped;
    HeadAlternates(f, k);
    HeadAlternates(f, k + 1);
    ShapedAt(f, 1);
  }

  // No number of sweeps ends in a fixpoint.
  lemma NeverSettles(n: nat)
    ensures !Fixpoint(Restless(), Swept(Restless(), n).inputs, Swept(Restless(), n).outputs)
  {
    hide Fixpoint, Swept, OutAt, Shaped, Restless, Distinct;
    var f := Restless();
    RestlessShaped();
    if Fixpoint(f, Swept(f, n).inputs, Swept(f, n).outputs) {
      ShapedAt(f, 1);
      ConvergedStays(f, n, n + 1);
      ConvergedStays(f, n, n + 2);
      SweptIs(f, n + 1, 1);
      SweptIs(f, n + 2, 1);
      AlwaysChanges(f, n + 1);
    }
  }
}
