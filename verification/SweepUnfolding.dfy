// What n sweeps compute, written without sweeping: the state of a block as a function of
// its predecessors' states one sweep earlier, or in the same sweep where they come first.
module SweepUnfolding {
  import opened Graphs
  import opened Options
  import opened DataFlow
  import opened DataFlowPaths
  import opened DataFlowSolver

  // The place of a block in the order of visits.
  ghost function Place(blocks: seq<nat>, b: nat): (i: nat)
    requires b in blocks
    ensures i < |blocks| && blocks[i] == b
  {
    var i :| 0 <= i < |blocks| && blocks[i] == b;
    i
  }

  // Two functions with the same control-flow graph, visited in the same order.
  ghost predicate SameShape(f: Flowgraph, g: Flowgraph) {
    f.blocks == g.blocks && f.predecessors == g.predecessors
  }

  // An edge against the order of visits: q's state of the same sweep comes too late for b.
  ghost predicate Turn(f: Flowgraph, q: nat, b: nat) {
    q in f.blocks && b in f.blocks && Place(f.blocks, q) >= Place(f.blocks, b)
  }

  // The sweep whose output of q block b sees in sweep k; 0 when there is none.
  ghost function Level(f: Flowgraph, k: nat, q: nat, b: nat): nat
    requires k > 0
  {
    if Turn(f, q, b) then k - 1 else k
  }

  // The outputs that block b sees in sweep k.
  ghost function Seen(f: Flowgraph, k: nat, b: nat): Outputs
    requires k > 0 && b in f.blocks
    decreases k, Place(f.blocks, b), 0
  {
    map q | q in Preds(f, b) && q in f.blocks && Level(f, k, q, b) > 0 :: OutAt(f, Level(f, k, q, b), q)
  }

  ghost function InAt(f: Flowgraph, k: nat, b: nat): State
    requires k > 0 && b in f.blocks
    decreases k, Place(f.blocks, b), 1
  {
    Join(f, Preds(f, b), Seen(f, k, b))
  }

  ghost function OutAt(f: Flowgraph, k: nat, b: nat): State
    requires k > 0 && b in f.blocks
    decreases k, Place(f.blocks, b), 2
  {
    Transfer(f, InAt(f, k, b), AccessesOf(f, b))
  }

  // The two maps agree on the predecessors that are there.
  ghost predicate Agree(present: set<nat>, outputs: Outputs, outputs': Outputs) {
    present <= outputs.Keys && present <= outputs'.Keys && forall q :: q in present ==> outputs[q] == outputs'[q]
  }

  lemma KeysSame(present: set<nat>, outputs: Outputs, outputs': Outputs)
    requires Agree(present, outputs, outputs')
    ensures DefinitionKeys(present, outputs) == DefinitionKeys(present, outputs')
    ensures CompleteKeys(present, outputs) == CompleteKeys(present, outputs')
    ensures PointsToKeys(present, outputs) == PointsToKeys(present, outputs')
  {
  }

  lemma JoinedSame(present: set<nat>, outputs: Outputs, outputs': Outputs, l: nat)
    requires Agree(present, outputs, outputs')
    ensures JoinedDefinitions(present, outputs, l) == JoinedDefinitions(present, outputs', l)
  {
  }

  lemma DefinitionsSame(f: Flowgraph, incoming: set<nat>, outputs: Outputs, outputs': Outputs)
    requires Present(incoming, outputs) == Present(incoming, outputs')
    requires Agree(Present(incoming, outputs), outputs, outputs')
    ensures Join(f, incoming, outputs).definitions == Join(f, incoming, outputs').definitions
  {
    hide Cap, JoinedPointsTo, PointsToKeys, CompleteKeys, DefinitionKeys, JoinedDefinitions, Agree;
    var present := Present(incoming, outputs);
    KeysSame(present, outputs, outputs');
    forall l
      ensures JoinedDefinitions(present, outputs, l) == JoinedDefinitions(present, outputs', l)
    {
      JoinedSame(present, outputs, outputs', l);
    }
  }

  lemma CompleteSame(f: Flowgraph, incoming: set<nat>, outputs: Outputs, outputs': Outputs)
    requires Present(incoming, outputs) == Present(incoming, outputs')
    requires Agree(Present(incoming, outputs), outputs, outputs')
    ensures Join(f, incoming, outputs).complete == Join(f, incoming, outputs').complete
  {
    hide Cap, JoinedPointsTo, PointsToKeys, CompleteKeys, DefinitionKeys, CompleteAt;
    KeysSame(Present(incoming, outputs), outputs, outputs');
  }

  lemma AllPointsToSame(f: Flowgraph, incoming: set<nat>, outputs: Outputs, outputs': Outputs)
    requires Present(incoming, outputs) == Present(incoming, outputs')
    requires Agree(Present(incoming, outputs), outputs, outputs')
    ensures Join(f, incoming, outputs).pointsTo == Join(f, incoming, outputs').pointsTo
  {
    hide Cap, JoinedPointsTo, PointsToKeys, CompleteKeys, DefinitionKeys, CompleteAt, Agree;
    var present := Present(incoming, outputs);
    KeysSame(present, outputs, outputs');
    forall l
      ensures JoinedPointsTo(present, outputs, l) == JoinedPointsTo(present, outputs', l)
    {
      PointsToSame(present, outputs, outputs', l);
    }
  }

  // A join looks at nothing but the predecessors that are there.
  lemma JoinSame(f: Flowgraph, incoming: set<nat>, outputs: Outputs, outputs': Outputs)
    requires Present(incoming, outputs) == Present(incoming, outputs')
    requires Agree(Present(incoming, outputs), outputs, outputs')
    ensures Join(f, incoming, outputs) == Join(f, incoming, outputs')
  {
    hide Join;
    DefinitionsSame(f, incoming, outputs, outputs');
    CompleteSame(f, incoming, outputs, outputs');
    AllPointsToSame(f, incoming, outputs, outputs');
  }

  lemma PointsToSame(present: set<nat>, outputs: Outputs, outputs': Outputs, l: nat)
    requires Agree(present, outputs, outputs')
    ensures JoinedPointsTo(present, outputs, l) == JoinedPointsTo(present, outputs', l)
  {
    var a, b := JoinedPointsTo(present, outputs, l), JoinedPointsTo(present, outputs', l);
    assert a.functions == b.functions && a.locations == b.locations;
  }

  lemma {:induction false} OnlyBlocksVisited(f: Flowgraph, m: Maps, k: nat, b: nat)
    requires k <= |f.blocks|
    ensures b in VisitAll(f, m, f.blocks[..k]).outputs ==> b in m.outputs || b in f.blocks
  {
    hide Join, Transfer;
    if k > 0 {
      assert f.blocks[..k][..k - 1] == f.blocks[..k - 1];
      OnlyBlocksVisited(f, m, k - 1, b);
    }
  }

  lemma {:induction false} OnlyBlocksSwept(f: Flowgraph, n: nat, b: nat)
    ensures b in Swept(f, n).outputs ==> b in f.blocks
  {
    hide VisitAll;
    if n > 0 {
      assert f.blocks[..|f.blocks|] == f.blocks;
      OnlyBlocksSwept(f, n - 1, b);
      OnlyBlocksVisited(f, Swept(f, n - 1), |f.blocks|, b);
    }
  }

  // The maps of sweep k when it is block b's turn.
  ghost function AtTurn(f: Flowgraph, k: nat, b: nat): Outputs
    requires k > 0 && b in f.blocks
  {
    VisitAll(f, Swept(f, k - 1), f.blocks[..Place(f.blocks, b)]).outputs
  }

  lemma PlaceIs(f: Flowgraph, i: nat)
    requires Distinct(f) && i < |f.blocks|
    ensures Place(f.blocks, f.blocks[i]) == i
  {
  }

  lemma EarlierPlace(f: Flowgraph, q: nat, b: nat)
    requires Distinct(f) && q in f.blocks && b in f.blocks
    ensures q in f.blocks[..Place(f.blocks, b)] <==> !Turn(f, q, b)
  {
    var i := Place(f.blocks, b);
    assert Place(f.blocks, q) < i ==> f.blocks[..i][Place(f.blocks, q)] == q;
    if q in f.blocks[..i] {
      var j :| 0 <= j < i && f.blocks[j] == q;
      PlaceIs(f, j);
    }
  }

  // What sweep k leaves at b, and what anyone visited after b finds there.
  lemma SweepAt(f: Flowgraph, k: nat, b: nat, j: nat)
    requires Distinct(f) && k > 0 && b in f.blocks && Place(f.blocks, b) < j <= |f.blocks|
    ensures var m := VisitAll(f, Swept(f, k - 1), f.blocks[..j]);
            && b in m.inputs && m.inputs[b] == Join(f, Preds(f, b), AtTurn(f, k, b))
            && b in m.outputs && m.outputs[b] == Transfer(f, m.inputs[b], AccessesOf(f, b))
  {
    hide Join, Transfer, VisitAll, Swept, Distinct;
    TurnOf(f, Swept(f, k - 1), j, Place(f.blocks, b));
  }

  // Sweep by sweep, the maps hold the unfolded states.
  lemma {:induction false} SweptIs(f: Flowgraph, k: nat, b: nat)
    requires Distinct(f) && k > 0 && b in f.blocks
    ensures b in Swept(f, k).inputs && Swept(f, k).inputs[b] == InAt(f, k, b)
    ensures b in Swept(f, k).outputs && Swept(f, k).outputs[b] == OutAt(f, k, b)
    decreases k, Place(f.blocks, b), 1
  {
    hide Join, Transfer, VisitAll, Distinct, Turn, Place, Seen, OutAt;
    assert f.blocks[..|f.blocks|] == f.blocks;
    SweepAt(f, k, b, |f.blocks|);
    var turn, seen := AtTurn(f, k, b), Seen(f, k, b);
    forall q | q in Preds(f, b)
      ensures q in turn <==> q in seen
      ensures q in seen ==> turn[q] == seen[q]
    {
      SeesAtTurn(f, k, q, b);
    }
    JoinSame(f, Preds(f, b), turn, seen);
    OutIs(f, k, b);
  }

  lemma OutIs(f: Flowgraph, k: nat, b: nat)
    requires k > 0 && b in f.blocks
    ensures OutAt(f, k, b) == Transfer(f, InAt(f, k, b), AccessesOf(f, b))
  {
  }

  lemma InIs(f: Flowgraph, k: nat, b: nat)
    requires k > 0 && b in f.blocks
    ensures InAt(f, k, b) == Join(f, Preds(f, b), Seen(f, k, b))
  {
  }

  lemma LevelFalls(f: Flowgraph, k: nat, q: nat, b: nat)
    requires k > 0 && q in f.blocks && b in f.blocks
    ensures Level(f, k, q, b) < k || (Level(f, k, q, b) == k && Place(f.blocks, q) < Place(f.blocks, b))
  {
  }

  lemma SeenIs(f: Flowgraph, k: nat, q: nat, b: nat)
    requires k > 0 && b in f.blocks && q in Preds(f, b)
    ensures q in Seen(f, k, b) <==> q in f.blocks && Level(f, k, q, b) > 0
    ensures q in Seen(f, k, b) ==> Seen(f, k, b)[q] == OutAt(f, Level(f, k, q, b), q)
  {
  }

  // What is there when b's turn comes is what it is meant to see.
  lemma {:induction false} SeesAtTurn(f: Flowgraph, k: nat, q: nat, b: nat)
    requires Distinct(f) && k > 0 && b in f.blocks && q in Preds(f, b)
    ensures q in AtTurn(f, k, b) <==> q in Seen(f, k, b)
    ensures q in Seen(f, k, b) ==> AtTurn(f, k, b)[q] == Seen(f, k, b)[q]
    decreases k, Place(f.blocks, b), 0
  {
    hide Join, Transfer, VisitAll, Distinct, Seen, OutAt;
    SeenIs(f, k, q, b);
    if q !in f.blocks {
      OnlyBlocksSwept(f, k - 1, q);
      OnlyBlocksVisited(f, Swept(f, k - 1), Place(f.blocks, b), q);
    } else if Turn(f, q, b) {
      EarlierPlace(f, q, b);
      Untouched(f, Swept(f, k - 1), Place(f.blocks, b), q);
      if k > 1 {
        SweptIs(f, k - 1, q);
      }
    } else {
      SweptIs(f, k, q);
      assert f.blocks[..|f.blocks|] == f.blocks;
      SweepAt(f, k, q, |f.blocks|);
      SweepAt(f, k, q, Place(f.blocks, b));
    }
  }
}
