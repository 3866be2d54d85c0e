// The data-flow solver as it runs, and what its states mean at every sweep and at
// convergence.
module DataFlowSolver {
  import opened Graphs
  import opened Options
  import opened DataFlow
  import opened DataFlowPaths

  // Sweeps --------------------------------------------------------------------------

  datatype Maps = Maps(inputs: Outputs, outputs: Outputs)

  // Block b recomputed from the newest outputs.
  function Visit(f: Flowgraph, m: Maps, b: nat): Maps {
    var input := Join(f, Preds(f, b), m.outputs);
    Maps(m.inputs[b := input], m.outputs[b := Transfer(f, input, AccessesOf(f, b))])
  }

  function VisitAll(f: Flowgraph, m: Maps, blocks: seq<nat>): Maps {
    if blocks == [] then m
    else Visit(f, VisitAll(f, m, blocks[..|blocks| - 1]), blocks[|blocks| - 1])
  }

  // The maps after n full sweeps from nothing.
  function Swept(f: Flowgraph, n: nat): Maps {
    if n == 0 then Maps(map[], map[]) else VisitAll(f, Swept(f, n - 1), f.blocks)
  }

  ghost predicate Unchanged(f: Flowgraph, m: Maps, blocks: seq<nat>) {
    forall b :: b in blocks ==> b in m.inputs && b in m.outputs && Visit(f, m, b) == m
  }

  lemma UnchangedIsFixpoint(f: Flowgraph, m: Maps)
    requires Unchanged(f, m, f.blocks)
    ensures Fixpoint(f, m.inputs, m.outputs)
  {
    hide Join, Transfer;
    forall b | b in f.blocks
      ensures m.inputs[b] == Join(f, Preds(f, b), m.outputs)
      ensures m.outputs[b] == Transfer(f, m.inputs[b], AccessesOf(f, b))
    {
      var v := Visit(f, m, b);
      assert v.inputs[b] == m.inputs[b] && v.outputs[b] == m.outputs[b];
    }
  }

  method Sweep(f: Flowgraph, m: Maps) returns (m': Maps, changed: bool)
    ensures m' == VisitAll(f, m, f.blocks)
    ensures !changed ==> m' == m && Unchanged(f, m, f.blocks)
    ensures Fixpoint(f, m.inputs, m.outputs) ==> !changed
  {
    hide Join, Transfer, Visit, Fixpoint;
    m', changed := m, false;
    for k := 0 to |f.blocks|
      invariant m' == VisitAll(f, m, f.blocks[..k])
      invariant !changed ==> m' == m && Unchanged(f, m, f.blocks[..k])
      invariant Fixpoint(f, m.inputs, m.outputs) ==> !changed
    {
      var b := f.blocks[k];
      assert f.blocks[..k + 1] == f.blocks[..k] + [b];
      assert f.blocks[..k + 1][..k] == f.blocks[..k];
      var input := Join(f, Preds(f, b), m'.outputs);
      var output := TransferBlock(f, input, AccessesOf(f, b));
      VisitIs(f, m', b, input, output);
      FixpointAt(f, m, b);
      if b !in m'.inputs || m'.inputs[b] != input || b !in m'.outputs || m'.outputs[b] != output {
        m', changed := Maps(m'.inputs[b := input], m'.outputs[b := output]), true;
      } else {
        assert m'.inputs[b := input] == m'.inputs && m'.outputs[b := output] == m'.outputs;
      }
    }
    assert f.blocks[..|f.blocks|] == f.blocks;
  }

  lemma FixpointAt(f: Flowgraph, m: Maps, b: nat)
    requires b in f.blocks
    ensures Fixpoint(f, m.inputs, m.outputs) ==>
              && b in m.inputs && b in m.outputs
              && m.inputs[b] == Join(f, Preds(f, b), m.outputs)
              && m.outputs[b] == Transfer(f, m.inputs[b], AccessesOf(f, b))
  {
  }

  lemma VisitIs(f: Flowgraph, m: Maps, b: nat, input: State, output: State)
    requires input == Join(f, Preds(f, b), m.outputs) && output == Transfer(f, input, AccessesOf(f, b))
    ensures Visit(f, m, b) == Maps(m.inputs[b := input], m.outputs[b := output])
  {
  }

  // Once nothing changes, nothing ever does.
  lemma {:induction false} FixpointStays(f: Flowgraph, m: Maps, blocks: seq<nat>)
    requires Fixpoint(f, m.inputs, m.outputs) && forall b :: b in blocks ==> b in f.blocks
    ensures VisitAll(f, m, blocks) == m
  {
    hide Join, Transfer;
    if blocks != [] {
      FixpointStays(f, m, blocks[..|blocks| - 1]);
      var b := blocks[|blocks| - 1];
      assert b in f.blocks;
      assert m.inputs[b := m.inputs[b]] == m.inputs && m.outputs[b := m.outputs[b]] == m.outputs;
    }
  }

  lemma {:induction false} ConvergedStays(f: Flowgraph, j: nat, k: nat)
    requires j <= k && Fixpoint(f, Swept(f, j).inputs, Swept(f, j).outputs)
    ensures Swept(f, k) == Swept(f, j)
    decreases k - j
  {
    hide Fixpoint;
    if j < k {
      ConvergedStays(f, j, k - 1);
      FixpointStays(f, Swept(f, j), f.blocks);
    }
  }

  // Sweeps until nothing changes or the cap of sweeps is hit. Either way the maps are those
  // of a run to the cap; convergence is reported if and only if the last sweep but one
  // already ended in a fixpoint.
  method Analyze(f: Flowgraph) returns (m: Maps, converged: bool, sweeps: nat)
    ensures m == Swept(f, sweeps) == Swept(f, 64)
    ensures 1 <= sweeps <= 64 && (!converged ==> sweeps == 64)
    ensures converged ==> Fixpoint(f, m.inputs, m.outputs)
    ensures converged <==> Fixpoint(f, Swept(f, 63).inputs, Swept(f, 63).outputs)
    ensures forall j :: 0 <= j < sweeps - 1 ==> !Fixpoint(f, Swept(f, j).inputs, Swept(f, j).outputs)
  {
    hide Fixpoint, VisitAll, Swept;
    m, converged, sweeps := Maps(map[], map[]), false, 0;
    SweptFirst(f, 0);
    while sweeps < MAX_SWEEPS && !converged
      invariant m == Swept(f, sweeps) && sweeps <= MAX_SWEEPS
      invariant sweeps > 0 ==> (converged <==> Fixpoint(f, Swept(f, sweeps - 1).inputs, Swept(f, sweeps - 1).outputs))
      invariant converged ==> sweeps > 0 && m == Swept(f, sweeps - 1)
      invariant forall j :: 0 <= j < (if converged then sweeps - 1 else sweeps) ==>
                  !Fixpoint(f, Swept(f, j).inputs, Swept(f, j).outputs)
      decreases MAX_SWEEPS - sweeps, !converged
    {
      var before := m;
      var changed;
      SweptFirst(f, sweeps);
      m, changed := Sweep(f, m);
      sweeps := sweeps + 1;
      if !changed {
        UnchangedIsFixpoint(f, before);
        converged := true;
      }
    }
    if converged {
      ConvergedStays(f, sweeps - 1, MAX_SWEEPS - 1);
      ConvergedStays(f, sweeps - 1, MAX_SWEEPS);
    }
  }

  lemma SweptFirst(f: Flowgraph, n: nat)
    ensures Swept(f, 0) == Maps(map[], map[]) && Swept(f, n + 1) == VisitAll(f, Swept(f, n), f.blocks)
  {
    hide VisitAll;
  }

  // One block's turn in a sweep ---------------------------------------------------------

  ghost predicate Distinct(f: Flowgraph) {
    forall i, j :: 0 <= i < j < |f.blocks| ==> f.blocks[i] != f.blocks[j]
  }

  lemma {:induction false} Untouched(f: Flowgraph, m: Maps, k: nat, b: nat)
    requires k <= |f.blocks| && b !in f.blocks[..k]
    ensures b in VisitAll(f, m, f.blocks[..k]).outputs <==> b in m.outputs
    ensures b in m.outputs ==> VisitAll(f, m, f.blocks[..k]).outputs[b] == m.outputs[b]
  {
    hide Join, Transfer;
    if k > 0 {
      assert f.blocks[..k][..k - 1] == f.blocks[..k - 1];
      Untouched(f, m, k - 1, b);
    }
  }

  // A block's new state comes from what was there when its turn came.
  lemma {:induction false} TurnOf(f: Flowgraph, m: Maps, k: nat, j: nat)
    requires Distinct(f) && j < k <= |f.blocks|
    ensures var b := f.blocks[j];
            var before := VisitAll(f, m, f.blocks[..j]).outputs;
            var after := VisitAll(f, m, f.blocks[..k]);
            && b in after.inputs && after.inputs[b] == Join(f, Preds(f, b), before)
            && b in after.outputs && after.outputs[b] == Transfer(f, after.inputs[b], AccessesOf(f, b))
  {
    hide Join, Transfer;
    assert f.blocks[..k][..k - 1] == f.blocks[..k - 1];
    if k - 1 > j {
      TurnOf(f, m, k - 1, j);
    }
  }

  // Reaching definitions --------------------------------------------------------------

  lemma VisitGrounded(f: Flowgraph, m: Maps, b: nat)
    requires !f.navigationOnly && b in f.blocks && Grounded(f, m.inputs, m.outputs)
    ensures Grounded(f, Visit(f, m, b).inputs, Visit(f, m, b).outputs)
  {
    hide InGrounded, OutGrounded, Join, Transfer;
    JoinGrounded(f, b, m.outputs);
    TransferGrounded(f, b, Join(f, Preds(f, b), m.outputs));
  }

  lemma {:induction false} VisitAllGrounded(f: Flowgraph, m: Maps, blocks: seq<nat>)
    requires !f.navigationOnly && (forall b :: b in blocks ==> b in f.blocks) && Grounded(f, m.inputs, m.outputs)
    ensures Grounded(f, VisitAll(f, m, blocks).inputs, VisitAll(f, m, blocks).outputs)
  {
    hide Grounded, Visit;
    if blocks != [] {
      var n := |blocks| - 1;
      assert forall b :: b in blocks[..n] ==> b in blocks;
      VisitAllGrounded(f, m, blocks[..n]);
      VisitGrounded(f, VisitAll(f, m, blocks[..n]), blocks[n]);
    }
  }

  // After any number of sweeps, converged or not: what is reported reaches, and a
  // location called complete is defined on every way in, with nothing unreported.
  lemma {:induction false} SweptGrounded(f: Flowgraph, n: nat)
    requires !f.navigationOnly
    ensures Grounded(f, Swept(f, n).inputs, Swept(f, n).outputs)
  {
    hide InGrounded, OutGrounded, VisitAll;
    if n > 0 {
      SweptGrounded(f, n - 1);
      VisitAllGrounded(f, Swept(f, n - 1), f.blocks);
    }
  }

  // Edges connect known blocks.
  ghost predicate ClosedGraph(f: Flowgraph) {
    forall b, q :: b in f.blocks && q in Preds(f, b) ==> q in f.blocks
  }

  lemma {:induction false} WalkReported(f: Flowgraph, inputs: Outputs, outputs: Outputs, w: Walk, l: nat)
    requires !f.navigationOnly && Fixpoint(f, inputs, outputs) && IsWalk(f, w)
    ensures LastDefAlong(f, w, l).Some? ==>
              Last(w) in outputs && LastDefAlong(f, w, l).value in DefinitionsAt(outputs[Last(w)], l)
    decreases |w|
  {
    hide Join, Transfer, LastDef;
    var b := Last(w);
    var u := w[..|w| - 1];
    TransferDefinitions(f, inputs[b], AccessesOf(f, b), l);
    if u != [] {
      ShortenWalk(f, w);
      WalkReported(f, inputs, outputs, u, l);
      JoinDefinitions(f, Preds(f, b), outputs, l);
    }
  }

  // At convergence the reported definitions are exactly those that reach.
  lemma ReachingDefinitionsExact(f: Flowgraph, n: nat, b: nat, l: nat, d: nat)
    requires !f.navigationOnly && b in f.blocks && Fixpoint(f, Swept(f, n).inputs, Swept(f, n).outputs)
    ensures d in DefinitionsAt(Swept(f, n).inputs[b], l) <==> DefReachesIn(f, b, l, d)
  {
    hide Join, Transfer, IsWalk, LastDefAlong, DefinitionsAt, CompleteAt;
    var m := Swept(f, n);
    SweptGrounded(f, n);
    assert InGrounded(f, b, m.inputs[b]);
    if DefReachesIn(f, b, l, d) {
      var q :| q in Preds(f, b) && DefReaches(f, q, l, d);
      var w :| DefWalk(f, w, q, l, d);
      WalkReported(f, m.inputs, m.outputs, w, l);
      JoinDefinitions(f, Preds(f, b), m.outputs, l);
    }
  }

  lemma {:induction false} MustIsComplete(f: Flowgraph, inputs: Outputs, outputs: Outputs, q: nat, l: nat, n: nat)
    requires !f.navigationOnly && ClosedGraph(f) && Fixpoint(f, inputs, outputs) && q in f.blocks && MustOut(f, q, l, n)
    ensures CompleteAt(outputs[q], l)
    decreases n
  {
    hide Join, Transfer, LastDef;
    TransferDefinitions(f, inputs[q], AccessesOf(f, q), l);
    if LastDef(AccessesOf(f, q), l).None? {
      forall r | r in Preds(f, q)
        ensures r in outputs && CompleteAt(outputs[r], l)
      {
        MustIsComplete(f, inputs, outputs, r, l, n - 1);
      }
      JoinDefinitions(f, Preds(f, q), outputs, l);
      assert Present(Preds(f, q), outputs) == Preds(f, q);
    }
  }

  // At convergence a location is complete exactly when, for some bound, every backward
  // walk of that many blocks meets a definition of it.
  lemma CompleteExact(f: Flowgraph, n: nat, b: nat, l: nat)
    requires !f.navigationOnly && ClosedGraph(f) && b in f.blocks && Fixpoint(f, Swept(f, n).inputs, Swept(f, n).outputs)
    ensures CompleteAt(Swept(f, n).inputs[b], l) <==> AlwaysDefinedIn(f, b, l)
  {
    hide Join, Transfer, DefinitionsAt, CompleteAt, MustOut, Swept, OutGrounded;
    var m := Swept(f, n);
    SweptGrounded(f, n);
    assert InGrounded(f, b, m.inputs[b]);
    if AlwaysDefinedIn(f, b, l) {
      var k: nat :| Must(f, b, l, k);
      forall q | q in Preds(f, b)
        ensures q in m.outputs && CompleteAt(m.outputs[q], l)
      {
        MustIsComplete(f, m.inputs, m.outputs, q, l, k - 1);
      }
      JoinDefinitions(f, Preds(f, b), m.outputs, l);
      assert Present(Preds(f, b), m.outputs) == Preds(f, b);
    }
  }

  // A cycle of blocks none of which defines l.
  ghost predicate IdleCycle(f: Flowgraph, cycle: seq<nat>, l: nat) {
    && cycle != []
    && (forall i :: 0 <= i < |cycle| ==> cycle[if i == 0 then |cycle| - 1 else i - 1] in Preds(f, cycle[i]))
    && forall b :: b in cycle ==> LastDef(AccessesOf(f, b), l).None?
  }

  lemma {:induction false} CycleNeverMust(f: Flowgraph, cycle: seq<nat>, l: nat, i: nat, n: nat)
    requires IdleCycle(f, cycle, l) && i < |cycle|
    ensures !MustOut(f, cycle[i], l, n) && !Must(f, cycle[i], l, n)
    decreases n
  {
    hide LastDef;
    assert cycle[i] in cycle;
    var before := if i == 0 then |cycle| - 1 else i - 1;
    assert cycle[before] in Preds(f, cycle[i]);
    if n > 0 {
      CycleNeverMust(f, cycle, l, before, n - 1);
    }
  }

  // At convergence a location is never complete on a loop that does not define it: a value
  // set before the loop and only read in it is labelled possible, not certain.
  lemma LoopNeverComplete(f: Flowgraph, n: nat, cycle: seq<nat>, l: nat, b: nat)
    requires !f.navigationOnly && ClosedGraph(f) && Fixpoint(f, Swept(f, n).inputs, Swept(f, n).outputs)
    requires IdleCycle(f, cycle, l) && b in cycle && b in f.blocks
    ensures !CompleteAt(Swept(f, n).inputs[b], l)
  {
    hide Fixpoint, Swept, Must, IdleCycle;
    CompleteExact(f, n, b, l);
    var i :| 0 <= i < |cycle| && cycle[i] == b;
    forall m: nat
      ensures !Must(f, b, l, m)
    {
      CycleNeverMust(f, cycle, l, i, m);
    }
  }

  // The last definition of l on path w before access i of w's last block.
  function LastDefBefore(f: Flowgraph, w: Walk, i: nat, l: nat): Option<nat>
    requires |w| > 0 && i <= |AccessesOf(f, Last(w))|
  {
    match LastDef(AccessesOf(f, Last(w))[..i], l)
    case Some(d) => Some(d)
    case None => LastDefAlong(f, w[..|w| - 1], l)
  }

  // The state in which access i of block b is replayed.
  function StateBefore(f: Flowgraph, m: Maps, b: nat, i: nat): State
    requires b in m.inputs && i <= |AccessesOf(f, b)|
  {
    Transfer(f, m.inputs[b], AccessesOf(f, b)[..i])
  }

  lemma {:induction false} MustAlongPath(f: Flowgraph, w: Walk, l: nat, n: nat)
    requires IsFlowPath(f, w) && MustOut(f, Last(w), l, n)
    ensures LastDefAlong(f, w, l).Some?
    decreases |w|
  {
    hide LastDef;
    var u := w[..|w| - 1];
    if LastDef(AccessesOf(f, Last(w)), l).None? {
      assert u != [];
      ShortenWalk(f, w);
      assert u[0] == w[0];
      MustAlongPath(f, u, l, n - 1);
    }
  }

  // Soundness: the last definition on any path to an access is among those reported.
  lemma PathDefinitionReported(f: Flowgraph, n: nat, w: Walk, i: nat, l: nat)
    requires !f.navigationOnly && IsFlowPath(f, w) && i <= |AccessesOf(f, Last(w))|
    requires Fixpoint(f, Swept(f, n).inputs, Swept(f, n).outputs)
    ensures LastDefBefore(f, w, i, l).Some? ==>
              LastDefBefore(f, w, i, l).value in DefinitionsAt(StateBefore(f, Swept(f, n), Last(w), i), l)
  {
    hide Join, Transfer, LastDef, Swept;
    var b := Last(w);
    var m := Swept(f, n);
    TransferDefinitions(f, m.inputs[b], AccessesOf(f, b)[..i], l);
    var u := w[..|w| - 1];
    if LastDefAlong(f, u, l).Some? {
      ShortenWalk(f, w);
      var d := LastDefAlong(f, u, l).value;
      assert DefWalk(f, u, Last(u), l, d);
      assert DefReaches(f, Last(u), l, d);
      ReachingDefinitionsExact(f, n, b, l, d);
    }
  }

  // The label "certain": complete, with a single definition.
  ghost predicate CertainDefinition(s: State, l: nat, d: nat) {
    CompleteAt(s, l) && DefinitionsAt(s, l) == {d}
  }

  // A certain reaching definition is the last one on every path to the access. This
  // holds after any number of sweeps, even when the sweep cap was hit.
  lemma CertainMeansEveryPath(f: Flowgraph, n: nat, w: Walk, i: nat, l: nat, d: nat)
    requires !f.navigationOnly && IsFlowPath(f, w) && i <= |AccessesOf(f, Last(w))|
    requires Last(w) in Swept(f, n).inputs && CertainDefinition(StateBefore(f, Swept(f, n), Last(w), i), l, d)
    ensures LastDefBefore(f, w, i, l) == Some(d)
  {
    hide Join, Transfer, LastDef, Swept, MustOut;
    var b := Last(w);
    var m := Swept(f, n);
    SweptGrounded(f, n);
    TransferDefinitions(f, m.inputs[b], AccessesOf(f, b)[..i], l);
    if LastDef(AccessesOf(f, b)[..i], l).None? {
      assert InGrounded(f, b, m.inputs[b]);
      var k: nat :| Must(f, b, l, k);
      var u := w[..|w| - 1];
      assert u != [];
      ShortenWalk(f, w);
      assert u[0] == w[0];
      MustAlongPath(f, u, l, k - 1);
      assert DefWalk(f, u, Last(u), l, LastDefAlong(f, u, l).value);
      assert DefReachesIn(f, b, l, LastDefAlong(f, u, l).value);
    }
  }
}
