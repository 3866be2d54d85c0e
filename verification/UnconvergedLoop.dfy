// Why a certain call target needs convergence: a loop followed by a long straight tail, on
// which the sweep cap is hit while a stale value is still on its way.
module UnconvergedLoop {
  import opened Graphs
  import opened Options
  import opened DataFlow
  import opened DataFlowPaths
  import opened DataFlowSolver
  import opened PathValues
  import opened PointsToSoundness

  // Blocks are numbered against the flow, as the compiler numbers them: entry n + 2, loop
  // head n + 1, loop body n, and a tail n - 1, ..., 0. The entry stores function 100 in
  // location 7, the body function 200.
  const PLACE := 7

  function Assigns(function_: nat, key: nat): Access {
    Access(key, PLACE, Assignment, Some(FunctionRef(function_, true)), true)
  }

  function Predecessors(n: nat, b: nat): set<nat> {
    if b + 1 < n then {b + 1}
    else if b + 1 == n || b == n then {n + 1}
    else if b == n + 1 then {n, n + 2}
    else {}
  }

  function Tail(n: nat): Flowgraph {
    Flowgraph(seq(n + 3, i => i),
              map b: nat | 0 <= b < n + 3 :: Predecessors(n, b),
              map[n := [Assigns(200, 11)], n + 2 := [Assigns(100, 10)]],
              map[PLACE := LocationInfo(true, false, None)],
              false)
  }

  ghost predicate TailShape(n: nat, f: Flowgraph) {
    && |f.blocks| == n + 3 && Numbered(f)
    && (forall b: nat :: b < n + 3 ==> Preds(f, b) == Predecessors(n, b))
    && AccessesOf(f, n) == [Assigns(200, 11)] && AccessesOf(f, n + 2) == [Assigns(100, 10)]
    && (forall b: nat :: b != n && b != n + 2 ==> AccessesOf(f, b) == [])
    && f.locations == map[PLACE := LocationInfo(true, false, None)] && !f.navigationOnly
  }

  lemma TailIsShaped(n: nat)
    ensures TailShape(n, Tail(n))
  {
    hide Predecessors;
  }

  ghost predicate Holds(outputs: Outputs, b: nat, function_: nat) {
    b in outputs && PLACE in outputs[b].pointsTo && outputs[b].pointsTo[PLACE] == Only(function_)
  }

  // Sweeps over consecutively numbered blocks -----------------------------------------------

  ghost predicate Numbered(f: Flowgraph) {
    forall i :: 0 <= i < |f.blocks| ==> f.blocks[i] == i
  }

  lemma NumberedPlaces(f: Flowgraph, k: nat, b: nat)
    requires Numbered(f) && k <= b && k < |f.blocks|
    ensures Distinct(f) && b !in f.blocks[..k] && f.blocks[k] == k && f.blocks[..|f.blocks|] == f.blocks
  {
  }

  // With one visited predecessor a join just passes its values on.
  lemma LoneJoin(f: Flowgraph, incoming: set<nat>, outputs: Outputs, q: nat, l: nat)
    requires Present(incoming, outputs) == {q} && l in outputs[q].pointsTo && WithinCap(outputs[q].pointsTo[l])
    ensures l in Join(f, incoming, outputs).pointsTo
    ensures Join(f, incoming, outputs).pointsTo[l] == outputs[q].pointsTo[l]
  {
    var v := JoinedPointsTo({q}, outputs, l);
    assert q in {q} && l in PointsToKeys({q}, outputs);
    assert v.functions == outputs[q].pointsTo[l].functions && v.locations == outputs[q].pointsTo[l].locations;
    assert v == outputs[q].pointsTo[l];
  }

  lemma Stored(f: Flowgraph, s: State, function_: nat, key: nat)
    requires f.locations == map[PLACE := LocationInfo(true, false, None)] && !f.navigationOnly
    ensures var after := Transfer(f, s, [Assigns(function_, key)]);
            PLACE in after.pointsTo && after.pointsTo[PLACE] == Only(function_)
  {
    var a := Assigns(function_, key);
    assert [a][..0] == [];
    assert Transfer(f, s, [a]) == Step(f, Transfer(f, s, []), a);
  }

  // The first sweep: the loop head sees the body's value alone.
  lemma FirstSweep(n: nat)
    ensures Holds(Swept(Tail(n), 1).outputs, n + 1, 200)
  {
    hide Transfer, Join, Tail;
    TailIsShaped(n);
    var f := Tail(n);
    var start := Maps(map[], map[]);
    assert Swept(f, 0) == start;
    NumberedPlaces(f, n, n);
    NumberedPlaces(f, n + 1, n + 2);
    assert Preds(f, n + 1) == {n, n + 2};
    assert AccessesOf(f, n) == [Assigns(200, 11)] && AccessesOf(f, n + 1) == [];
    assert f.locations == map[PLACE := LocationInfo(true, false, None)] && !f.navigationOnly;
    hide Predecessors, Preds, VisitAll, Numbered, Distinct, TailShape;
    var before := VisitAll(f, start, f.blocks[..n + 1]).outputs;
    TurnOf(f, start, n + 1, n);
    Stored(f, VisitAll(f, start, f.blocks[..n + 1]).inputs[n], 200, 11);
    Untouched(f, start, n + 1, n + 2);
    OnlyBodyPresent(n, before);
    LoneJoin(f, {n, n + 2}, before, n, PLACE);
    TurnOf(f, start, |f.blocks|, n + 1);
    NothingAssigned(f, Swept(f, 1).inputs[n + 1]);
  }

  lemma OnlyBodyPresent(n: nat, outputs: Outputs)
    requires n in outputs && n + 2 !in outputs
    ensures Present({n, n + 2}, outputs) == {n}
  {
  }

  // Each later sweep carries the value one block down the tail.
  lemma OneBlockFurther(n: nat, k: nat, from: nat, to: nat)
    requires to < n && Predecessors(n, to) == {from} && Holds(Swept(Tail(n), k).outputs, from, 200)
    ensures Holds(Swept(Tail(n), k + 1).outputs, to, 200)
    ensures to in Swept(Tail(n), k + 1).inputs && PLACE in Swept(Tail(n), k + 1).inputs[to].pointsTo
    ensures Swept(Tail(n), k + 1).inputs[to].pointsTo[PLACE] == Only(200)
  {
    TailIsShaped(n);
    assert from > to;
    hide Transfer, Join, Tail, Predecessors, VisitAll, Preds;
    var f := Tail(n);
    NumberedPlaces(f, to, from);
    assert Preds(f, to) == {from} && AccessesOf(f, to) == [];
    hide Numbered, Distinct, TailShape;
    var m := Swept(f, k);
    var before := VisitAll(f, m, f.blocks[..to]).outputs;
    Untouched(f, m, to, from);
    assert Present({from}, before) == {from};
    LoneJoin(f, {from}, before, from, PLACE);
    TurnOf(f, m, |f.blocks|, to);
    NothingAssigned(f, Swept(f, k + 1).inputs[to]);
  }

  lemma {:induction false} Front(n: nat, k: nat)
    requires 1 <= k <= n
    ensures Holds(Swept(Tail(n), k + 1).outputs, n - k, 200)
    ensures n - k in Swept(Tail(n), k + 1).inputs && PLACE in Swept(Tail(n), k + 1).inputs[n - k].pointsTo
    ensures Swept(Tail(n), k + 1).inputs[n - k].pointsTo[PLACE] == Only(200)
  {
    hide Holds, Tail, Swept;
    if k == 1 {
      FirstSweep(n);
      OneBlockFurther(n, 1, n + 1, n - 1);
    } else {
      Front(n, k - 1);
      OneBlockFurther(n, k, n - k + 1, n - k);
    }
  }

  // The path that skips the loop -------------------------------------------------------------

  function SkipLoop(n: nat, k: nat): Walk
    requires k <= n
  {
    if k == 0 then [n + 2, n + 1] else SkipLoop(n, k - 1) + [n - k]
  }

  lemma {:induction false} SkipIsPath(n: nat, k: nat)
    requires k <= n
    ensures var w := SkipLoop(n, k);
            IsFlowPath(Tail(n), w) && |w| >= 2 && Last(w) == (if k == 0 then n + 1 else n - k)
  {
    hide Tail;
    TailIsShaped(n);
    var f := Tail(n);
    var w := SkipLoop(n, k);
    if k == 0 {
      assert f.blocks[n + 2] == n + 2 && f.blocks[n + 1] == n + 1;
      assert n + 2 in Preds(f, n + 1);
    } else {
      SkipIsPath(n, k - 1);
      var v := SkipLoop(n, k - 1);
      assert f.blocks[n - k] == n - k;
      assert Preds(f, n - k) == Predecessors(n, n - k);
      assert Last(v) in Predecessors(n, n - k);
      hide Predecessors, Preds, TailShape, SkipLoop;
      WalkGrows(f, v, n - k);
    }
  }

  lemma WalkGrows(f: Flowgraph, v: Walk, b: nat)
    requires IsFlowPath(f, v) && b in f.blocks && Last(v) in Preds(f, b)
    ensures IsFlowPath(f, v + [b]) && Last(v + [b]) == b
  {
    hide Preds;
    var w := v + [b];
    forall i | 0 <= i < |w| - 1
      ensures w[i] in Preds(f, w[i + 1])
    {
      if i + 1 < |v| {
        assert w[i] == v[i] && w[i + 1] == v[i + 1];
      } else {
        assert w[i] == Last(v) && w[i + 1] == b;
      }
    }
  }

  // On the path the place holds the entry's function.
  lemma {:induction false} SkipHolds(n: nat, k: nat)
    requires k <= n
    ensures Brings(Tail(n), SkipLoop(n, k), map[PLACE := TheFunction(100)])
  {
    hide Tail, Preds, Predecessors, Brings, Performs, AccessesOf;
    TailIsShaped(n);
    var f := Tail(n);
    var held := map[PLACE := TheFunction(100)];
    NothingRun(f, held);
    if k == 0 {
      StartOfPath(f);
      EntryRuns(f, n + 2);
      assert [] + [n + 2] == [n + 2] && [n + 2] + [n + 1] == [n + 2, n + 1];
      BringsMore(f, [], n + 2, map[], held);
      BringsMore(f, [n + 2], n + 1, held, held);
    } else {
      SkipHolds(n, k - 1);
      BringsMore(f, SkipLoop(n, k - 1), n - k, held, held);
    }
  }

  lemma NothingRun(f: Flowgraph, held: Held)
    ensures Performs(f, [], held, held)
  {
  }

  lemma StartOfPath(f: Flowgraph)
    ensures Brings(f, [], map[])
  {
  }

  lemma EntryRuns(f: Flowgraph, b: nat)
    requires f.locations == map[PLACE := LocationInfo(true, false, None)] && AccessesOf(f, b) == [Assigns(100, 10)]
    ensures Performs(f, AccessesOf(f, b), map[], map[PLACE := TheFunction(100)])
  {
    NothingRun(f, map[]);
    assert Puts(Assigns(100, 10), map[], TheFunction(100));
    PerformsMore(f, [], Assigns(100, 10), map[], map[], map[PLACE := TheFunction(100)]);
    assert [] + [Assigns(100, 10)] == [Assigns(100, 10)];
  }

  // The call at the end of the tail.
  const CALL := IndirectCall(0, VariableRef(PLACE, true), 0)

  lemma PathEndsTail(n: nat)
    requires n > 0
    ensures var w := SkipLoop(n, n); var f := Tail(n);
            IsFlowPath(f, w) && Last(w) == 0 && AccessesOf(f, 0) == [] && Calls(f, w, CALL, TheFunction(100))
  {
    hide Tail, Brings, BringsTo;
    SkipIsPath(n, n);
    SkipHolds(n, n - 1);
    TailIsShaped(n);
    var f := Tail(n);
    var w := SkipLoop(n, n);
    var held := map[PLACE := TheFunction(100)];
    assert w[..|w| - 1] == SkipLoop(n, n - 1);
    BringsToStart(f, w, held);
    assert Denotes(CALL.callee, held, TheFunction(100));
  }

  // However many sweeps are allowed, a tail as long makes the last block's call look certain
  // when they are over, although a path reaches it with another function.
  lemma SweepsMissPath(n: nat)
    requires n > 0
    ensures var f := Tail(n); var m := Swept(f, n + 1);
            && 0 in m.inputs && CertainTarget(CallValue(f, m.inputs[0], AccessesOf(f, 0), CALL), 200)
            && !Fixpoint(f, m.inputs, m.outputs)
  {
    hide Swept, Fixpoint, Transfer, Tail, SkipLoop, Calls;
    Front(n, n);
    PathEndsTail(n);
    var f, w := Tail(n), SkipLoop(n, n);
    var m := Swept(f, n + 1);
    NothingAssigned(f, m.inputs[0]);
    if Fixpoint(f, m.inputs, m.outputs) {
      CertainCallOnEveryPath(f, m, w, CALL, 200, TheFunction(100));
      assert false;
    }
  }

  // The analyzer's own cap: a tail of 63 blocks after a loop. No sweep converges, and after the
  // last one the call is published with a single certain target that the path contradicts.
  lemma CapMissesPath()
    ensures var f := Tail(63); var m := Swept(f, 64);
            && 0 in m.inputs && CertainTarget(CallValue(f, m.inputs[0], AccessesOf(f, 0), CALL), 200)
            && forall j: nat :: j <= 64 ==> !Fixpoint(f, Swept(f, j).inputs, Swept(f, j).outputs)
    ensures var f := Tail(63); var w := SkipLoop(63, 63);
            IsFlowPath(f, w) && Last(w) == 0 && Calls(f, w, CALL, TheFunction(100))
  {
    hide Swept, Fixpoint, Transfer, Tail, SkipLoop, Calls, CallValue;
    SweepsMissPath(63);
    PathEndsTail(63);
    var f := Tail(63);
    forall j: nat | j <= 64
      ensures !Fixpoint(f, Swept(f, j).inputs, Swept(f, j).outputs)
    {
      if Fixpoint(f, Swept(f, j).inputs, Swept(f, j).outputs) {
        ConvergedStays(f, j, 64);
        assert false;
      }
    }
  }
}
