// The reference meaning of the data-flow states: what happens along walks through
// the control-flow graph.
module DataFlowPaths {
  import opened Graphs
  import opened Options
  import opened DataFlow

  // A walk: consecutive blocks along edges, starting anywhere. A path is a walk that
  // starts at a block without predecessors, such as the entry.
  type Walk = seq<nat>

  ghost predicate IsWalk(f: Flowgraph, w: Walk) {
    && |w| > 0
    && (forall i :: 0 <= i < |w| ==> w[i] in f.blocks)
    && (forall i :: 0 <= i < |w| - 1 ==> w[i] in Preds(f, w[i + 1]))
  }

  function Last(w: Walk): nat
    requires |w| > 0
  {
    w[|w| - 1]
  }

  ghost predicate IsFlowPath(f: Flowgraph, w: Walk) {
    IsWalk(f, w) && Preds(f, w[0]) == {}
  }

  // The last definition of a location among some accesses, and along a walk.
  function LastDef(accesses: seq<Access>, l: nat): Option<nat> {
    if accesses == [] then None
    else
      var a := accesses[|accesses| - 1];
      if !a.kind.ReadAccess? && a.location == l then Some(a.key)
      else LastDef(accesses[..|accesses| - 1], l)
  }

  function LastDefAlong(f: Flowgraph, w: Walk, l: nat): Option<nat> {
    if w == [] then None
    else
      match LastDef(AccessesOf(f, w[|w| - 1]), l)
      case Some(d) => Some(d)
      case None => LastDefAlong(f, w[..|w| - 1], l)
  }

  // d is the last definition of l on some walk ending at b.
  ghost predicate DefReaches(f: Flowgraph, b: nat, l: nat, d: nat) {
    exists w :: DefWalk(f, w, b, l, d)
  }

  ghost predicate DefWalk(f: Flowgraph, w: Walk, b: nat, l: nat, d: nat) {
    IsWalk(f, w) && Last(w) == b && LastDefAlong(f, w, l) == Some(d)
  }

  // Every backward walk out of b's predecessors meets a definition of l within n blocks.
  ghost predicate Must(f: Flowgraph, b: nat, l: nat, n: nat) {
    n > 0 && Preds(f, b) != {} && forall q :: q in Preds(f, b) ==> MustOut(f, q, l, n - 1)
  }

  ghost predicate MustOut(f: Flowgraph, q: nat, l: nat, n: nat)
    decreases n
  {
    LastDef(AccessesOf(f, q), l).Some?
    || (n > 0 && Preds(f, q) != {} && forall r :: r in Preds(f, q) ==> MustOut(f, r, l, n - 1))
  }

  ghost predicate AlwaysDefined(f: Flowgraph, q: nat, l: nat) {
    exists n: nat :: MustOut(f, q, l, n)
  }

  ghost predicate AlwaysDefinedIn(f: Flowgraph, b: nat, l: nat) {
    exists n: nat :: Must(f, b, l, n)
  }

  // Transfers and definitions ---------------------------------------------------------

  lemma {:induction false} TransferDefinitions(f: Flowgraph, s: State, accesses: seq<Access>, l: nat)
    requires !f.navigationOnly
    ensures var t := Transfer(f, s, accesses);
            match LastDef(accesses, l)
            case Some(d) => DefinitionsAt(t, l) == {d} && CompleteAt(t, l)
            case None => DefinitionsAt(t, l) == DefinitionsAt(s, l) && CompleteAt(t, l) == CompleteAt(s, l)
  {
    if accesses != [] {
      TransferDefinitions(f, s, accesses[..|accesses| - 1], l);
    }
  }

  lemma JoinDefinitions(f: Flowgraph, incoming: set<nat>, outputs: Outputs, l: nat)
    requires !f.navigationOnly
    ensures var j := Join(f, incoming, outputs); var present := Present(incoming, outputs);
            && (forall d :: d in DefinitionsAt(j, l) <==> exists q :: q in present && d in DefinitionsAt(outputs[q], l))
            && (CompleteAt(j, l) <==>
                  present == incoming && present != {} && forall q :: q in present ==> CompleteAt(outputs[q], l))
  {
    var j, present := Join(f, incoming, outputs), Present(incoming, outputs);
    forall d | d in DefinitionsAt(j, l)
      ensures exists q :: q in present && d in DefinitionsAt(outputs[q], l)
    {
      var q :| q in present && l in outputs[q].definitions && d in outputs[q].definitions[l];
      assert d in DefinitionsAt(outputs[q], l);
    }
    if q :| q in present && CompleteAt(outputs[q], l) {
      assert l in CompleteKeys(present, outputs);
    }
  }

  lemma LastDefStep(f: Flowgraph, w: Walk, b: nat, l: nat)
    ensures LastDefAlong(f, w + [b], l)
            == match LastDef(AccessesOf(f, b), l) case Some(d) => Some(d) case None => LastDefAlong(f, w, l)
  {
    assert (w + [b])[..|w|] == w;
  }

  lemma ExtendWalk(f: Flowgraph, w: Walk, b: nat)
    requires IsWalk(f, w) && Last(w) in Preds(f, b) && b in f.blocks
    ensures IsWalk(f, w + [b])
  {
    var w' := w + [b];
    forall i | 0 <= i < |w'| - 1
      ensures w'[i] in Preds(f, w'[i + 1])
    {
      if i < |w| - 1 {
        assert w'[i] == w[i] && w'[i + 1] == w[i + 1];
      }
    }
  }

  lemma ShortenWalk(f: Flowgraph, w: Walk)
    requires IsWalk(f, w) && |w| > 1
    ensures IsWalk(f, w[..|w| - 1]) && Last(w[..|w| - 1]) in Preds(f, Last(w))
    ensures w == w[..|w| - 1] + [Last(w)]
  {
    var u := w[..|w| - 1];
    assert w[|w| - 2] in Preds(f, w[|w| - 2 + 1]);
    forall i | 0 <= i < |u| - 1
      ensures u[i] in Preds(f, u[i + 1])
    {
      assert w[i] in Preds(f, w[i + 1]);
    }
  }

  // What holds of a computed state at any moment --------------------------------------

  // The state leaving block b reports only definitions that reach b's end; when it
  // calls a location complete, every backward walk meets a definition and every
  // definition that reaches is reported.
  ghost predicate OutGrounded(f: Flowgraph, b: nat, s: State) {
    && (forall l, d :: d in DefinitionsAt(s, l) ==> DefReaches(f, b, l, d))
    && (forall l :: CompleteAt(s, l) ==> AlwaysDefined(f, b, l))
    && (forall l, d :: CompleteAt(s, l) && DefReaches(f, b, l, d) ==> d in DefinitionsAt(s, l))
  }

  // d is the last definition of l on some walk ending at a predecessor of b.
  ghost predicate DefReachesIn(f: Flowgraph, b: nat, l: nat, d: nat) {
    exists q :: q in Preds(f, b) && DefReaches(f, q, l, d)
  }

  ghost predicate InGrounded(f: Flowgraph, b: nat, s: State) {
    && (forall l, d :: d in DefinitionsAt(s, l) ==> DefReachesIn(f, b, l, d))
    && (forall l :: CompleteAt(s, l) ==> AlwaysDefinedIn(f, b, l))
    && (forall l, d :: CompleteAt(s, l) && DefReachesIn(f, b, l, d) ==> d in DefinitionsAt(s, l))
  }

  ghost predicate Grounded(f: Flowgraph, inputs: Outputs, outputs: Outputs) {
    && (forall b :: b in inputs ==> InGrounded(f, b, inputs[b]))
    && (forall b :: b in outputs ==> OutGrounded(f, b, outputs[b]))
  }

  lemma {:induction false} MustOutMonotone(f: Flowgraph, q: nat, l: nat, m: nat, n: nat)
    requires MustOut(f, q, l, m) && m <= n
    ensures MustOut(f, q, l, n)
    decreases n
  {
    if !LastDef(AccessesOf(f, q), l).Some? {
      forall r | r in Preds(f, q)
        ensures MustOut(f, r, l, n - 1)
      {
        MustOutMonotone(f, r, l, m - 1, n - 1);
      }
    }
  }

  // Finitely many bounds have a common one.
  lemma {:induction false} CommonBound(f: Flowgraph, qs: set<nat>, l: nat) returns (n: nat)
    requires forall q :: q in qs ==> AlwaysDefined(f, q, l)
    ensures forall q :: q in qs ==> MustOut(f, q, l, n)
    decreases |qs|
  {
    if qs == {} {
      n := 0;
    } else {
      var q :| q in qs;
      assert AlwaysDefined(f, q, l);
      var m: nat :| MustOut(f, q, l, m);
      var k := CommonBound(f, qs - {q}, l);
      n := if m >= k then m else k;
      forall r | r in qs
        ensures MustOut(f, r, l, n)
      {
        if r == q {
          MustOutMonotone(f, r, l, m, n);
        } else {
          MustOutMonotone(f, r, l, k, n);
        }
      }
    }
  }

  lemma JoinGrounded(f: Flowgraph, b: nat, outputs: Outputs)
    requires !f.navigationOnly
    requires forall q :: q in outputs ==> OutGrounded(f, q, outputs[q])
    ensures InGrounded(f, b, Join(f, Preds(f, b), outputs))
  {
    hide DefReaches, MustOut, Join;
    var s := Join(f, Preds(f, b), outputs);
    forall l, d | d in DefinitionsAt(s, l)
      ensures DefReachesIn(f, b, l, d)
    {
      JoinDefinitions(f, Preds(f, b), outputs, l);
    }
    forall l | CompleteAt(s, l)
      ensures AlwaysDefinedIn(f, b, l)
      ensures forall d :: DefReachesIn(f, b, l, d) ==> d in DefinitionsAt(s, l)
    {
      JoinDefinitions(f, Preds(f, b), outputs, l);
      var n := CommonBound(f, Preds(f, b), l);
      assert Must(f, b, l, n + 1);
    }
  }

  lemma WalkSplits(f: Flowgraph, b: nat, l: nat, d: nat, w: Walk)
    requires DefWalk(f, w, b, l, d)
    ensures match LastDef(AccessesOf(f, b), l) case Some(own) => d == own case None => DefReachesIn(f, b, l, d)
  {
    var u := w[..|w| - 1];
    assert w == u + [b];
    LastDefStep(f, u, b, l);
    if LastDef(AccessesOf(f, b), l).None? {
      assert u != [];
      ShortenWalk(f, w);
      assert DefWalk(f, u, Last(u), l, d);
    }
  }

  lemma OwnReaches(f: Flowgraph, b: nat, l: nat, d: nat)
    requires b in f.blocks && LastDef(AccessesOf(f, b), l) == Some(d)
    ensures DefReaches(f, b, l, d)
  {
    LastDefStep(f, [], b, l);
    assert [] + [b] == [b];
    assert DefWalk(f, [b], b, l, d);
  }

  lemma EnteredReaches(f: Flowgraph, b: nat, l: nat, d: nat)
    requires b in f.blocks && LastDef(AccessesOf(f, b), l).None? && DefReachesIn(f, b, l, d)
    ensures DefReaches(f, b, l, d)
  {
    var q :| q in Preds(f, b) && DefReaches(f, q, l, d);
    var w :| DefWalk(f, w, q, l, d);
    ExtendWalk(f, w, b);
    LastDefStep(f, w, b, l);
    assert DefWalk(f, w + [b], b, l, d);
  }

  // A definition leaving b is b's own last one, or b has none and it entered.
  lemma ReachesThrough(f: Flowgraph, b: nat, l: nat, d: nat)
    requires b in f.blocks
    ensures DefReaches(f, b, l, d) <==>
              match LastDef(AccessesOf(f, b), l) case Some(own) => d == own case None => DefReachesIn(f, b, l, d)
  {
    hide DefWalk, LastDef, DefReachesIn;
    if w :| DefWalk(f, w, b, l, d) {
      WalkSplits(f, b, l, d, w);
    }
    match LastDef(AccessesOf(f, b), l)
    case Some(own) =>
      OwnReaches(f, b, l, own);
    case None =>
      if DefReachesIn(f, b, l, d) {
        EnteredReaches(f, b, l, d);
      }
  }

  lemma TransferGrounded(f: Flowgraph, b: nat, s: State)
    requires !f.navigationOnly && b in f.blocks && InGrounded(f, b, s)
    ensures OutGrounded(f, b, Transfer(f, s, AccessesOf(f, b)))
  {
    hide DefReaches, DefReachesIn, Transfer;
    var t := Transfer(f, s, AccessesOf(f, b));
    forall l, d | d in DefinitionsAt(t, l)
      ensures DefReaches(f, b, l, d)
    {
      TransferDefinitions(f, s, AccessesOf(f, b), l);
      ReachesThrough(f, b, l, d);
    }
    forall l | CompleteAt(t, l)
      ensures AlwaysDefined(f, b, l)
      ensures forall d :: DefReaches(f, b, l, d) ==> d in DefinitionsAt(t, l)
    {
      TransferDefinitions(f, s, AccessesOf(f, b), l);
      if LastDef(AccessesOf(f, b), l).Some? {
        assert MustOut(f, b, l, 0);
      } else {
        var n: nat :| Must(f, b, l, n);
        assert MustOut(f, b, l, n);
      }
      forall d | DefReaches(f, b, l, d)
        ensures d in DefinitionsAt(t, l)
      {
        ReachesThrough(f, b, l, d);
      }
    }
  }
}
