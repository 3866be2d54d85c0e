// Which control-flow graphs are analysed well whatever their blocks contain: how many sweeps
// suffice for convergence, and when certain values are right on every path even without it.
module GraphShapes {
  import opened Graphs
  import opened Options
  import opened DataFlow
  import opened DataFlowPaths
  import opened DataFlowSolver
  import opened PathValues
  import opened PointsToSoundness
  import opened SweepUnfolding

  // The edges of a walk that run against the order of visits. A value that travels along the
  // walk is held up by one sweep at each.
  ghost function Turns(f: Flowgraph, w: Walk): nat {
    if |w| < 2 then 0 else (if Turn(f, w[0], w[1]) then 1 else 0) + Turns(f, w[1..])
  }

  lemma {:induction false} TurnsSnoc(f: Flowgraph, w: Walk, b: nat)
    requires |w| > 0
    ensures Turns(f, w + [b]) == Turns(f, w) + if Turn(f, Last(w), b) then 1 else 0
  {
    hide Turn;
    var v := w + [b];
    assert v[1..] == w[1..] + [b];
    if |w| > 1 {
      TurnsSnoc(f, w[1..], b);
    } else {
      assert v[1..] == [b];
    }
  }

  // Every walk to b makes fewer than k turns.
  ghost predicate FewTurnsTo(f: Flowgraph, b: nat, k: nat) {
    forall w :: IsWalk(f, w) && Last(w) == b ==> Turns(f, w) < k
  }

  ghost predicate FewTurns(f: Flowgraph, k: nat) {
    forall w :: IsWalk(f, w) ==> Turns(f, w) < k
  }

  lemma FewTurnsBefore(f: Flowgraph, b: nat, q: nat, k: nat)
    requires k > 0 && b in f.blocks && q in f.blocks && q in Preds(f, b) && FewTurnsTo(f, b, k)
    ensures Level(f, k, q, b) > 0 && FewTurnsTo(f, q, Level(f, k, q, b))
  {
    hide Turn, Preds, Turns;
    forall w | IsWalk(f, w) && Last(w) == q
      ensures Turns(f, w) < Level(f, k, q, b)
    {
      ExtendWalk(f, w, b);
      TurnsSnoc(f, w, b);
      assert Last(w + [b]) == b;
    }
    LoneWalk(f, q);
  }

  lemma LoneWalk(f: Flowgraph, b: nat)
    requires b in f.blocks
    ensures IsWalk(f, [b]) && Last([b]) == b && Turns(f, [b]) == 0
  {
  }

  // Enough sweeps -----------------------------------------------------------------------------

  // One more sweep changes nothing at a block that fewer turns lead to.
  lemma {:induction false} Steady(f: Flowgraph, k: nat, b: nat)
    requires k > 0 && b in f.blocks && FewTurnsTo(f, b, k)
    ensures OutAt(f, k, b) == OutAt(f, k + 1, b) && InAt(f, k, b) == InAt(f, k + 1, b)
    decreases k, Place(f.blocks, b)
  {
    hide Join, Transfer, FewTurnsTo, Seen;
    var now, next := Seen(f, k, b), Seen(f, k + 1, b);
    forall q | q in Preds(f, b)
      ensures q in now <==> q in next
      ensures q in now ==> now[q] == next[q]
    {
      SeenIs(f, k, q, b);
      SeenIs(f, k + 1, q, b);
      if q in f.blocks {
        FewTurnsBefore(f, b, q, k);
        Steady(f, Level(f, k, q, b), q);
      }
    }
    SeenKeys(f, k, b);
    SeenKeys(f, k + 1, b);
    assert now == next;
  }

  lemma SeenKeys(f: Flowgraph, k: nat, b: nat)
    requires k > 0 && b in f.blocks
    ensures Seen(f, k, b).Keys <= Preds(f, b)
  {
  }

  lemma EnoughAt(f: Flowgraph, n: nat, b: nat)
    requires Distinct(f) && n > 0 && FewTurns(f, n) && b in f.blocks
    ensures b in Swept(f, n).inputs && b in Swept(f, n).outputs
    ensures Swept(f, n).inputs[b] == Join(f, Preds(f, b), Swept(f, n).outputs)
    ensures Swept(f, n).outputs[b] == Transfer(f, Swept(f, n).inputs[b], AccessesOf(f, b))
  {
    hide Join, Transfer, FewTurnsTo, Swept, Seen, OutAt, Distinct;
    var outputs, seen := Swept(f, n).outputs, Seen(f, n, b);
    SweptIs(f, n, b);
    OutIs(f, n, b);
    assert FewTurnsTo(f, b, n) by { FewAt(f, n, b); }
    forall q | q in Preds(f, b)
      ensures q in outputs <==> q in seen
      ensures q in seen ==> outputs[q] == seen[q]
    {
      SeenIs(f, n, q, b);
      OnlyBlocksSwept(f, n, q);
      if q in f.blocks {
        SweptIs(f, n, q);
        FewTurnsBefore(f, b, q, n);
        if Turn(f, q, b) {
          Steady(f, n - 1, q);
        }
      }
    }
    JoinSame(f, Preds(f, b), outputs, seen);
  }

  lemma FewAt(f: Flowgraph, n: nat, b: nat)
    requires FewTurns(f, n)
    ensures FewTurnsTo(f, b, n)
  {
  }

  // When every walk makes fewer than n turns, n sweeps end in a fixpoint.
  lemma EnoughSweeps(f: Flowgraph, n: nat)
    requires Distinct(f) && FewTurns(f, n)
    ensures Fixpoint(f, Swept(f, n).inputs, Swept(f, n).outputs)
  {
    hide Join, Transfer, Swept, FewTurns, Distinct;
    forall b | b in f.blocks
      ensures b in Swept(f, n).inputs && b in Swept(f, n).outputs
      ensures Swept(f, n).inputs[b] == Join(f, Preds(f, b), Swept(f, n).outputs)
      ensures Swept(f, n).outputs[b] == Transfer(f, Swept(f, n).inputs[b], AccessesOf(f, b))
    {
      SomeTurns(f, n, b);
      EnoughAt(f, n, b);
    }
  }

  lemma SomeTurns(f: Flowgraph, n: nat, b: nat)
    requires FewTurns(f, n) && b in f.blocks
    ensures n > 0
  {
    LoneWalk(f, b);
  }

  // A certificate of few turns: a rank that no edge lowers and every turn raises, such as the
  // most turns on any way to a block of a loop-free graph.
  ghost predicate Ranked(f: Flowgraph, rank: nat -> nat) {
    forall q, b :: q in f.blocks && b in f.blocks && q in Preds(f, b) ==>
                     rank(q) + (if Turn(f, q, b) then 1 else 0) <= rank(b)
  }

  lemma {:induction false} RankBoundsTurns(f: Flowgraph, rank: nat -> nat, w: Walk)
    requires Ranked(f, rank) && IsWalk(f, w)
    ensures Turns(f, w) <= rank(Last(w))
    decreases |w|
  {
    hide Turn, Preds;
    if |w| > 1 {
      ShortenWalk(f, w);
      RankBoundsTurns(f, rank, w[..|w| - 1]);
      TurnsSnoc(f, w[..|w| - 1], Last(w));
    }
  }

  // In a loop-free graph whose ranks stay below the number of sweeps the analysis converges,
  // whatever the blocks contain.
  lemma RankedConverges(f: Flowgraph, rank: nat -> nat, n: nat)
    requires Distinct(f) && Ranked(f, rank) && forall b :: b in f.blocks ==> rank(b) < n
    ensures Fixpoint(f, Swept(f, n).inputs, Swept(f, n).outputs)
  {
    hide Ranked, Fixpoint, Swept, Distinct, Turns, Preds;
    forall w | IsWalk(f, w)
      ensures Turns(f, w) < n
    {
      RankBoundsTurns(f, rank, w);
      assert Last(w) in f.blocks;
    }
    EnoughSweeps(f, n);
  }

  // Then every certain call target and every must-alias is right on every path.
  lemma RankedIsRight(f: Flowgraph, rank: nat -> nat, n: nat, w: Walk, c: IndirectCall, target: nat, t: Thing, x: Alias)
    requires Distinct(f) && Ranked(f, rank) && (forall b :: b in f.blocks ==> rank(b) < n) && IsFlowPath(f, w)
    ensures Last(w) in Swept(f, n).inputs
    ensures var input, accesses := Swept(f, n).inputs[Last(w)], AccessesOf(f, Last(w));
            && (CertainTarget(CallValue(f, input, accesses, c), target) && Calls(f, w, c, t) ==> OnlyTarget(t, target))
            && (!f.navigationOnly && x in BlockAliases(f, input, accesses) && x.certain ==>
                  exists i :: 0 <= i < |accesses| && OnlyStorageAt(f, w, i, x))
  {
    hide Ranked, Fixpoint, Swept, Distinct, BlockAliases, OnlyStorageAt, CallValue, CertainTarget, OnlyTarget, Calls, Covers;
    RankedConverges(f, rank, n);
    InputCoversPath(f, Swept(f, n), w);
    if Calls(f, w, c, t) {
      CertainCallOnEveryPath(f, Swept(f, n), w, c, target, t);
    }
    if !f.navigationOnly {
      MustAliasOnEveryPath(f, Swept(f, n), w, x);
    }
  }

  // Right without convergence ------------------------------------------------------------------

  // A block entered along path u by a turn although another predecessor comes first, and from
  // which a walk s makes the other n - 1 turns: within n sweeps what u brings does not reach
  // the end of s, while the block has already been joined without it.
  ghost predicate BlindBy(f: Flowgraph, n: nat, u: Walk, s: Walk, r: nat) {
    && IsFlowPath(f, u) && IsWalk(f, s) && Last(u) in Preds(f, s[0]) && Turn(f, Last(u), s[0])
    && Turns(f, s) + 1 == n
    && r in f.blocks && r in Preds(f, s[0]) && !Turn(f, r, s[0])
  }

  ghost predicate Blind(f: Flowgraph, n: nat) {
    exists u, s, r :: BlindBy(f, n, u, s, r)
  }

  // The locations that can carry points-to values.
  function TrackedLocations(f: Flowgraph): set<nat> {
    set l | l in f.locations && f.locations[l].tracked
  }

  // What is called an untracked variable is one.
  ghost predicate Typed(f: Flowgraph) {
    forall b :: b in f.blocks ==> AllFirm(TrackedLocations(f), AccessesOf(f, b))
  }

  lemma {:induction false} OnlyTrackedHeld(f: Flowgraph, accesses: seq<Access>, held: Held, held': Held)
    requires held.Keys <= TrackedLocations(f) && Performs(f, accesses, held, held')
    ensures held'.Keys <= TrackedLocations(f)
  {
    hide Puts;
    if accesses != [] {
      var n := |accesses| - 1;
      var mid :| Performs(f, accesses[..n], held, mid) && Leaves(f, accesses[n], mid, held');
      OnlyTrackedHeld(f, accesses[..n], held, mid);
    }
  }

  lemma {:induction false} OnlyTrackedOnPath(f: Flowgraph, w: Walk, held: Held)
    requires Brings(f, w, held)
    ensures held.Keys <= TrackedLocations(f)
  {
    hide Performs, TrackedLocations;
    if w != [] {
      var n := |w| - 1;
      var entry :| Brings(f, w[..n], entry) && Performs(f, AccessesOf(f, w[n]), entry, held);
      OnlyTrackedOnPath(f, w[..n], entry);
      OnlyTrackedHeld(f, AccessesOf(f, w[n]), entry, held);
    }
  }

  // No predecessor of b has been visited when b is visited in the first sweep.
  lemma NothingSeen(f: Flowgraph, q: nat, b: nat)
    requires b in f.blocks && forall r :: r in f.blocks && r in Preds(f, b) ==> Turn(f, r, b)
    ensures Present(Preds(f, b), Seen(f, 1, b)) == {}
  {
  }

  // What sweep k brings to the last block of path w covers every run along w, if w goes on along
  // s to where all n sweeps are spent.
  lemma {:induction false} UnfoldedCovers(f: Flowgraph, n: nat, k: nat, w: Walk, s: Walk, held: Held)
    requires Typed(f) && !Blind(f, n) && k > 0
    requires IsFlowPath(f, w) && IsWalk(f, s) && Last(w) == s[0] && Turns(f, s) + k == n
    requires Brings(f, w[..|w| - 1], held)
    ensures Covers(TrackedLocations(f), InAt(f, k, Last(w)), held)
    decreases |w|
  {
    hide Join, Transfer, Covers, AllFirm, TrackedLocations, Blind, Turn, Seen, Turns, OutAt, Performs;
    var b, u, tracked := Last(w), w[..|w| - 1], TrackedLocations(f);
    OnlyTrackedOnPath(f, u, held);
    if u == [] {
      EmptyJoin(f, tracked, Preds(f, b), Seen(f, k, b), held);
    } else {
      ShortenWalk(f, w);
      assert u[0] == w[0];
      var q := Last(u);
      var l := Level(f, k, q, b);
      SeenIs(f, k, q, b);
      if l == 0 {
        forall r | r in f.blocks && r in Preds(f, b)
          ensures Turn(f, r, b)
        {
          if !Turn(f, r, b) {
            NotBlind(f, n, u, s, r);
          }
        }
        NothingSeen(f, q, b);
        EmptyJoin(f, tracked, Preds(f, b), Seen(f, k, b), held);
      } else {
        WalkFrom(f, q, s);
        var entry :| Brings(f, u[..|u| - 1], entry) && Performs(f, AccessesOf(f, u[|u| - 1]), entry, held);
        UnfoldedCovers(f, n, l, u, [q] + s, entry);
        TransferCovers(f, tracked, InAt(f, l, q), AccessesOf(f, q), entry, held);
        OutIs(f, l, q);
        JoinCovers(f, tracked, Preds(f, b), Seen(f, k, b), q, held);
      }
    }
  }

  lemma NotBlind(f: Flowgraph, n: nat, u: Walk, s: Walk, r: nat)
    requires BlindBy(f, n, u, s, r)
    ensures Blind(f, n)
  {
  }

  lemma WalkFrom(f: Flowgraph, q: nat, s: Walk)
    requires IsWalk(f, s) && q in f.blocks && q in Preds(f, s[0])
    ensures IsWalk(f, [q] + s) && ([q] + s)[0] == q
    ensures Turns(f, [q] + s) == Turns(f, s) + if Turn(f, q, s[0]) then 1 else 0
  {
    var v := [q] + s;
    assert v[1..] == s;
    forall i | 0 <= i < |v| - 1
      ensures v[i] in Preds(f, v[i + 1])
    {
      if i > 0 {
        assert s[i - 1] in Preds(f, s[i - 1 + 1]);
      }
    }
  }

  // On a graph that is not blind n sweeps cover every path, converged or not.
  lemma SightedCovers(f: Flowgraph, n: nat, w: Walk)
    requires Distinct(f) && Typed(f) && !Blind(f, n) && n > 0 && IsFlowPath(f, w)
    ensures EntryCovers(f, TrackedLocations(f), Swept(f, n), w)
  {
    hide Typed, Covers, Blind, Swept, InAt, OutAt, Brings;
    LoneWalk(f, Last(w));
    SweptIs(f, n, Last(w));
    forall held | Brings(f, w[..|w| - 1], held)
      ensures Covers(TrackedLocations(f), Swept(f, n).inputs[Last(w)], held)
    {
      UnfoldedCovers(f, n, n, w, [Last(w)], held);
    }
  }

  // Few turns leave no room for blindness.
  lemma FewTurnsNotBlind(f: Flowgraph, n: nat)
    requires FewTurns(f, n)
    ensures !Blind(f, n)
  {
    hide Turns, Turn, Preds;
    if Blind(f, n) {
      var u, s, r :| BlindBy(f, n, u, s, r);
      WalkFrom(f, Last(u), s);
      assert false;
    }
  }
}
