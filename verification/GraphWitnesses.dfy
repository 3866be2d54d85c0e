// Function bodies that show the conditions of GraphShapes to be exact: a function that stores
// a value in one block and hands it on along a chosen walk, from register to register, while
// every other block resets the registers.
module GraphWitnesses {
  import opened Graphs
  import opened Options
  import opened DataFlow
  import opened DataFlowPaths
  import opened DataFlowSolver
  import opened PathValues
  import opened PointsToSoundness
  import opened SweepUnfolding
  import opened GraphShapes

  const CAUGHT := 100
  const PLAIN := 200

  // What block b assigns to register j: q starts the value off, the blocks of s pass it on.
  function Source(q: nat, s: seq<nat>, b: nat, j: nat): Expr
    requires j < |s|
  {
    if j == 0 then FunctionRef(if b == q then CAUGHT else PLAIN, true)
    else if b == s[j - 1] then VariableRef(j - 1, true)
    else FunctionRef(PLAIN, true)
  }

  // The first n of a block's assignments, the highest register first.
  function Moves(q: nat, s: seq<nat>, b: nat, n: nat): seq<Access>
    requires n <= |s|
  {
    if n == 0 then []
    else Moves(q, s, b, n - 1) + [Access(n, |s| - n, Assignment, Some(Source(q, s, b, |s| - n)), true)]
  }

  function RegisterInfo(j: nat): LocationInfo {
    LocationInfo(true, false, None)
  }

  function Carrier(f: Flowgraph, q: nat, s: seq<nat>): Flowgraph {
    Flowgraph(f.blocks, f.predecessors, map b | b in f.blocks :: Moves(q, s, b, |s|),
              map j: nat | j < |s| :: RegisterInfo(j), false)
  }

  ghost predicate Carries(g: Flowgraph, q: nat, s: seq<nat>) {
    && (forall b :: b in g.blocks ==> AccessesOf(g, b) == Moves(q, s, b, |s|))
    && (forall l: nat :: l < |s| ==> l in g.locations && g.locations[l] == LocationInfo(true, false, None))
  }

  lemma CarrierCarries(f: Flowgraph, q: nat, s: seq<nat>)
    ensures Carries(Carrier(f, q, s), q, s) && SameShape(f, Carrier(f, q, s)) && Typed(Carrier(f, q, s))
  {
    hide Moves;
    var g := Carrier(f, q, s);
    forall b | b in g.blocks
      ensures AllFirm(TrackedLocations(g), AccessesOf(g, b))
    {
      MovesFirm(TrackedLocations(g), q, s, b, |s|);
    }
  }

  lemma {:induction false} MovesFirm(missing: set<nat>, q: nat, s: seq<nat>, b: nat, n: nat)
    requires n <= |s|
    ensures AllFirm(missing, Moves(q, s, b, n))
  {
    if n > 0 {
      MovesFirm(missing, q, s, b, n - 1);
    }
  }

  function Register(t: State, j: nat): PointsTo {
    Evaluate(VariableRef(j, true), t)
  }

  // The registers already assigned hold their sources' values, the others what they held.
  ghost predicate MovedSoFar(q: nat, s: seq<nat>, b: nat, n: nat, t: State, t': State)
    requires n <= |s|
  {
    && (forall j: nat :: |s| - n <= j < |s| ==> j in t'.pointsTo && t'.pointsTo[j] == Evaluate(Source(q, s, b, j), t))
    && (forall j: nat :: j < |s| - n ==> Register(t', j) == Register(t, j))
  }

  lemma SourceSame(q: nat, s: seq<nat>, b: nat, n: nat, t: State, t': State)
    requires n < |s| && MovedSoFar(q, s, b, n, t, t')
    ensures Evaluate(Source(q, s, b, |s| - n - 1), t') == Evaluate(Source(q, s, b, |s| - n - 1), t)
  {
    var j := |s| - n - 1;
    if j > 0 {
      assert Register(t', j - 1) == Register(t, j - 1);
    }
  }

  lemma {:induction false} Moved(g: Flowgraph, q: nat, s: seq<nat>, b: nat, n: nat, t: State)
    requires Carries(g, q, s) && n <= |s|
    ensures MovedSoFar(q, s, b, n, t, Transfer(g, t, Moves(q, s, b, n)))
  {
    hide Source, Evaluate, Transfer;
    if n > 0 {
      var before := Moves(q, s, b, n - 1);
      var t' := Transfer(g, t, before);
      Moved(g, q, s, b, n - 1, t);
      SourceSame(q, s, b, n - 1, t, t');
      var a := Access(n, |s| - n, Assignment, Some(Source(q, s, b, |s| - n)), true);
      TransferSnoc(g, t, before, a);
      OneMove(g, t', a);
      assert Moves(q, s, b, n) == before + [a];
      SourceIgnoresDefinitions(q, s, b, |s| - n, Defined(g, a, t'), t');
    } else {
      NothingAssigned(g, t);
    }
  }

  lemma TransferSnoc(f: Flowgraph, t: State, accesses: seq<Access>, a: Access)
    ensures Transfer(f, t, accesses + [a]) == Step(f, Transfer(f, t, accesses), a)
  {
    assert (accesses + [a])[..|accesses|] == accesses;
  }

  lemma SourceIgnoresDefinitions(q: nat, s: seq<nat>, b: nat, j: nat, t: State, t': State)
    requires j < |s| && t.pointsTo == t'.pointsTo
    ensures Evaluate(Source(q, s, b, j), t) == Evaluate(Source(q, s, b, j), t')
  {
  }

  lemma OneMove(g: Flowgraph, t: State, a: Access)
    requires a.kind.Assignment? && a.expression.Some?
    requires a.location in g.locations && g.locations[a.location] == LocationInfo(true, false, None)
    ensures Step(g, t, a).pointsTo == t.pointsTo[a.location := Evaluate(a.expression.value, Defined(g, a, t))]
    ensures forall j :: j != a.location ==> Register(Step(g, t, a), j) == Register(t, j)
    ensures Defined(g, a, t).pointsTo == t.pointsTo
  {
    hide Evaluate;
    forall j | j != a.location
      ensures Register(Step(g, t, a), j) == Register(t, j)
    {
      RegisterReads(Step(g, t, a), t, j);
    }
  }

  lemma RegisterReads(t: State, t': State, j: nat)
    requires (j in t.pointsTo <==> j in t'.pointsTo) && (j in t.pointsTo ==> t.pointsTo[j] == t'.pointsTo[j])
    ensures Register(t, j) == Register(t', j)
  {
  }

  // After a block every register holds its source's value.
  lemma AfterBlock(g: Flowgraph, q: nat, s: seq<nat>, b: nat, t: State, j: nat)
    requires Carries(g, q, s) && b in g.blocks && j < |s|
    ensures var t' := Transfer(g, t, AccessesOf(g, b));
            && j in t'.pointsTo
            && t'.pointsTo[j] == if j == 0 then Only(if b == q then CAUGHT else PLAIN)
                                 else if b == s[j - 1] then Register(t, j - 1) else Only(PLAIN)
  {
    hide Transfer, Moves;
    Moved(g, q, s, b, |s|, t);
  }

  // Joins ------------------------------------------------------------------------------------

  lemma JoinPlain(f: Flowgraph, incoming: set<nat>, outputs: Outputs, r: nat, j: nat)
    requires r in Present(incoming, outputs)
    requires forall q :: q in Present(incoming, outputs) ==> j in outputs[q].pointsTo && outputs[q].pointsTo[j] == Only(PLAIN)
    ensures Register(Join(f, incoming, outputs), j) == Only(PLAIN)
  {
    var present := Present(incoming, outputs);
    var v := JoinedPointsTo(present, outputs, j);
    assert r in present && j in outputs[r].pointsTo;
    assert j in PointsToKeys(present, outputs);
    assert v.functions == {PLAIN} && v.locations == {};
    assert v == Only(PLAIN);
  }

  lemma JoinLacks(f: Flowgraph, incoming: set<nat>, outputs: Outputs, j: nat)
    requires forall q :: q in Present(incoming, outputs) && j in outputs[q].pointsTo ==>
                           CAUGHT !in outputs[q].pointsTo[j].functions
    ensures CAUGHT !in Register(Join(f, incoming, outputs), j).functions
  {
    hide Cap;
    CapBounds(JoinedPointsTo(Present(incoming, outputs), outputs, j));
  }

  // Registers hold nothing but the two functions.
  ghost predicate Tame(t: State) {
    forall l :: l in t.pointsTo ==> TameValue(t.pointsTo[l])
  }

  predicate TameValue(v: PointsTo) {
    v.functions <= {CAUGHT, PLAIN} && v.locations == {}
  }

  lemma TameUncapped(v: PointsTo)
    requires TameValue(v)
    ensures Cap(v) == v
  {
    SubsetSize(v.functions, {CAUGHT, PLAIN});
  }

  lemma JoinTame(f: Flowgraph, incoming: set<nat>, outputs: Outputs)
    requires forall q :: q in Present(incoming, outputs) ==> Tame(outputs[q])
    ensures Tame(Join(f, incoming, outputs))
  {
    hide Cap;
    var present := Present(incoming, outputs);
    forall l | l in PointsToKeys(present, outputs)
      ensures TameValue(Cap(JoinedPointsTo(present, outputs, l)))
    {
      assert TameValue(JoinedPointsTo(present, outputs, l));
      TameUncapped(JoinedPointsTo(present, outputs, l));
    }
  }

  lemma JoinGains(f: Flowgraph, incoming: set<nat>, outputs: Outputs, r: nat, j: nat)
    requires forall q :: q in Present(incoming, outputs) ==> Tame(outputs[q])
    requires r in Present(incoming, outputs) && j in outputs[r].pointsTo && CAUGHT in outputs[r].pointsTo[j].functions
    ensures CAUGHT in Register(Join(f, incoming, outputs), j).functions
  {
    hide Cap;
    var present := Present(incoming, outputs);
    var v := JoinedPointsTo(present, outputs, j);
    assert j in PointsToKeys(present, outputs) && CAUGHT in v.functions;
    assert TameValue(v);
    TameUncapped(v);
  }

  // Too late -----------------------------------------------------------------------------------

  // The value sets out against the order of visits, with n - 1 further turns ahead.
  ghost predicate Ahead(g: Flowgraph, n: nat, q: nat, s: Walk) {
    Carries(g, q, s) && IsWalk(g, s) && Turn(g, q, s[0]) && Turns(g, s) + 1 == n
  }

  lemma SuffixTurns(g: Flowgraph, s: Walk, i: nat)
    requires 0 < i < |s|
    ensures Turns(g, s[i - 1..]) == (if Turn(g, s[i - 1], s[i]) then 1 else 0) + Turns(g, s[i..])
  {
    var v := s[i - 1..];
    assert v[0] == s[i - 1] && v[1] == s[i] && v[1..] == s[i..];
  }

  // The sweep in which the value would have to be at place i of the walk.
  ghost function DueAt(g: Flowgraph, n: nat, s: Walk, i: nat): int
    requires i < |s|
  {
    n - Turns(g, s[i..])
  }

  lemma {:induction false} Due(g: Flowgraph, n: nat, q: nat, s: Walk, i: nat)
    requires Ahead(g, n, q, s) && i < |s|
    ensures DueAt(g, n, s, 0) == 1 && DueAt(g, n, s, i) > 0
    ensures i > 0 ==> Level(g, DueAt(g, n, s, i), s[i - 1], s[i]) == DueAt(g, n, s, i - 1)
  {
    hide Turn, Carries, IsWalk;
    assert s[0..] == s;
    if i > 0 {
      Due(g, n, q, s, i - 1);
      SuffixTurns(g, s, i);
    }
  }

  // By then it is not there; if the first block had another predecessor to join, the plain
  // function is there, and nothing warns of the other.
  lemma {:induction false} NotInTime(g: Flowgraph, n: nat, q: nat, s: Walk, r: nat, i: nat)
    requires Ahead(g, n, q, s) && i < |s|
    ensures DueAt(g, n, s, i) > 0
    ensures var t := InAt(g, DueAt(g, n, s, i), s[i]);
            && CAUGHT !in Register(t, i).functions
            && (r in g.blocks && r in Preds(g, s[0]) && !Turn(g, r, s[0]) ==> Register(t, i) == Only(PLAIN))
  {
    hide Join, Transfer, Carries, Turn, Turns, Seen, OutAt, InAt, Register, Level;
    Due(g, n, q, s, i);
    var k, b := DueAt(g, n, s, i), s[i];
    var seen := Seen(g, k, b);
    InIs(g, k, b);
    if i > 0 {
      NotInTime(g, n, q, s, r, i - 1);
    }
    forall x | x in Present(Preds(g, b), seen)
      ensures i in seen[x].pointsTo
      ensures CAUGHT !in seen[x].pointsTo[i].functions
      ensures r in g.blocks && r in Preds(g, s[0]) && !Turn(g, r, s[0]) ==> seen[x].pointsTo[i] == Only(PLAIN)
    {
      SeenIs(g, k, x, b);
      LevelOne(g, x, b);
      OutIs(g, Level(g, k, x, b), x);
      AfterBlock(g, q, s, x, InAt(g, Level(g, k, x, b), x), i);
    }
    JoinLacks(g, Preds(g, b), seen, i);
    if r in g.blocks && r in Preds(g, s[0]) && !Turn(g, r, s[0]) {
      var there := if i == 0 then r else s[i - 1];
      SeenIs(g, k, there, b);
      LevelOne(g, r, b);
      JoinPlain(g, Preds(g, b), seen, there, i);
    }
  }

  lemma LevelOne(f: Flowgraph, q: nat, b: nat)
    ensures Level(f, 1, q, b) > 0 <==> !Turn(f, q, b)
  {
  }

  // Were the maps settled, the value would be everywhere along the walk.
  lemma {:induction false} SettledArrives(g: Flowgraph, q: nat, s: Walk, m: Maps, i: nat)
    requires Carries(g, q, s) && IsWalk(g, s) && q in g.blocks && q in Preds(g, s[0]) && i < |s|
    requires Fixpoint(g, m.inputs, m.outputs) && forall b :: b in m.outputs ==> Tame(m.outputs[b])
    ensures s[i] in m.inputs && CAUGHT in Register(m.inputs[s[i]], i).functions
  {
    hide Join, Transfer, Carries, Register, Tame, Fixpoint;
    var before := if i == 0 then q else s[i - 1];
    assert before in Preds(g, s[i]) by {
      if i > 0 { assert s[i - 1] in Preds(g, s[i - 1 + 1]); }
    }
    FixpointAt(g, m, before);
    FixpointAt(g, m, s[i]);
    if i > 0 {
      SettledArrives(g, q, s, m, i - 1);
    }
    AfterBlock(g, q, s, before, m.inputs[before], i);
    JoinGains(g, Preds(g, s[i]), m.outputs, before, i);
  }

  lemma {:induction false} UnfoldedTame(g: Flowgraph, q: nat, s: Walk, k: nat, b: nat)
    requires Carries(g, q, s) && k > 0 && b in g.blocks
    ensures Tame(OutAt(g, k, b))
    decreases k, Place(g.blocks, b)
  {
    hide Join, Transfer, Carries, Tame, Turn, Seen, InAt, OutAt, Level;
    InIs(g, k, b);
    OutIs(g, k, b);
    var seen := Seen(g, k, b);
    forall x | x in Present(Preds(g, b), seen)
      ensures Tame(seen[x])
    {
      SeenIs(g, k, x, b);
      LevelFalls(g, k, x, b);
      UnfoldedTame(g, q, s, Level(g, k, x, b), x);
    }
    JoinTame(g, Preds(g, b), seen);
    BlockTame(g, q, s, b, InAt(g, k, b));
  }

  lemma BlockTame(g: Flowgraph, q: nat, s: Walk, b: nat, t: State)
    requires Carries(g, q, s) && b in g.blocks && Tame(t)
    ensures Tame(Transfer(g, t, AccessesOf(g, b)))
  {
    hide Transfer, Source;
    MovesTame(g, q, s, b, |s|, t);
  }

  lemma {:induction false} MovesTame(g: Flowgraph, q: nat, s: Walk, b: nat, n: nat, t: State)
    requires Carries(g, q, s) && n <= |s| && Tame(t)
    ensures Tame(Transfer(g, t, Moves(q, s, b, n)))
  {
    hide Transfer;
    if n > 0 {
      var before := Moves(q, s, b, n - 1);
      var a := Access(n, |s| - n, Assignment, Some(Source(q, s, b, |s| - n)), true);
      MovesTame(g, q, s, b, n - 1, t);
      TransferSnoc(g, t, before, a);
      OneMove(g, Transfer(g, t, before), a);
    } else {
      NothingAssigned(g, t);
    }
  }

  lemma SweptTame(g: Flowgraph, q: nat, s: Walk, n: nat)
    requires Distinct(g) && Carries(g, q, s) && n > 0
    ensures forall b :: b in Swept(g, n).outputs ==> Tame(Swept(g, n).outputs[b])
  {
    hide Carries, Tame, Swept, OutAt, Distinct;
    forall b | b in Swept(g, n).outputs
      ensures Tame(Swept(g, n).outputs[b])
    {
      OnlyBlocksSwept(g, n, b);
      SweptIs(g, n, b);
      UnfoldedTame(g, q, s, n, b);
    }
  }

  // After n sweeps the value is not at the end of the walk, so something will still change.
  lemma CarrierUnsettled(g: Flowgraph, n: nat, q: nat, s: Walk)
    requires Distinct(g) && Ahead(g, n, q, s) && q in g.blocks && q in Preds(g, s[0])
    ensures !Fixpoint(g, Swept(g, n).inputs, Swept(g, n).outputs)
  {
    hide Carries, Tame, Swept, OutAt, InAt, Distinct, Fixpoint, Register, Turn, Turns, Preds;
    var i := |s| - 1;
    NotInTime(g, n, q, s, q, i);
    AllDue(g, n, s);
    SweptIs(g, n, s[i]);
    SweptTame(g, q, s, n);
    if Fixpoint(g, Swept(g, n).inputs, Swept(g, n).outputs) {
      SettledArrives(g, q, s, Swept(g, n), i);
    }
  }

  lemma AllDue(g: Flowgraph, n: nat, s: Walk)
    requires |s| > 0
    ensures DueAt(g, n, s, |s| - 1) == n
  {
  }

  // A walk of n turns or more ends in one that sets out by a turn and has n.
  lemma {:induction false} LastTurns(f: Flowgraph, w: Walk, n: nat) returns (q: nat, s: Walk)
    requires IsWalk(f, w) && 0 < n <= Turns(f, w)
    ensures IsWalk(f, s) && q in f.blocks && q in Preds(f, s[0]) && Turn(f, q, s[0]) && Turns(f, s) + 1 == n
  {
    hide Turn, Preds;
    var rest := w[1..];
    RestIsWalk(f, w);
    if Turns(f, rest) >= n {
      q, s := LastTurns(f, rest, n);
    } else {
      q, s := w[0], rest;
    }
  }

  lemma RestIsWalk(f: Flowgraph, w: Walk)
    requires IsWalk(f, w) && |w| > 1
    ensures IsWalk(f, w[1..]) && w[0] in Preds(f, w[1..][0])
  {
    var v := w[1..];
    assert w[0] in Preds(f, w[0 + 1]);
    forall i | 0 <= i < |v| - 1
      ensures v[i] in Preds(f, v[i + 1])
    {
      assert w[i + 1] in Preds(f, w[i + 1 + 1]);
    }
  }

  lemma SameTurns(f: Flowgraph, g: Flowgraph, w: Walk)
    requires SameShape(f, g)
    ensures Turns(f, w) == Turns(g, w) && (IsWalk(f, w) <==> IsWalk(g, w)) && (IsFlowPath(f, w) <==> IsFlowPath(g, w))
  {
    hide Turn, Preds;
    assert forall q, b :: Turn(f, q, b) == Turn(g, q, b) by { hide *; SameEdges(f, g); }
    assert forall b :: Preds(f, b) == Preds(g, b) by { hide *; SameEdges(f, g); }
    if |w| >= 2 {
      SameTurns(f, g, w[1..]);
    }
  }

  lemma SameEdges(f: Flowgraph, g: Flowgraph)
    requires SameShape(f, g)
    ensures forall q, b :: Turn(f, q, b) == Turn(g, q, b)
    ensures forall b :: Preds(f, b) == Preds(g, b)
  {
  }

  // Exactly the graphs without a walk of n turns are settled by n sweeps whatever their blocks
  // contain. A loop allows any number of turns, so no number of sweeps is enough for its graph.
  lemma SettledIff(f: Flowgraph, n: nat)
    requires Distinct(f)
    ensures (forall g :: SameShape(f, g) ==> Fixpoint(g, Swept(g, n).inputs, Swept(g, n).outputs)) <==> FewTurns(f, n)
  {
    hide Fixpoint, Swept, Turns, Turn, IsWalk, Carries;
    if FewTurns(f, n) {
      forall g | SameShape(f, g)
        ensures Fixpoint(g, Swept(g, n).inputs, Swept(g, n).outputs)
      {
        forall w | IsWalk(g, w)
          ensures Turns(g, w) < n
        {
          SameTurns(f, g, w);
        }
        EnoughSweeps(g, n);
      }
    } else {
      var w :| IsWalk(f, w) && Turns(f, w) >= n;
      var g := Unsettled(f, n, w);
    }
  }

  lemma Unsettled(f: Flowgraph, n: nat, w: Walk) returns (g: Flowgraph)
    requires Distinct(f) && IsWalk(f, w) && Turns(f, w) >= n
    ensures SameShape(f, g) && !Fixpoint(g, Swept(g, n).inputs, Swept(g, n).outputs)
  {
    if n == 0 {
      g := f;
      assert w[0] in g.blocks && Swept(g, 0) == Maps(map[], map[]);
    } else {
      hide Fixpoint, Swept, Turns, Turn, Carries, Carrier;
      var q, s := LastTurns(f, w, n);
      g := Carrier(f, q, s);
      CarrierCarries(f, q, s);
      SameTurns(f, g, s);
      SameEdges(f, g);
      CarrierUnsettled(g, n, q, s);
    }
  }

  // Misled -----------------------------------------------------------------------------------

  // After n sweeps the call at the end of path w is published as certain with a target, while on
  // some run along w it denotes another function, null or something unknown.
  ghost predicate Misled(g: Flowgraph, n: nat, w: Walk, c: IndirectCall, target: nat) {
    && IsFlowPath(g, w) && Last(w) in Swept(g, n).inputs
    && CertainTarget(CallValue(g, Swept(g, n).inputs[Last(w)], AccessesOf(g, Last(w)), c), target)
    && exists t :: Calls(g, w, c, t) && !OnlyTarget(t, target)
  }

  // A run through the first n of a block's assignments.
  lemma {:induction false} RunMoves(g: Flowgraph, q: nat, s: seq<nat>, b: nat, n: nat, held: Held) returns (held': Held)
    requires Carries(g, q, s) && n <= |s|
    ensures Performs(g, Moves(q, s, b, n), held, held')
    ensures forall j: nat :: |s| - n <= j < |s| ==> j in held' && Denotes(Source(q, s, b, j), held, held'[j])
    ensures forall j: nat :: j < |s| - n ==> (j in held' <==> j in held) && (j in held ==> held'[j] == held[j])
  {
    hide Source, Denotes, Performs;
    if n == 0 {
      held' := held;
      assert Performs(g, [], held, held) by { hide *; NothingRun(g, held); }
    } else {
      var mid := RunMoves(g, q, s, b, n - 1, held);
      var j := |s| - n;
      var a := Access(n, j, Assignment, Some(Source(q, s, b, j)), true);
      var t := DenotesSomething(Source(q, s, b, j), mid);
      held' := mid[j := t];
      SourceDenotes(q, s, b, j, held, mid, t);
      assert Puts(a, mid, t);
      PerformsMore(g, Moves(q, s, b, n - 1), a, held, mid, held');
    }
  }

  lemma NothingRun(g: Flowgraph, held: Held)
    ensures Performs(g, [], held, held)
  {
  }

  lemma SourceDenotes(q: nat, s: seq<nat>, b: nat, j: nat, held: Held, mid: Held, t: Thing)
    requires j < |s| && Denotes(Source(q, s, b, j), mid, t)
    requires forall i: nat :: i < j ==> (i in mid <==> i in held) && (i in held ==> mid[i] == held[i])
    ensures Denotes(Source(q, s, b, j), held, t)
  {
  }

  // A run along the path brings the value to the end of the walk.
  lemma {:induction false} PathBrings(g: Flowgraph, u: Walk, s: Walk, i: nat) returns (held: Held)
    requires |u| > 0 && Carries(g, Last(u), s) && Last(u) in g.blocks && i < |s| && forall b :: b in s ==> b in g.blocks
    ensures Brings(g, u + s[..i], held) && i in held && held[i] == TheFunction(CAUGHT)
  {
    hide Brings, Performs, Moves;
    if i == 0 {
      assert u + s[..0] == u[..|u| - 1] + [Last(u)];
      var entry := BringsSomething(g, u[..|u| - 1]);
      held := RunMoves(g, Last(u), s, Last(u), |s|, entry);
      BringsMore(g, u[..|u| - 1], Last(u), entry, held);
    } else {
      var entry := PathBrings(g, u, s, i - 1);
      var before := u + s[..i - 1];
      assert u + s[..i] == before + [s[i - 1]];
      held := RunMoves(g, Last(u), s, s[i - 1], |s|, entry);
      BringsMore(g, before, s[i - 1], entry, held);
    }
  }

  lemma PathConcat(f: Flowgraph, u: Walk, s: Walk)
    requires IsFlowPath(f, u) && IsWalk(f, s) && Last(u) in Preds(f, s[0])
    ensures IsFlowPath(f, u + s) && Last(u + s) == Last(s) && (u + s)[..|u + s| - 1] == u + s[..|s| - 1]
  {
    hide Preds;
    var w := u + s;
    assert w[0] == u[0];
    forall i | 0 <= i < |w| - 1
      ensures w[i] in Preds(f, w[i + 1])
    {
      if i < |u| - 1 {
        assert u[i] in Preds(f, u[i + 1]);
      } else if i >= |u| {
        var k := i - |u|;
        assert w[i] == s[k] && w[i + 1] == s[k + 1];
        assert s[k] in Preds(f, s[k + 1]);
      }
    }
  }

  lemma CarrierMisled(g: Flowgraph, n: nat, u: Walk, s: Walk, r: nat)
    requires Distinct(g) && BlindBy(g, n, u, s, r) && Carries(g, Last(u), s)
    ensures Misled(g, n, u + s, IndirectCall(0, VariableRef(|s| - 1, true), 0), PLAIN)
  {
    hide Carries, Swept, OutAt, InAt, Distinct, Turn, Turns, Preds, Transfer, Brings, BringsTo;
    var i := |s| - 1;
    var w := u + s;
    NotInTime(g, n, Last(u), s, r, i);
    AllDue(g, n, s);
    SweptIs(g, n, s[i]);
    PathConcat(g, u, s);
    var held := PathBrings(g, u, s, i);
    BringsToStart(g, w, held);
    NothingAssigned(g, Swept(g, n).inputs[Last(w)]);
    assert AccessesOf(g, Last(w))[..0] == [];
    var c := IndirectCall(0, VariableRef(i, true), 0);
    assert Denotes(c.callee, held, TheFunction(CAUGHT));
    assert BringsTo(g, w, 0, held) && c.sequence == 0;
    assert Calls(g, w, c, TheFunction(CAUGHT));
  }

  lemma SameBlindBy(f: Flowgraph, g: Flowgraph, n: nat, u: Walk, s: Walk, r: nat)
    requires SameShape(f, g) && BlindBy(f, n, u, s, r)
    ensures BlindBy(g, n, u, s, r)
  {
    hide Turns, Turn, Preds;
    SameTurns(f, g, s);
    SameTurns(f, g, u);
    SameEdges(f, g);
  }

  // A function over f's graph that misleads.
  ghost predicate MisledBy(f: Flowgraph, n: nat, g: Flowgraph, w: Walk, c: IndirectCall, target: nat) {
    SameShape(f, g) && Typed(g) && Firm(TrackedLocations(g), c.callee) && Misled(g, n, w, c, target)
  }

  // Exactly the graphs that are not blind have every certain call target right on every path,
  // whatever their blocks contain and whether or not the sweeps converge.
  lemma MisledIff(f: Flowgraph, n: nat)
    requires Distinct(f) && n > 0
    ensures Blind(f, n) <==> exists g, w, c, target :: MisledBy(f, n, g, w, c, target)
  {
    hide BlindBy, MisledBy, Distinct;
    if Blind(f, n) {
      var u, s, r :| BlindBy(f, n, u, s, r);
      var g, w, c, target := MisledByBlindness(f, n, u, s, r);
    }
    if g, w, c, target :| MisledBy(f, n, g, w, c, target) {
      NotMisled(f, g, n, w, c, target);
    }
  }

  lemma MisledByBlindness(f: Flowgraph, n: nat, u: Walk, s: Walk, r: nat)
    returns (g: Flowgraph, w: Walk, c: IndirectCall, target: nat)
    requires Distinct(f) && BlindBy(f, n, u, s, r)
    ensures MisledBy(f, n, g, w, c, target)
  {
    hide Turns, Turn, Preds, Carrier, Carries, Misled, Typed, TrackedLocations;
    g, w, c, target := Carrier(f, Last(u), s), u + s, IndirectCall(0, VariableRef(|s| - 1, true), 0), PLAIN;
    CarrierCarries(f, Last(u), s);
    SameBlindBy(f, g, n, u, s, r);
    CarrierMisled(g, n, u, s, r);
  }

  lemma NotMisled(f: Flowgraph, g: Flowgraph, n: nat, w: Walk, c: IndirectCall, target: nat)
    requires Distinct(f) && n > 0 && MisledBy(f, n, g, w, c, target)
    ensures Blind(f, n)
  {
    hide BlindBy, Swept, CallValue, TrackedLocations, AllFirm, CertainTarget, OnlyTarget, EntryCovers, Firm, Typed, Calls;
    if !Blind(f, n) {
      if Blind(g, n) {
        var u, s, r :| BlindBy(g, n, u, s, r);
        SameBlindBy(g, f, n, u, s, r);
      }
      SightedCovers(g, n, w);
      PathEndFirm(g, w);
      var t :| Calls(g, w, c, t) && !OnlyTarget(t, target);
      CoveredCall(g, TrackedLocations(g), Swept(g, n), w, c, target, t);
    }
  }

  lemma PathEndFirm(g: Flowgraph, w: Walk)
    requires Typed(g) && IsFlowPath(g, w)
    ensures AllFirm(TrackedLocations(g), AccessesOf(g, Last(w)))
  {
  }

  // The same condition makes must-aliases right.
  lemma SightedMustAlias(f: Flowgraph, n: nat, w: Walk, x: Alias)
    requires Distinct(f) && n > 0 && Typed(f) && !f.navigationOnly && !Blind(f, n) && IsFlowPath(f, w)
    ensures Last(w) in Swept(f, n).inputs
    ensures x in BlockAliases(f, Swept(f, n).inputs[Last(w)], AccessesOf(f, Last(w))) && x.certain ==>
              exists i :: 0 <= i < |AccessesOf(f, Last(w))| && OnlyStorageAt(f, w, i, x)
  {
    hide Blind, Swept, BlockAliases, TrackedLocations, Covers, AllFirm, IsFlowPath, OnlyStorageAt, Typed, Distinct;
    SightedCovers(f, n, w);
    PathEndFirm(f, w);
    if x in BlockAliases(f, Swept(f, n).inputs[Last(w)], AccessesOf(f, Last(w))) && x.certain {
      CoveredMustAlias(f, TrackedLocations(f), Swept(f, n), w, x);
    }
  }

  // Loops ------------------------------------------------------------------------------------

  lemma {:induction false} NoTurnsGoUp(f: Flowgraph, w: Walk)
    requires IsWalk(f, w) && |w| > 1 && Turns(f, w) == 0
    ensures Place(f.blocks, w[0]) < Place(f.blocks, Last(w))
  {
    hide Preds;
    assert w[0] in f.blocks && w[1] in f.blocks;
    if |w| > 2 {
      RestIsWalk(f, w);
      NoTurnsGoUp(f, w[1..]);
    }
  }

  lemma {:induction false} Joined(f: Flowgraph, v: Walk, c: Walk)
    requires IsWalk(f, v) && IsWalk(f, c) && Last(v) == c[0]
    ensures IsWalk(f, v + c[1..]) && (v + c[1..])[0] == v[0] && Last(v + c[1..]) == Last(c)
    ensures Turns(f, v + c[1..]) == Turns(f, v) + Turns(f, c)
    decreases |v|
  {
    hide Turn, Preds;
    var w := v + c[1..];
    if |v| == 1 {
      assert w == c;
    } else {
      RestIsWalk(f, v);
      Joined(f, v[1..], c);
      assert w[1..] == v[1..] + c[1..];
      WalkFrom(f, v[0], w[1..]);
      assert w == [v[0]] + w[1..] && w[1] == v[1];
    }
  }

  // Round a loop one can go with any number of turns.
  lemma {:induction false} RoundAndRound(f: Flowgraph, loop: Walk, k: nat) returns (w: Walk)
    requires IsWalk(f, loop) && |loop| > 1 && loop[0] == Last(loop)
    ensures IsWalk(f, w) && w[0] == loop[0] && Turns(f, w) == k
  {
    hide Turn, Preds;
    if k == 0 {
      w := [loop[0]];
    } else {
      var v := RoundsAtLeast(f, loop, k);
      w := PrefixWithTurns(f, v, k);
    }
  }

  lemma {:induction false} RoundsAtLeast(f: Flowgraph, loop: Walk, k: nat) returns (w: Walk)
    requires IsWalk(f, loop) && |loop| > 1 && loop[0] == Last(loop)
    ensures IsWalk(f, w) && w[0] == Last(w) == loop[0] && Turns(f, w) >= k
  {
    hide Turn, Preds;
    if k == 0 {
      w := [loop[0]];
    } else {
      var v := RoundsAtLeast(f, loop, k - 1);
      if Turns(f, loop) == 0 {
        NoTurnsGoUp(f, loop);
      }
      Joined(f, v, loop);
      w := v + loop[1..];
    }
  }

  lemma {:induction false} PrefixWithTurns(f: Flowgraph, v: Walk, k: nat) returns (w: Walk)
    requires IsWalk(f, v) && Turns(f, v) >= k
    ensures IsWalk(f, w) && w[0] == v[0] && Turns(f, w) == k
    decreases |v|
  {
    hide Turn, Preds;
    if Turns(f, v) == k {
      w := v;
    } else {
      ShortenWalk(f, v);
      TurnsSnoc(f, v[..|v| - 1], Last(v));
      w := PrefixWithTurns(f, v[..|v| - 1], k);
    }
  }

  // A loop head that a path enters by a turn, as the entry does in the compiler's numbering,
  // while the way back to it is not one, is blind however many sweeps there are; and the graph
  // of a loop is not settled by any number of them.
  lemma LoopsAreBlind(f: Flowgraph, n: nat, u: Walk, loop: Walk)
    requires n > 0 && IsFlowPath(f, u) && IsWalk(f, loop) && |loop| > 1 && loop[0] == Last(loop)
    requires Last(u) in Preds(f, loop[0]) && Turn(f, Last(u), loop[0]) && !Turn(f, loop[|loop| - 2], loop[0])
    ensures Blind(f, n) && !FewTurns(f, n)
  {
    hide Turn, Preds;
    var s := RoundAndRound(f, loop, n - 1);
    var r := loop[|loop| - 2];
    assert r in Preds(f, loop[|loop| - 2 + 1]);
    assert BlindBy(f, n, u, s, r);
    if FewTurns(f, n) {
      FewTurnsNotBlind(f, n);
    }
  }
}
