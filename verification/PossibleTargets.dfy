// Nothing possible is made up: every function, storage or null in a points-to value, after any
// number of sweeps, is what some run along some walk holds there.
module PossibleTargets {
  import opened Graphs
  import opened Options
  import opened DataFlow
  import opened DataFlowPaths
  import opened DataFlowSolver
  import opened PathValues
  import opened PointsToSoundness
  import opened SweepUnfolding
  import opened GraphShapes

  // Things that a value can list.
  predicate Listed(t: Thing) {
    t.TheFunction? || t.TheStorage? || t.NullPointer?
  }

  // A run along walk w, through the first i accesses of block b, which follows w or starts it.
  ghost predicate Arrives(f: Flowgraph, w: Walk, b: nat, i: nat, held: Held)
    requires i <= |AccessesOf(f, b)|
  {
    && IsWalk(f, w + [b])
    && exists entry :: Brings(f, w, entry) && Performs(f, AccessesOf(f, b)[..i], entry, held)
  }

  ghost predicate HeldAt(f: Flowgraph, b: nat, i: nat, l: nat, t: Thing)
    requires i <= |AccessesOf(f, b)|
  {
    exists w, held :: Arrives(f, w, b, i, held) && l in held && held[l] == t
  }

  // Whatever a state's values list is held on some run to there.
  ghost predicate Real(f: Flowgraph, b: nat, i: nat, s: State)
    requires i <= |AccessesOf(f, b)|
  {
    forall l, t :: l in s.pointsTo && Listed(t) && Allows(s.pointsTo[l], t) ==> HeldAt(f, b, i, l, t)
  }

  lemma ArrivesTracked(f: Flowgraph, w: Walk, b: nat, i: nat, held: Held)
    requires i <= |AccessesOf(f, b)| && Arrives(f, w, b, i, held)
    ensures held.Keys <= TrackedLocations(f)
  {
    hide Performs, Brings, TrackedLocations;
    var entry :| Brings(f, w, entry) && Performs(f, AccessesOf(f, b)[..i], entry, held);
    OnlyTrackedOnPath(f, w, entry);
    OnlyTrackedHeld(f, AccessesOf(f, b)[..i], entry, held);
  }

  lemma ArrivesMore(f: Flowgraph, w: Walk, b: nat, i: nat, held: Held, held': Held)
    requires i < |AccessesOf(f, b)| && Arrives(f, w, b, i, held) && Leaves(f, AccessesOf(f, b)[i], held, held')
    ensures Arrives(f, w, b, i + 1, held')
  {
    hide Performs, Brings, Leaves;
    var entry :| Brings(f, w, entry) && Performs(f, AccessesOf(f, b)[..i], entry, held);
    PerformsMore(f, AccessesOf(f, b)[..i], AccessesOf(f, b)[i], entry, held, held');
    assert AccessesOf(f, b)[..i + 1] == AccessesOf(f, b)[..i] + [AccessesOf(f, b)[i]];
  }

  // A run that starts at the block itself.
  lemma {:induction false} StartsHere(f: Flowgraph, b: nat, i: nat) returns (held: Held)
    requires b in f.blocks && i <= |AccessesOf(f, b)|
    ensures Arrives(f, [], b, i, held)
  {
    hide Leaves;
    if i == 0 {
      held := map[];
      assert AccessesOf(f, b)[..0] == [];
      assert Brings(f, [], map[]) && Performs(f, [], map[], map[]);
    } else {
      var before := StartsHere(f, b, i - 1);
      held := LeavesSomething(f, AccessesOf(f, b)[i - 1], before);
      ArrivesMore(f, [], b, i - 1, before, held);
    }
  }

  // A candidate of an expression is denoted on some run.
  lemma {:induction false} CandidateDenoted(f: Flowgraph, b: nat, i: nat, s: State, e: Expr, t: Thing)
    returns (w: Walk, held: Held)
    requires b in f.blocks && i <= |AccessesOf(f, b)| && Real(f, b, i, s)
    requires Firm(TrackedLocations(f), e) && Listed(t) && Candidate(e, s, t)
    ensures Arrives(f, w, b, i, held) && Denotes(e, held, t)
  {
    hide Arrives, TrackedLocations;
    match e
    case Conditional(ifTrue, ifFalse) =>
      if Candidate(ifTrue, s, t) {
        w, held := CandidateDenoted(f, b, i, s, ifTrue, t);
      } else {
        w, held := CandidateDenoted(f, b, i, s, ifFalse, t);
      }
    case MemberPointer(member) =>
      w, held := CandidateDenoted(f, b, i, s, member, t);
    case VariableRef(location, tracked) =>
      if location in s.pointsTo {
        assert HeldAt(f, b, i, location, t);
        w, held :| Arrives(f, w, b, i, held) && location in held && held[location] == t;
      } else {
        w := [];
        held := StartsHere(f, b, i);
        ArrivesTracked(f, w, b, i, held);
      }
    case _ =>
      w := [];
      held := StartsHere(f, b, i);
  }

  lemma KeepsHeld(f: Flowgraph, b: nat, i: nat, l: nat, t: Thing)
    requires i < |AccessesOf(f, b)| && HeldAt(f, b, i, l, t)
    requires l != AccessesOf(f, b)[i].location || !Rebinds(f, AccessesOf(f, b)[i])
    ensures HeldAt(f, b, i + 1, l, t)
  {
    hide Arrives;
    var w, held :| Arrives(f, w, b, i, held) && l in held && held[l] == t;
    var held' := held;
    if Rebinds(f, AccessesOf(f, b)[i]) {
      held' := LeavesSomething(f, AccessesOf(f, b)[i], held);
    }
    ArrivesMore(f, w, b, i, held, held');
  }

  lemma StepReal(f: Flowgraph, b: nat, i: nat, s: State)
    requires b in f.blocks && i < |AccessesOf(f, b)| && Real(f, b, i, s) && AllWithin(s)
    requires AllFirm(TrackedLocations(f), AccessesOf(f, b))
    ensures Real(f, b, i + 1, Step(f, s, AccessesOf(f, b)[i]))
  {
    hide Arrives, TrackedLocations, Candidate, Evaluate, Allows, HeldAt, Firm;
    var a := AccessesOf(f, b)[i];
    assert a in AccessesOf(f, b);
    StoredRebinds(f, s, a);
    var s' := Step(f, s, a);
    forall l, t | l in s'.pointsTo && Listed(t) && Allows(s'.pointsTo[l], t)
      ensures HeldAt(f, b, i + 1, l, t)
    {
      if l == a.location && Rebinds(f, a) {
        PutReal(f, b, i, s, t);
      } else {
        KeepsHeld(f, b, i, l, t);
      }
    }
  }

  lemma PutReal(f: Flowgraph, b: nat, i: nat, s: State, t: Thing)
    requires b in f.blocks && i < |AccessesOf(f, b)| && Real(f, b, i, s) && AllWithin(s)
    requires AllFirm(TrackedLocations(f), AccessesOf(f, b)) && Rebinds(f, AccessesOf(f, b)[i]) && Listed(t)
    requires var a := AccessesOf(f, b)[i]; Allows(Assigned(a, Defined(f, a, s)), t)
    ensures HeldAt(f, b, i + 1, AccessesOf(f, b)[i].location, t)
  {
    hide Arrives, TrackedLocations, Candidate, Evaluate, Firm, Denotes;
    var a := AccessesOf(f, b)[i];
    assert a in AccessesOf(f, b);
    if a.expression.Some? {
      var e := a.expression.value;
      var s1 := Defined(f, a, s);
      EvaluateExact(e, s1);
      assert Candidate(e, s1, t);
      var w, held := CandidateDenoted(f, b, i, s1, e, t);
      assert Puts(a, held, t);
      ArrivesMore(f, w, b, i, held, held[a.location := t]);
    }
  }

  lemma {:induction false} TransferReal(f: Flowgraph, b: nat, i: nat, s: State)
    requires b in f.blocks && i <= |AccessesOf(f, b)| && Real(f, b, 0, s) && AllWithin(s)
    requires AllFirm(TrackedLocations(f), AccessesOf(f, b))
    ensures Real(f, b, i, Transfer(f, s, AccessesOf(f, b)[..i]))
  {
    hide Real, Step, AllFirm, AllWithin, TrackedLocations;
    if i == 0 {
      assert AccessesOf(f, b)[..0] == [];
    } else {
      TransferReal(f, b, i - 1, s);
      assert AccessesOf(f, b)[..i][..i - 1] == AccessesOf(f, b)[..i - 1];
      TransferWithin(f, s, AccessesOf(f, b)[..i - 1]);
      StepReal(f, b, i - 1, Transfer(f, s, AccessesOf(f, b)[..i - 1]));
    }
  }

  // A predecessor's end is the block's beginning.
  lemma HeldNext(f: Flowgraph, q: nat, b: nat, l: nat, t: Thing)
    requires b in f.blocks && q in Preds(f, b) && HeldAt(f, q, |AccessesOf(f, q)|, l, t)
    ensures HeldAt(f, b, 0, l, t)
  {
    hide Performs, Brings;
    var w, held :| Arrives(f, w, q, |AccessesOf(f, q)|, held) && l in held && held[l] == t;
    var entry :| Brings(f, w, entry) && Performs(f, AccessesOf(f, q)[..|AccessesOf(f, q)|], entry, held);
    assert AccessesOf(f, q)[..|AccessesOf(f, q)|] == AccessesOf(f, q);
    BringsMore(f, w, q, entry, held);
    ExtendWalk(f, w + [q], b);
    assert AccessesOf(f, b)[..0] == [];
    NothingPerformed(f, held);
    assert Arrives(f, w + [q], b, 0, held);
  }

  lemma NothingPerformed(f: Flowgraph, held: Held)
    ensures Performs(f, [], held, held)
  {
  }

  lemma {:induction false} InReal(f: Flowgraph, k: nat, b: nat)
    requires Typed(f) && k > 0 && b in f.blocks
    ensures Real(f, b, 0, InAt(f, k, b)) && AllWithin(InAt(f, k, b))
    decreases k, Place(f.blocks, b)
  {
    hide Join, Transfer, Real, AllFirm, AllWithin, TrackedLocations, Turn, Level, InAt, OutAt;
    var seen := Seen(f, k, b);
    InIs(f, k, b);
    JoinWithin(f, Preds(f, b), seen);
    forall q | q in Preds(f, b) && q in seen
      ensures q in f.blocks && Real(f, q, |AccessesOf(f, q)|, seen[q])
    {
      SeenIs(f, k, q, b);
      var j := Level(f, k, q, b);
      LevelFalls(f, k, q, b);
      InReal(f, j, q);
      TransferReal(f, q, |AccessesOf(f, q)|, InAt(f, j, q));
      assert AccessesOf(f, q)[..|AccessesOf(f, q)|] == AccessesOf(f, q);
      OutIs(f, j, q);
    }
    JoinReal(f, b, seen);
  }

  lemma JoinReal(f: Flowgraph, b: nat, outputs: Outputs)
    requires b in f.blocks
    requires forall q :: q in Preds(f, b) && q in outputs ==> q in f.blocks && Real(f, q, |AccessesOf(f, q)|, outputs[q])
    ensures Real(f, b, 0, Join(f, Preds(f, b), outputs))
  {
    hide HeldAt, Join;
    var j := Join(f, Preds(f, b), outputs);
    forall l, t | l in j.pointsTo && Listed(t) && Allows(j.pointsTo[l], t)
      ensures HeldAt(f, b, 0, l, t)
    {
      var q := JoinedFrom(f, Preds(f, b), outputs, l, t);
      HeldNext(f, q, b, l, t);
    }
  }

  lemma JoinedFrom(f: Flowgraph, incoming: set<nat>, outputs: Outputs, l: nat, t: Thing) returns (q: nat)
    requires l in Join(f, incoming, outputs).pointsTo && Listed(t) && Allows(Join(f, incoming, outputs).pointsTo[l], t)
    ensures q in incoming && q in outputs && l in outputs[q].pointsTo && Allows(outputs[q].pointsTo[l], t)
  {
    var present := Present(incoming, outputs);
    JoinIs(f, incoming, outputs, l);
    CapAllows(JoinedPointsTo(present, outputs, l), t);
    JoinedAllows(present, outputs, l, t);
    hide Join, Cap, JoinedPointsTo, Allows;
    q :| q in present && l in outputs[q].pointsTo && Allows(outputs[q].pointsTo[l], t);
  }

  // Every function published as a target of a call, certain or possible, after any number of
  // sweeps, is what the callee denotes on some run along some walk to the call.
  lemma PossibleTargetReal(f: Flowgraph, n: nat, b: nat, c: IndirectCall, k: nat) returns (w: Walk)
    requires Distinct(f) && Typed(f) && Firm(TrackedLocations(f), c.callee) && n > 0 && b in f.blocks
    requires b in Swept(f, n).inputs && k in CallValue(f, Swept(f, n).inputs[b], AccessesOf(f, b), c).functions
    ensures IsWalk(f, w) && Last(w) == b && Calls(f, w, c, TheFunction(k))
  {
    hide Transfer, AllFirm, AllWithin, TrackedLocations, Swept, InAt, OutAt, Distinct, Candidate, Evaluate, Firm, Denotes, IsWalk;
    SweptIs(f, n, b);
    InReal(f, n, b);
    var accesses := AccessesOf(f, b);
    var i := ReplayPoint(accesses, c);
    var s := Transfer(f, InAt(f, n, b), accesses[..i]);
    TransferReal(f, b, i, InAt(f, n, b));
    TransferWithin(f, InAt(f, n, b), accesses[..i]);
    EvaluateExact(c.callee, s);
    var u, held := CandidateDenoted(f, b, i, s, c.callee, TheFunction(k));
    w := u + [b];
    assert w[..|w| - 1] == u;
    assert BringsTo(f, w, i, held);
  }
}
