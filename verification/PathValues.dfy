// What expressions denote and locations hold on one run through the graph, said without the
// analysis: at each conditional a run takes one arm.
module PathValues {
  import opened Graphs
  import opened Options
  import opened DataFlow
  import opened DataFlowPaths

  // `Untold` is what an access leaves that has no expression and is recorded as complete all the
  // same: an increment, a call's result, the object of a method.
  datatype Thing = TheFunction(key: nat) | TheStorage(location: nat) | NullPointer | Unknown | Untold

  // What the locations hold at some moment of a run.
  type Held = map<nat, Thing>

  ghost predicate Denotes(e: Expr, held: Held, t: Thing) {
    match e
    case FunctionRef(key, _) => t == TheFunction(key)
    case VariableRef(location, tracked) =>
      if location in held then t == held[location]
      else if tracked then t == Unknown
      else t == TheStorage(location)
    case AddressOf(location) => t == TheStorage(location)
    case Conditional(ifTrue, ifFalse) => Denotes(ifTrue, held, t) || Denotes(ifFalse, held, t)
    case MemberPointer(member) => Denotes(member, held, t)
    case NullLiteral => t == NullPointer
    case OtherExpr => t == Unknown
  }

  // Whether an access changes what its location holds: a reference is bound once, and what is
  // assigned to it later goes elsewhere.
  predicate Rebinds(f: Flowgraph, a: Access) {
    && !a.kind.ReadAccess?
    && a.location in f.locations && f.locations[a.location].tracked
    && (f.locations[a.location].referenceHandle ==>
          a.kind.Initialization? || a.kind.ParameterDefinition? || a.kind.UnknownClobber?)
  }

  ghost predicate Puts(a: Access, held: Held, t: Thing) {
    match a.expression
    case Some(e) => Denotes(e, held, t)
    case None => t == if a.pointsToComplete then Untold else Unknown
  }

  ghost predicate Leaves(f: Flowgraph, a: Access, held: Held, held': Held) {
    if Rebinds(f, a) then exists t :: Puts(a, held, t) && held' == held[a.location := t]
    else held' == held
  }

  // A run through some accesses, in order.
  ghost predicate Performs(f: Flowgraph, accesses: seq<Access>, held: Held, held': Held) {
    if accesses == [] then held' == held
    else
      var n := |accesses| - 1;
      exists mid :: Performs(f, accesses[..n], held, mid) && Leaves(f, accesses[n], mid, held')
  }

  // A run along walk w that begins with nothing held can end with `held`.
  ghost predicate Brings(f: Flowgraph, w: Walk, held: Held) {
    if w == [] then held == map[]
    else
      var n := |w| - 1;
      exists entry :: Brings(f, w[..n], entry) && Performs(f, AccessesOf(f, w[n]), entry, held)
  }

  // The same up to access i of the walk's last block.
  ghost predicate BringsTo(f: Flowgraph, w: Walk, i: nat, held: Held)
    requires |w| > 0 && i <= |AccessesOf(f, Last(w))|
  {
    exists entry :: Brings(f, w[..|w| - 1], entry) && Performs(f, AccessesOf(f, Last(w))[..i], entry, held)
  }

  // Runs can always go on ------------------------------------------------------------------

  lemma {:induction false} DenotesSomething(e: Expr, held: Held) returns (t: Thing)
    ensures Denotes(e, held, t)
  {
    match e
    case FunctionRef(key, _) => t := TheFunction(key);
    case VariableRef(location, tracked) =>
      t := if location in held then held[location] else if tracked then Unknown else TheStorage(location);
    case AddressOf(location) => t := TheStorage(location);
    case Conditional(ifTrue, _) => t := DenotesSomething(ifTrue, held);
    case MemberPointer(member) => t := DenotesSomething(member, held);
    case NullLiteral => t := NullPointer;
    case OtherExpr => t := Unknown;
  }

  lemma LeavesSomething(f: Flowgraph, a: Access, held: Held) returns (held': Held)
    ensures Leaves(f, a, held, held')
    ensures forall l :: l != a.location ==> (l in held' <==> l in held) && (l in held ==> held'[l] == held[l])
  {
    held' := held;
    if Rebinds(f, a) {
      var t := if a.pointsToComplete then Untold else Unknown;
      if a.expression.Some? {
        t := DenotesSomething(a.expression.value, held);
      }
      assert Puts(a, held, t);
      held' := held[a.location := t];
    }
  }

  lemma PerformsMore(f: Flowgraph, accesses: seq<Access>, a: Access, held: Held, mid: Held, held': Held)
    requires Performs(f, accesses, held, mid) && Leaves(f, a, mid, held')
    ensures Performs(f, accesses + [a], held, held')
  {
    hide Leaves;
    assert (accesses + [a])[..|accesses|] == accesses;
  }

  lemma BringsMore(f: Flowgraph, w: Walk, b: nat, entry: Held, held: Held)
    requires Brings(f, w, entry) && Performs(f, AccessesOf(f, b), entry, held)
    ensures Brings(f, w + [b], held)
  {
    hide Performs;
    assert (w + [b])[..|w|] == w;
  }

  lemma {:induction false} PerformsSomething(f: Flowgraph, accesses: seq<Access>, held: Held) returns (held': Held)
    ensures Performs(f, accesses, held, held')
  {
    hide Leaves;
    if accesses == [] {
      held' := held;
    } else {
      var n := |accesses| - 1;
      var mid := PerformsSomething(f, accesses[..n], held);
      held' := LeavesSomething(f, accesses[n], mid);
    }
  }

  lemma {:induction false} BringsSomething(f: Flowgraph, w: Walk) returns (held: Held)
    ensures Brings(f, w, held)
  {
    hide Performs;
    if w == [] {
      held := map[];
    } else {
      var n := |w| - 1;
      var entry := BringsSomething(f, w[..n]);
      held := PerformsSomething(f, AccessesOf(f, w[n]), entry);
    }
  }

  lemma BringsToEnd(f: Flowgraph, w: Walk, held: Held)
    requires |w| > 0
    ensures BringsTo(f, w, |AccessesOf(f, Last(w))|, held) <==> Brings(f, w, held)
  {
    hide Performs;
    assert AccessesOf(f, Last(w))[..|AccessesOf(f, Last(w))|] == AccessesOf(f, Last(w));
  }

  lemma BringsToStart(f: Flowgraph, w: Walk, held: Held)
    requires |w| > 0
    ensures BringsTo(f, w, 0, held) <==> Brings(f, w[..|w| - 1], held)
  {
    assert AccessesOf(f, Last(w))[..0] == [];
    assert Performs(f, [], held, held);
  }

  // Where every access without an expression is recorded as incomplete, nothing stays untold.
  ghost predicate Candid(f: Flowgraph) {
    forall b, a :: b in f.blocks && a in AccessesOf(f, b) && Rebinds(f, a) && a.expression.None? ==> !a.pointsToComplete
  }

  ghost predicate AllTold(held: Held) {
    forall l :: l in held ==> !held[l].Untold?
  }

  lemma {:induction false} DenotesTold(e: Expr, held: Held, t: Thing)
    requires AllTold(held) && Denotes(e, held, t)
    ensures !t.Untold?
  {
    match e
    case FunctionRef(_, _) =>
    case VariableRef(_, _) =>
    case AddressOf(_) =>
    case Conditional(ifTrue, ifFalse) =>
      if Denotes(ifTrue, held, t) {
        DenotesTold(ifTrue, held, t);
      } else {
        DenotesTold(ifFalse, held, t);
      }
    case MemberPointer(member) => DenotesTold(member, held, t);
    case NullLiteral =>
    case OtherExpr =>
  }

  lemma LeavesTold(f: Flowgraph, a: Access, held: Held, held': Held)
    requires AllTold(held) && Leaves(f, a, held, held') && (Rebinds(f, a) && a.expression.None? ==> !a.pointsToComplete)
    ensures AllTold(held')
  {
    hide Denotes;
    if Rebinds(f, a) {
      var t :| Puts(a, held, t) && held' == held[a.location := t];
      if a.expression.Some? {
        DenotesTold(a.expression.value, held, t);
      }
    }
  }

  lemma {:induction false} PerformsTold(f: Flowgraph, accesses: seq<Access>, held: Held, held': Held)
    requires AllTold(held) && Performs(f, accesses, held, held')
    requires forall a :: a in accesses && Rebinds(f, a) && a.expression.None? ==> !a.pointsToComplete
    ensures AllTold(held')
  {
    hide AllTold, Leaves, Rebinds;
    if accesses != [] {
      var n := |accesses| - 1;
      assert accesses[n] in accesses && forall a :: a in accesses[..n] ==> a in accesses;
      var mid :| Performs(f, accesses[..n], held, mid) && Leaves(f, accesses[n], mid, held');
      PerformsTold(f, accesses[..n], held, mid);
      LeavesTold(f, accesses[n], mid, held');
    }
  }

  lemma {:induction false} CandidRuns(f: Flowgraph, w: Walk, held: Held)
    requires Candid(f) && (forall b :: b in w ==> b in f.blocks) && Brings(f, w, held)
    ensures AllTold(held)
  {
    hide AllTold, Performs, Rebinds;
    if w == [] {
      NothingHeld();
    } else {
      var n := |w| - 1;
      assert w[n] in w && forall b :: b in w[..n] ==> b in w;
      var entry :| Brings(f, w[..n], entry) && Performs(f, AccessesOf(f, w[n]), entry, held);
      CandidRuns(f, w[..n], entry);
      PerformsTold(f, AccessesOf(f, w[n]), entry, held);
    }
  }

  lemma NothingHeld()
    ensures AllTold(map[])
  {
  }

  // What values contain ----------------------------------------------------------------------

  // t is among the things a points-to value allows; an incomplete value allows the unknown.
  predicate Allows(v: PointsTo, t: Thing) {
    match t
    case TheFunction(key) => key in v.functions
    case TheStorage(location) => location in v.locations
    case NullPointer => v.includesNull
    case Unknown => !v.complete
    case Untold => false
  }

  // What an expression can denote when each location holds some thing its value allows: one arm
  // is chosen at each conditional, and a function outside the project may stand for others.
  ghost predicate Candidate(e: Expr, s: State, t: Thing) {
    match e
    case FunctionRef(key, indexed) => t == TheFunction(key) || (!indexed && t == Unknown)
    case VariableRef(location, tracked) =>
      if location in s.pointsTo then Allows(s.pointsTo[location], t)
      else if tracked then t == Unknown
      else t == TheStorage(location)
    case AddressOf(location) => t == TheStorage(location)
    case Conditional(ifTrue, ifFalse) => Candidate(ifTrue, s, t) || Candidate(ifFalse, s, t)
    case MemberPointer(member) => Candidate(member, s, t)
    case NullLiteral => t == NullPointer
    case OtherExpr => t == Unknown
  }

  // All functions and all storage among them.
  ghost function CandidateFunctions(e: Expr, s: State): (r: set<nat>)
    ensures forall k :: k in r <==> Candidate(e, s, TheFunction(k))
  {
    match e
    case FunctionRef(key, _) => {key}
    case VariableRef(location, _) => if location in s.pointsTo then s.pointsTo[location].functions else {}
    case AddressOf(_) => {}
    case Conditional(ifTrue, ifFalse) => CandidateFunctions(ifTrue, s) + CandidateFunctions(ifFalse, s)
    case MemberPointer(member) => CandidateFunctions(member, s)
    case NullLiteral => {}
    case OtherExpr => {}
  }

  ghost function CandidateStorage(e: Expr, s: State): (r: set<nat>)
    ensures forall l :: l in r <==> Candidate(e, s, TheStorage(l))
  {
    match e
    case FunctionRef(_, _) => {}
    case VariableRef(location, tracked) =>
      if location in s.pointsTo then s.pointsTo[location].locations else if tracked then {} else {location}
    case AddressOf(location) => {location}
    case Conditional(ifTrue, ifFalse) => CandidateStorage(ifTrue, s) + CandidateStorage(ifFalse, s)
    case MemberPointer(member) => CandidateStorage(member, s)
    case NullLiteral => {}
    case OtherExpr => {}
  }

  ghost function CandidateCount(e: Expr, s: State): nat {
    |CandidateFunctions(e, s)| + |CandidateStorage(e, s)|
  }

  ghost predicate AllWithin(s: State) {
    forall l :: l in s.pointsTo ==> WithinCap(s.pointsTo[l])
  }

  lemma CountOfArm(e: Expr, arm: Expr, s: State)
    requires e.Conditional? && (arm == e.ifTrue || arm == e.ifFalse)
    ensures CandidateCount(arm, s) <= CandidateCount(e, s)
  {
    SubsetSize(CandidateFunctions(arm, s), CandidateFunctions(e, s));
    SubsetSize(CandidateStorage(arm, s), CandidateStorage(e, s));
  }

  // The value computed for an expression: nothing but candidates; all of them, while there are
  // at most 64; complete if and only if that is so and the unknown is not among them.
  lemma {:induction false} EvaluateExact(e: Expr, s: State)
    requires AllWithin(s)
    ensures var v := Evaluate(e, s);
            && v.functions <= CandidateFunctions(e, s) && v.locations <= CandidateStorage(e, s)
            && (v.includesNull <==> Candidate(e, s, NullPointer))
            && (v.complete <==> !Candidate(e, s, Unknown) && CandidateCount(e, s) <= 64)
            && (CandidateCount(e, s) <= 64 ==> v.functions == CandidateFunctions(e, s) && v.locations == CandidateStorage(e, s))
  {
    hide Cap;
    match e
    case FunctionRef(key, _) =>
      assert CandidateFunctions(e, s) == {key} && CandidateStorage(e, s) == {};
    case VariableRef(location, tracked) =>
      assert location in s.pointsTo ==> WithinCap(s.pointsTo[location]);
    case AddressOf(location) =>
      assert CandidateFunctions(e, s) == {} && CandidateStorage(e, s) == {location};
    case Conditional(ifTrue, ifFalse) =>
      EvaluateExact(ifTrue, s);
      EvaluateExact(ifFalse, s);
      CountOfArm(e, ifTrue, s);
      CountOfArm(e, ifFalse, s);
      CapExact(Both(Evaluate(ifTrue, s), Evaluate(ifFalse, s)));
    case MemberPointer(member) =>
      EvaluateExact(member, s);
    case NullLiteral =>
    case OtherExpr =>
  }

  // Capping drops nothing from 64 targets or fewer. From more it keeps the 64 smallest
  // locations, or all of them and as many of the smallest functions, and is incomplete.
  lemma CapExact(v: PointsTo)
    ensures Cap(v).includesNull == v.includesNull
    ensures |v.functions| + |v.locations| <= 64 ==> Cap(v) == v
    ensures |v.functions| + |v.locations| > 64 ==>
              && !Cap(v).complete && Cap(v).functions <= v.functions && Cap(v).locations <= v.locations
              && |Cap(v).locations| == (if |v.locations| <= 64 then |v.locations| else 64)
              && |Cap(v).functions| + |Cap(v).locations| == 64
              && (forall x, y :: x in Cap(v).locations && y in v.locations && y !in Cap(v).locations ==> x < y)
              && (forall x, y :: x in Cap(v).functions && y in v.functions && y !in Cap(v).functions ==> x < y)
  {
  }
}
