// The intraprocedural data-flow analysis of one function: reaching definitions with
// completeness bits and capped points-to sets, swept over the control-flow graph.
module DataFlow {
  import opened Graphs
  import opened Options

  const MAX_SWEEPS := 64
  const MAX_TARGETS := 64

  // Functions, locations, accesses and blocks are named by numbers; their order is
  // the order of the underlying keys.
  datatype PointsTo = PointsTo(functions: set<nat>, locations: set<nat>, complete: bool, includesNull: bool)

  // The expression forms the analysis tells apart. A function that has no
  // representation in the project is not indexed.
  datatype Expr =
    | FunctionRef(key: nat, indexed: bool)
    | VariableRef(location: nat, tracked: bool)
    | AddressOf(location: nat)
    | Conditional(ifTrue: Expr, ifFalse: Expr)
    | MemberPointer(member: Expr)
    | NullLiteral
    | OtherExpr

  datatype AccessKind =
    | ParameterDefinition | Initialization | Assignment | CompoundAssignment
    | Increment | Decrement | CallReturn | UnknownClobber | ReadAccess

  predicate IsDefinition(k: AccessKind) {
    !k.ReadAccess?
  }

  datatype Access = Access(key: nat, location: nat, kind: AccessKind, expression: Option<Expr>, pointsToComplete: bool)

  // Whether a location carries points-to values, whether it is a local or parameter of
  // reference type, which only its initialisation binds, and for a dereference the location
  // of the pointer.
  datatype LocationInfo = LocationInfo(tracked: bool, referenceHandle: bool, pointer: Option<nat>)

  datatype Flowgraph = Flowgraph(
    blocks: seq<nat>,
    predecessors: map<nat, set<nat>>,
    accesses: map<nat, seq<Access>>,
    locations: map<nat, LocationInfo>,
    navigationOnly: bool
  )

  datatype State = State(definitions: map<nat, set<nat>>, complete: map<nat, bool>, pointsTo: map<nat, PointsTo>)

  const EMPTY_STATE := State(map[], map[], map[])

  function Preds(f: Flowgraph, b: nat): set<nat> {
    if b in f.predecessors then f.predecessors[b] else {}
  }

  function AccessesOf(f: Flowgraph, b: nat): seq<Access> {
    if b in f.accesses then f.accesses[b] else []
  }

  function DefinitionsAt(s: State, location: nat): set<nat> {
    if location in s.definitions then s.definitions[location] else {}
  }

  function CompleteAt(s: State, location: nat): bool {
    location in s.complete && s.complete[location]
  }

  // Points-to values --------------------------------------------------------------

  // What is left when the largest elements are erased until at most n remain.
  function Smallest(s: set<nat>, n: nat): (r: set<nat>)
    ensures r <= s && |r| == if |s| <= n then |s| else n
    ensures forall x, y :: x in r && y in s && y !in r ==> x < y
  {
    if s == {} || n == 0 then {}
    else
      var m := Min(s);
      var rest := Smallest(s - {m}, n - 1);
      assert m !in rest;
      {m} + rest
  }

  function Cap(v: PointsTo): PointsTo {
    if |v.functions| + |v.locations| <= MAX_TARGETS then v
    else
      var locations := Smallest(v.locations, MAX_TARGETS);
      PointsTo(Smallest(v.functions, MAX_TARGETS - |locations|), locations, false, v.includesNull)
  }

  predicate WithinCap(v: PointsTo) {
    |v.functions| + |v.locations| <= MAX_TARGETS
  }

  // A capped set is within the bound, and never complete unless nothing was dropped.
  lemma CapBounds(v: PointsTo)
    ensures WithinCap(Cap(v))
    ensures Cap(v).complete ==> Cap(v) == v
    ensures Cap(v).functions <= v.functions && Cap(v).locations <= v.locations && Cap(v).includesNull == v.includesNull
  {
  }

  function Both(a: PointsTo, b: PointsTo): PointsTo {
    PointsTo(a.functions + b.functions, a.locations + b.locations, a.complete && b.complete, a.includesNull || b.includesNull)
  }

  function Evaluate(e: Expr, s: State): PointsTo {
    match e
    case FunctionRef(key, indexed) => PointsTo({key}, {}, indexed, false)
    case VariableRef(location, tracked) =>
      if location in s.pointsTo then s.pointsTo[location]
      else if !tracked then PointsTo({}, {location}, true, false)
      else PointsTo({}, {}, false, false)
    case AddressOf(location) => PointsTo({}, {location}, true, false)
    case Conditional(ifTrue, ifFalse) => Cap(Both(Evaluate(ifTrue, s), Evaluate(ifFalse, s)))
    case MemberPointer(member) => Evaluate(member, s)
    case NullLiteral => PointsTo({}, {}, true, true)
    case OtherExpr => PointsTo({}, {}, false, false)
  }

  // Transfer ----------------------------------------------------------------------

  function Assigned(a: Access, s: State): PointsTo {
    match a.expression
    case Some(e) => Evaluate(e, s)
    case None => PointsTo({}, {}, a.pointsToComplete, false)
  }

  // Whether access a stores a points-to value.
  predicate Stores(f: Flowgraph, a: Access) {
    && a.location in f.locations && f.locations[a.location].tracked
    && !(f.locations[a.location].referenceHandle
         && !a.kind.Initialization? && !a.kind.ParameterDefinition? && !a.kind.UnknownClobber?)
  }

  function Defined(f: Flowgraph, a: Access, s: State): State {
    if f.navigationOnly then s
    else s.(definitions := s.definitions[a.location := {a.key}], complete := s.complete[a.location := true])
  }

  function Step(f: Flowgraph, s: State, a: Access): State {
    if !IsDefinition(a.kind) then s
    else
      var defined := Defined(f, a, s);
      if Stores(f, a) then defined.(pointsTo := defined.pointsTo[a.location := Assigned(a, defined)]) else defined
  }

  function Transfer(f: Flowgraph, s: State, accesses: seq<Access>): State {
    if accesses == [] then s
    else Step(f, Transfer(f, s, accesses[..|accesses| - 1]), accesses[|accesses| - 1])
  }

  method TransferBlock(f: Flowgraph, input: State, accesses: seq<Access>) returns (state: State)
    ensures state == Transfer(f, input, accesses)
  {
    state := input;
    for k := 0 to |accesses|
      invariant state == Transfer(f, input, accesses[..k])
    {
      assert accesses[..k + 1][..k] == accesses[..k];
      var a := accesses[k];
      if IsDefinition(a.kind) {
        if !f.navigationOnly {
          state := state.(definitions := state.definitions[a.location := {a.key}],
                          complete := state.complete[a.location := true]);
        }
        if Stores(f, a) {
          state := state.(pointsTo := state.pointsTo[a.location := Assigned(a, state)]);
        }
      }
    }
    assert accesses[..|accesses|] == accesses;
  }

  // Join --------------------------------------------------------------------------

  type Outputs = map<nat, State>

  function Present(incoming: set<nat>, outputs: Outputs): set<nat> {
    incoming * outputs.Keys
  }

  function DefinitionKeys(present: set<nat>, outputs: Outputs): set<nat>
    requires present <= outputs.Keys
  {
    set q, l | q in present && l in outputs[q].definitions :: l
  }

  function CompleteKeys(present: set<nat>, outputs: Outputs): set<nat>
    requires present <= outputs.Keys
  {
    set q, l | q in present && l in outputs[q].complete :: l
  }

  function PointsToKeys(present: set<nat>, outputs: Outputs): set<nat>
    requires present <= outputs.Keys
  {
    set q, l | q in present && l in outputs[q].pointsTo :: l
  }

  function JoinedDefinitions(present: set<nat>, outputs: Outputs, l: nat): set<nat>
    requires present <= outputs.Keys
  {
    set q, d | q in present && l in outputs[q].definitions && d in outputs[q].definitions[l] :: d
  }

  function JoinedPointsTo(present: set<nat>, outputs: Outputs, l: nat): PointsTo
    requires present <= outputs.Keys
  {
    PointsTo(
      set q, x | q in present && l in outputs[q].pointsTo && x in outputs[q].pointsTo[l].functions :: x,
      set q, x | q in present && l in outputs[q].pointsTo && x in outputs[q].pointsTo[l].locations :: x,
      forall q :: q in present ==> l in outputs[q].pointsTo && outputs[q].pointsTo[l].complete,
      exists q :: q in present && l in outputs[q].pointsTo && outputs[q].pointsTo[l].includesNull)
  }

  // The state entering a block. A missing predecessor leaves definitions incomplete;
  // a location missing from a present predecessor leaves points-to incomplete.
  function Join(f: Flowgraph, incoming: set<nat>, outputs: Outputs): State {
    var present := Present(incoming, outputs);
    State(
      if f.navigationOnly then map[]
      else map l | l in DefinitionKeys(present, outputs) :: JoinedDefinitions(present, outputs, l),
      if f.navigationOnly then map[]
      else map l | l in DefinitionKeys(present, outputs) + CompleteKeys(present, outputs) ::
             present == incoming && forall q :: q in present ==> CompleteAt(outputs[q], l),
      map l | l in PointsToKeys(present, outputs) :: Cap(JoinedPointsTo(present, outputs, l)))
  }

  // Nothing changes any more: every block agrees with its predecessors' outputs.
  ghost predicate Fixpoint(f: Flowgraph, inputs: Outputs, outputs: Outputs) {
    forall b :: b in f.blocks ==>
      && b in inputs && b in outputs
      && inputs[b] == Join(f, Preds(f, b), outputs)
      && outputs[b] == Transfer(f, inputs[b], AccessesOf(f, b))
  }
}
