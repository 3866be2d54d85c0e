// Points-to values over-approximate every path at convergence, and the replay pass
// that turns them into call targets and evidence.
module PointsToSoundness {
  import opened Graphs
  import opened Options
  import opened DataFlow
  import opened DataFlowPaths
  import opened DataFlowSolver
  import opened PathValues

  lemma NothingAssigned(f: Flowgraph, s: State)
    ensures Transfer(f, s, []) == s
  {
  }

  // One function and nothing else.
  function Only(function_: nat): PointsTo {
    PointsTo({function_}, {}, true, false)
  }

  // A value marked complete allows whatever a run puts there, the untold aside.
  predicate CoversValue(v: PointsTo, t: Thing) {
    v.complete ==> t.Untold? || Allows(v, t)
  }

  // A location absent from the run but present in the joined state must be incomplete. The
  // other way round only the locations in `missing` may be absent from the joined state.
  ghost predicate Covers(missing: set<nat>, s: State, held: Held) {
    && held.Keys <= s.pointsTo.Keys + missing
    && forall l :: l in s.pointsTo && s.pointsTo[l].complete ==> l in held && CoversValue(s.pointsTo[l], held[l])
  }

  // No variable of the expression that counts as untracked may be missing.
  predicate Firm(missing: set<nat>, e: Expr) {
    match e
    case VariableRef(location, tracked) => tracked || location !in missing
    case Conditional(ifTrue, ifFalse) => Firm(missing, ifTrue) && Firm(missing, ifFalse)
    case MemberPointer(member) => Firm(missing, member)
    case FunctionRef(_, _) => true
    case AddressOf(_) => true
    case NullLiteral => true
    case OtherExpr => true
  }

  ghost predicate AllFirm(missing: set<nat>, accesses: seq<Access>) {
    forall a :: a in accesses && a.expression.Some? ==> Firm(missing, a.expression.value)
  }

  lemma {:induction false} FirmWhenNoneMissing(e: Expr)
    ensures Firm({}, e)
  {
    match e
    case Conditional(ifTrue, ifFalse) =>
      FirmWhenNoneMissing(ifTrue);
      FirmWhenNoneMissing(ifFalse);
    case MemberPointer(member) =>
      FirmWhenNoneMissing(member);
    case FunctionRef(_, _) =>
    case VariableRef(_, _) =>
    case AddressOf(_) =>
    case NullLiteral =>
    case OtherExpr =>
  }

  lemma AllFirmWhenNoneMissing(accesses: seq<Access>)
    ensures AllFirm({}, accesses)
  {
    forall a | a in accesses && a.expression.Some?
      ensures Firm({}, a.expression.value)
    {
      FirmWhenNoneMissing(a.expression.value);
    }
  }

  // Whichever arms a run takes, a value marked complete allows what it denotes.
  lemma {:induction false} EvaluateCovers(missing: set<nat>, e: Expr, s: State, held: Held, t: Thing)
    requires Covers(missing, s, held) && Firm(missing, e) && Denotes(e, held, t)
    ensures CoversValue(Evaluate(e, s), t)
  {
    hide Cap;
    match e
    case FunctionRef(_, _) =>
    case VariableRef(location, tracked) =>
    case AddressOf(_) =>
    case Conditional(ifTrue, ifFalse) =>
      CapBounds(Both(Evaluate(ifTrue, s), Evaluate(ifFalse, s)));
      if Denotes(ifTrue, held, t) {
        EvaluateCovers(missing, ifTrue, s, held, t);
      } else {
        EvaluateCovers(missing, ifFalse, s, held, t);
      }
    case MemberPointer(member) =>
      EvaluateCovers(missing, member, s, held, t);
    case NullLiteral =>
    case OtherExpr =>
  }

  lemma AssignedCovers(missing: set<nat>, a: Access, s: State, held: Held, t: Thing)
    requires Covers(missing, s, held) && (a.expression.Some? ==> Firm(missing, a.expression.value)) && Puts(a, held, t)
    ensures CoversValue(Assigned(a, s), t)
  {
    hide Evaluate, Covers, Firm, Denotes;
    if a.expression.Some? {
      EvaluateCovers(missing, a.expression.value, s, held, t);
    }
  }

  lemma DefinedCovers(f: Flowgraph, missing: set<nat>, a: Access, s: State, held: Held)
    requires Covers(missing, s, held)
    ensures Covers(missing, Defined(f, a, s), held)
  {
  }

  lemma StepCovers(f: Flowgraph, missing: set<nat>, s: State, held: Held, a: Access, held': Held)
    requires Covers(missing, s, held) && (a.expression.Some? ==> Firm(missing, a.expression.value)) && Leaves(f, a, held, held')
    ensures Covers(missing, Step(f, s, a), held')
  {
    hide Assigned, Firm, Puts, CoversValue;
    DefinedCovers(f, missing, a, s, held);
    if Rebinds(f, a) {
      var t :| Puts(a, held, t) && held' == held[a.location := t];
      AssignedCovers(missing, a, Defined(f, a, s), held, t);
    }
  }

  lemma {:induction false} TransferCovers(f: Flowgraph, missing: set<nat>, s: State, accesses: seq<Access>, held: Held, held': Held)
    requires Covers(missing, s, held) && AllFirm(missing, accesses) && Performs(f, accesses, held, held')
    ensures Covers(missing, Transfer(f, s, accesses), held')
  {
    hide Covers, Step, Firm, Leaves;
    if accesses != [] {
      var n := |accesses| - 1;
      assert accesses[n] in accesses && forall a :: a in accesses[..n] ==> a in accesses;
      var mid :| Performs(f, accesses[..n], held, mid) && Leaves(f, accesses[n], mid, held');
      TransferCovers(f, missing, s, accesses[..n], held, mid);
      StepCovers(f, missing, Transfer(f, s, accesses[..n]), mid, accesses[n], held');
    }
  }

  lemma JoinHas(f: Flowgraph, incoming: set<nat>, outputs: Outputs, q: nat)
    requires q in incoming && q in outputs
    ensures outputs[q].pointsTo.Keys <= Join(f, incoming, outputs).pointsTo.Keys
  {
    hide Cap, JoinedPointsTo;
    assert q in Present(incoming, outputs);
  }

  // A joined value that is complete lost nothing of any predecessor.
  lemma JoinCoversOne(f: Flowgraph, incoming: set<nat>, outputs: Outputs, q: nat, l: nat, t: Thing)
    requires q in incoming && q in outputs
    requires l in Join(f, incoming, outputs).pointsTo && Join(f, incoming, outputs).pointsTo[l].complete
    ensures l in outputs[q].pointsTo && outputs[q].pointsTo[l].complete
    ensures Allows(outputs[q].pointsTo[l], t) ==> Allows(Join(f, incoming, outputs).pointsTo[l], t)
  {
    hide Cap;
    var v := JoinedPointsTo(Present(incoming, outputs), outputs, l);
    CapBounds(v);
    assert l in outputs[q].pointsTo && outputs[q].pointsTo[l].complete;
    assert outputs[q].pointsTo[l].functions <= v.functions && outputs[q].pointsTo[l].locations <= v.locations;
  }

  lemma JoinCovers(f: Flowgraph, missing: set<nat>, incoming: set<nat>, outputs: Outputs, q: nat, held: Held)
    requires q in incoming && q in outputs && Covers(missing, outputs[q], held)
    ensures Covers(missing, Join(f, incoming, outputs), held)
  {
    hide Join, Allows;
    var j := Join(f, incoming, outputs);
    JoinHas(f, incoming, outputs, q);
    forall l | l in j.pointsTo && j.pointsTo[l].complete
      ensures l in held && CoversValue(j.pointsTo[l], held[l])
    {
      JoinCoversOne(f, incoming, outputs, q, l, Untold);
      JoinCoversOne(f, incoming, outputs, q, l, held[l]);
    }
  }

  // With no predecessor visited yet a join is empty, and covers what only holds missing locations.
  lemma EmptyJoin(f: Flowgraph, missing: set<nat>, incoming: set<nat>, outputs: Outputs, held: Held)
    requires Present(incoming, outputs) == {} && held.Keys <= missing
    ensures Covers(missing, Join(f, incoming, outputs), held)
  {
    assert PointsToKeys(Present(incoming, outputs), outputs) == {};
  }

  lemma CapAllows(v: PointsTo, t: Thing)
    requires Allows(Cap(v), t) && !t.Unknown?
    ensures Allows(v, t)
  {
    CapBounds(v);
    hide Cap;
  }

  lemma JoinedAllows(present: set<nat>, outputs: Outputs, l: nat, t: Thing)
    requires present <= outputs.Keys
    ensures t.TheFunction? || t.TheStorage? || t.NullPointer? ==>
              (Allows(JoinedPointsTo(present, outputs, l), t)
               <==> exists q :: q in present && l in outputs[q].pointsTo && Allows(outputs[q].pointsTo[l], t))
    ensures Allows(JoinedPointsTo(present, outputs, l), Unknown)
            <==> exists q :: q in present && (l !in outputs[q].pointsTo || Allows(outputs[q].pointsTo[l], Unknown))
  {
  }

  lemma JoinIs(f: Flowgraph, incoming: set<nat>, outputs: Outputs, l: nat)
    requires l in Join(f, incoming, outputs).pointsTo
    ensures Join(f, incoming, outputs).pointsTo[l] == Cap(JoinedPointsTo(Present(incoming, outputs), outputs, l))
  {
    hide Cap, JoinedPointsTo;
  }

  // A joined value holds everything that a predecessor's does and nothing else, while that is at
  // most 64 targets; it is then complete if and only if every predecessor present has a complete one.
  lemma JoinExact(f: Flowgraph, incoming: set<nat>, outputs: Outputs, l: nat, t: Thing)
    requires l in Join(f, incoming, outputs).pointsTo
    requires var v := JoinedPointsTo(Present(incoming, outputs), outputs, l); |v.functions| + |v.locations| <= 64
    ensures t.TheFunction? || t.TheStorage? || t.NullPointer? ==>
              (Allows(Join(f, incoming, outputs).pointsTo[l], t)
               <==> exists q :: q in incoming && q in outputs && l in outputs[q].pointsTo && Allows(outputs[q].pointsTo[l], t))
    ensures Allows(Join(f, incoming, outputs).pointsTo[l], Unknown)
            <==> exists q :: q in incoming && q in outputs && (l !in outputs[q].pointsTo || Allows(outputs[q].pointsTo[l], Unknown))
  {
    var present := Present(incoming, outputs);
    JoinIs(f, incoming, outputs, l);
    CapExact(JoinedPointsTo(present, outputs, l));
    JoinedAllows(present, outputs, l, t);
    hide Join, Cap, JoinedPointsTo, Allows;
  }

  // Whatever a run along path w brings to its last block, the state entering that block covers.
  ghost predicate EntryCovers(f: Flowgraph, missing: set<nat>, m: Maps, w: Walk) {
    |w| > 0 && Last(w) in m.inputs
    && forall held :: Brings(f, w[..|w| - 1], held) ==> Covers(missing, m.inputs[Last(w)], held)
  }

  // At convergence the state entering a block covers every run along every path to it.
  lemma {:induction false} InputCoversPath(f: Flowgraph, m: Maps, w: Walk)
    requires Fixpoint(f, m.inputs, m.outputs) && IsFlowPath(f, w)
    ensures EntryCovers(f, {}, m, w)
    decreases |w|
  {
    hide Join, Transfer, Covers, AllFirm, Performs;
    var b := Last(w);
    var u := w[..|w| - 1];
    forall held | Brings(f, u, held)
      ensures Covers({}, m.inputs[b], held)
    {
      if u == [] {
        EmptyJoin(f, {}, {}, m.outputs, held);
      } else {
        ShortenWalk(f, w);
        assert u[0] == w[0];
        InputCoversPath(f, m, u);
        AllFirmWhenNoneMissing(AccessesOf(f, Last(u)));
        var entry :| Brings(f, u[..|u| - 1], entry) && Performs(f, AccessesOf(f, u[|u| - 1]), entry, held);
        TransferCovers(f, {}, m.inputs[Last(u)], AccessesOf(f, Last(u)), entry, held);
        JoinCovers(f, {}, Preds(f, b), m.outputs, Last(u), held);
      }
    }
  }

  // ... and so does the state replayed up to any access inside it.
  lemma StateCoversPath(f: Flowgraph, missing: set<nat>, m: Maps, w: Walk, i: nat, held: Held)
    requires EntryCovers(f, missing, m, w) && i <= |AccessesOf(f, Last(w))| && AllFirm(missing, AccessesOf(f, Last(w)))
    requires BringsTo(f, w, i, held)
    ensures Covers(missing, StateBefore(f, m, Last(w), i), held)
  {
    hide Transfer, Covers, Firm, Performs, Brings;
    assert forall a :: a in AccessesOf(f, Last(w))[..i] ==> a in AccessesOf(f, Last(w));
    var entry :| Brings(f, w[..|w| - 1], entry) && Performs(f, AccessesOf(f, Last(w))[..i], entry, held);
    TransferCovers(f, missing, m.inputs[Last(w)], AccessesOf(f, Last(w))[..i], entry, held);
  }

  // Caps ------------------------------------------------------------------------------

  lemma {:induction false} EvaluateWithin(e: Expr, s: State)
    requires AllWithin(s)
    ensures WithinCap(Evaluate(e, s))
  {
    hide Cap;
    match e
    case FunctionRef(_, _) =>
    case VariableRef(_, _) =>
    case AddressOf(_) =>
    case Conditional(ifTrue, ifFalse) => CapBounds(Both(Evaluate(ifTrue, s), Evaluate(ifFalse, s)));
    case MemberPointer(member) => EvaluateWithin(member, s);
    case NullLiteral =>
    case OtherExpr =>
  }

  lemma {:induction false} TransferWithin(f: Flowgraph, s: State, accesses: seq<Access>)
    requires AllWithin(s)
    ensures AllWithin(Transfer(f, s, accesses))
  {
    hide Evaluate, WithinCap;
    if accesses != [] {
      var n := |accesses| - 1;
      var a := accesses[n];
      TransferWithin(f, s, accesses[..n]);
      var d := Defined(f, a, Transfer(f, s, accesses[..n]));
      if a.expression.Some? {
        EvaluateWithin(a.expression.value, d);
      }
      EmptyWithin(a.pointsToComplete);
    }
  }

  lemma EmptyWithin(complete: bool)
    ensures WithinCap(PointsTo({}, {}, complete, false))
  {
  }

  lemma JoinWithin(f: Flowgraph, incoming: set<nat>, outputs: Outputs)
    ensures AllWithin(Join(f, incoming, outputs))
  {
    hide Cap, WithinCap;
    var j := Join(f, incoming, outputs);
    forall l | l in j.pointsTo
      ensures WithinCap(j.pointsTo[l])
    {
      CapBounds(JoinedPointsTo(Present(incoming, outputs), outputs, l));
    }
  }

  ghost predicate MapsWithin(m: Maps) {
    (forall b :: b in m.inputs ==> AllWithin(m.inputs[b])) && (forall b :: b in m.outputs ==> AllWithin(m.outputs[b]))
  }

  lemma {:induction false} VisitAllWithin(f: Flowgraph, m: Maps, blocks: seq<nat>)
    requires MapsWithin(m)
    ensures MapsWithin(VisitAll(f, m, blocks))
  {
    hide Join, Transfer, AllWithin;
    if blocks != [] {
      var n := |blocks| - 1;
      var before := VisitAll(f, m, blocks[..n]);
      VisitAllWithin(f, m, blocks[..n]);
      JoinWithin(f, Preds(f, blocks[n]), before.outputs);
      TransferWithin(f, Join(f, Preds(f, blocks[n]), before.outputs), AccessesOf(f, blocks[n]));
    }
  }

  // At every sweep every points-to set stays within the cap.
  lemma {:induction false} SweptWithin(f: Flowgraph, n: nat)
    ensures MapsWithin(Swept(f, n))
  {
    hide MapsWithin, VisitAll;
    if n > 0 {
      SweptWithin(f, n - 1);
      VisitAllWithin(f, Swept(f, n - 1), f.blocks);
    } else {
      NothingWithin();
    }
  }

  lemma NothingWithin()
    ensures MapsWithin(Maps(map[], map[]))
  {
  }

  // Profiles ---------------------------------------------------------------------------

  // The navigation profile drops definitions and nothing else.
  function Erase(s: State): State {
    State(map[], map[], s.pointsTo)
  }

  function EraseAll(outputs: Outputs): Outputs {
    map b | b in outputs :: Erase(outputs[b])
  }

  function Navigation(f: Flowgraph): Flowgraph {
    f.(navigationOnly := true)
  }

  lemma {:induction false} EvaluateErased(e: Expr, s: State)
    ensures Evaluate(e, Erase(s)) == Evaluate(e, s)
  {
    hide Cap;
    match e
    case Conditional(ifTrue, ifFalse) =>
      EvaluateErased(ifTrue, s);
      EvaluateErased(ifFalse, s);
    case MemberPointer(member) =>
      EvaluateErased(member, s);
    case FunctionRef(_, _) =>
    case VariableRef(_, _) =>
    case AddressOf(_) =>
    case NullLiteral =>
    case OtherExpr =>
  }

  lemma {:induction false} TransferErased(f: Flowgraph, s: State, accesses: seq<Access>)
    requires !f.navigationOnly
    ensures Transfer(Navigation(f), Erase(s), accesses) == Erase(Transfer(f, s, accesses))
  {
    hide Evaluate;
    if accesses != [] {
      var n := |accesses| - 1;
      var a := accesses[n];
      TransferErased(f, s, accesses[..n]);
      var t := Transfer(f, s, accesses[..n]);
      if a.expression.Some? {
        EvaluateErased(a.expression.value, t);
        EvaluateErased(a.expression.value, Defined(f, a, t));
        assert Erase(Defined(f, a, t)) == Erase(t);
      }
    }
  }

  lemma JoinedErased(present: set<nat>, outputs: Outputs, l: nat)
    requires present <= outputs.Keys
    ensures JoinedPointsTo(present, EraseAll(outputs), l) == JoinedPointsTo(present, outputs, l)
  {
    var a, b := JoinedPointsTo(present, EraseAll(outputs), l), JoinedPointsTo(present, outputs, l);
    assert a.functions == b.functions;
    assert a.locations == b.locations;
  }

  lemma KeysErased(incoming: set<nat>, outputs: Outputs)
    ensures Present(incoming, EraseAll(outputs)) == Present(incoming, outputs)
    ensures PointsToKeys(Present(incoming, outputs), EraseAll(outputs)) == PointsToKeys(Present(incoming, outputs), outputs)
  {
  }

  lemma JoinErased(f: Flowgraph, incoming: set<nat>, outputs: Outputs)
    requires !f.navigationOnly
    ensures Join(Navigation(f), incoming, EraseAll(outputs)) == Erase(Join(f, incoming, outputs))
  {
    hide Cap, JoinedPointsTo, PointsToKeys, DefinitionKeys, CompleteKeys, CompleteAt;
    KeysErased(incoming, outputs);
    var present := Present(incoming, outputs);
    forall l | l in PointsToKeys(present, outputs)
      ensures JoinedPointsTo(present, EraseAll(outputs), l) == JoinedPointsTo(present, outputs, l)
    {
      JoinedErased(present, outputs, l);
    }
  }

  function EraseMaps(m: Maps): Maps {
    Maps(EraseAll(m.inputs), EraseAll(m.outputs))
  }

  lemma EraseInserted(outputs: Outputs, b: nat, s: State)
    ensures EraseAll(outputs[b := s]) == EraseAll(outputs)[b := Erase(s)]
  {
    hide Erase;
  }

  lemma VisitErased(f: Flowgraph, m: Maps, b: nat)
    requires !f.navigationOnly
    ensures Visit(Navigation(f), EraseMaps(m), b) == EraseMaps(Visit(f, m, b))
  {
    hide Join, Transfer, Erase, EraseAll;
    var input := Join(f, Preds(f, b), m.outputs);
    JoinErased(f, Preds(f, b), m.outputs);
    TransferErased(f, input, AccessesOf(f, b));
    EraseInserted(m.inputs, b, input);
    EraseInserted(m.outputs, b, Transfer(f, input, AccessesOf(f, b)));
  }

  lemma {:induction false} VisitAllErased(f: Flowgraph, m: Maps, blocks: seq<nat>)
    requires !f.navigationOnly
    ensures VisitAll(Navigation(f), EraseMaps(m), blocks) == EraseMaps(VisitAll(f, m, blocks))
  {
    hide Visit, EraseMaps;
    if blocks != [] {
      var n := |blocks| - 1;
      VisitAllErased(f, m, blocks[..n]);
      VisitErased(f, VisitAll(f, m, blocks[..n]), blocks[n]);
    }
  }

  // Sweep by sweep the navigation profile computes the full profile's points-to values.
  lemma {:induction false} NavigationKeepsPointsTo(f: Flowgraph, n: nat)
    requires !f.navigationOnly
    ensures Swept(Navigation(f), n) == EraseMaps(Swept(f, n))
  {
    hide VisitAll;
    if n > 0 {
      NavigationKeepsPointsTo(f, n - 1);
      VisitAllErased(f, Swept(f, n - 1), f.blocks);
    } else {
      assert EraseMaps(Maps(map[], map[])) == Maps(map[], map[]);
    }
  }

  // Replay -------------------------------------------------------------------------------

  // An indirect call in a block, placed before the access of that sequence number.
  datatype IndirectCall = IndirectCall(id: nat, callee: Expr, sequence: nat)

  datatype Relation = ReachingDefinition | Overwrites

  datatype Evidence = Evidence(relation: Relation, certain: bool, definition: nat, access: nat)

  // Storage that another location may, or when certain must, designate.
  datatype Alias = Alias(certain: bool, source: nat, target: nat)

  function ReplayPoint(accesses: seq<Access>, c: IndirectCall): nat {
    if c.sequence <= |accesses| then c.sequence else |accesses|
  }

  function CallValue(f: Flowgraph, input: State, accesses: seq<Access>, c: IndirectCall): PointsTo {
    Evaluate(c.callee, Transfer(f, input, accesses[..ReplayPoint(accesses, c)]))
  }

  // The evidence access a yields in state s.
  function EvidenceOf(s: State, a: Access): set<Evidence> {
    var definitions := DefinitionsAt(s, a.location);
    var certain := CompleteAt(s, a.location) && |definitions| == 1;
    set d | d in definitions :: Evidence(if IsDefinition(a.kind) then Overwrites else ReachingDefinition, certain, d, a.key)
  }

  function BlockEvidence(f: Flowgraph, input: State, accesses: seq<Access>): set<Evidence> {
    if accesses == [] then {}
    else
      var n := |accesses| - 1;
      BlockEvidence(f, input, accesses[..n])
      + if f.navigationOnly then {} else EvidenceOf(Transfer(f, input, accesses[..n]), accesses[n])
  }

  predicate IsMustAlias(v: PointsTo) {
    v.complete && !v.includesNull && v.functions == {} && |v.locations| == 1
  }

  function AliasesTo(source: nat, v: PointsTo): set<Alias> {
    set t | t in v.locations :: Alias(IsMustAlias(v), source, t)
  }

  // What a value designates that is read through access a: the value of the pointer, when a
  // is a dereference of one that has a value.
  function PointerValue(f: Flowgraph, s: State, a: Access): Option<PointsTo> {
    if a.location in f.locations && f.locations[a.location].pointer.Some?
       && f.locations[a.location].pointer.value in s.pointsTo
    then Some(s.pointsTo[f.locations[a.location].pointer.value])
    else None
  }

  // The value access a stores, when it stores one.
  function StoredValue(f: Flowgraph, s: State, a: Access): Option<PointsTo> {
    if IsDefinition(a.kind) && Stores(f, a) then Some(Assigned(a, Defined(f, a, s))) else None
  }

  function AliasesOf(f: Flowgraph, s: State, a: Access): set<Alias> {
    (match PointerValue(f, s, a) case Some(v) => AliasesTo(a.location, v) case None => {})
    + (match StoredValue(f, s, a) case Some(v) => AliasesTo(a.location, v) case None => {})
  }

  function BlockAliases(f: Flowgraph, input: State, accesses: seq<Access>): set<Alias> {
    if accesses == [] then {}
    else
      var n := |accesses| - 1;
      BlockAliases(f, input, accesses[..n])
      + if f.navigationOnly then {} else AliasesOf(f, Transfer(f, input, accesses[..n]), accesses[n])
  }

  ghost predicate Replayed(f: Flowgraph, input: State, accesses: seq<Access>, calls: seq<IndirectCall>, n: nat, values: seq<PointsTo>)
    requires n <= |calls|
  {
    |values| == n && forall k :: 0 <= k < n ==> values[k] == CallValue(f, input, accesses, calls[k])
  }

  lemma ReplayStarts(f: Flowgraph, input: State, accesses: seq<Access>)
    ensures Transfer(f, input, accesses[..0]) == input
    ensures BlockEvidence(f, input, accesses[..0]) == {} && BlockAliases(f, input, accesses[..0]) == {}
  {
  }

  lemma ReplayGrows(f: Flowgraph, input: State, accesses: seq<Access>, k: nat)
    requires k < |accesses|
    ensures var s := Transfer(f, input, accesses[..k]); var a := accesses[k];
            && Transfer(f, input, accesses[..k + 1]) == Step(f, s, a)
            && BlockEvidence(f, input, accesses[..k + 1])
               == BlockEvidence(f, input, accesses[..k]) + (if f.navigationOnly then {} else EvidenceOf(s, a))
            && BlockAliases(f, input, accesses[..k + 1])
               == BlockAliases(f, input, accesses[..k]) + (if f.navigationOnly then {} else AliasesOf(f, s, a))
  {
    hide Step, EvidenceOf, AliasesOf;
    assert accesses[..k + 1][..k] == accesses[..k];
  }

  // One block replayed from its input: each call is evaluated just before its place
  // among the accesses, each access labelled in the state before it, and each pointer
  // followed and value stored yields its aliases.
  method Replay(f: Flowgraph, input: State, accesses: seq<Access>, calls: seq<IndirectCall>)
    returns (values: seq<PointsTo>, evidence: set<Evidence>, aliases: set<Alias>)
    requires forall i, j :: 0 <= i < j < |calls| ==> calls[i].sequence <= calls[j].sequence
    ensures |values| == |calls|
    ensures forall k :: 0 <= k < |calls| ==> values[k] == CallValue(f, input, accesses, calls[k])
    ensures evidence == BlockEvidence(f, input, accesses)
    ensures aliases == BlockAliases(f, input, accesses)
  {
    hide Evaluate, EvidenceOf, AliasesOf, BlockEvidence, BlockAliases, Transfer, Step;
    var state := input;
    ReplayStarts(f, input, accesses);
    var nextCall := 0;
    values, evidence, aliases := [], {}, {};
    for k := 0 to |accesses|
      invariant state == Transfer(f, input, accesses[..k])
      invariant evidence == BlockEvidence(f, input, accesses[..k]) && aliases == BlockAliases(f, input, accesses[..k])
      invariant nextCall <= |calls| && Replayed(f, input, accesses, calls, nextCall, values)
      invariant forall j :: nextCall <= j < |calls| ==> calls[j].sequence >= k
    {
      var a := accesses[k];
      ReplayGrows(f, input, accesses, k);
      while nextCall < |calls| && calls[nextCall].sequence <= k
        invariant nextCall <= |calls| && Replayed(f, input, accesses, calls, nextCall, values)
        invariant forall j :: nextCall <= j < |calls| ==> calls[j].sequence >= k
      {
        values := values + [Evaluate(calls[nextCall].callee, state)];
        nextCall := nextCall + 1;
      }
      var evidence', aliases';
      state, evidence', aliases' := ReplayAccess(f, state, a);
      evidence, aliases := evidence + evidence', aliases + aliases';
    }
    assert accesses[..|accesses|] == accesses;
    while nextCall < |calls|
      invariant nextCall <= |calls| && Replayed(f, input, accesses, calls, nextCall, values)
      invariant forall j :: nextCall <= j < |calls| ==> calls[j].sequence >= |accesses|
    {
      values := values + [Evaluate(calls[nextCall].callee, state)];
      nextCall := nextCall + 1;
    }
  }

  method ReplayAccess(f: Flowgraph, s: State, a: Access) returns (state: State, evidence: set<Evidence>, aliases: set<Alias>)
    ensures state == Step(f, s, a)
    ensures evidence == (if f.navigationOnly then {} else EvidenceOf(s, a))
    ensures aliases == (if f.navigationOnly then {} else AliasesOf(f, s, a))
  {
    hide Evaluate, EvidenceOf, AliasesTo;
    state, evidence, aliases := s, {}, {};
    if !f.navigationOnly {
      evidence := EvidenceOf(state, a);
    }
    if a.location in f.locations && f.locations[a.location].pointer.Some? {
      var pointer := f.locations[a.location].pointer.value;
      if pointer in state.pointsTo && !f.navigationOnly {
        aliases := aliases + AliasesTo(a.location, state.pointsTo[pointer]);
      }
    }
    if IsDefinition(a.kind) {
      if !f.navigationOnly {
        state := state.(definitions := state.definitions[a.location := {a.key}],
                        complete := state.complete[a.location := true]);
      }
      if Stores(f, a) {
        var value := Assigned(a, state);
        if !f.navigationOnly {
          aliases := aliases + AliasesTo(a.location, value);
        }
        state := state.(pointsTo := state.pointsTo[a.location := value]);
      }
    }
  }

  lemma {:induction false} EvidencePlaced(f: Flowgraph, input: State, accesses: seq<Access>, x: Evidence)
    requires !f.navigationOnly
    ensures x in BlockEvidence(f, input, accesses) <==>
              exists i :: 0 <= i < |accesses| && x in EvidenceOf(Transfer(f, input, accesses[..i]), accesses[i])
  {
    hide EvidenceOf, Transfer;
    if accesses != [] {
      var n := |accesses| - 1;
      EvidencePlaced(f, input, accesses[..n], x);
      assert forall i :: 0 <= i < n ==> accesses[..n][..i] == accesses[..i] && accesses[..n][i] == accesses[i];
    }
  }

  // Published evidence marked certain tells the truth on every path to its access,
  // after any number of sweeps; at convergence every path's last definition has a
  // piece of evidence.
  lemma EvidenceMeaning(f: Flowgraph, n: nat, w: Walk, i: nat, x: Evidence)
    requires !f.navigationOnly && IsFlowPath(f, w) && Last(w) in Swept(f, n).inputs
    requires i < |AccessesOf(f, Last(w))|
    ensures var a := AccessesOf(f, Last(w))[i]; var here := EvidenceOf(StateBefore(f, Swept(f, n), Last(w), i), a);
            x in here && x.certain ==> LastDefBefore(f, w, i, a.location) == Some(x.definition)
    ensures var a := AccessesOf(f, Last(w))[i]; var here := EvidenceOf(StateBefore(f, Swept(f, n), Last(w), i), a);
            Fixpoint(f, Swept(f, n).inputs, Swept(f, n).outputs) && LastDefBefore(f, w, i, a.location).Some? ==>
              exists y :: y in here && y.definition == LastDefBefore(f, w, i, a.location).value && y.access == a.key
  {
    hide Transfer, Swept, Fixpoint, LastDefBefore;
    var a := AccessesOf(f, Last(w))[i];
    var s := StateBefore(f, Swept(f, n), Last(w), i);
    var here := EvidenceOf(s, a);
    if x in here && x.certain {
      Singleton(DefinitionsAt(s, a.location), x.definition);
      CertainMeansEveryPath(f, n, w, i, a.location, x.definition);
    }
    if Fixpoint(f, Swept(f, n).inputs, Swept(f, n).outputs) && LastDefBefore(f, w, i, a.location).Some? {
      PathDefinitionReported(f, n, w, i, a.location);
      var d := LastDefBefore(f, w, i, a.location).value;
      var certain := CompleteAt(s, a.location) && |DefinitionsAt(s, a.location)| == 1;
      assert Evidence(if IsDefinition(a.kind) then Overwrites else ReachingDefinition, certain, d, a.key) in here;
    }
  }

  // d is the last definition of l before access i of block b on some walk.
  ghost predicate ReachesAccess(f: Flowgraph, b: nat, i: nat, l: nat, d: nat)
    requires i <= |AccessesOf(f, b)|
  {
    match LastDef(AccessesOf(f, b)[..i], l)
    case Some(here) => d == here
    case None => DefReachesIn(f, b, l, d)
  }

  // Every way to access i of block b meets a definition of l.
  ghost predicate AlwaysBefore(f: Flowgraph, b: nat, i: nat, l: nat)
    requires i <= |AccessesOf(f, b)|
  {
    LastDef(AccessesOf(f, b)[..i], l).Some? || AlwaysDefinedIn(f, b, l)
  }

  // At convergence an access has a piece of evidence for each definition that reaches it, certain
  // if and only if every way there meets a definition and no other one reaches.
  lemma EvidenceExact(f: Flowgraph, n: nat, b: nat, i: nat, x: Evidence)
    requires !f.navigationOnly && ClosedGraph(f) && b in f.blocks && i < |AccessesOf(f, b)|
    requires Fixpoint(f, Swept(f, n).inputs, Swept(f, n).outputs)
    ensures var a := AccessesOf(f, b)[i];
            x in EvidenceOf(StateBefore(f, Swept(f, n), b, i), a) <==>
              && x.access == a.key && x.relation == (if a.kind.ReadAccess? then ReachingDefinition else Overwrites)
              && ReachesAccess(f, b, i, a.location, x.definition)
              && (x.certain <==> AlwaysBefore(f, b, i, a.location)
                                 && forall d :: ReachesAccess(f, b, i, a.location, d) ==> d == x.definition)
  {
    hide Transfer, Swept, Fixpoint, LastDef, DefReachesIn, AlwaysDefinedIn, DefinitionsAt, CompleteAt, ClosedGraph;
    var a := AccessesOf(f, b)[i];
    var l := a.location;
    StateExact(f, n, b, i, l);
    var s := StateBefore(f, Swept(f, n), b, i);
    if x.definition in DefinitionsAt(s, l) && |DefinitionsAt(s, l)| == 1 {
      Singleton(DefinitionsAt(s, l), x.definition);
    }
    if x.definition in DefinitionsAt(s, l) && forall d :: d in DefinitionsAt(s, l) ==> d == x.definition {
      assert DefinitionsAt(s, l) == {x.definition};
    }
  }

  lemma StateExact(f: Flowgraph, n: nat, b: nat, i: nat, l: nat)
    requires !f.navigationOnly && ClosedGraph(f) && b in f.blocks && i <= |AccessesOf(f, b)|
    requires Fixpoint(f, Swept(f, n).inputs, Swept(f, n).outputs)
    ensures b in Swept(f, n).inputs
    ensures var s := StateBefore(f, Swept(f, n), b, i);
            && (forall d :: d in DefinitionsAt(s, l) <==> ReachesAccess(f, b, i, l, d))
            && (CompleteAt(s, l) <==> AlwaysBefore(f, b, i, l))
  {
    hide Transfer, Swept, Join, LastDef, DefReachesIn, AlwaysDefinedIn, DefinitionsAt, CompleteAt, ClosedGraph;
    var input := Swept(f, n).inputs[b];
    hide Fixpoint;
    TransferDefinitions(f, input, AccessesOf(f, b)[..i], l);
    CompleteExact(f, n, b, l);
    forall d
      ensures d in DefinitionsAt(input, l) <==> DefReachesIn(f, b, l, d)
    {
      ReachingDefinitionsExact(f, n, b, l, d);
    }
  }

  lemma Singleton(s: set<nat>, x: nat)
    requires |s| == 1 && x in s
    ensures s == {x}
  {
    assert |s - {x}| == 0;
  }

  // How a call's value is published.
  predicate CertainTarget(v: PointsTo, target: nat) {
    v.complete && !v.includesNull && v.functions == {target}
  }

  // A call target is certain when it is a candidate, and neither another function nor null nor
  // the unknown is.
  lemma CertainTargetExact(v: PointsTo, target: nat)
    ensures CertainTarget(v, target) <==>
              Allows(v, TheFunction(target)) && forall t :: Allows(v, t) ==> t == TheFunction(target) || t.TheStorage?
  {
    if Allows(v, TheFunction(target)) && forall t :: Allows(v, t) ==> t == TheFunction(target) || t.TheStorage? {
      assert !Allows(v, NullPointer) && !Allows(v, Unknown);
      forall k | k in v.functions
        ensures k == target
      {
        assert Allows(v, TheFunction(k));
      }
    }
  }

  // What a certain target and a must-alias should mean on a run.
  predicate OnlyTarget(t: Thing, target: nat) {
    t == TheFunction(target) || t.TheStorage? || t.Untold?
  }

  predicate OnlyStorage(t: Thing, target: nat) {
    t == TheStorage(target) || t.Untold?
  }

  // What the callee of c denotes on some run along path w.
  ghost predicate Calls(f: Flowgraph, w: Walk, c: IndirectCall, t: Thing)
    requires |w| > 0
  {
    var accesses := AccessesOf(f, Last(w));
    exists held :: BringsTo(f, w, if c.sequence <= |accesses| then c.sequence else |accesses|, held) && Denotes(c.callee, held, t)
  }

  // Where the entry state covers a path, a certain call target is right on it.
  lemma CoveredCall(f: Flowgraph, missing: set<nat>, m: Maps, w: Walk, c: IndirectCall, target: nat, t: Thing)
    requires EntryCovers(f, missing, m, w) && AllFirm(missing, AccessesOf(f, Last(w))) && Firm(missing, c.callee)
    requires CertainTarget(CallValue(f, m.inputs[Last(w)], AccessesOf(f, Last(w)), c), target) && Calls(f, w, c, t)
    ensures OnlyTarget(t, target)
  {
    hide Transfer, Evaluate, Covers, AllFirm, Firm, BringsTo, Denotes;
    var i := ReplayPoint(AccessesOf(f, Last(w)), c);
    var held :| BringsTo(f, w, i, held) && Denotes(c.callee, held, t);
    StateCoversPath(f, missing, m, w, i, held);
    EvaluateCovers(missing, c.callee, StateBefore(f, m, Last(w), i), held, t);
  }

  // A certain call target admits no other function, no null and nothing unknown, on any run
  // along any path.
  lemma CertainCallOnEveryPath(f: Flowgraph, m: Maps, w: Walk, c: IndirectCall, target: nat, t: Thing)
    requires Fixpoint(f, m.inputs, m.outputs) && IsFlowPath(f, w) && Calls(f, w, c, t)
    ensures Last(w) in m.inputs
    ensures CertainTarget(CallValue(f, m.inputs[Last(w)], AccessesOf(f, Last(w)), c), target) ==> OnlyTarget(t, target)
  {
    hide Fixpoint, IsFlowPath, Transfer, Evaluate, Covers, AllFirm, Firm, Calls, CallValue, CertainTarget, OnlyTarget;
    InputCoversPath(f, m, w);
    AllFirmWhenNoneMissing(AccessesOf(f, Last(w)));
    FirmWhenNoneMissing(c.callee);
    if CertainTarget(CallValue(f, m.inputs[Last(w)], AccessesOf(f, Last(w)), c), target) {
      CoveredCall(f, {}, m, w, c, target, t);
    }
  }

  // Nothing is untold where every access without an expression is recorded as incomplete: there a
  // certain target is the only function, and only storage can stand beside it.
  lemma CandidCalls(f: Flowgraph, w: Walk, c: IndirectCall, t: Thing)
    requires Candid(f) && IsWalk(f, w) && Calls(f, w, c, t)
    ensures !t.Untold?
  {
    hide Performs, Brings, Denotes, AllTold, Rebinds;
    var accesses := AccessesOf(f, Last(w));
    var i := if c.sequence <= |accesses| then c.sequence else |accesses|;
    var held :| BringsTo(f, w, i, held) && Denotes(c.callee, held, t);
    var entry :| Brings(f, w[..|w| - 1], entry) && Performs(f, accesses[..i], entry, held);
    assert forall b :: b in w[..|w| - 1] ==> b in w;
    CandidRuns(f, w[..|w| - 1], entry);
    assert forall a :: a in accesses[..i] ==> a in accesses;
    assert Last(w) in f.blocks;
    PerformsTold(f, accesses[..i], entry, held);
    DenotesTold(c.callee, held, t);
  }

  // Aliases ----------------------------------------------------------------------------------

  lemma {:induction false} AliasPlaced(f: Flowgraph, input: State, accesses: seq<Access>, x: Alias)
    requires !f.navigationOnly
    ensures x in BlockAliases(f, input, accesses) <==>
              exists i :: 0 <= i < |accesses| && x in AliasesOf(f, Transfer(f, input, accesses[..i]), accesses[i])
  {
    hide AliasesOf, Transfer;
    if accesses != [] {
      var n := |accesses| - 1;
      AliasPlaced(f, input, accesses[..n], x);
      assert forall i :: 0 <= i < n ==> accesses[..n][..i] == accesses[..i] && accesses[..n][i] == accesses[i];
    }
  }

  // A value has an alias for each storage it allows, certain when it allows nothing else.
  lemma AliasesExact(source: nat, v: PointsTo, x: Alias)
    ensures x in AliasesTo(source, v) <==>
              && x.source == source && Allows(v, TheStorage(x.target))
              && (x.certain <==> forall t :: Allows(v, t) ==> t == TheStorage(x.target))
  {
    var only := forall t :: Allows(v, t) ==> t == TheStorage(x.target);
    if x.target in v.locations {
      if IsMustAlias(v) {
        Singleton(v.locations, x.target);
      }
      if only {
        assert !Allows(v, NullPointer) && !Allows(v, Unknown);
        forall k
          ensures k !in v.functions && (k in v.locations ==> k == x.target)
        {
          assert Allows(v, TheFunction(k)) <==> k in v.functions;
          assert Allows(v, TheStorage(k)) <==> k in v.locations;
        }
        assert v.functions == {} && v.locations == {x.target};
      }
    }
  }

  // On the run a must-alias names the only storage, and whatever storage is designated has an alias.
  ghost predicate AliasesTruthful(source: nat, v: PointsTo, t: Thing) {
    && (forall x :: x in AliasesTo(source, v) && x.certain ==> OnlyStorage(t, x.target))
    && (t.TheStorage? ==> exists x :: x in AliasesTo(source, v) && x.source == source && x.target == t.location)
  }

  lemma CoveredTruthful(source: nat, v: PointsTo, t: Thing)
    requires v.complete && CoversValue(v, t)
    ensures AliasesTruthful(source, v, t)
  {
    forall x | x in AliasesTo(source, v) && x.certain
      ensures OnlyStorage(t, x.target)
    {
      AliasesExact(source, v, x);
    }
    if t.TheStorage? {
      assert Alias(IsMustAlias(v), source, t.location) in AliasesTo(source, v);
    }
  }

  // What an access designates on a run: the pointer it follows, or the value it stores.
  ghost predicate Follows(f: Flowgraph, a: Access, held: Held, t: Thing) {
    && a.location in f.locations && f.locations[a.location].pointer.Some?
    && f.locations[a.location].pointer.value in held && held[f.locations[a.location].pointer.value] == t
  }

  ghost predicate StoresThing(f: Flowgraph, a: Access, held: Held, t: Thing) {
    Rebinds(f, a) && Puts(a, held, t)
  }

  // Where the entry state covers a path the aliases of a complete value are truthful on every
  // run along it, be it the pointer followed or the value stored.
  lemma CoveredAliases(f: Flowgraph, missing: set<nat>, m: Maps, w: Walk, i: nat, held: Held, t: Thing)
    requires EntryCovers(f, missing, m, w) && AllFirm(missing, AccessesOf(f, Last(w))) && i < |AccessesOf(f, Last(w))|
    requires BringsTo(f, w, i, held)
    ensures var a := AccessesOf(f, Last(w))[i]; var s := StateBefore(f, m, Last(w), i);
            && (PointerValue(f, s, a).Some? && PointerValue(f, s, a).value.complete && Follows(f, a, held, t) ==>
                  AliasesTruthful(a.location, PointerValue(f, s, a).value, t))
            && (StoredValue(f, s, a).Some? && StoredValue(f, s, a).value.complete && StoresThing(f, a, held, t) ==>
                  AliasesTruthful(a.location, StoredValue(f, s, a).value, t))
  {
    hide StateBefore, BringsTo, Firm, Assigned, Puts, AliasesTruthful, CoversValue;
    var a := AccessesOf(f, Last(w))[i];
    assert a in AccessesOf(f, Last(w));
    StateCoversPath(f, missing, m, w, i, held);
    var s := StateBefore(f, m, Last(w), i);
    if PointerValue(f, s, a).Some? && PointerValue(f, s, a).value.complete && Follows(f, a, held, t) {
      CoveredTruthful(a.location, PointerValue(f, s, a).value, t);
    }
    if StoredValue(f, s, a).Some? && StoredValue(f, s, a).value.complete && StoresThing(f, a, held, t) {
      DefinedCovers(f, missing, a, s, held);
      AssignedCovers(missing, a, Defined(f, a, s), held, t);
      CoveredTruthful(a.location, StoredValue(f, s, a).value, t);
    }
  }

  // What a must-alias published for access i of w's last block says about the runs along w: the
  // pointer followed there is held, or the value is stored, and it designates that storage only.
  ghost predicate OnlyStorageAt(f: Flowgraph, w: Walk, i: nat, x: Alias)
    requires |w| > 0 && i < |AccessesOf(f, Last(w))|
  {
    var a := AccessesOf(f, Last(w))[i];
    && a.location == x.source
    && ((forall held :: BringsTo(f, w, i, held) ==> exists t :: Follows(f, a, held, t) && OnlyStorage(t, x.target))
        || (Rebinds(f, a) && forall held, t :: BringsTo(f, w, i, held) && Puts(a, held, t) ==> OnlyStorage(t, x.target)))
  }

  lemma PointerHeld(f: Flowgraph, missing: set<nat>, s: State, held: Held, a: Access) returns (t: Thing)
    requires Covers(missing, s, held) && PointerValue(f, s, a).Some? && PointerValue(f, s, a).value.complete
    ensures Follows(f, a, held, t)
  {
    t := held[f.locations[a.location].pointer.value];
  }

  lemma CoveredMustAlias(f: Flowgraph, missing: set<nat>, m: Maps, w: Walk, x: Alias)
    requires !f.navigationOnly && EntryCovers(f, missing, m, w) && AllFirm(missing, AccessesOf(f, Last(w)))
    requires x in BlockAliases(f, m.inputs[Last(w)], AccessesOf(f, Last(w))) && x.certain
    ensures exists i :: 0 <= i < |AccessesOf(f, Last(w))| && OnlyStorageAt(f, w, i, x)
  {
    hide Transfer, BringsTo, Covers, AllFirm, PointerValue, StoredValue, OnlyStorage, Follows, Puts, Rebinds, AliasesTo;
    var accesses := AccessesOf(f, Last(w));
    AliasPlaced(f, m.inputs[Last(w)], accesses, x);
    var i :| 0 <= i < |accesses| && x in AliasesOf(f, Transfer(f, m.inputs[Last(w)], accesses[..i]), accesses[i]);
    var a, s := accesses[i], StateBefore(f, m, Last(w), i);
    if PointerValue(f, s, a).Some? && x in AliasesTo(a.location, PointerValue(f, s, a).value) {
      CertainIsComplete(a.location, PointerValue(f, s, a).value, x);
      forall held | BringsTo(f, w, i, held)
        ensures exists t :: Follows(f, a, held, t) && OnlyStorage(t, x.target)
      {
        StateCoversPath(f, missing, m, w, i, held);
        var t := PointerHeld(f, missing, s, held, a);
        CoveredAliases(f, missing, m, w, i, held, t);
      }
    } else {
      CertainIsComplete(a.location, StoredValue(f, s, a).value, x);
      StoredRebinds(f, s, a);
      forall held, t | BringsTo(f, w, i, held) && Puts(a, held, t)
        ensures OnlyStorage(t, x.target)
      {
        CoveredAliases(f, missing, m, w, i, held, t);
      }
    }
    assert OnlyStorageAt(f, w, i, x);
  }

  lemma CertainIsComplete(source: nat, v: PointsTo, x: Alias)
    requires x in AliasesTo(source, v)
    ensures x.source == source && (x.certain ==> v.complete)
  {
  }

  lemma StoredRebinds(f: Flowgraph, s: State, a: Access)
    ensures StoredValue(f, s, a).Some? <==> Rebinds(f, a)
  {
  }

  // A must-alias published at convergence is the only storage designated on every run along
  // every path.
  lemma MustAliasOnEveryPath(f: Flowgraph, m: Maps, w: Walk, x: Alias)
    requires !f.navigationOnly && Fixpoint(f, m.inputs, m.outputs) && IsFlowPath(f, w)
    ensures Last(w) in m.inputs
    ensures x in BlockAliases(f, m.inputs[Last(w)], AccessesOf(f, Last(w))) && x.certain ==>
              exists i :: 0 <= i < |AccessesOf(f, Last(w))| && OnlyStorageAt(f, w, i, x)
  {
    hide Fixpoint, IsFlowPath, BlockAliases, Covers, AllFirm, OnlyStorageAt;
    InputCoversPath(f, m, w);
    AllFirmWhenNoneMissing(AccessesOf(f, Last(w)));
    if x in BlockAliases(f, m.inputs[Last(w)], AccessesOf(f, Last(w))) && x.certain {
      CoveredMustAlias(f, {}, m, w, x);
    }
  }
}
