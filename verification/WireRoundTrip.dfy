// Shortened keys come back: restoring projected facts gives the facts.
module WireRoundTrip {
  import opened Options
  import opened WireKeys

  // Well-formed fact sets --------------------------------------------------------------------

  // What each reference names.
  function NamedKind(field: RefField): (kind: Kind)
    ensures Referable(kind)
  {
    match field
    case GraphKey => CfgGraph
    case EntryBlockKey => CfgBlock
    case NormalExitBlockKey => CfgBlock
    case ExceptionalExitBlockKey => CfgBlock
    case BlockKey => CfgBlock
    case SourceBlockKey => CfgBlock
    case TargetBlockKey => CfgBlock
    case CfgElementKey => CfgElement
    case AnalysisKey => DataFlowAnalysis
    case BaseKey => MemoryLocation
    case LocationKey => MemoryLocation
    case SourceLocationKey => MemoryLocation
    case TargetLocationKey => MemoryLocation
    case SourceAccessKey => DataAccess
    case TargetAccessKey => DataAccess
    case DefinitionAccessKey => DataAccess
  }

  // Facts of these kinds have keys that may be shortened; those of the first six are referred to.
  predicate Keyed(kind: Kind) {
    !kind.OtherKind?
  }

  predicate Referable(kind: Kind) {
    Keyed(kind) && kind != DataFlowEvidence && kind != SummaryEffect
  }

  // The letter that marks a shortened key of each kind.
  function Letter(kind: Kind): Family
    requires Keyed(kind)
  {
    match kind
    case CfgGraph => 'g'
    case CfgBlock => 'b'
    case CfgElement => 'e'
    case DataFlowAnalysis => 'd'
    case MemoryLocation => 'm'
    case DataAccess => 'a'
    case DataFlowEvidence => 'v'
    case SummaryEffect => 's'
  }

  // A key as it goes on the wire: itself up to 66 bytes, and otherwise its kind's letter and its hash.
  function Compact(h: Digest, key: Key, kind: Kind): Key
    requires Keyed(kind)
  {
    if |key| <= 66 then key else [Letter(kind), ':'] + h(key)
  }

  lemma KindLetter(kind: Kind)
    ensures Keyed(kind) <==> FamilyOf(kind).Some?
    ensures Keyed(kind) ==> FamilyOf(kind) == Some(Letter(kind))
    ensures Referable(kind) <==> Defines(kind)
  {
  }

  lemma FieldLetter(field: RefField)
    ensures Referable(NamedKind(field)) && RefFamily(field) == Letter(NamedKind(field))
  {
  }

  lemma CompactIs(h: Digest, key: Key, kind: Kind)
    requires Keyed(kind)
    ensures WireKey(h, key, Letter(kind)) == Compact(h, key, kind)
  {
    assert [Letter(kind)] + ":" == [Letter(kind), ':'];
  }

  // How the analyzer begins a key of each kind.
  function Opening(kind: Kind): string
    requires Keyed(kind)
  {
    match kind
    case CfgGraph => "cfg:"
    case CfgBlock => "cfg:"
    case CfgElement => "cfg:"
    case DataFlowAnalysis => "data-flow:"
    case MemoryLocation => "data-flow:"
    case DataAccess => "cfg:"
    case DataFlowEvidence => "data-flow:"
    case SummaryEffect => "function-summary:"
  }

  predicate Native(kind: Kind, key: Key)
    requires Keyed(kind)
  {
    StartsWith(key, Opening(kind))
  }

  lemma NativeIsNoAlias(kind: Kind, key: Key)
    requires Keyed(kind) && Native(kind, key)
    ensures !IsAlias(key, Letter(kind)) && key != ""
  {
    assert key[1] == key[..|Opening(kind)|][1] == Opening(kind)[1];
  }

  predicate HasName(fact: Fact, field: NameField) {
    field in fact.names && fact.names[field] != ""
  }

  // The two ends of a piece of evidence: accesses, or locations.
  predicate HasEnds(fact: Fact) {
    if SourceAccessKey in fact.refs then TargetAccessKey in fact.refs
    else SourceLocationKey in fact.refs && TargetLocationKey in fact.refs && TargetAccessKey !in fact.refs
  }

  function Ends(fact: Fact): string
    requires HasEnds(fact)
  {
    if SourceAccessKey in fact.refs then fact.refs[SourceAccessKey] + ":" + fact.refs[TargetAccessKey]
    else fact.refs[SourceLocationKey] + ":" + fact.refs[TargetLocationKey]
  }

  // The analyzer spells a key from the fact's other attributes.
  predicate Spelled(fact: Fact)
    requires Keyed(fact.kind) && fact.key.Some?
  {
    var key := fact.key.value;
    match fact.kind
    case CfgGraph => HasName(fact, FunctionKey) && key == "cfg:" + fact.names[FunctionKey]
    case CfgBlock => GraphKey in fact.refs && fact.number.Some? && key == fact.refs[GraphKey] + ":block:" + Decimal(fact.number.value)
    case CfgElement => BlockKey in fact.refs && fact.number.Some? && key == fact.refs[BlockKey] + ":element:" + Decimal(fact.number.value)
    case DataFlowAnalysis => GraphKey in fact.refs && key == "data-flow:" + fact.refs[GraphKey]
    case MemoryLocation => true
    case DataAccess => BlockKey in fact.refs && fact.number.Some? && key == fact.refs[BlockKey] + ":access:" + Decimal(fact.number.value)
    case DataFlowEvidence =>
      && AnalysisKey in fact.refs && HasName(fact, Relation) && HasEnds(fact)
      && key == fact.refs[AnalysisKey] + ":evidence:" + fact.names[Relation] + ":" + Ends(fact)
    case SummaryEffect =>
      && HasName(fact, SummaryKey) && HasName(fact, EffectKind) && SourceAccessKey in fact.refs
      && key == fact.names[SummaryKey] + ":effect:" + fact.names[EffectKind] + ":" + fact.refs[SourceAccessKey]
  }

  predicate WellFormedFact(fact: Fact) {
    && fact.identityKey == None
    && (Keyed(fact.kind) ==> fact.key.Some? && Native(fact.kind, fact.key.value) && Spelled(fact))
    && (forall f :: f in fact.refs ==> Native(NamedKind(f), fact.refs[f]))
    && (fact.parameterLocations.Some? ==>
          forall i :: 0 <= i < |fact.parameterLocations.value| ==> Native(MemoryLocation, fact.parameterLocations.value[i]))
  }

  // Some fact of the kind has this key.
  ghost predicate DefinedIn(facts: seq<Fact>, kind: Kind, key: Key) {
    exists d :: d in facts && d.kind == kind && d.key == Some(key)
  }

  // Every long reference has the definition that its field names.
  ghost predicate Closed(facts: seq<Fact>, fact: Fact) {
    && (forall f :: f in fact.refs && |fact.refs[f]| > 66 ==> DefinedIn(facts, NamedKind(f), fact.refs[f]))
    && (fact.parameterLocations.Some? ==>
          forall i :: 0 <= i < |fact.parameterLocations.value| && |fact.parameterLocations.value[i]| > 66 ==>
                        DefinedIn(facts, MemoryLocation, fact.parameterLocations.value[i]))
  }

  ghost predicate UniqueKeys(facts: seq<Fact>) {
    forall i, j :: 0 <= i < j < |facts| && facts[i].kind == facts[j].kind && Referable(facts[i].kind) ==> facts[i].key != facts[j].key
  }

  ghost predicate WellFormedSet(facts: seq<Fact>) {
    && (forall f :: f in facts ==> WellFormedFact(f) && Closed(facts, f))
    && UniqueKeys(facts)
  }

  // No two definitions of one kind share a hash.
  ghost predicate CollisionFree(h: Digest, facts: seq<Fact>) {
    forall a, b :: a in facts && b in facts && a.kind == b.kind && Referable(a.kind) && a.key.Some? && b.key.Some? ==>
                     h(a.key.value) == h(b.key.value) ==> a.key == b.key
  }

  function ProjectedAll(h: Digest, facts: seq<Fact>): seq<Fact> {
    seq(|facts|, i requires 0 <= i < |facts| => Projected(h, facts[i]))
  }

  // The alias table ---------------------------------------------------------------------------

  function AliasOf(h: Digest, d: Fact): (Family, Key)
    requires Referable(d.kind) && d.key.Some?
  {
    (Letter(d.kind), WireKey(h, d.key.value, Letter(d.kind)))
  }

  ghost predicate DefinitionSeq(s: seq<Fact>) {
    forall d :: d in s ==> Referable(d.kind) && d.key.Some? && WellFormedFact(d)
  }

  // The table holds the long keys of exactly these definitions.
  ghost predicate Knows(h: Digest, ids: Aliases, s: seq<Fact>)
    requires DefinitionSeq(s)
  {
    && (forall d :: d in s && Long(d.key.value) ==> AliasOf(h, d) in ids && ids[AliasOf(h, d)] == d.key.value)
    && (forall p :: p in ids ==> exists d :: d in s && Long(d.key.value) && AliasOf(h, d) == p)
  }

  // A projected reference whose definition has been learned comes back.
  lemma ReferenceRestored(h: Digest, ids: Aliases, s: seq<Fact>, key: Key, kind: Kind)
    requires Hashes(h) && DefinitionSeq(s) && Knows(h, ids, s)
    requires Referable(kind) && Native(kind, key) && (Long(key) ==> DefinedIn(s, kind, key))
    ensures Reference(ids, WireKey(h, key, Letter(kind)), Letter(kind)) == Ok(key)
  {
    WireKeyMeaning(h, key, Letter(kind));
    if Long(key) {
      var d :| d in s && d.kind == kind && d.key == Some(key);
      assert AliasOf(h, d) == (Letter(kind), WireKey(h, key, Letter(kind)));
    } else {
      NativeIsNoAlias(kind, key);
    }
  }

  // The reference that a definition's spelling goes through.
  function Parent(kind: Kind): Option<RefField> {
    match kind
    case CfgBlock => Some(GraphKey)
    case DataFlowAnalysis => Some(GraphKey)
    case CfgElement => Some(BlockKey)
    case DataAccess => Some(BlockKey)
    case _ => None
  }

  lemma ParentRestored(h: Digest, ids: Aliases, s: seq<Fact>, d: Fact, field: RefField)
    requires Hashes(h) && DefinitionSeq(s) && Knows(h, ids, s) && field in d.refs && Native(NamedKind(field), d.refs[field])
    requires Long(d.refs[field]) ==> DefinedIn(s, NamedKind(field), d.refs[field])
    ensures RequiredRef(ids, Projected(h, d), field, RefFamily(field)) == Ok(d.refs[field])
  {
    hide Knows, Native, NamedKind, Letter;
    var key, kind := d.refs[field], NamedKind(field);
    FieldLetter(field);
    ReferenceRestored(h, ids, s, key, kind);
    NativeIsNoAlias(kind, key);
    WireKeyMeaning(h, key, Letter(kind));
    assert Projected(h, d).refs[field] != "";
  }

  lemma JoinNothing(a: string, b: string)
    ensures Join(Ok(a), "", Ok(b)) == Ok(a + b)
  {
    assert a + "" == a;
  }

  // The definition that d's spelling goes through is among s, if it takes part with a long key.
  ghost predicate ParentKnown(s: seq<Fact>, d: Fact) {
    var p := Parent(d.kind);
    p.Some? && p.value in d.refs && Long(d.refs[p.value]) ==> DefinedIn(s, NamedKind(p.value), d.refs[p.value])
  }

  // With its parent known, a projected definition spells its original key.
  lemma IdentityRestored(h: Digest, ids: Aliases, s: seq<Fact>, d: Fact)
    requires Hashes(h) && DefinitionSeq(s) && Knows(h, ids, s)
    requires Referable(d.kind) && WellFormedFact(d) && Long(d.key.value) && ParentKnown(s, d)
    ensures Identity(ids, Projected(h, d)) == Ok(d.key.value)
  {
    hide Knows, Native, RequiredRef, Reference;
    WireKeyMeaning(h, d.key.value, Letter(d.kind));
    var p := Parent(d.kind);
    if p.Some? {
      ParentRestored(h, ids, s, d, p.value);
      JoinNothing("data-flow:", d.refs[p.value]);
    } else if d.kind == CfgGraph {
      JoinNothing("cfg:", d.names[FunctionKey]);
    }
  }

  lemma LearnOne(h: Digest, ids: Aliases, s: seq<Fact>, d: Fact)
    requires Hashes(h) && DefinitionSeq(s) && Knows(h, ids, s)
    requires Referable(d.kind) && WellFormedFact(d) && ParentKnown(s, d)
    requires forall e :: e in s && e.kind == d.kind ==> h(e.key.value) != h(d.key.value)
    ensures Learn(h, ids, Projected(h, d)).Ok? && DefinitionSeq(s + [d])
    ensures Knows(h, Learn(h, ids, Projected(h, d)).value, s + [d])
  {
    var family := Letter(d.kind);
    var key := d.key.value;
    KindLetter(d.kind);
    assert Native(d.kind, key);
    OneMoreDefinition(s, d);
    ProjectedKey(h, d);
    hide Native, Knows, ParentKnown, WellFormedFact, DefinitionSeq, Learn, Projected, WireKey;
    if Long(key) {
      IdentityRestored(h, ids, s, d);
      FreshAlias(h, ids, s, d);
      WireIsAlias(h, key, family);
      KnowsOneMore(h, ids, s, d);
      LearnsAlias(h, ids, Projected(h, d), key);
    } else {
      NativeIsNoAlias(d.kind, key);
      KnowsShort(h, ids, s, d);
      LearnsNothing(h, ids, Projected(h, d), key);
    }
  }

  lemma LearnsAlias(h: Digest, ids: Aliases, wire: Fact, key: Key)
    requires Defines(wire.kind) && Long(key)
    requires var family := FamilyOf(wire.kind).value;
             && wire.key == Some(WireKey(h, key, family)) && IsAlias(WireKey(h, key, family), family)
             && (family, WireKey(h, key, family)) !in ids && Identity(ids, wire) == Ok(key)
    ensures var family := FamilyOf(wire.kind).value;
            Learn(h, ids, wire) == Ok(ids[(family, WireKey(h, key, family)) := key])
  {
    hide WireKey, Identity;
  }

  lemma LearnsNothing(h: Digest, ids: Aliases, wire: Fact, key: Key)
    requires Defines(wire.kind) && !Long(key) && key != ""
    requires var family := FamilyOf(wire.kind).value;
             wire.key == Some(WireKey(h, key, family)) && !IsAlias(key, family)
    ensures Learn(h, ids, wire) == Ok(ids)
  {
    hide Identity;
  }

  lemma OneMoreDefinition(s: seq<Fact>, d: Fact)
    requires DefinitionSeq(s) && Referable(d.kind) && d.key.Some? && WellFormedFact(d)
    ensures DefinitionSeq(s + [d])
  {
    hide WellFormedFact;
    assert forall e :: e in s + [d] <==> e in s || e == d;
  }

  lemma ProjectedKey(h: Digest, d: Fact)
    requires Referable(d.kind) && d.key.Some?
    ensures var wire := Projected(h, d);
            wire.kind == d.kind && wire.key == Some(WireKey(h, d.key.value, Letter(d.kind)))
  {
  }

  lemma WireIsAlias(h: Digest, key: Key, family: Family)
    requires Hashes(h) && Long(key)
    ensures IsAlias(WireKey(h, key, family), family)
  {
    WireKeyMeaning(h, key, family);
  }

  lemma KnowsOneMore(h: Digest, ids: Aliases, s: seq<Fact>, d: Fact)
    requires DefinitionSeq(s) && DefinitionSeq(s + [d]) && Knows(h, ids, s)
    requires Referable(d.kind) && d.key.Some? && Long(d.key.value) && AliasOf(h, d) !in ids
    ensures Knows(h, ids[AliasOf(h, d) := d.key.value], s + [d])
  {
    hide AliasOf, WellFormedFact, Long;
    assert forall e :: e in s + [d] <==> e in s || e == d;
  }

  lemma KnowsShort(h: Digest, ids: Aliases, s: seq<Fact>, d: Fact)
    requires DefinitionSeq(s) && DefinitionSeq(s + [d]) && Knows(h, ids, s) && d.key.Some? && !Long(d.key.value)
    ensures Knows(h, ids, s + [d])
  {
    hide AliasOf, WellFormedFact, Long;
    assert forall e :: e in s + [d] <==> e in s || e == d;
  }

  lemma FamilyTellsKind(a: Kind, b: Kind)
    requires Referable(a) && Referable(b) && a != b
    ensures Letter(a) != Letter(b)
  {
  }

  lemma HashFromWire(h: Digest, key: Key, family: Family)
    requires Long(key)
    ensures WireKey(h, key, family)[2..] == h(key)
  {
    assert |[family] + ":"| == 2;
  }

  lemma AliasesDiffer(h: Digest, e: Fact, d: Fact)
    requires Referable(e.kind) && e.key.Some? && Long(e.key.value)
    requires Referable(d.kind) && d.key.Some? && Long(d.key.value)
    requires e.kind == d.kind ==> h(e.key.value) != h(d.key.value)
    ensures AliasOf(h, e) != AliasOf(h, d)
  {
    hide WireKey;
    if e.kind == d.kind {
      HashFromWire(h, e.key.value, Letter(e.kind));
      HashFromWire(h, d.key.value, Letter(d.kind));
    } else {
      FamilyTellsKind(e.kind, d.kind);
    }
  }

  lemma FreshAlias(h: Digest, ids: Aliases, s: seq<Fact>, d: Fact)
    requires DefinitionSeq(s) && Knows(h, ids, s)
    requires Referable(d.kind) && d.key.Some? && Long(d.key.value)
    requires forall e :: e in s && e.kind == d.kind ==> h(e.key.value) != h(d.key.value)
    ensures AliasOf(h, d) !in ids
  {
    hide AliasOf, WellFormedFact, Long;
    forall e | e in s && Long(e.key.value)
      ensures AliasOf(h, e) != AliasOf(h, d)
    {
      AliasesDiffer(h, e, d);
    }
  }

  // Spools ------------------------------------------------------------------------------------

  lemma ProjectedKind(h: Digest, fact: Fact)
    ensures Projected(h, fact).kind == fact.kind
  {
  }

  lemma {:induction false} SpoolsProject(h: Digest, facts: seq<Fact>, kind: Kind)
    ensures OfKind(ProjectedAll(h, facts), kind) == ProjectedAll(h, OfKind(facts, kind))
  {
    hide Projected;
    if facts != [] {
      var wire := ProjectedAll(h, facts);
      SpoolsProject(h, facts[1..], kind);
      ProjectedKind(h, facts[0]);
      assert wire[1..] == ProjectedAll(h, facts[1..]) && wire[0] == Projected(h, facts[0]);
      var first := if facts[0].kind == kind then [facts[0]] else [];
      assert ProjectedAll(h, first) == if facts[0].kind == kind then [wire[0]] else [];
      ProjectedConcat(h, first, OfKind(facts[1..], kind));
    }
  }

  lemma ProjectedConcat(h: Digest, a: seq<Fact>, b: seq<Fact>)
    ensures ProjectedAll(h, a + b) == ProjectedAll(h, a) + ProjectedAll(h, b)
  {
  }

  lemma {:induction false} DefinitionsProject(h: Digest, facts: seq<Fact>, kinds: seq<Kind>)
    ensures Definitions(ProjectedAll(h, facts), kinds) == ProjectedAll(h, Definitions(facts, kinds))
  {
    if kinds != [] {
      SpoolsProject(h, facts, kinds[0]);
      DefinitionsProject(h, facts, kinds[1..]);
      ProjectedConcat(h, OfKind(facts, kinds[0]), Definitions(facts, kinds[1..]));
    }
  }

  lemma {:induction false} SpoolUnique(facts: seq<Fact>, kind: Kind)
    requires UniqueKeys(facts) && Referable(kind)
    ensures UniqueKeys(OfKind(facts, kind))
  {
    if facts != [] {
      SpoolUnique(facts[1..], kind);
      if facts[0].kind == kind {
        var rest := OfKind(facts[1..], kind);
        forall j | 0 <= j < |rest|
          ensures rest[j].key != facts[0].key
        {
          assert rest[j] in facts[1..];
        }
      }
    }
  }

  // Which pass a kind belongs to.
  function Pass(kind: Kind): nat {
    match kind
    case CfgGraph => 0
    case CfgBlock => 1
    case CfgElement => 2
    case DataFlowAnalysis => 3
    case MemoryLocation => 4
    case DataAccess => 5
    case _ => 6
  }

  // Definitions come pass by pass, with distinct keys in each.
  ghost predicate PassOrder(s: seq<Fact>, from: nat) {
    && (forall d :: d in s ==> from <= Pass(d.kind) < 6)
    && (forall i, j :: 0 <= i < j < |s| ==> Pass(s[i].kind) <= Pass(s[j].kind))
    && UniqueKeys(s)
  }

  lemma PassOrderConcat(spool: seq<Fact>, later: seq<Fact>, kind: Kind)
    requires Referable(kind) && (forall d :: d in spool ==> d.kind == kind) && UniqueKeys(spool)
    requires PassOrder(later, Pass(kind) + 1)
    ensures PassOrder(spool + later, Pass(kind))
  {
    hide Pass, Letter;
    var all := spool + later;
    assert forall i :: 0 <= i < |spool| ==> spool[i] in spool;
    assert forall i :: 0 <= i < |later| ==> later[i] in later;
    assert Pass(kind) < 6 by {
      PassBounds(kind);
    }
  }

  lemma PassBounds(kind: Kind)
    requires Referable(kind)
    ensures Pass(kind) < 6
  {
  }

  lemma {:induction false} DefinitionsInOrder(facts: seq<Fact>, from: nat)
    requires UniqueKeys(facts) && from <= |DEFINING|
    ensures PassOrder(Definitions(facts, DEFINING[from..]), from)
    decreases |DEFINING| - from
  {
    hide PassOrder, UniqueKeys;
    if from < |DEFINING| {
      DefinitionsInOrder(facts, from + 1);
      assert DEFINING[from..][1..] == DEFINING[from + 1..];
      SpoolUnique(facts, DEFINING[from]);
      PassOrderConcat(OfKind(facts, DEFINING[from]), Definitions(facts, DEFINING[from + 1..]), DEFINING[from]);
    } else {
      NothingInOrder(from);
    }
  }

  lemma NothingInOrder(from: nat)
    ensures PassOrder([], from)
  {
  }

  lemma ParentPass(kind: Kind, parent: Kind, field: RefField)
    requires Parent(kind) == Some(field) && parent == NamedKind(field)
    ensures Pass(parent) < Pass(kind)
  {
  }

  // A definition's parent is learned before it.
  lemma ParentIsEarlier(facts: seq<Fact>, defs: seq<Fact>, n: nat, field: RefField)
    requires PassOrder(defs, 0) && n < |defs| && (forall f :: f in defs <==> f in facts && f.kind in DEFINING)
    requires Parent(defs[n].kind) == Some(field) && field in defs[n].refs
    requires DefinedIn(facts, NamedKind(field), defs[n].refs[field])
    ensures DefinedIn(defs[..n], NamedKind(field), defs[n].refs[field])
  {
    hide DEFINING, UniqueKeys, Pass, Parent, NamedKind, Referable, Defines, RefFamily, Letter;
    KindLetter(NamedKind(field));
    var p :| p in facts && p.kind == NamedKind(field) && p.key == Some(defs[n].refs[field]);
    FieldLetter(field);
    DefiningKinds(p.kind);
    ParentPass(defs[n].kind, p.kind, field);
    var m :| 0 <= m < |defs| && defs[m] == p;
    assert m < n;
    assert defs[..n][m] == p;
  }

  lemma {:induction false} LearnFrom(h: Digest, facts: seq<Fact>, defs: seq<Fact>, n: nat, ids: Aliases)
    requires Hashes(h) && WellFormedSet(facts) && CollisionFree(h, facts)
    requires PassOrder(defs, 0) && (forall f :: f in defs <==> f in facts && f.kind in DEFINING) && DefinitionSeq(defs)
    requires n <= |defs| && DefinitionSeq(defs[..n]) && Knows(h, ids, defs[..n])
    requires forall f :: f in ProjectedAll(h, defs)[n..] ==> Defines(f.kind)
    ensures var all := LearnAll(h, ids, ProjectedAll(h, defs)[n..]); all.Ok? && Knows(h, all.value, defs)
    decreases |defs| - n
  {
    hide Knows, WellFormedFact, Learn, Projected;
    if n == |defs| {
      assert defs[..n] == defs;
    } else {
      var d := defs[n];
      assert d in defs;
      NextIsLearned(h, facts, defs, n, ids);
      assert defs[..n] + [d] == defs[..n + 1];
      var wire := ProjectedAll(h, defs);
      assert wire[n..][0] == Projected(h, d) && wire[n..][1..] == wire[n + 1..];
      LearnFrom(h, facts, defs, n + 1, Learn(h, ids, Projected(h, d)).value);
    }
  }

  lemma EarlierHashesDiffer(h: Digest, facts: seq<Fact>, defs: seq<Fact>, n: nat)
    requires CollisionFree(h, facts) && UniqueKeys(defs) && DefinitionSeq(defs)
    requires (forall f :: f in defs ==> f in facts) && n < |defs|
    ensures forall e :: e in defs[..n] && e.kind == defs[n].kind ==> h(e.key.value) != h(defs[n].key.value)
  {
    hide WellFormedFact;
    var d := defs[n];
    assert d in defs;
    forall e | e in defs[..n] && e.kind == d.kind
      ensures h(e.key.value) != h(d.key.value)
    {
      var i :| 0 <= i < n && defs[i] == e;
      assert e.key != d.key && e in defs;
    }
  }

  lemma NextIsLearned(h: Digest, facts: seq<Fact>, defs: seq<Fact>, n: nat, ids: Aliases)
    requires Hashes(h) && WellFormedSet(facts) && CollisionFree(h, facts)
    requires PassOrder(defs, 0) && (forall f :: f in defs <==> f in facts && f.kind in DEFINING) && DefinitionSeq(defs)
    requires n < |defs| && DefinitionSeq(defs[..n]) && Knows(h, ids, defs[..n])
    ensures Defines(Projected(h, defs[n]).kind)
    ensures var next := Learn(h, ids, Projected(h, defs[n]));
            next.Ok? && DefinitionSeq(defs[..n] + [defs[n]]) && Knows(h, next.value, defs[..n] + [defs[n]])
  {
    hide Knows, Learn, Native, DefinedIn, Pass, CollisionFree, Projected;
    var d := defs[n];
    assert d in defs && d in facts && Referable(d.kind);
    ProjectedKind(h, d);
    EarlierHashesDiffer(h, facts, defs, n);
    var p := Parent(d.kind);
    if p.Some? && p.value in d.refs && Long(d.refs[p.value]) {
      assert Closed(facts, d);
      ParentIsEarlier(facts, defs, n, p.value);
    }
    LearnOne(h, ids, defs[..n], d);
  }

  // Restoring ---------------------------------------------------------------------------------

  lemma RefsRestored(h: Digest, ids: Aliases, facts: seq<Fact>, defs: seq<Fact>, fact: Fact)
    requires Hashes(h) && DefinitionSeq(defs) && Knows(h, ids, defs)
    requires WellFormedFact(fact) && Closed(facts, fact) && forall d :: d in facts && Referable(d.kind) ==> d in defs
    ensures RestoreRefs(ids, WireRefs(h, fact.refs)) == Ok(fact.refs)
    ensures fact.parameterLocations.Some? ==>
              RestoreLocations(ids, WireLocations(h, fact.parameterLocations.value)) == Ok(fact.parameterLocations.value)
  {
    hide Knows, Native, Reference, WireKey, Spelled, DefinitionSeq, RefFamily, NamedKind, Letter;
    forall f | f in fact.refs
      ensures Reference(ids, WireKey(h, fact.refs[f], RefFamily(f)), RefFamily(f)) == Ok(fact.refs[f])
    {
      FieldLetter(f);
      ReferenceRestored(h, ids, defs, fact.refs[f], NamedKind(f));
    }
    assert RestoreRefs(ids, WireRefs(h, fact.refs)).value == fact.refs;
    if fact.parameterLocations.Some? {
      var keys := fact.parameterLocations.value;
      KindLetter(MemoryLocation);
      forall i | 0 <= i < |keys|
        ensures Reference(ids, WireKey(h, keys[i], 'm'), 'm') == Ok(keys[i])
      {
        ReferenceRestored(h, ids, defs, keys[i], MemoryLocation);
      }
      assert RestoreLocations(ids, WireLocations(h, keys)).value == keys;
    }
  }

  // Evidence and effects spell their keys from restored references.
  lemma DependentSpelling(h: Digest, ids: Aliases, fact: Fact)
    requires WellFormedFact(fact) && fact.kind in {DataFlowEvidence, SummaryEffect}
    requires IsAlias(WireKey(h, fact.key.value, Letter(fact.kind)), Letter(fact.kind))
    ensures var family := Letter(fact.kind);
            RestoreKey(h, ids, fact, WireKey(h, fact.key.value, family), family) == Ok(fact.key.value)
  {
    hide WireKey, IsAlias;
    forall f | f in fact.refs
      ensures fact.refs[f] != ""
    {
      NativeIsNoAlias(NamedKind(f), fact.refs[f]);
    }
    if fact.kind == DataFlowEvidence {
      var a := fact.refs[AnalysisKey] + ":evidence:" + fact.names[Relation];
      assert a + ":" + Ends(fact) == fact.key.value;
    }
  }

  lemma KeyPlaysNoPart(h: Digest, ids: Aliases, fact: Fact, other: Option<Key>, key: Key, family: Family)
    ensures RestoreKey(h, ids, fact.(key := other), key, family) == RestoreKey(h, ids, fact, key, family)
  {
  }

  // Every fact of a well-formed set comes back from its projection.
  lemma FactRestored(h: Digest, ids: Aliases, facts: seq<Fact>, defs: seq<Fact>, fact: Fact)
    requires Hashes(h) && DefinitionSeq(defs) && Knows(h, ids, defs)
    requires WellFormedFact(fact) && Closed(facts, fact) && fact in facts && forall d :: d in facts && Referable(d.kind) ==> d in defs
    ensures Restored(h, ids, Projected(h, fact)) == Ok(fact)
  {
    hide Knows, Native, WireKey, Spelled, DefinitionSeq, Closed, RestoreRefs, RestoreLocations, WireRefs, WireLocations,
         FamilyOf, RestoreKey;
    RefsRestored(h, ids, facts, defs, fact);
    KindLetter(fact.kind);
    if Keyed(fact.kind) {
      var family, wire := Letter(fact.kind), Projected(h, fact).key;
      KeyRestored(h, ids, facts, defs, fact);
      KeyPlaysNoPart(h, ids, fact, wire, WireKey(h, fact.key.value, family), family);
    }
    assert fact.identityKey == None && (Keyed(fact.kind) ==> fact.key.Some?);
    hide WellFormedFact;
  }

  lemma KeyRestored(h: Digest, ids: Aliases, facts: seq<Fact>, defs: seq<Fact>, fact: Fact)
    requires Hashes(h) && DefinitionSeq(defs) && Knows(h, ids, defs)
    requires Keyed(fact.kind) && WellFormedFact(fact) && fact in facts && forall d :: d in facts && Referable(d.kind) ==> d in defs
    ensures var family := Letter(fact.kind);
            RestoreKey(h, ids, fact, WireKey(h, fact.key.value, family), family) == Ok(fact.key.value)
  {
    hide Knows, Native, WireKey, Spelled, DefinitionSeq;
    var family := Letter(fact.kind);
    WireKeyMeaning(h, fact.key.value, family);
    NativeIsNoAlias(fact.kind, fact.key.value);
    if Long(fact.key.value) {
      if Referable(fact.kind) {
        assert DefinedIn(defs, fact.kind, fact.key.value);
        ReferenceRestored(h, ids, defs, fact.key.value, fact.kind);
      } else {
        DependentSpelling(h, ids, fact);
      }
    }
  }

  // Compact keys round-trip: the aliases of a projected set can be learned, and with them
  // every projected fact restores to the original, keys, references and all.
  lemma CompactKeysRoundTrip(h: Digest, facts: seq<Fact>)
    requires Hashes(h) && WellFormedSet(facts) && CollisionFree(h, facts)
    ensures Prepared(h, ProjectedAll(h, facts)).Ok?
    ensures forall f :: f in facts ==> Restored(h, Prepared(h, ProjectedAll(h, facts)).value, Projected(h, f)) == Ok(f)
  {
    hide Knows, WellFormedFact, Learn, Projected, Restored, LearnAll, PassOrder;
    var defs := Definitions(facts, DEFINING);
    DefinitionsProject(h, facts, DEFINING);
    assert DEFINING[0..] == DEFINING;
    DefinitionsInOrder(facts, 0);
    forall kind
      ensures Defines(kind) <==> kind in DEFINING
    {
      DefiningKinds(kind);
    }
    AllDefinitions(facts, defs);
    NothingKnown(h);
    assert defs[..0] == [] && ProjectedAll(h, defs)[0..] == ProjectedAll(h, defs);
    LearnFrom(h, facts, defs, 0, map[]);
    var ids := Prepared(h, ProjectedAll(h, facts)).value;
    forall f | f in facts
      ensures Restored(h, ids, Projected(h, f)) == Ok(f)
    {
      FactRestored(h, ids, facts, defs, f);
    }
  }

  lemma AllDefinitions(facts: seq<Fact>, defs: seq<Fact>)
    requires WellFormedSet(facts) && forall f :: f in defs ==> f in facts && Referable(f.kind)
    ensures DefinitionSeq(defs)
  {
    assert forall f :: f in defs ==> WellFormedFact(f);
  }

  lemma NothingKnown(h: Digest)
    ensures DefinitionSeq([]) && Knows(h, map[], [])
  {
  }

  // What goes on the wire, key by key: a fact's own key under the letter of its kind, each reference
  // under the letter of the kind it names, and of a location whose key is shortened the key itself.
  lemma WireForm(h: Digest, fact: Fact)
    ensures var wire := Projected(h, fact);
            && wire.kind == fact.kind && wire.names == fact.names && wire.number == fact.number
            && (wire.key == if Keyed(fact.kind) && fact.key.Some? then Some(Compact(h, fact.key.value, fact.kind)) else fact.key)
            && (wire.identityKey
                == if fact.kind == MemoryLocation && fact.key.Some? && Compact(h, fact.key.value, MemoryLocation) != fact.key.value
                   then fact.key else fact.identityKey)
            && wire.refs.Keys == fact.refs.Keys
            && (forall f :: f in fact.refs ==> wire.refs[f] == Compact(h, fact.refs[f], NamedKind(f)))
            && (fact.parameterLocations.None? ==> wire.parameterLocations.None?)
            && (fact.parameterLocations.Some? ==>
                  && wire.parameterLocations.Some? && |wire.parameterLocations.value| == |fact.parameterLocations.value|
                  && forall i :: 0 <= i < |fact.parameterLocations.value| ==>
                       wire.parameterLocations.value[i] == Compact(h, fact.parameterLocations.value[i], MemoryLocation))
  {
    hide WireKey, Compact, RefFamily, NamedKind, Letter;
    KindLetter(fact.kind);
    KindLetter(MemoryLocation);
    MarksLocation(fact.kind);
    if Keyed(fact.kind) && fact.key.Some? {
      CompactIs(h, fact.key.value, fact.kind);
    }
    forall f | f in fact.refs
      ensures WireKey(h, fact.refs[f], RefFamily(f)) == Compact(h, fact.refs[f], NamedKind(f))
    {
      FieldLetter(f);
      CompactIs(h, fact.refs[f], NamedKind(f));
    }
    if fact.parameterLocations.Some? {
      forall i | 0 <= i < |fact.parameterLocations.value|
        ensures WireKey(h, fact.parameterLocations.value[i], 'm') == Compact(h, fact.parameterLocations.value[i], MemoryLocation)
      {
        CompactIs(h, fact.parameterLocations.value[i], MemoryLocation);
      }
    }
  }

  lemma MarksLocation(kind: Kind)
    ensures FamilyOf(kind) == Some('m') <==> kind == MemoryLocation
  {
  }

  // On the wire, a long reference is the shortened key of the very fact it names, of the kind that
  // its field names, and that fact goes on the wire under the same key.
  lemma LongReferencesNameTheirFacts(h: Digest, facts: seq<Fact>, fact: Fact, f: RefField)
    requires WellFormedSet(facts) && fact in facts && f in fact.refs && |fact.refs[f]| > 66
    ensures exists d :: && d in facts && d.kind == NamedKind(f) && d.key == Some(fact.refs[f])
                        && Projected(h, d).key == Some(Projected(h, fact).refs[f])
                        && Projected(h, fact).refs[f] == [Letter(d.kind), ':'] + h(fact.refs[f])
  {
    hide Projected, WellFormedFact, UniqueKeys, Letter, NamedKind;
    assert Closed(facts, fact);
    var d :| d in facts && d.kind == NamedKind(f) && d.key == Some(fact.refs[f]);
    FieldLetter(f);
    WireForm(h, fact);
    WireForm(h, d);
  }

  // Numbers within keys ------------------------------------------------------------------------

  function DigitValue(c: char): nat
    requires '0' <= c <= '9'
  {
    (c - '0') as nat
  }

  predicate Digits(s: string) {
    forall i :: 0 <= i < |s| ==> '0' <= s[i] <= '9'
  }

  function NumberOf(s: string): nat
    requires Digits(s)
  {
    if s == "" then 0 else 10 * NumberOf(s[..|s| - 1]) + DigitValue(s[|s| - 1])
  }

  // A number is spelled in decimal digits, without leading zeros.
  lemma {:induction false} DecimalMeaning(n: nat)
    ensures Digits(Decimal(n)) && NumberOf(Decimal(n)) == n
    ensures Decimal(n) != "" && (Decimal(n)[0] == '0' ==> n == 0)
  {
    var last := Decimal(n)[|Decimal(n)| - 1];
    LastDigit(n % 10);
    if n >= 10 {
      DecimalMeaning(n / 10);
      assert Decimal(n)[..|Decimal(n)| - 1] == Decimal(n / 10);
    } else {
      assert Decimal(n)[..0] == "";
    }
  }

  lemma LastDigit(d: nat)
    requires d < 10
    ensures '0' <= "0123456789"[d] <= '9' && DigitValue("0123456789"[d]) == d
  {
  }

  // Aliases that are accepted, from any facts ------------------------------------------------

  // A key that is in shortened form.
  predicate Shortened(key: Key, kind: Kind)
    requires Keyed(kind)
  {
    |key| >= 2 && key[0] == Letter(kind) && key[1] == ':'
  }

  lemma ShortenedIff(key: Key, kind: Kind)
    requires Keyed(kind)
    ensures IsAlias(key, Letter(kind)) <==> Shortened(key, kind)
  {
    var prefix := [Letter(kind)] + ":";
    assert prefix == [Letter(kind), ':'];
    if Shortened(key, kind) {
      assert key[..2] == prefix;
    }
    if IsAlias(key, Letter(kind)) {
      assert key[0] == key[..2][0] && key[1] == key[..2][1];
    }
  }

  // What a required reference stands for under the aliases known so far.
  ghost predicate StandsFor(ids: Aliases, fact: Fact, field: RefField, original: Key) {
    && field in fact.refs && fact.refs[field] != ""
    && var kind := NamedKind(field);
       if Shortened(fact.refs[field], kind) then (Letter(kind), fact.refs[field]) in ids && ids[(Letter(kind), fact.refs[field])] == original
       else original == fact.refs[field]
  }

  // The key that the structure of a definition spells.
  ghost predicate Spells(ids: Aliases, fact: Fact, identity: Key)
    requires Referable(fact.kind)
  {
    match fact.kind
    case CfgGraph => HasName(fact, FunctionKey) && identity == "cfg:" + fact.names[FunctionKey]
    case CfgBlock =>
      fact.number.Some? && exists graph :: StandsFor(ids, fact, GraphKey, graph) && identity == graph + ":block:" + Decimal(fact.number.value)
    case CfgElement =>
      fact.number.Some? && exists block :: StandsFor(ids, fact, BlockKey, block) && identity == block + ":element:" + Decimal(fact.number.value)
    case DataFlowAnalysis => exists graph :: StandsFor(ids, fact, GraphKey, graph) && identity == "data-flow:" + graph
    case MemoryLocation => fact.identityKey == Some(identity) && identity != ""
    case DataAccess =>
      fact.number.Some? && exists block :: StandsFor(ids, fact, BlockKey, block) && identity == block + ":access:" + Decimal(fact.number.value)
  }

  lemma StandsForIff(ids: Aliases, fact: Fact, field: RefField, original: Key)
    ensures StandsFor(ids, fact, field, original) <==> RequiredRef(ids, fact, field, RefFamily(field)) == Ok(original)
  {
    hide NamedKind, RefFamily, Letter;
    FieldLetter(field);
    if field in fact.refs {
      ShortenedIff(fact.refs[field], NamedKind(field));
    }
  }

  lemma SpellsIff(ids: Aliases, fact: Fact, identity: Key)
    requires Referable(fact.kind)
    ensures Spells(ids, fact, identity) <==> Identity(ids, fact) == Ok(identity)
  {
    hide RequiredRef, StandsFor, Decimal;
    JoinNothing("cfg:", if FunctionKey in fact.names then fact.names[FunctionKey] else "");
    forall field: RefField, original: Key
      ensures StandsFor(ids, fact, field, original) <==> RequiredRef(ids, fact, field, RefFamily(field)) == Ok(original)
    {
      StandsForIff(ids, fact, field, original);
    }
    var graph := RequiredRef(ids, fact, GraphKey, 'g');
    if graph.Ok? {
      JoinNothing("data-flow:", graph.value);
    }
  }

  // When a definition is accepted, and what it teaches: its key must not be empty, and a shortened
  // one must be new, and the hash of the long key that the definition's structure spells.
  lemma LearnIff(h: Digest, ids: Aliases, fact: Fact)
    requires Referable(fact.kind)
    ensures Learn(h, ids, fact).Ok? <==>
              && fact.key.Some? && fact.key.value != ""
              && (Shortened(fact.key.value, fact.kind) ==>
                    && (Letter(fact.kind), fact.key.value) !in ids
                    && exists identity :: && Spells(ids, fact, identity) && |identity| > 66
                                          && fact.key.value == [Letter(fact.kind), ':'] + h(identity))
    ensures Learn(h, ids, fact).Ok? ==>
              if Shortened(fact.key.value, fact.kind) then
                exists identity :: Spells(ids, fact, identity)
                                   && Learn(h, ids, fact) == Ok(ids[(Letter(fact.kind), fact.key.value) := identity])
              else Learn(h, ids, fact) == Ok(ids)
  {
    hide Identity, Spells, WireKey, Letter;
    KindLetter(fact.kind);
    forall identity
      ensures Spells(ids, fact, identity) <==> Identity(ids, fact) == Ok(identity)
      ensures WireKey(h, identity, Letter(fact.kind)) == Compact(h, identity, fact.kind)
    {
      SpellsIff(ids, fact, identity);
      CompactIs(h, identity, fact.kind);
    }
    if fact.key.Some? {
      ShortenedIff(fact.key.value, fact.kind);
    }
    if Identity(ids, fact).Ok? {
      assert Spells(ids, fact, Identity(ids, fact).value);
    }
  }

  ghost predicate HasKey(d: Fact) {
    d.key.Some? && d.key.value != ""
  }

  // Definition d is what alias p announces.
  ghost predicate Announces(d: Fact, p: (Family, Key)) {
    Referable(d.kind) && d.key == Some(p.1) && Shortened(p.1, d.kind) && p.0 == Letter(d.kind)
  }

  // The aliases of the first n of some definitions, none of them twice.
  ghost predicate Learned(ids: Aliases, defs: seq<Fact>, n: nat)
    requires n <= |defs|
  {
    && (forall i :: 0 <= i < n ==> HasKey(defs[i]))
    && (forall i, p :: 0 <= i < n && Announces(defs[i], p) ==> p in ids)
    && (forall p :: p in ids ==> exists i :: 0 <= i < n && Announces(defs[i], p))
    && (forall i, j, p :: 0 <= i < j < n && Announces(defs[i], p) ==> !Announces(defs[j], p))
  }

  lemma LearnsKey(h: Digest, ids: Aliases, d: Fact)
    requires Referable(d.kind) && Defines(d.kind) && Learn(h, ids, d).Ok?
    ensures HasKey(d)
    ensures forall p :: Announces(d, p) ==> p !in ids && Learn(h, ids, d).value.Keys == ids.Keys + {p}
    ensures (forall p :: !Announces(d, p)) ==> Learn(h, ids, d).value == ids
  {
    hide Learn, Spells, Letter, Shortened;
    LearnIff(h, ids, d);
    if Shortened(d.key.value, d.kind) {
      assert Announces(d, (Letter(d.kind), d.key.value));
    }
  }

  lemma LearnedNext(h: Digest, ids: Aliases, defs: seq<Fact>, n: nat)
    requires n < |defs| && Referable(defs[n].kind) && Learned(ids, defs, n)
    requires Defines(defs[n].kind) && Learn(h, ids, defs[n]).Ok?
    ensures Learned(Learn(h, ids, defs[n]).value, defs, n + 1)
  {
    LearnsKey(h, ids, defs[n]);
    OneAlias(defs[n]);
    hide Learn, Announces, Referable, Defines, HasKey, Learned;
    if p :| Announces(defs[n], p) {
      LearnedAlias(ids, Learn(h, ids, defs[n]).value, defs, n, p);
    } else {
      LearnedPlain(ids, defs, n);
    }
  }

  lemma OneAlias(d: Fact)
    ensures forall p, q :: Announces(d, p) && Announces(d, q) ==> p == q
  {
  }

  lemma LearnedAlias(ids: Aliases, after: Aliases, defs: seq<Fact>, n: nat, p: (Family, Key))
    requires n < |defs| && Learned(ids, defs, n) && HasKey(defs[n])
    requires p !in ids && after.Keys == ids.Keys + {p} && forall q :: Announces(defs[n], q) <==> q == p
    ensures Learned(after, defs, n + 1)
  {
    hide Announces, HasKey;
    assert forall q :: q in after <==> q in ids || q == p;
    assert Announces(defs[n], p);
    forall q | q in after
      ensures exists i :: 0 <= i < n + 1 && Announces(defs[i], q)
    {
      if q != p {
        var i :| 0 <= i < n && Announces(defs[i], q);
      }
    }
  }

  lemma LearnedPlain(ids: Aliases, defs: seq<Fact>, n: nat)
    requires n < |defs| && Learned(ids, defs, n) && HasKey(defs[n]) && forall q :: !Announces(defs[n], q)
    ensures Learned(ids, defs, n + 1)
  {
    hide Announces, HasKey;
    forall q | q in ids
      ensures exists i :: 0 <= i < n + 1 && Announces(defs[i], q)
    {
      var i :| 0 <= i < n && Announces(defs[i], q);
    }
  }

  lemma {:induction false} AllLearned(h: Digest, ids: Aliases, defs: seq<Fact>, n: nat)
    requires n <= |defs| && Learned(ids, defs, n) && forall i :: 0 <= i < |defs| ==> Referable(defs[i].kind)
    requires (forall f :: f in defs[n..] ==> Defines(f.kind)) && LearnAll(h, ids, defs[n..]).Ok?
    ensures Learned(LearnAll(h, ids, defs[n..]).value, defs, |defs|)
    decreases |defs| - n
  {
    hide Learned, Learn, Referable;
    if n < |defs| {
      assert defs[n..][0] == defs[n] && defs[n] in defs[n..] && defs[n..][1..] == defs[n + 1..];
      LearnedNext(h, ids, defs, n);
      AllLearned(h, Learn(h, ids, defs[n]).value, defs, n + 1);
    }
  }

  // Once a fact set is accepted all its definitions have keys, no two share a shortened one, and a
  // reference is refused if and only if it is shortened and no definition of its kind has that key.
  lemma UnknownRefused(h: Digest, facts: seq<Fact>, key: Key, kind: Kind)
    requires Prepared(h, facts).Ok? && Referable(kind)
    ensures Reference(Prepared(h, facts).value, key, Letter(kind)).ProtocolError?
            <==> Shortened(key, kind) && forall d :: d in facts && d.kind == kind ==> d.key != Some(key)
    ensures forall d :: d in facts && Referable(d.kind) ==> HasKey(d)
    ensures var defs := Definitions(facts, DEFINING);
            && (forall d :: d in defs <==> d in facts && Referable(d.kind))
            && forall i, j :: 0 <= i < j < |defs| && defs[i].kind == defs[j].kind && defs[i].key == defs[j].key && HasKey(defs[i])
                 ==> Referable(defs[i].kind) && !Shortened(defs[i].key.value, defs[i].kind)
  {
    hide LearnAll, Definitions, DEFINING, Letter, Shortened, Defines, Referable;
    var defs := Definitions(facts, DEFINING);
    forall k
      ensures k in DEFINING <==> Referable(k)
      ensures Defines(k) <==> Referable(k)
    {
      KindLetter(k);
      DefiningKinds(k);
    }
    assert forall i :: 0 <= i < |defs| ==> defs[i] in defs;
    NothingLearned(defs);
    assert defs[0..] == defs;
    AllLearned(h, map[], defs, 0);
    ReferableKeyed(kind);
    ShortenedIff(key, kind);
    LearnedMeans(Prepared(h, facts).value, defs, key, kind);
    LearnedOnce(Prepared(h, facts).value, defs);
  }

  lemma ReferableKeyed(kind: Kind)
    requires Referable(kind)
    ensures Keyed(kind)
  {
  }

  lemma NothingLearned(defs: seq<Fact>)
    ensures Learned(map[], defs, 0)
  {
    hide Announces;
  }

  lemma LearnedMeans(ids: Aliases, defs: seq<Fact>, key: Key, kind: Kind)
    requires Referable(kind) && Learned(ids, defs, |defs|)
    ensures Shortened(key, kind) ==> ((Letter(kind), key) in ids <==> exists d :: d in defs && d.kind == kind && d.key == Some(key))
    ensures forall d :: d in defs ==> HasKey(d)
  {
    hide Shortened, Letter, HasKey;
    if Shortened(key, kind) && (Letter(kind), key) in ids {
      var i :| 0 <= i < |defs| && Announces(defs[i], (Letter(kind), key));
      SameLetter(defs[i].kind, kind);
      assert defs[i] in defs;
    }
    if d :| d in defs && d.kind == kind && d.key == Some(key) && Shortened(key, kind) {
      assert Announces(d, (Letter(kind), key));
    }
  }

  lemma LearnedOnce(ids: Aliases, defs: seq<Fact>)
    requires Learned(ids, defs, |defs|) && forall i :: 0 <= i < |defs| ==> Referable(defs[i].kind)
    ensures forall i, j :: 0 <= i < j < |defs| && defs[i].kind == defs[j].kind && defs[i].key == defs[j].key && HasKey(defs[i])
              ==> Referable(defs[i].kind) && !Shortened(defs[i].key.value, defs[i].kind)
  {
    hide Shortened, Letter;
    forall i, j | 0 <= i < j < |defs| && defs[i].kind == defs[j].kind && defs[i].key == defs[j].key && HasKey(defs[i])
      ensures !Shortened(defs[i].key.value, defs[i].kind)
    {
      var p := (Letter(defs[i].kind), defs[i].key.value);
      assert Shortened(p.1, defs[i].kind) ==> Announces(defs[i], p) && Announces(defs[j], p);
    }
  }

  lemma SameLetter(a: Kind, b: Kind)
    requires Keyed(a) && Keyed(b) && Letter(a) == Letter(b)
    ensures a == b
  {
  }

  // Whatever facts arrive, an accepted alias is the hash of the key it stands for.
  ghost predicate Sound(h: Digest, ids: Aliases) {
    forall p :: p in ids ==> Long(ids[p]) && p.1 == WireKey(h, ids[p], p.0)
  }

  lemma {:induction false} AcceptedAliasesAreHashes(h: Digest, ids: Aliases, facts: seq<Fact>)
    requires (forall f :: f in facts ==> Defines(f.kind)) && Sound(h, ids)
    ensures LearnAll(h, ids, facts).Ok? ==> Sound(h, LearnAll(h, ids, facts).value)
    decreases |facts|
  {
    hide Identity, WireKey, IsAlias;
    if facts != [] && Learn(h, ids, facts[0]).Ok? {
      AcceptedAliasesAreHashes(h, Learn(h, ids, facts[0]).value, facts[1..]);
    }
  }

  // So a restored reference projects back to what was received, unless it was left long.
  lemma RestoredProjectsBack(h: Digest, facts: seq<Fact>, key: Key, family: Family)
    requires Hashes(h) && Prepared(h, facts).Ok?
    requires var original := Reference(Prepared(h, facts).value, key, family); original.Ok? && (IsAlias(key, family) || !Long(key))
    ensures WireKey(h, Reference(Prepared(h, facts).value, key, family).value, family) == key
  {
    forall kind
      ensures Defines(kind) <==> kind in DEFINING
    {
      DefiningKinds(kind);
    }
    AcceptedAliasesAreHashes(h, map[], Definitions(facts, DEFINING));
  }

  // A key that could have been received from the analyzer: shortened, or short enough to go as it is.
  predicate Receivable(key: Key, kind: Kind)
    requires Keyed(kind)
  {
    Shortened(key, kind) || |key| <= 66
  }

  lemma RestoredKeyProjectsBack(h: Digest, facts: seq<Fact>, restored: Fact, key: Key, kind: Kind)
    requires Hashes(h) && Prepared(h, facts).Ok? && Keyed(kind) && Receivable(key, kind)
    requires RestoreKey(h, Prepared(h, facts).value, restored, key, Letter(kind)).Ok?
    ensures Compact(h, RestoreKey(h, Prepared(h, facts).value, restored, key, Letter(kind)).value, kind) == key
  {
    hide Prepared, Plain, Join, RequiredName, Reference, Compact, WireKey;
    ShortenedIff(key, kind);
    var original := RestoreKey(h, Prepared(h, facts).value, restored, key, Letter(kind)).value;
    CompactIs(h, original, kind);
    if !Shortened(key, kind) {
      WireKeyMeaning(h, key, Letter(kind));
    } else if Letter(kind) != 'v' && Letter(kind) != 's' {
      RestoredProjectsBack(h, facts, key, Letter(kind));
    }
  }

  // So a whole restored fact, whatever arrived with it, projects to what was received: its key and
  // each of its references that are shortened or short, and nothing else about it has changed.
  lemma RestoredFactProjectsBack(h: Digest, facts: seq<Fact>, fact: Fact)
    requires Hashes(h) && Prepared(h, facts).Ok? && Restored(h, Prepared(h, facts).value, fact).Ok?
    ensures var original := Restored(h, Prepared(h, facts).value, fact).value; var wire := Projected(h, original);
            && original.kind == fact.kind && original.names == fact.names && original.number == fact.number
            && original.refs.Keys == fact.refs.Keys && original.key.Some? == fact.key.Some?
            && (forall f :: f in fact.refs && Receivable(fact.refs[f], NamedKind(f)) ==> wire.refs[f] == fact.refs[f])
            && (fact.key.Some? && Keyed(fact.kind) && Receivable(fact.key.value, fact.kind) ==> wire.key == fact.key)
  {
    hide Prepared, Projected, Compact, Reference, RestoreKey, Shortened, Letter, NamedKind, WireKey;
    var ids := Prepared(h, facts).value;
    var original := Restored(h, ids, fact).value;
    WireForm(h, original);
    KindLetter(fact.kind);
    forall f | f in fact.refs && Receivable(fact.refs[f], NamedKind(f))
      ensures Compact(h, original.refs[f], NamedKind(f)) == fact.refs[f]
    {
      FieldLetter(f);
      ShortenedIff(fact.refs[f], NamedKind(f));
      RestoredProjectsBack(h, facts, fact.refs[f], RefFamily(f));
      CompactIs(h, original.refs[f], NamedKind(f));
    }
    if fact.key.Some? && Keyed(fact.kind) && Receivable(fact.key.value, fact.kind) {
      RestoredKeyProjectsBack(h, facts, BodyOf(h, ids, fact), fact.key.value, fact.kind);
    }
  }

  // The fact with its references restored.
  function BodyOf(h: Digest, ids: Aliases, fact: Fact): Fact
    requires Restored(h, ids, fact).Ok?
  {
    fact.(refs := RestoreRefs(ids, fact.refs).value, identityKey := None,
          parameterLocations := if fact.parameterLocations.None? then None
                                else Some(RestoreLocations(ids, fact.parameterLocations.value).value))
  }
}
