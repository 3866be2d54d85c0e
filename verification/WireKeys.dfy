// Compact structural keys: the analyzer shortens long keys to typed hashes, the ingestor
// rebuilds the originals from the structure of the facts. A key is the string of its UTF-8
// bytes, one character a byte.
module WireKeys {
  import opened Options

  type Key = string

  type Family = c: char | c in "gbedmavs" witness 'g'

  datatype Kind =
    | CfgGraph | CfgBlock | CfgElement | DataFlowAnalysis | MemoryLocation | DataAccess
    | DataFlowEvidence | SummaryEffect | OtherKind(name: nat)

  datatype RefField =
    | GraphKey | EntryBlockKey | NormalExitBlockKey | ExceptionalExitBlockKey | BlockKey
    | SourceBlockKey | TargetBlockKey | CfgElementKey | AnalysisKey | BaseKey | LocationKey
    | SourceLocationKey | TargetLocationKey | SourceAccessKey | TargetAccessKey | DefinitionAccessKey

  datatype NameField = FunctionKey | SummaryKey | Relation | EffectKind

  // The attributes of a fact that take part; `number` is its index or sequence.
  datatype Fact = Fact(kind: Kind, key: Option<Key>, refs: map<RefField, Key>, parameterLocations: Option<seq<Key>>,
                       names: map<NameField, string>, number: Option<nat>, identityKey: Option<Key>)

  datatype Result<T> = Ok(value: T) | ProtocolError

  // The hash function of both peers, as 64 hex digits.
  type Digest = Key -> string

  const LONGEST_PLAIN_KEY := 66

  function FamilyOf(kind: Kind): Option<Family> {
    match kind
    case CfgGraph => Some('g')
    case CfgBlock => Some('b')
    case CfgElement => Some('e')
    case DataFlowAnalysis => Some('d')
    case MemoryLocation => Some('m')
    case DataAccess => Some('a')
    case DataFlowEvidence => Some('v')
    case SummaryEffect => Some('s')
    case OtherKind(_) => None
  }

  function RefFamily(field: RefField): Family {
    match field
    case GraphKey => 'g'
    case EntryBlockKey => 'b'
    case NormalExitBlockKey => 'b'
    case ExceptionalExitBlockKey => 'b'
    case BlockKey => 'b'
    case SourceBlockKey => 'b'
    case TargetBlockKey => 'b'
    case CfgElementKey => 'e'
    case AnalysisKey => 'd'
    case BaseKey => 'm'
    case LocationKey => 'm'
    case SourceLocationKey => 'm'
    case TargetLocationKey => 'm'
    case SourceAccessKey => 'a'
    case TargetAccessKey => 'a'
    case DefinitionAccessKey => 'a'
  }

  predicate StartsWith(s: string, prefix: string) {
    |prefix| <= |s| && s[..|prefix|] == prefix
  }

  predicate Long(key: Key) {
    |key| > LONGEST_PLAIN_KEY
  }

  // Analyzer ------------------------------------------------------------------------------

  function WireKey(h: Digest, key: Key, family: Family): Key {
    if |key| <= LONGEST_PLAIN_KEY then key else [family] + ":" + h(key)
  }

  // Every hash has 64 digits.
  ghost predicate Hashes(h: Digest) {
    forall k :: |h(k)| == 64
  }

  // A compact key is never longer than the original, is left alone by a second projection,
  // and is recognisable by its prefix.
  lemma WireKeyMeaning(h: Digest, key: Key, family: Family)
    requires Hashes(h)
    ensures WireKey(h, WireKey(h, key, family), family) == WireKey(h, key, family)
    ensures |WireKey(h, key, family)| <= |key| && |WireKey(h, key, family)| <= LONGEST_PLAIN_KEY
    ensures Long(key) <==> WireKey(h, key, family) != key
    ensures Long(key) ==> StartsWith(WireKey(h, key, family), [family] + ":")
  {
    if Long(key) {
      var wire := WireKey(h, key, family);
      assert wire[..2] == [family] + ":";
      assert |wire| == 2 + |h(key)|;
    }
  }

  function WireLocations(h: Digest, keys: seq<Key>): seq<Key> {
    seq(|keys|, i requires 0 <= i < |keys| => WireKey(h, keys[i], 'm'))
  }

  function WireRefs(h: Digest, refs: map<RefField, Key>): map<RefField, Key> {
    map field | field in refs :: WireKey(h, refs[field], RefFamily(field))
  }

  // A fact as it goes on the wire.
  function Projected(h: Digest, fact: Fact): Fact {
    var family := FamilyOf(fact.kind);
    var locations := if fact.parameterLocations.None? then None else Some(WireLocations(h, fact.parameterLocations.value));
    var body := fact.(refs := WireRefs(h, fact.refs), parameterLocations := locations);
    if family.None? || fact.key.None? then body
    else
      var key := WireKey(h, fact.key.value, family.value);
      body.(key := Some(key),
            identityKey := if family.value == 'm' && key != fact.key.value then fact.key else fact.identityKey)
  }

  const REFERENCES := [
    GraphKey, EntryBlockKey, NormalExitBlockKey, ExceptionalExitBlockKey, BlockKey, SourceBlockKey, TargetBlockKey,
    CfgElementKey, AnalysisKey, BaseKey, LocationKey, SourceLocationKey, TargetLocationKey, SourceAccessKey,
    TargetAccessKey, DefinitionAccessKey]

  lemma EveryReference(field: RefField)
    ensures field in REFERENCES
  {
    match field
    case GraphKey => assert REFERENCES[0] == field;
    case EntryBlockKey => assert REFERENCES[1] == field;
    case NormalExitBlockKey => assert REFERENCES[2] == field;
    case ExceptionalExitBlockKey => assert REFERENCES[3] == field;
    case BlockKey => assert REFERENCES[4] == field;
    case SourceBlockKey => assert REFERENCES[5] == field;
    case TargetBlockKey => assert REFERENCES[6] == field;
    case CfgElementKey => assert REFERENCES[7] == field;
    case AnalysisKey => assert REFERENCES[8] == field;
    case BaseKey => assert REFERENCES[9] == field;
    case LocationKey => assert REFERENCES[10] == field;
    case SourceLocationKey => assert REFERENCES[11] == field;
    case TargetLocationKey => assert REFERENCES[12] == field;
    case SourceAccessKey => assert REFERENCES[13] == field;
    case TargetAccessKey => assert REFERENCES[14] == field;
    case DefinitionAccessKey => assert REFERENCES[15] == field;
  }

  lemma NextReference(i: nat)
    requires i < |REFERENCES|
    ensures REFERENCES[i] !in REFERENCES[..i]
    ensures forall f :: f in REFERENCES[..i + 1] <==> f in REFERENCES[..i] || f == REFERENCES[i]
  {
    assert REFERENCES[..i + 1] == REFERENCES[..i] + [REFERENCES[i]];
    forall j | 0 <= j < i
      ensures REFERENCES[j] != REFERENCES[i]
    {
    }
  }

  lemma AllReferences()
    ensures forall f :: f in REFERENCES[..|REFERENCES|]
  {
    assert REFERENCES[..|REFERENCES|] == REFERENCES;
    hide REFERENCES;
    forall f
      ensures f in REFERENCES
    {
      EveryReference(f);
    }
  }

  // The fields in `done` hold their wire keys, the others what they held.
  ghost predicate ProjectedSoFar(h: Digest, refs: map<RefField, Key>, now: map<RefField, Key>, done: seq<RefField>) {
    now.Keys == refs.Keys && forall f :: f in refs ==> now[f] == if f in done then WireKey(h, refs[f], RefFamily(f)) else refs[f]
  }

  // The fields in `done` are restored, the others not yet.
  ghost predicate RestoredSoFar(ids: Aliases, refs: map<RefField, Key>, now: map<RefField, Key>, done: seq<RefField>) {
    now.Keys == refs.Keys
    && forall f :: f in refs ==> if f in done then Reference(ids, refs[f], RefFamily(f)) == Ok(now[f]) else now[f] == refs[f]
  }

  // A fact being prepared for output, edited in place.
  class OutgoingFact {
    var fact: Fact

    constructor (fact: Fact)
      ensures this.fact == fact
    {
      this.fact := fact;
    }

    method ProjectWireKeys(h: Digest)
      modifies this
      ensures fact == Projected(h, old(fact))
    {
      var family := FamilyOf(fact.kind);
      if family.Some? && fact.key.Some? {
        var key := fact.key.value;
        var projected := WireKey(h, key, family.value);
        if family.value == 'm' && projected != key {
          fact := fact.(identityKey := Some(key));
        }
        fact := fact.(key := Some(projected));
      }
      ProjectReferences(h);
      if fact.parameterLocations.Some? {
        var locations := fact.parameterLocations.value;
        for i := 0 to |locations|
          invariant |locations| == |old(fact).parameterLocations.value|
          invariant forall j :: 0 <= j < |locations| ==>
                      locations[j] == if j < i then WireLocations(h, old(fact).parameterLocations.value)[j]
                                      else old(fact).parameterLocations.value[j]
          invariant fact == old(fact).(refs := fact.refs, key := fact.key, identityKey := fact.identityKey)
          invariant fact == Projected(h, old(fact)).(parameterLocations := fact.parameterLocations)
        {
          locations := locations[i := WireKey(h, locations[i], 'm')];
        }
        assert locations == WireLocations(h, old(fact).parameterLocations.value);
        fact := fact.(parameterLocations := Some(locations));
      }
    }

    method ProjectReferences(h: Digest)
      modifies this
      ensures fact == old(fact).(refs := WireRefs(h, old(fact).refs))
    {
      hide WireKey, RefFamily, REFERENCES;
      ghost var refs := fact.refs;
      for i := 0 to |REFERENCES|
        invariant fact == old(fact).(refs := fact.refs) && ProjectedSoFar(h, refs, fact.refs, REFERENCES[..i])
      {
        var field := REFERENCES[i];
        NextReference(i);
        if field in fact.refs {
          fact := fact.(refs := fact.refs[field := WireKey(h, fact.refs[field], RefFamily(field))]);
        }
      }
      AllReferences();
      assert fact.refs == WireRefs(h, refs);
    }
  }

  // Ingestor ------------------------------------------------------------------------------

  type Aliases = map<(Family, Key), Key>

  // A reference is an alias only by its prefix.
  predicate IsAlias(key: Key, family: Family) {
    StartsWith(key, [family] + ":")
  }

  function Reference(ids: Aliases, key: Key, family: Family): Result<Key> {
    if !IsAlias(key, family) then Ok(key)
    else if (family, key) in ids then Ok(ids[(family, key)])
    else ProtocolError
  }

  // A required attribute: present and not empty.
  function RequiredRef(ids: Aliases, fact: Fact, field: RefField, family: Family): Result<Key> {
    if field in fact.refs && fact.refs[field] != "" then Reference(ids, fact.refs[field], family) else ProtocolError
  }

  function RequiredName(fact: Fact, field: NameField): Result<string> {
    if field in fact.names && fact.names[field] != "" then Ok(fact.names[field]) else ProtocolError
  }

  function RequiredNumber(fact: Fact): Result<string> {
    if fact.number.Some? then Ok(Decimal(fact.number.value)) else ProtocolError
  }

  function Decimal(n: nat): string {
    if n < 10 then ["0123456789"[n]] else Decimal(n / 10) + ["0123456789"[n % 10]]
  }

  function Join(a: Result<string>, infix: string, b: Result<string>): Result<string> {
    if a.Ok? && b.Ok? then Ok(a.value + infix + b.value) else ProtocolError
  }

  predicate Defines(kind: Kind) {
    kind in {CfgGraph, CfgBlock, CfgElement, DataFlowAnalysis, MemoryLocation, DataAccess}
  }

  // The identity that the structure of a definition spells.
  function Identity(ids: Aliases, fact: Fact): Result<Key>
    requires Defines(fact.kind)
  {
    match fact.kind
    case CfgGraph => Join(Ok("cfg:"), "", RequiredName(fact, FunctionKey))
    case CfgBlock => Join(RequiredRef(ids, fact, GraphKey, 'g'), ":block:", RequiredNumber(fact))
    case CfgElement => Join(RequiredRef(ids, fact, BlockKey, 'b'), ":element:", RequiredNumber(fact))
    case DataFlowAnalysis => Join(Ok("data-flow:"), "", RequiredRef(ids, fact, GraphKey, 'g'))
    case MemoryLocation => if fact.identityKey.Some? && fact.identityKey.value != "" then Ok(fact.identityKey.value) else ProtocolError
    case DataAccess => Join(RequiredRef(ids, fact, BlockKey, 'b'), ":access:", RequiredNumber(fact))
  }

  // Learns the alias of one definition, if it has one.
  function Learn(h: Digest, ids: Aliases, fact: Fact): Result<Aliases>
    requires Defines(fact.kind)
  {
    var family := FamilyOf(fact.kind).value;
    if fact.key.None? || fact.key.value == "" then ProtocolError
    else if !IsAlias(fact.key.value, family) then Ok(ids)
    else
      var identity := Identity(ids, fact);
      if identity.ProtocolError? then ProtocolError
      else if |identity.value| <= LONGEST_PLAIN_KEY || WireKey(h, identity.value, family) != fact.key.value
              || (family, fact.key.value) in ids then ProtocolError
      else Ok(ids[(family, fact.key.value) := identity.value])
  }

  function LearnAll(h: Digest, ids: Aliases, facts: seq<Fact>): Result<Aliases>
    requires forall f :: f in facts ==> Defines(f.kind)
    decreases |facts|
  {
    if facts == [] then Ok(ids)
    else
      var next := Learn(h, ids, facts[0]);
      if next.ProtocolError? then ProtocolError else LearnAll(h, next.value, facts[1..])
  }

  // One kind's spool, in order.
  function OfKind(facts: seq<Fact>, kind: Kind): (r: seq<Fact>)
    ensures forall f :: f in r <==> f in facts && f.kind == kind
  {
    if facts == [] then []
    else (if facts[0].kind == kind then [facts[0]] else []) + OfKind(facts[1..], kind)
  }

  const DEFINING := [CfgGraph, CfgBlock, CfgElement, DataFlowAnalysis, MemoryLocation, DataAccess]

  // Definitions, parents before children.
  function Definitions(facts: seq<Fact>, kinds: seq<Kind>): (r: seq<Fact>)
    ensures forall f :: f in r <==> f in facts && f.kind in kinds
  {
    if kinds == [] then [] else OfKind(facts, kinds[0]) + Definitions(facts, kinds[1..])
  }

  lemma DefinitionsStep(facts: seq<Fact>, kinds: seq<Kind>, k: nat)
    requires k <= |kinds|
    ensures k < |kinds| ==> Definitions(facts, kinds[k..]) == OfKind(facts, kinds[k]) + Definitions(facts, kinds[k + 1..])
    ensures k == |kinds| ==> Definitions(facts, kinds[k..]) == []
  {
    if k < |kinds| {
      assert kinds[k..][1..] == kinds[k + 1..];
    }
  }

  lemma DefiningKinds(kind: Kind)
    ensures Defines(kind) <==> kind in DEFINING
  {
    assert CfgGraph == DEFINING[0] && CfgBlock == DEFINING[1] && CfgElement == DEFINING[2];
    assert DataFlowAnalysis == DEFINING[3] && MemoryLocation == DEFINING[4] && DataAccess == DEFINING[5];
  }

  function Prepared(h: Digest, facts: seq<Fact>): Result<Aliases> {
    LearnAll(h, map[], Definitions(facts, DEFINING))
  }

  function RestoreRefs(ids: Aliases, refs: map<RefField, Key>): Result<map<RefField, Key>> {
    if forall f :: f in refs ==> Reference(ids, refs[f], RefFamily(f)).Ok?
    then Ok(map f | f in refs :: Reference(ids, refs[f], RefFamily(f)).value)
    else ProtocolError
  }

  function RestoreLocations(ids: Aliases, keys: seq<Key>): Result<seq<Key>> {
    if forall i :: 0 <= i < |keys| ==> Reference(ids, keys[i], 'm').Ok?
    then Ok(seq(|keys|, i requires 0 <= i < |keys| => Reference(ids, keys[i], 'm').value))
    else ProtocolError
  }

  // The first of two references that is not empty, as it is printed.
  function Either(refs: map<RefField, Key>, first: RefField, second: RefField): string {
    if first in refs && refs[first] != "" then refs[first]
    else if second in refs then refs[second]
    else "None"
  }

  // The original key of a fact whose references are restored.
  function RestoreKey(h: Digest, ids: Aliases, restored: Fact, key: Key, family: Family): Result<Key> {
    if !IsAlias(key, family) then Ok(key)
    else if family == 'v' then
      Checked(h, family, key,
              Join(Join(Plain(restored, AnalysisKey), ":evidence:", RequiredName(restored, Relation)), ":",
                   Ok(Either(restored.refs, SourceAccessKey, SourceLocationKey) + ":"
                      + Either(restored.refs, TargetAccessKey, TargetLocationKey))))
    else if family == 's' then
      Checked(h, family, key,
              Join(Join(RequiredName(restored, SummaryKey), ":effect:", RequiredName(restored, EffectKind)), ":",
                   Plain(restored, SourceAccessKey)))
    else Reference(ids, key, family)
  }

  function Plain(fact: Fact, field: RefField): Result<string> {
    if field in fact.refs && fact.refs[field] != "" then Ok(fact.refs[field]) else ProtocolError
  }

  function Checked(h: Digest, family: Family, key: Key, identity: Result<Key>): Result<Key> {
    if identity.Ok? && WireKey(h, identity.value, family) == key then identity else ProtocolError
  }

  function Restored(h: Digest, ids: Aliases, fact: Fact): Result<Fact> {
    var refs := RestoreRefs(ids, fact.refs);
    var locations := if fact.parameterLocations.None? then Ok([]) else RestoreLocations(ids, fact.parameterLocations.value);
    if refs.ProtocolError? || locations.ProtocolError? then ProtocolError
    else
      var body := fact.(refs := refs.value, identityKey := None,
                        parameterLocations := if fact.parameterLocations.None? then None else Some(locations.value));
      if FamilyOf(fact.kind).None? || fact.key.None? then Ok(body)
      else
        var key := RestoreKey(h, ids, body, fact.key.value, FamilyOf(fact.kind).value);
        if key.ProtocolError? then ProtocolError else Ok(body.(key := Some(key.value)))
  }

  // The builder's alias table.
  class AliasTable {
    var identities: Aliases

    constructor ()
      ensures identities == map[]
    {
      identities := map[];
    }

    // One pass per defining kind over the spooled facts.
    method PrepareWireKeys(h: Digest, facts: seq<Fact>) returns (ok: bool)
      modifies this
      ensures ok == Prepared(h, facts).Ok?
      ensures ok ==> Prepared(h, facts) == Ok(identities)
    {
      hide OfKind, Learn, LearnAll, DEFINING, Defines, Definitions;
      identities := map[];
      assert DEFINING[0..] == DEFINING;
      forall kind
        ensures Defines(kind) <==> kind in DEFINING
      {
        DefiningKinds(kind);
      }
      for k := 0 to |DEFINING|
        invariant Prepared(h, facts) == LearnAll(h, identities, Definitions(facts, DEFINING[k..]))
      {
        var spool := OfKind(facts, DEFINING[k]);
        DefinitionsStep(facts, DEFINING, k);
        ok := LearnSpool(h, spool, Definitions(facts, DEFINING[k + 1..]));
        if !ok {
          return;
        }
      }
      DefinitionsStep(facts, DEFINING, |DEFINING|);
      NothingToLearn(h, identities);
      return true;
    }

    method LearnSpool(h: Digest, spool: seq<Fact>, ghost later: seq<Fact>) returns (ok: bool)
      requires forall f :: f in spool + later ==> Defines(f.kind)
      modifies this
      ensures LearnAll(h, old(identities), spool + later) == if ok then LearnAll(h, identities, later) else ProtocolError
    {
      hide Learn;
      assert spool[0..] + later == spool + later;
      for i := 0 to |spool|
        invariant forall f :: f in spool[i..] + later ==> Defines(f.kind)
        invariant LearnAll(h, old(identities), spool + later) == LearnAll(h, identities, spool[i..] + later)
      {
        ghost var rest := spool[i..] + later;
        assert rest[1..] == spool[i + 1..] + later && rest[0] == spool[i] && rest[0] in rest;
        var next := Learn(h, identities, spool[i]);
        if next.ProtocolError? {
          return false;
        }
        identities := next.value;
      }
      assert spool[|spool|..] + later == later;
      return true;
    }

    // One fact in full: references first, then the key they spell.
    method RestoreWireFact(h: Digest, fact: Fact) returns (restored: Result<Fact>)
      ensures restored == Restored(h, identities, fact)
    {
      hide RestoreKey, RestoreRefs, RestoreLocations;
      var refs := RestoreReferences(fact.refs);
      if refs.ProtocolError? {
        return ProtocolError;
      }
      var body := fact.(refs := refs.value);
      if fact.parameterLocations.Some? {
        var locations := RestoreLocationKeys(fact.parameterLocations.value);
        if locations.ProtocolError? {
          return ProtocolError;
        }
        body := body.(parameterLocations := Some(locations.value));
      }
      body := body.(identityKey := None);
      if FamilyOf(fact.kind).Some? && fact.key.Some? {
        var key := RestoreKey(h, identities, body, fact.key.value, FamilyOf(fact.kind).value);
        if key.ProtocolError? {
          return ProtocolError;
        }
        body := body.(key := Some(key.value));
      }
      return Ok(body);
    }

    method RestoreReferences(refs: map<RefField, Key>) returns (restored: Result<map<RefField, Key>>)
      ensures restored == RestoreRefs(identities, refs)
    {
      hide Reference, RefFamily, REFERENCES;
      var originals := refs;
      for i := 0 to |REFERENCES|
        invariant RestoredSoFar(identities, refs, originals, REFERENCES[..i])
      {
        var field := REFERENCES[i];
        NextReference(i);
        if field in refs {
          var original := Reference(identities, originals[field], RefFamily(field));
          if original.ProtocolError? {
            return ProtocolError;
          }
          originals := originals[field := original.value];
        }
      }
      AllRestored(identities, refs, originals);
      return Ok(originals);
    }

    method RestoreLocationKeys(keys: seq<Key>) returns (restored: Result<seq<Key>>)
      ensures restored == RestoreLocations(identities, keys)
    {
      hide Reference;
      var originals := [];
      for i := 0 to |keys|
        invariant |originals| == i
        invariant forall j :: 0 <= j < i ==> Reference(identities, keys[j], 'm') == Ok(originals[j])
      {
        var original := Reference(identities, keys[i], 'm');
        if original.ProtocolError? {
          return ProtocolError;
        }
        originals := originals + [original.value];
      }
      assert RestoreLocations(identities, keys).value == originals;
      return Ok(originals);
    }
  }

  lemma AllRestored(ids: Aliases, refs: map<RefField, Key>, originals: map<RefField, Key>)
    requires RestoredSoFar(ids, refs, originals, REFERENCES[..|REFERENCES|])
    ensures RestoreRefs(ids, refs) == Ok(originals)
  {
    hide Reference, RefFamily, REFERENCES;
    AllReferences();
    assert RestoreRefs(ids, refs).value == originals;
  }

  lemma NothingToLearn(h: Digest, ids: Aliases)
    ensures LearnAll(h, ids, []) == Ok(ids)
  {
  }
}
