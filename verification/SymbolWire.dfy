// What survives the wire: splitting, spooling by kind and zipping back lose nothing.
module SymbolWire {
  import opened Options
  import opened Utf8
  import opened SymbolText
  import opened SymbolStream

  // What a header announces -------------------------------------------------------------

  // The bytes a description commits to.
  function Announced(d: Description): Text {
    if d.Description? && d.sha256.Sha256? then d.sha256.of else []
  }

  function Fill(texts: map<Field, Text>, fields: seq<Field>, descriptions: map<Field, Description>): map<Field, Text>
    requires forall f :: f in fields ==> f in descriptions
    decreases |fields|
  {
    if fields == [] then texts
    else Fill(texts[fields[0] := Announced(descriptions[fields[0]])], fields[1..], descriptions)
  }

  // The logical fact of a fact record, read off the record alone.
  function Restored(r: Record): Record
    requires r.Fact?
  {
    if !r.chunks.Described? then r
    else r.(texts := Fill(r.texts, InOrder(r.chunks.fields.Keys), r.chunks.fields), chunks := Absent)
  }

  function Expected(records: seq<Record>): seq<Record> {
    if records == [] then []
    else (if records[0].Fact? then [Restored(records[0])] else []) + Expected(records[1..])
  }

  // The symbol a state is about to complete.
  function Due(s: State): seq<Record>
    requires Well(s)
  {
    if s.Idle? then [] else [s.symbol.(texts := Fill(s.symbol.texts, s.fields, s.descriptions))]
  }

  ghost predicate Assembling(s: State) {
    Well(s) && (s.Pending? ==> Flatten(s.parts) == s.hashed)
  }

  lemma FillFirst(texts: map<Field, Text>, fields: seq<Field>, descriptions: map<Field, Description>)
    requires fields != [] && forall f :: f in fields ==> f in descriptions
    ensures Fill(texts, fields, descriptions)
            == Fill(texts[fields[0] := Announced(descriptions[fields[0]])], fields[1..], descriptions)
    ensures forall t :: Fill(t, [], descriptions) == t
  {
  }

  lemma StepMeaning(s: State, r: Record)
    requires Assembling(s) && Step(true, s, r).Ok?
    ensures Assembling(Step(true, s, r).value.0)
    ensures Listed(Step(true, s, r).value.1) + Due(Step(true, s, r).value.0)
            == Due(s) + if r.Fact? then [Restored(r)] else []
  {
    var (next, out) := Step(true, s, r).value;
    if r.Chunk? {
      FlattenSnoc(s.parts, r.text);
      var due := s.descriptions[s.fields[0]];
      if s.received + |r.text| == due.bytes {
        assert Announced(due) == s.hashed + r.text == Flatten(s.parts + [r.text]);
        assert |s.fields| == 1 ==> s.fields[1..] == [];
        FillFirst(s.symbol.texts, s.fields, s.descriptions);
      }
      assert Listed(out) + Due(next) == Due(s);
    } else {
      assert Listed(out) + Due(next) == [Restored(r)];
    }
  }

  // An accepted stream's logical facts are the ones its fact records announce: neither the
  // number nor the sizes of the fragments matter.
  lemma {:induction false} LogicalIsAnnounced(s: State, records: seq<Record>)
    requires Assembling(s) && Run(true, s, records).Ok? && Run(true, s, records).value.0.Idle?
    ensures Run(true, s, records).value.1 == Due(s) + Expected(records)
    decreases |records|
  {
    hide Step, Restored, Fill;
    if records != [] {
      RunStep(s, records);
      StepMeaning(s, records[0]);
      hide Run, Due, Assembling;
      var (next, out) := Step(true, s, records[0]).value;
      LogicalIsAnnounced(next, records[1..]);
      var here, rest := if records[0].Fact? then [Restored(records[0])] else [], Expected(records[1..]);
      Regroup(Listed(out), Due(next), rest);
      Regroup(Due(s), here, rest);
      assert Expected(records) == here + rest;
    }
  }

  lemma Regroup(a: seq<Record>, b: seq<Record>, c: seq<Record>)
    ensures (a + b) + c == a + (b + c)
  {
  }

  // Checking without assembling ------------------------------------------------------------

  // States that differ only in what has been assembled.
  ghost predicate Alike(s: State, t: State) {
    && Well(s) && Well(t) && s.Idle? == t.Idle?
    && (s.Pending? ==>
          && s.symbol.symbolKey == t.symbol.symbolKey && s.descriptions == t.descriptions && s.fields == t.fields
          && s.index == t.index && s.received == t.received && s.hashed == t.hashed)
  }

  lemma StepAlike(s: State, t: State, r: Record)
    requires Alike(s, t)
    ensures Step(true, s, r).Ok? == Step(false, t, r).Ok?
    ensures Step(true, s, r).Ok? ==> Alike(Step(true, s, r).value.0, Step(false, t, r).value.0)
  {
  }

  lemma {:induction false} RunAlike(s: State, t: State, records: seq<Record>)
    requires Alike(s, t)
    ensures Run(true, s, records).Ok? == Run(false, t, records).Ok?
    ensures Run(true, s, records).Ok? ==> Alike(Run(true, s, records).value.0, Run(false, t, records).value.0)
    decreases |records|
  {
    hide Step;
    if records != [] {
      StepAlike(s, t, records[0]);
      if Step(true, s, records[0]).Ok? {
        RunAlike(Step(true, s, records[0]).value.0, Step(false, t, records[0]).value.0, records[1..]);
      }
    }
  }

  // The stream reader, which keeps fragments apart, accepts exactly what an assembling reader does.
  lemma AcceptedEitherWay(records: seq<Record>)
    ensures Accepted(true, records) <==> Accepted(false, records)
  {
    RunAlike(Idle, Idle, records);
  }

  // Spooling by kind and zipping back --------------------------------------------------------

  // The spool of symbol records, in order of arrival.
  function Symbols(records: seq<Record>): seq<Record> {
    if records == [] then []
    else (if records[0].Fact? && records[0].kind == SymbolKind then [records[0]] else []) + Symbols(records[1..])
  }

  // The spool of fragments.
  function Fragments(records: seq<Record>): seq<Record> {
    if records == [] then []
    else (if records[0].Chunk? then [records[0]] else []) + Fragments(records[1..])
  }

  function Prepend(out: Option<Record>, rest: Result<seq<Record>>): Result<seq<Record>> {
    match rest
    case ProtocolError => ProtocolError
    case Ok(outs) => Ok(Listed(out) + outs)
  }

  // The builder: each symbol pulls fragments until it is complete, and none may be left.
  function Zip(s: State, symbols: seq<Record>, fragments: seq<Record>): Result<seq<Record>>
    requires Well(s)
    decreases |symbols| + |fragments|
  {
    if s.Pending? then
      if fragments == [] then ProtocolError
      else match Step(true, s, fragments[0])
        case ProtocolError => ProtocolError
        case Ok((next, out)) => Prepend(out, Zip(next, symbols, fragments[1..]))
    else if symbols == [] then if fragments == [] then Ok([]) else ProtocolError
    else match Step(true, s, symbols[0])
      case ProtocolError => ProtocolError
      case Ok((next, out)) => Prepend(out, Zip(next, symbols[1..], fragments))
  }

  lemma StepShape(s: State, r: Record)
    requires Well(s) && Step(true, s, r).Ok?
    ensures r.Chunk? <==> s.Pending?
    ensures Step(true, s, r).value.1.Some? ==> Step(true, s, r).value.1.value.Fact?
    ensures r.Fact? && r.kind != SymbolKind ==> Step(true, s, r).value == (Idle, Some(r))
    ensures r.Chunk? || r.kind == SymbolKind ==>
              Symbols(Listed(Step(true, s, r).value.1)) == Listed(Step(true, s, r).value.1)
  {
    var out := Step(true, s, r).value.1;
    if out.Some? && out.value.Fact? && out.value.kind == SymbolKind {
      assert Listed(out)[1..] == [];
    }
  }

  lemma {:induction false} SymbolsConcat(a: seq<Record>, b: seq<Record>)
    ensures Symbols(a + b) == Symbols(a) + Symbols(b)
  {
    if a == [] {
      assert a + b == b;
    } else {
      SymbolsConcat(a[1..], b);
      assert (a + b)[1..] == a[1..] + b && (a + b)[0] == a[0];
      var first := if a[0].Fact? && a[0].kind == SymbolKind then [a[0]] else [];
      assert first + (Symbols(a[1..]) + Symbols(b)) == (first + Symbols(a[1..])) + Symbols(b);
    }
  }

  lemma RunStep(s: State, records: seq<Record>)
    requires Well(s) && Run(true, s, records).Ok? && records != []
    ensures Step(true, s, records[0]).Ok?
    ensures var (next, out) := Step(true, s, records[0]).value; var rest := Run(true, next, records[1..]);
            rest.Ok? && Run(true, s, records) == Ok((rest.value.0, Listed(out) + rest.value.1))
  {
    hide Step, Well;
  }

  lemma SpoolsStep(records: seq<Record>)
    requires records != []
    ensures records[0].Chunk? ==> Fragments(records) == [records[0]] + Fragments(records[1..]) && Symbols(records) == Symbols(records[1..])
    ensures records[0].Fact? && records[0].kind == SymbolKind ==>
              Symbols(records) == [records[0]] + Symbols(records[1..]) && Fragments(records) == Fragments(records[1..])
    ensures records[0].Fact? && records[0].kind != SymbolKind ==>
              Symbols(records) == Symbols(records[1..]) && Fragments(records) == Fragments(records[1..])
  {
  }

  // The builder takes the next record from the spool it is due from.
  lemma ZipStep(s: State, r: Record, symbols: seq<Record>, fragments: seq<Record>)
    requires Well(s) && Step(true, s, r).Ok? && (r.Chunk? || r.kind == SymbolKind) && (r.Chunk? <==> s.Pending?)
    ensures var (next, out) := Step(true, s, r).value;
            Zip(s, if r.Chunk? then symbols else [r] + symbols, if r.Chunk? then [r] + fragments else fragments)
            == Prepend(out, Zip(next, symbols, fragments))
  {
    hide Step, Well;
    assert ([r] + symbols)[1..] == symbols && ([r] + fragments)[1..] == fragments;
  }

  // Zipping the two spools of an accepted stream gives the symbols that direct assembly gives.
  lemma {:induction false} ZipIsAssembly(s: State, records: seq<Record>)
    requires Well(s) && Run(true, s, records).Ok? && Run(true, s, records).value.0.Idle?
    ensures Zip(s, Symbols(records), Fragments(records)) == Ok(Symbols(Run(true, s, records).value.1))
    decreases |records|
  {
    hide Step, Well;
    if records != [] {
      RunStep(s, records);
      SpoolsStep(records);
      hide Run, Symbols, Fragments, Zip;
      var r, later := records[0], records[1..];
      StepShape(s, r);
      var (next, out) := Step(true, s, r).value;
      ZipIsAssembly(next, later);
      SymbolsConcat(Listed(out), Run(true, next, later).value.1);
      if r.Chunk? || r.kind == SymbolKind {
        ZipStep(s, r, Symbols(later), Fragments(later));
      } else {
        NoSymbol(r);
        assert [] + Symbols(Run(true, next, later).value.1) == Symbols(Run(true, next, later).value.1);
      }
    }
  }

  lemma NoSymbol(r: Record)
    requires r.Fact? && r.kind != SymbolKind
    ensures Symbols(Listed(Some(r))) == []
  {
  }

  // Symbols already built, followed by those still to come.
  function Follow(done: seq<Record>, rest: Result<seq<Record>>): Result<seq<Record>> {
    match rest
    case ProtocolError => ProtocolError
    case Ok(outs) => Ok(done + outs)
  }

  lemma FollowPrepend(done: seq<Record>, out: Option<Record>, rest: Result<seq<Record>>)
    ensures Follow(done, Prepend(out, rest)) == Follow(done + Listed(out), rest)
  {
    if rest.Ok? {
      assert done + (Listed(out) + rest.value) == (done + Listed(out)) + rest.value;
    }
  }

  // One turn of the builder: the next fragment of a pending symbol, or the next symbol.
  lemma ZipTurn(s: State, symbols: seq<Record>, fragments: seq<Record>, done: seq<Record>)
    requires Well(s) && if s.Pending? then fragments != [] else symbols != []
    ensures var step := Step(true, s, if s.Pending? then fragments[0] else symbols[0]);
            if step.Ok? then
              Follow(done, Zip(s, symbols, fragments))
              == Follow(done + Listed(step.value.1),
                        if s.Pending? then Zip(step.value.0, symbols, fragments[1..]) else Zip(step.value.0, symbols[1..], fragments))
            else Zip(s, symbols, fragments) == ProtocolError
  {
    hide Follow, Prepend;
    var step := Step(true, s, if s.Pending? then fragments[0] else symbols[0]);
    if step.Ok? {
      FollowPrepend(done, step.value.1,
                    if s.Pending? then Zip(step.value.0, symbols, fragments[1..]) else Zip(step.value.0, symbols[1..], fragments));
    }
  }

  // Feeds a pending symbol until it is complete; false when a fragment is missing or refused.
  method PullFragments(chunks: SymbolTextChunks, ghost symbols: seq<Record>, fragments: seq<Record>,
                       start: nat, before: seq<Record>)
    returns (complete: bool, next: nat, done: seq<Record>)
    requires chunks.Valid() && chunks.assemble && start <= |fragments| && Well(chunks.State())
    modifies chunks
    ensures next <= |fragments|
    ensures complete ==> chunks.Valid() && chunks.State() == Idle && Well(Idle)
    ensures Follow(before, Zip(old(chunks.State()), symbols, fragments[start..]))
            == if complete then Follow(done, Zip(Idle, symbols, fragments[next..])) else ProtocolError
  {
    hide Zip, Step, Well;
    next, done := start, before;
    while chunks.symbol.Some?
      invariant next <= |fragments| && chunks.Valid() && Well(chunks.State())
      invariant Follow(before, Zip(old(chunks.State()), symbols, fragments[start..]))
                == Follow(done, Zip(chunks.State(), symbols, fragments[next..]))
      decreases |fragments| - next
    {
      if next == |fragments| {
        ZipStarved(chunks.State(), symbols);
        return false, next, done;
      }
      ZipTurn(chunks.State(), symbols, fragments[next..], done);
      assert fragments[next..][1..] == fragments[next + 1..];
      var logical := chunks.Accept(fragments[next]);
      if !logical.Ok? {
        return false, next, done;
      }
      done, next := done + Listed(logical.value), next + 1;
    }
    complete := true;
    IdleIsWell();
  }

  lemma IdleIsWell()
    ensures Well(Idle)
  {
  }

  lemma ZipStarved(s: State, symbols: seq<Record>)
    requires Well(s) && s.Pending?
    ensures Zip(s, symbols, []) == ProtocolError
  {
  }

  method Rezip(symbols: seq<Record>, fragments: seq<Record>) returns (answer: Result<seq<Record>>)
    ensures answer == Zip(Idle, symbols, fragments)
  {
    hide Zip, Step, Well;
    var chunks := new SymbolTextChunks(true);
    var done: seq<Record> := [];
    var next: nat := 0;
    ghost var total := Zip(Idle, symbols, fragments);
    ZipEnds(symbols, fragments);
    assert symbols[0..] == symbols && fragments[0..] == fragments;
    for i := 0 to |symbols|
      invariant next <= |fragments| && chunks.Valid() && chunks.State() == Idle && fresh(chunks) && chunks.assemble
      invariant Well(Idle) && total == Follow(done, Zip(Idle, symbols[i..], fragments[next..]))
    {
      ZipTurn(Idle, symbols[i..], fragments[next..], done);
      assert symbols[i..][1..] == symbols[i + 1..];
      var logical := chunks.Accept(symbols[i]);
      if !logical.Ok? {
        return ProtocolError;
      }
      done := done + Listed(logical.value);
      var complete;
      complete, next, done := PullFragments(chunks, symbols[i + 1..], fragments, next, done);
      if !complete {
        return ProtocolError;
      }
    }
    ZipEnds([], fragments[next..]);
    assert symbols[|symbols|..] == [];
    if next < |fragments| {
      return ProtocolError;
    }
    assert done + [] == done;
    return Ok(done);
  }

  lemma ZipEnds(symbols: seq<Record>, fragments: seq<Record>)
    ensures Well(Idle) && Zip(Idle, [], fragments) == if fragments == [] then Ok([]) else ProtocolError
    ensures Zip(Idle, symbols, fragments) == Follow([], Zip(Idle, symbols, fragments))
  {
    var zip := Zip(Idle, symbols, fragments);
    if zip.Ok? {
      assert [] + zip.value == zip.value;
    }
  }

  // Round trip -------------------------------------------------------------------------------

  lemma {:induction false} RunConcat(s: State, a: seq<Record>, b: seq<Record>)
    requires Well(s) && Run(true, s, a).Ok?
    ensures Run(true, s, a + b).Ok? <==> Run(true, Run(true, s, a).value.0, b).Ok?
    ensures Run(true, s, a + b).Ok? ==> Run(true, s, a + b).value.0 == Run(true, Run(true, s, a).value.0, b).value.0
    decreases |a|
  {
    hide Step, Well;
    if a == [] {
      assert a + b == b;
    } else {
      assert (a + b)[1..] == a[1..] + b && (a + b)[0] == a[0];
      RunConcat(Step(true, s, a[0]).value.0, a[1..], b);
    }
  }

  // The state after n bytes of the first due field.
  ghost predicate Awaiting(s: State, key: string, text: Text, hashed: Text, index: nat) {
    && Well(s) && s.Pending? && s.symbol.symbolKey == Some(key) && s.index == index && s.hashed == hashed
    && s.descriptions[s.fields[0]] == Description(|text|, Sha256(text))
  }

  // All fragments of the due field are accepted; the next field is due, or nothing is.
  lemma {:induction false} FragmentsAccepted(s: State, key: string, text: Text, pieces: seq<Text>, records: seq<Record>)
    requires Well(s) && s.Pending? && Awaiting(s, key, text, s.hashed, s.index)
    requires SymbolText.Fragments(key, s.fields[0], s.index, pieces, records) && pieces != []
    requires forall p :: p in pieces ==> 0 < |p| <= CHUNK_BYTES
    requires text == s.hashed + Flatten(pieces)
    ensures Run(true, s, records).Ok?
    ensures FieldClosed(s, Run(true, s, records).value.0)
    decreases |pieces|
  {
    var r := records[0];
    assert r == Chunk(key, s.fields[0], s.index, pieces[0], true) && pieces[0] in pieces;
    assert text == (s.hashed + pieces[0]) + Flatten(pieces[1..]);
    var (next, _) := Step(true, s, r).value;
    if |pieces| == 1 {
      assert Flatten(pieces[1..]) == [];
      assert records[1..] == [];
    } else {
      PiecesHaveBytes(pieces[1..]);
      FragmentsAccepted(next, key, text, pieces[1..], records[1..]);
    }
  }

  lemma PiecesHaveBytes(pieces: seq<Text>)
    requires pieces != [] && forall p :: p in pieces ==> 0 < |p|
    ensures Flatten(pieces) != []
  {
    assert pieces[0] in pieces;
  }

  // What is left to await once a field is complete.
  ghost predicate FieldClosed(s: State, next: State)
    requires Well(s) && Well(next) && s.Pending?
  {
    if |s.fields| == 1 then next.Idle?
    else
      && next.Pending? && next.symbol.symbolKey == s.symbol.symbolKey && next.descriptions == s.descriptions
      && next.fields == s.fields[1..] && next.index == 0 && next.hashed == []
  }

  lemma DueFirst(s: State, key: string, text: Text)
    requires Well(s) && s.Pending? && s.symbol.symbolKey == Some(key)
    requires s.descriptions[s.fields[0]] == Description(|text|, Sha256(text))
    ensures Awaiting(s, key, text, s.hashed, s.index)
  {
  }

  // The fields due, none of them begun, are described by the texts to come.
  ghost predicate AllDue(s: State, key: string, texts: map<Field, Text>) {
    && Well(s) && s.Pending? && s.symbol.symbolKey == Some(key) && s.index == 0 && s.hashed == []
    && forall f :: f in s.fields ==>
         f in texts && Valid(texts[f]) && texts[f] != [] && s.descriptions[f] == Description(|texts[f]|, Sha256(texts[f]))
  }

  // The fragments of all due fields are accepted.
  lemma {:induction false} FieldsAccepted(s: State, key: string, texts: map<Field, Text>, records: seq<Record>)
    requires AllDue(s, key, texts) && AllFragments(key, s.fields, texts, records)
    ensures Run(true, s, records).Ok? && Run(true, s, records).value.0.Idle?
    decreases |s.fields|
  {
    hide AllFragments, Run;
    var k := OneFieldAccepted(s, key, texts, records);
    var next := Run(true, s, records[..k]).value.0;
    RunConcat(s, records[..k], records[k..]);
    assert records == records[..k] + records[k..];
    if |s.fields| == 1 {
      RunNothing(next);
    } else {
      hide AllDue;
      FieldsAccepted(next, key, texts, records[k..]);
    }
  }

  // The first of them, and what it leaves.
  lemma OneFieldAccepted(s: State, key: string, texts: map<Field, Text>, records: seq<Record>) returns (k: nat)
    requires AllDue(s, key, texts) && AllFragments(key, s.fields, texts, records)
    ensures k <= |records| && Run(true, s, records[..k]).Ok?
    ensures var next := Run(true, s, records[..k]).value.0;
            if |s.fields| == 1 then next.Idle? && records[k..] == []
            else AllDue(next, key, texts) && next.fields == s.fields[1..] && AllFragments(key, next.fields, texts, records[k..])
  {
    hide Split, Valid, Awaiting, AllFragments, Run, Flatten, SymbolText.Fragments;
    var text := texts[s.fields[0]];
    assert s.fields[0] in s.fields;
    var pieces;
    k, pieces := FirstField(key, s.fields, texts, records);
    SplitMeaning(text, pieces);
    assert [] + Flatten(pieces) == text;
    DueFirst(s, key, text);
    FragmentsAccepted(s, key, text, pieces, records[..k]);
    assert forall f :: f in s.fields[1..] ==> f in s.fields;
  }

  lemma RunNothing(s: State)
    requires Well(s)
    ensures Run(true, s, []) == Ok((s, []))
  {
  }

  // The first field's fragments, and the records of the rest.
  lemma FirstField(key: string, fields: seq<Field>, texts: map<Field, Text>, records: seq<Record>)
    returns (k: nat, pieces: seq<Text>)
    requires fields != [] && (forall f :: f in fields ==> f in texts && texts[f] != []) && AllFragments(key, fields, texts, records)
    ensures k <= |records| && AllFragments(key, fields[1..], texts, records[k..])
    ensures fields[1..] == [] ==> records[k..] == []
    ensures pieces != [] && Split(texts[fields[0]], pieces) && SymbolText.Fragments(key, fields[0], 0, pieces, records[..k])
  {
    hide Split;
    var n :| 0 <= n <= |records| && FieldFragments(key, fields[0], texts[fields[0]], records[..n])
             && AllFragments(key, fields[1..], texts, records[n..]);
    k := n;
    var ps :| Split(texts[fields[0]], ps) && SymbolText.Fragments(key, fields[0], 0, ps, records[..k]);
    pieces := ps;
    SplitSome(texts[fields[0]], pieces);
  }

  lemma SplitSome(text: Text, pieces: seq<Text>)
    requires text != [] && Split(text, pieces)
    ensures pieces != []
  {
  }

  // A symbol's own records are accepted, and name one fact: the symbol.
  lemma EmissionAccepted(fact: Record, records: seq<Record>)
    requires EmittableSymbol(fact) && Emission(fact, records)
    ensures Accepted(true, records) && Expected(records) == [fact]
  {
    hide Valid, Among, AllFragments;
    if Oversized(fact.texts) == {} {
      PlainFactAccepted(fact);
    } else {
      HeaderBegins(fact);
      var s := Begin(Header(fact));
      FieldsAccepted(s, fact.symbolKey.value, fact.texts, records[1..]);
      OnlyFragments(fact.symbolKey.value, s.fields, fact.texts, records[1..]);
      FillRestores(fact.texts - Oversized(fact.texts), s.fields, s.descriptions, fact.texts);
    }
  }

  lemma HeaderIsGood(fact: Record)
    requires EmittableSymbol(fact) && Oversized(fact.texts) != {}
    ensures GoodDescriptor(Header(fact)) && Header(fact).chunks.fields.Keys == Oversized(fact.texts)
  {
    hide Valid;
    var fields := Oversized(fact.texts);
    var descriptions := DescribeOnly(fact.texts, fields);
    assert descriptions.Keys == fields;
    forall f | f in descriptions
      ensures f !in fact.texts - fields && GoodDescription(descriptions[f])
    {
      assert f in fields;
    }
  }

  lemma HeaderBegins(fact: Record)
    requires EmittableSymbol(fact) && Oversized(fact.texts) != {}
    ensures GoodDescriptor(Header(fact))
    ensures Step(true, Idle, Header(fact)) == Ok((Begin(Header(fact)), None))
    ensures Begin(Header(fact)).fields == InOrder(Oversized(fact.texts))
  {
    HeaderIsGood(fact);
    hide GoodDescriptor, Oversized, DescribeOnly, InOrder, EmittableSymbol;
  }

  lemma {:induction false} OnlyFragments(key: string, fields: seq<Field>, texts: map<Field, Text>, records: seq<Record>)
    requires (forall f :: f in fields ==> f in texts) && AllFragments(key, fields, texts, records)
    ensures Expected(records) == []
    decreases |fields|
  {
    hide FieldFragments, Restored;
    if fields != [] {
      var k :| 0 <= k <= |records| && FieldFragments(key, fields[0], texts[fields[0]], records[..k])
               && AllFragments(key, fields[1..], texts, records[k..]);
      OnlyFragments(key, fields[1..], texts, records[k..]);
      FragmentsAreChunks(key, fields[0], texts[fields[0]], records[..k]);
      ChunksExpectNothing(records[..k]);
      ExpectedConcat(records[..k], records[k..]);
      assert records == records[..k] + records[k..];
    }
  }

  lemma FragmentsAreChunks(key: string, field: Field, text: Text, records: seq<Record>)
    requires FieldFragments(key, field, text, records)
    ensures forall r :: r in records ==> r.Chunk?
  {
    hide Split;
  }

  lemma {:induction false} ChunksExpectNothing(records: seq<Record>)
    requires forall r :: r in records ==> r.Chunk?
    ensures Expected(records) == []
  {
    if records != [] {
      assert records[0] in records;
      ChunksExpectNothing(records[1..]);
    }
  }

  lemma {:induction false} ExpectedConcat(a: seq<Record>, b: seq<Record>)
    ensures Expected(a + b) == Expected(a) + Expected(b)
  {
    if a == [] {
      assert a + b == b;
    } else {
      ExpectedConcat(a[1..], b);
      assert (a + b)[1..] == a[1..] + b && (a + b)[0] == a[0];
      var first := if a[0].Fact? then [Restored(a[0])] else [];
      assert first + (Expected(a[1..]) + Expected(b)) == (first + Expected(a[1..])) + Expected(b);
    }
  }

  // Filling in what was taken out gives the original texts.
  lemma {:induction false} FillRestores(kept: map<Field, Text>, fields: seq<Field>, descriptions: map<Field, Description>,
                                        texts: map<Field, Text>)
    requires forall f :: f in fields ==> f in descriptions && f in texts && Announced(descriptions[f]) == texts[f]
    requires (forall f :: f in kept ==> f in texts && kept[f] == texts[f]) && forall f :: f in texts ==> f in kept || f in fields
    ensures Fill(kept, fields, descriptions) == texts
    decreases |fields|
  {
    if fields == [] {
      assert kept == texts;
    } else {
      FillRestores(kept[fields[0] := Announced(descriptions[fields[0]])], fields[1..], descriptions, texts);
    }
  }

  // A stream of facts on the wire: symbols split, every other fact as it is.
  ghost predicate EmittedStream(facts: seq<Record>, records: seq<Record>) {
    if facts == [] then records == []
    else exists k | 0 <= k <= |records| ::
      && EmittedFact(facts[0], records[..k]) && EmittedStream(facts[1..], records[k..])
  }

  ghost predicate EmittedFact(fact: Record, records: seq<Record>) {
    && fact.Fact? && fact.chunks == Absent
    && if fact.kind == SymbolKind then EmittableSymbol(fact) && Emission(fact, records) else records == [fact]
  }

  lemma {:induction false} StreamAccepted(facts: seq<Record>, records: seq<Record>)
    requires EmittedStream(facts, records)
    ensures Accepted(true, records) && Expected(records) == facts
    decreases |facts|
  {
    if facts == [] {
      NothingAccepted();
    } else {
      hide EmittedFact, EmittedStream, Accepted, Expected;
      var k := FirstEmitted(facts, records);
      StreamAccepted(facts[1..], records[k..]);
      FactThenStream(facts, records[..k], records[k..]);
      HeadAndTail(records, k);
    }
  }

  lemma HeadAndTail(records: seq<Record>, k: nat)
    requires k <= |records|
    ensures records[..k] + records[k..] == records
  {
  }

  lemma FactThenStream(facts: seq<Record>, first: seq<Record>, rest: seq<Record>)
    requires facts != [] && EmittedFact(facts[0], first)
    requires Accepted(true, rest) && Expected(rest) == facts[1..]
    ensures Accepted(true, first + rest) && Expected(first + rest) == facts
  {
    hide EmittedFact, Accepted, Expected;
    FactAccepted(facts[0], first);
    AcceptedConcat(first, rest);
    assert [facts[0]] + facts[1..] == facts;
  }

  lemma AcceptedConcat(a: seq<Record>, b: seq<Record>)
    requires Accepted(true, a) && Accepted(true, b)
    ensures Accepted(true, a + b) && Expected(a + b) == Expected(a) + Expected(b)
  {
    hide Run, Expected;
    RunConcat(Idle, a, b);
    ExpectedConcat(a, b);
  }

  lemma NothingAccepted()
    ensures Accepted(true, []) && Expected([]) == []
  {
  }

  lemma FirstEmitted(facts: seq<Record>, records: seq<Record>) returns (k: nat)
    requires facts != [] && EmittedStream(facts, records)
    ensures k <= |records| && EmittedFact(facts[0], records[..k]) && EmittedStream(facts[1..], records[k..])
  {
    hide EmittedFact;
    var n :| 0 <= n <= |records| && EmittedFact(facts[0], records[..n]) && EmittedStream(facts[1..], records[n..]);
    k := n;
  }

  lemma FactAccepted(fact: Record, records: seq<Record>)
    requires EmittedFact(fact, records)
    ensures Accepted(true, records) && Expected(records) == [fact]
  {
    hide EmittableSymbol, Emission;
    if fact.kind == SymbolKind {
      EmissionAccepted(fact, records);
    } else {
      PlainFactAccepted(fact);
    }
  }

  lemma PlainFactAccepted(fact: Record)
    requires fact.Fact? && fact.chunks == Absent
    ensures Accepted(true, [fact]) && Expected([fact]) == [fact]
  {
    assert [fact][1..] == [];
    assert Run(true, Idle, []).Ok? && Expected([]) == [];
    assert [fact] + [] == [fact];
  }

  // Whatever the analyzer emits is accepted, and both ways of reading it back give the facts.
  lemma WireRoundTrip(facts: seq<Record>, records: seq<Record>)
    requires EmittedStream(facts, records)
    ensures Accepted(false, records) && Accepted(true, records) && Logical(records) == facts
    ensures Zip(Idle, Symbols(records), Fragments(records)) == Ok(Symbols(facts))
  {
    hide Step, EmittedStream;
    StreamAccepted(facts, records);
    AcceptedEitherWay(records);
    LogicalIsAnnounced(Idle, records);
    assert Due(Idle) + Expected(records) == facts;
    ZipIsAssembly(Idle, records);
  }

  // However an accepted stream is cut into fragments, its fact records fix the result.
  lemma FragmentationIsIrrelevant(a: seq<Record>, b: seq<Record>)
    requires Accepted(true, a) && Accepted(true, b) && Expected(a) == Expected(b)
    ensures Logical(a) == Logical(b)
  {
    hide Step;
    LogicalIsAnnounced(Idle, a);
    LogicalIsAnnounced(Idle, b);
  }
}
