// Oversized symbol text on the wire: the analyzer splits it into fragment records,
// the ingestor checks them one at a time, spools them by kind and zips them back.
module SymbolText {
  import opened Options
  import opened Utf8

  // Largest fragment, in bytes.
  const CHUNK_BYTES := 64 * 1024

  datatype Field = Signature | Documentation | SourceText

  // A digest on the wire: the hash of some bytes, or 64 hex digits that hash nothing.
  // Two byte strings with one hash are taken to be equal.
  datatype Digest = Sha256(of: Text) | Unmatched(digits: nat)

  datatype Description = Misdescribed | Description(bytes: int, sha256: Digest)

  datatype TextChunks = Absent | Malformed | Described(fields: map<Field, Description>)

  datatype Kind = SymbolKind | OtherKind(name: nat)

  // A fact record, or a fragment. `wellFormed` says that a fragment has exactly its six
  // attributes and that its text is a string with a UTF-8 encoding.
  datatype Record =
    | Fact(kind: Kind, symbolKey: Option<string>, texts: map<Field, Text>, others: nat, chunks: TextChunks)
    | Chunk(key: string, field: Field, index: int, text: Text, wellFormed: bool)

  datatype Result<T> = Ok(value: T) | ProtocolError

  // Analyzer: splitting ----------------------------------------------------------------

  // The last boundary among the first CHUNK_BYTES bytes, not counting the front.
  function Cut(text: Text, end: nat): (r: nat)
    requires end <= |text|
    ensures r <= end
  {
    if end == 0 || Boundary(text, end) then end else Cut(text, end - 1)
  }

  function FirstEnd(text: Text): nat {
    if |text| <= CHUNK_BYTES then |text| else CHUNK_BYTES
  }

  lemma {:induction false} CutIsLast(text: Text, end: nat, q: nat)
    requires end <= |text| && q <= end && Boundary(text, q)
    ensures q <= Cut(text, end) && (0 < q ==> Boundary(text, Cut(text, end)))
    ensures forall p :: Cut(text, end) < p <= end ==> !Boundary(text, p)
  {
    if end != 0 && !Boundary(text, end) {
      CutIsLast(text, end - 1, q);
    }
  }

  // A cut always makes progress, by all but at most three of the bytes allowed.
  lemma CutAdvances(text: Text)
    requires Valid(text) && text != []
    ensures var c := Cut(text, FirstEnd(text));
            && 0 < c && FirstEnd(text) - c <= 3 && Boundary(text, c)
            && Valid(text[..c]) && Valid(text[c..])
            && forall p :: c < p <= FirstEnd(text) ==> !Boundary(text, p)
  {
    var end := FirstEnd(text);
    BoundaryNearby(text, end);
    var q :| 0 <= q <= end && end - q <= 3 && Boundary(text, q);
    if end <= 3 {
      assert Boundary(text, end);
      CutIsLast(text, end, end);
    } else {
      CutIsLast(text, end, q);
    }
    CutIffBoundary(text, Cut(text, end));
  }

  function Flatten(pieces: seq<Text>): Text {
    if pieces == [] then [] else pieces[0] + Flatten(pieces[1..])
  }

  lemma {:induction false} FlattenSnoc(pieces: seq<Text>, piece: Text)
    ensures Flatten(pieces + [piece]) == Flatten(pieces) + piece
  {
    if pieces == [] {
    } else {
      FlattenSnoc(pieces[1..], piece);
      assert (pieces + [piece])[1..] == pieces[1..] + [piece];
    }
  }

  // The longest fragment of whole characters that the bound allows.
  ghost predicate LongestPiece(text: Text, piece: Text) {
    && 0 < |piece| <= CHUNK_BYTES && piece <= text && Boundary(text, |piece|)
    && forall p :: |piece| < p <= FirstEnd(text) ==> !Boundary(text, p)
  }

  // Fragments of a text: whole characters, in order, each as long as can be.
  ghost predicate Split(text: Text, pieces: seq<Text>) {
    if text == [] then pieces == []
    else pieces != [] && LongestPiece(text, pieces[0]) && Split(text[|pieces[0]|..], pieces[1..])
  }

  lemma {:induction false} SplitMeaning(text: Text, pieces: seq<Text>)
    requires Valid(text) && Split(text, pieces)
    ensures Flatten(pieces) == text
    ensures forall i :: 0 <= i < |pieces| ==> 0 < |pieces[i]| <= 65536 && Valid(pieces[i])
    ensures forall i :: 0 <= i < |pieces| - 1 ==> 65536 - |pieces[i]| <= 3
  {
    hide Valid, LongestPiece;
    if text != [] {
      PieceMeaning(text, pieces[0]);
      var rest, tail := text[|pieces[0]|..], pieces[1..];
      SplitMeaning(rest, tail);
      assert |pieces| > 1 ==> rest != [];
      forall i | 0 <= i < |pieces|
        ensures 0 < |pieces[i]| <= CHUNK_BYTES && Valid(pieces[i])
        ensures i < |pieces| - 1 ==> CHUNK_BYTES - |pieces[i]| <= 3
      {
        assert i > 0 ==> pieces[i] == tail[i - 1];
      }
    }
  }

  lemma PieceMeaning(text: Text, piece: Text)
    requires Valid(text) && text != [] && LongestPiece(text, piece)
    ensures |piece| <= |text| && text == piece + text[|piece|..]
    ensures Valid(piece) && Valid(text[|piece|..]) && 0 < |piece| <= CHUNK_BYTES
    ensures |piece| < |text| ==> CHUNK_BYTES - |piece| <= 3
  {
    hide Valid;
    var n := |piece|;
    CutIffBoundary(text, n);
    assert text[..n] == piece;
    CutAdvances(text);
  }

  // Splitting is greedy, so it has one outcome.
  lemma {:induction false} SplitIsUnique(text: Text, a: seq<Text>, b: seq<Text>)
    requires Split(text, a) && Split(text, b)
    ensures a == b
  {
    if text != [] {
      assert |a[0]| <= FirstEnd(text) && |b[0]| <= FirstEnd(text);
      assert |a[0]| == |b[0]|;
      assert a[0] == text[..|a[0]|] == b[0];
      SplitIsUnique(text[|a[0]|..], a[1..], b[1..]);
      assert a == [a[0]] + a[1..] && b == [b[0]] + b[1..];
    }
  }

  lemma SplitStep(text: Text, piece: Text, tail: seq<Text>)
    requires LongestPiece(text, piece) && Split(text[|piece|..], tail)
    ensures Split(text, [piece] + tail)
  {
    assert ([piece] + tail)[1..] == tail;
  }

  // What has been split off, followed by a split of the rest, splits the whole.
  ghost predicate SplitSoFar(text: Text, pieces: seq<Text>, rest: Text) {
    forall tail {:trigger Split(rest, tail)} :: Split(rest, tail) ==> Split(text, pieces + tail)
  }

  lemma SplitFurther(text: Text, pieces: seq<Text>, rest: Text, piece: Text)
    requires SplitSoFar(text, pieces, rest) && LongestPiece(rest, piece)
    ensures SplitSoFar(text, pieces + [piece], rest[|piece|..])
  {
    forall tail | Split(rest[|piece|..], tail)
      ensures Split(text, pieces + [piece] + tail)
    {
      SplitStep(rest, piece, tail);
      assert pieces + [piece] + tail == pieces + ([piece] + tail);
    }
  }

  // Stepping back from a full fragment to a boundary never reaches the fragment's start.
  method StepBack(text: Text, offset: nat) returns (end: nat)
    requires offset < |text| && Valid(text[offset..])
    ensures offset < end <= |text| && LongestPiece(text[offset..], text[offset..end]) && Valid(text[end..])
  {
    hide Valid;
    ghost var rest := text[offset..];
    CutAdvances(rest);
    ghost var cut := Cut(rest, FirstEnd(rest));
    end := if offset + CHUNK_BYTES < |text| then offset + CHUNK_BYTES else |text|;
    while end < |text| && Continuation(text[end])
      invariant offset + cut <= end <= offset + FirstEnd(rest)
      invariant forall p :: end < p <= offset + FirstEnd(rest) ==> !Boundary(text, p)
      decreases end
    {
      assert rest[end - offset] == text[end];
      end := end - 1;
    }
    PieceFound(text, offset, end);
  }

  lemma BoundaryShifts(text: Text, offset: nat, p: nat)
    requires offset + p <= |text|
    ensures Boundary(text[offset..], p) <==> Boundary(text, offset + p)
  {
  }

  lemma PieceFound(text: Text, offset: nat, end: nat)
    requires offset < end <= |text| && end <= offset + FirstEnd(text[offset..]) && Valid(text[offset..]) && Boundary(text, end)
    requires forall p :: end < p <= offset + FirstEnd(text[offset..]) ==> p <= |text| && !Boundary(text, p)
    ensures LongestPiece(text[offset..], text[offset..end]) && Valid(text[end..])
  {
    hide Valid, Boundary;
    var rest := text[offset..];
    BoundaryShifts(text, offset, end - offset);
    forall p | end - offset < p <= FirstEnd(rest)
      ensures !Boundary(rest, p)
    {
      BoundaryShifts(text, offset, p);
    }
    assert text[offset..end] == rest[..end - offset];
    CutIffBoundary(rest, end - offset);
    assert rest[end - offset..] == text[end..];
  }

  // The analyzer's loop over one text.
  method SplitText(text: Text) returns (pieces: seq<Text>)
    requires Valid(text)
    ensures Split(text, pieces)
  {
    hide LongestPiece, Split;
    pieces := [];
    var offset := 0;
    assert SplitSoFar(text, pieces, text) by {
      assert forall tail: seq<Text> :: [] + tail == tail;
    }
    assert text[0..] == text;
    while offset < |text|
      invariant offset <= |text| && Valid(text[offset..])
      invariant SplitSoFar(text, pieces, text[offset..])
    {
      var end := StepBack(text, offset);
      SplitFurther(text, pieces, text[offset..], text[offset..end]);
      assert text[offset..][|text[offset..end]|..] == text[end..];
      pieces := pieces + [text[offset..end]];
      offset := end;
    }
    assert text[offset..] == [];
    assert Split([], []) by {
      SplitNothing();
    }
    assert pieces + [] == pieces;
  }

  lemma SplitNothing()
    ensures Split([], [])
  {
  }

  // Analyzer: emitting ------------------------------------------------------------------

  const FIELDS := [Signature, Documentation, SourceText]

  lemma EveryField(f: Field)
    ensures f in FIELDS
  {
    match f
    case Signature => assert FIELDS[0] == f;
    case Documentation => assert FIELDS[1] == f;
    case SourceText => assert FIELDS[2] == f;
  }

  // The members of a set, in the order given.
  function Among(order: seq<Field>, fields: set<Field>): (r: seq<Field>)
    ensures forall f :: f in r <==> f in order && f in fields
  {
    if order == [] then []
    else
      var last := |order| - 1;
      Among(order[..last], fields) + if order[last] in fields then [order[last]] else []
  }

  // The fields of a set, in wire order.
  function InOrder(fields: set<Field>): (r: seq<Field>)
    ensures forall f :: f in r <==> f in fields
  {
    assert forall f :: f in FIELDS by {
      forall f ensures f in FIELDS { EveryField(f); }
    }
    Among(FIELDS, fields)
  }

  function Oversized(texts: map<Field, Text>): (r: set<Field>)
    ensures forall f :: f in r ==> f in texts
  {
    set f | f in texts && |texts[f]| > CHUNK_BYTES
  }

  function DescribeOnly(texts: map<Field, Text>, fields: set<Field>): map<Field, Description> {
    map f | f in fields && f in texts :: Description(|texts[f]|, Sha256(texts[f]))
  }

  // The symbol's own record: oversized fields give way to descriptions.
  function Header(fact: Record): Record
    requires fact.Fact?
  {
    fact.(texts := fact.texts - Oversized(fact.texts), chunks := Described(DescribeOnly(fact.texts, Oversized(fact.texts))))
  }

  // What the analyzer hands to the writer: a symbol with a key and well-formed texts.
  ghost predicate EmittableSymbol(fact: Record) {
    && fact.Fact? && fact.kind == SymbolKind && fact.chunks == Absent
    && fact.symbolKey.Some? && fact.symbolKey.value != ""
    && forall f :: f in fact.texts ==> Valid(fact.texts[f])
  }

  // Fragment records of one field, numbered from `index`.
  ghost predicate Fragments(key: string, field: Field, index: nat, pieces: seq<Text>, records: seq<Record>) {
    && |records| == |pieces|
    && forall i :: 0 <= i < |records| ==> records[i] == Chunk(key, field, index + i, pieces[i], true)
  }

  ghost predicate FieldFragments(key: string, field: Field, text: Text, records: seq<Record>) {
    exists pieces :: Split(text, pieces) && Fragments(key, field, 0, pieces, records)
  }

  // Fragment records of several fields, one field after the other.
  ghost predicate AllFragments(key: string, fields: seq<Field>, texts: map<Field, Text>, records: seq<Record>)
    requires forall f :: f in fields ==> f in texts
  {
    if fields == [] then records == []
    else exists k | 0 <= k <= |records| ::
      FieldFragments(key, fields[0], texts[fields[0]], records[..k]) && AllFragments(key, fields[1..], texts, records[k..])
  }

  // The records of one symbol on the wire.
  ghost predicate Emission(fact: Record, records: seq<Record>)
    requires fact.Fact?
  {
    if Oversized(fact.texts) == {} then records == [fact]
    else
      && fact.symbolKey.Some? && records != [] && records[0] == Header(fact)
      && AllFragments(fact.symbolKey.value, InOrder(Oversized(fact.texts)), fact.texts, records[1..])
  }

  // What the first record of a symbol says: the texts of at most 65536 bytes themselves, and of every
  // longer one its size and its digest.
  lemma EmissionMeaning(fact: Record, records: seq<Record>)
    requires EmittableSymbol(fact) && Emission(fact, records)
    ensures records != [] && records[0].Fact? && records[0].symbolKey == fact.symbolKey && records[0].others == fact.others
    ensures var head := records[0];
            && (forall f :: f in head.texts <==> f in fact.texts && |fact.texts[f]| <= 65536)
            && (forall f :: f in head.texts ==> head.texts[f] == fact.texts[f])
            && (head.chunks.Described? <==> exists f :: f in fact.texts && |fact.texts[f]| > 65536)
            && (!head.chunks.Described? ==> head.chunks.Absent? && |records| == 1)
            && (head.chunks.Described? ==>
                  && (forall f :: f in head.chunks.fields <==> f in fact.texts && |fact.texts[f]| > 65536)
                  && forall f :: f in head.chunks.fields ==>
                       head.chunks.fields[f] == Description(|fact.texts[f]|, Sha256(fact.texts[f])))
  {
    hide AllFragments, Valid;
    if f :| f in fact.texts && |fact.texts[f]| > 65536 {
      assert f in Oversized(fact.texts);
    }
    if Oversized(fact.texts) != {} {
      var f :| f in Oversized(fact.texts);
    }
  }

  lemma {:induction false} FragmentsAppend(key: string, fields: seq<Field>, texts: map<Field, Text>, records: seq<Record>,
                                           field: Field, more: seq<Record>)
    requires (forall f :: f in fields ==> f in texts) && field in texts
    requires AllFragments(key, fields, texts, records) && FieldFragments(key, field, texts[field], more)
    ensures AllFragments(key, fields + [field], texts, records + more)
  {
    hide FieldFragments;
    if fields == [] {
      assert records + more == more && more[..|more|] == more;
      assert AllFragments(key, [], texts, more[|more|..]);
    } else {
      var k :| 0 <= k <= |records| && FieldFragments(key, fields[0], texts[fields[0]], records[..k])
               && AllFragments(key, fields[1..], texts, records[k..]);
      FragmentsAppend(key, fields[1..], texts, records[k..], field, more);
      assert (fields + [field])[1..] == fields[1..] + [field];
      assert (records + more)[..k] == records[..k];
      assert (records + more)[k..] == records[k..] + more;
    }
  }

  // Fragment records of one text.
  method EmitFragments(key: string, field: Field, text: Text) returns (records: seq<Record>)
    requires Valid(text)
    ensures FieldFragments(key, field, text, records)
  {
    hide Split;
    var pieces := SplitText(text);
    records := [];
    for index := 0 to |pieces|
      invariant Fragments(key, field, 0, pieces[..index], records)
    {
      records := records + [Chunk(key, field, index, pieces[index], true)];
    }
    assert pieces[..|pieces|] == pieces;
  }

  lemma DescribeOneMore(texts: map<Field, Text>, fields: set<Field>, f: Field)
    requires fields <= texts.Keys && f in texts
    ensures DescribeOnly(texts, fields + {f}) == DescribeOnly(texts, fields)[f := Description(|texts[f]|, Sha256(texts[f]))]
  {
  }

  lemma AmongOneMore(order: seq<Field>, fields: set<Field>, f: Field)
    ensures Among(order + [f], fields) == Among(order, fields) + if f in fields then [f] else []
  {
    assert (order + [f])[..|order|] == order;
  }

  lemma NothingTaken(texts: map<Field, Text>)
    ensures Among(FIELDS[..0], Oversized(texts)) == [] && DescribeOnly(texts, {}) == map[]
  {
  }

  // Takes the oversized fields out of a symbol and describes them.
  method Separate(texts: map<Field, Text>)
    returns (kept: map<Field, Text>, descriptions: map<Field, Description>, fields: seq<Field>)
    ensures kept == texts - Oversized(texts) && descriptions == DescribeOnly(texts, Oversized(texts))
    ensures fields == InOrder(Oversized(texts))
  {
    hide Among, DescribeOnly;
    descriptions, kept, fields := map[], texts, [];
    ghost var taken: set<Field> := {};
    NothingTaken(texts);
    for i := 0 to |FIELDS|
      invariant kept == texts - taken && taken <= texts.Keys
      invariant descriptions == DescribeOnly(texts, taken)
      invariant fields == Among(FIELDS[..i], Oversized(texts))
      invariant forall f :: f in taken <==> f in FIELDS[..i] && f in Oversized(texts)
    {
      var field := FIELDS[i];
      assert FIELDS[..i + 1] == FIELDS[..i] + [field];
      AmongOneMore(FIELDS[..i], Oversized(texts), field);
      if field in texts && |texts[field]| > CHUNK_BYTES {
        DescribeOneMore(texts, taken, field);
        descriptions := descriptions[field := Description(|texts[field]|, Sha256(texts[field]))];
        kept := kept - {field};
        fields := fields + [field];
        taken := taken + {field};
      }
    }
    assert FIELDS[..|FIELDS|] == FIELDS;
    forall f
      ensures f in FIELDS
    {
      EveryField(f);
    }
    assert taken == Oversized(texts);
  }

  // One symbol: its record first, then the fragments of each oversized field.
  method EmitSymbolText(fact: Record) returns (records: seq<Record>)
    requires EmittableSymbol(fact)
    ensures Emission(fact, records)
  {
    hide FieldFragments, Valid, AllFragments, Oversized, DescribeOnly;
    var kept, descriptions, fields := Separate(fact.texts);
    if fields == [] {
      assert Oversized(fact.texts) == {};
      return [fact];
    }
    assert fields[0] in Oversized(fact.texts);
    var fragments := EmitFields(fact, fields);
    records := [fact.(texts := kept, chunks := Described(descriptions))] + fragments;
    assert records[1..] == fragments;
  }

  // Fragments of every oversized field, field by field.
  method EmitFields(fact: Record, fields: seq<Field>) returns (fragments: seq<Record>)
    requires EmittableSymbol(fact) && forall f :: f in fields ==> f in fact.texts
    ensures AllFragments(fact.symbolKey.value, fields, fact.texts, fragments)
  {
    hide FieldFragments, Valid;
    var key := fact.symbolKey.value;
    fragments := [];
    for i := 0 to |fields|
      invariant forall f :: f in fields[..i] ==> f in fact.texts
      invariant AllFragments(key, fields[..i], fact.texts, fragments)
    {
      assert fields[i] in fields;
      var more := EmitFragments(key, fields[i], fact.texts[fields[i]]);
      FragmentsAppend(key, fields[..i], fact.texts, fragments, fields[i], more);
      assert fields[..i] + [fields[i]] == fields[..i + 1];
      fragments := fragments + more;
    }
    assert fields[..|fields|] == fields;
  }
}
