// Well-formed UTF-8 as the grammar of RFC 3629, section 4, gives it, and where it may be cut.
module Utf8 {

  type Byte = b: int | 0 <= b < 0x100

  type Text = seq<Byte>

  // Bytes 10xxxxxx: the ones a mask of 0xc0 sends to 0x80.
  predicate Continuation(b: Byte) {
    b / 0x40 == 2
  }

  // Length of the character at the front of s, or 0 when s does not start with one.
  function Lead(s: Text): (n: nat)
    ensures n <= |s| && n <= 4
  {
    if s == [] then 0
    else if s[0] <= 0x7F then 1
    else if |s| < 2 || !Continuation(s[1]) then 0
    else if 0xC2 <= s[0] <= 0xDF then 2
    else if |s| < 3 || !Continuation(s[2]) then 0
    else if (s[0] == 0xE0 && 0xA0 <= s[1]) || 0xE1 <= s[0] <= 0xEC || (s[0] == 0xED && s[1] <= 0x9F)
            || 0xEE <= s[0] <= 0xEF then 3
    else if |s| < 4 || !Continuation(s[3]) then 0
    else if (s[0] == 0xF0 && 0x90 <= s[1]) || 0xF1 <= s[0] <= 0xF3 || (s[0] == 0xF4 && s[1] <= 0x8F) then 4
    else 0
  }

  // A sequence of whole characters.
  predicate Valid(s: Text) {
    s == [] || (Lead(s) > 0 && Valid(s[Lead(s)..]))
  }

  // No character straddles position p.
  predicate Boundary(s: Text, p: nat)
    requires p <= |s|
  {
    p == |s| || !Continuation(s[p])
  }

  lemma LeadBytes(s: Text)
    requires Lead(s) > 0
    ensures !Continuation(s[0])
    ensures forall i :: 0 < i < Lead(s) ==> Continuation(s[i])
    ensures forall n :: Lead(s) <= n <= |s| ==> Lead(s[..n]) == Lead(s)
  {
  }

  // In well-formed text the boundaries are exactly the places where both halves are well formed.
  lemma {:induction false} CutIffBoundary(s: Text, p: nat)
    requires Valid(s) && p <= |s|
    ensures Boundary(s, p) <==> Valid(s[..p]) && Valid(s[p..])
  {
    if p == 0 {
      assert s[..0] == [] && s[0..] == s;
      if s != [] {
        LeadBytes(s);
      }
    } else if p < Lead(s) {
      LeadBytes(s);
      assert Continuation(s[p]);
      if Valid(s[p..]) {
        LeadBytes(s[p..]);
      }
    } else {
      var n := Lead(s);
      LeadBytes(s);
      var rest := s[n..];
      CutIffBoundary(rest, p - n);
      assert s[p..] == rest[p - n..];
      assert s[..p][n..] == rest[..p - n];
      assert p < |s| ==> s[p] == rest[p - n];
      assert Lead(s[..p]) == n;
    }
  }

  // A character has at most four bytes, so a boundary is never more than three bytes back.
  lemma {:induction false} BoundaryNearby(s: Text, p: nat)
    requires Valid(s) && p <= |s|
    ensures exists q :: 0 <= q <= p && p - q <= 3 && Boundary(s, q)
    ensures s != [] ==> Boundary(s, 0)
  {
    if s != [] {
      LeadBytes(s);
      var n := Lead(s);
      if p < n {
        assert Boundary(s, 0);
      } else {
        var rest := s[n..];
        BoundaryNearby(rest, p - n);
        var q :| 0 <= q <= p - n && p - n - q <= 3 && Boundary(rest, q);
        assert q < |rest| ==> rest[q] == s[n + q];
        assert Boundary(s, n + q);
      }
    } else {
      assert Boundary(s, 0);
    }
  }

  // Characters ----------------------------------------------------------------------------

  // The numbers of characters: up to U+10FFFF, the surrogates excepted.
  predicate Scalar(c: nat) {
    c < 0xD800 || 0xE000 <= c <= 0x10FFFF
  }

  // One character, as section 3 of RFC 3629 lays it out: the shortest form that holds its bits.
  function Encode(c: nat): Text
    requires Scalar(c)
  {
    if c < 0x80 then [c]
    else if c < 0x800 then [0xC0 + c / 0x40, 0x80 + c % 0x40]
    else if c < 0x10000 then [0xE0 + c / 0x1000, 0x80 + c / 0x40 % 0x40, 0x80 + c % 0x40]
    else [0xF0 + c / 0x40000, 0x80 + c / 0x1000 % 0x40, 0x80 + c / 0x40 % 0x40, 0x80 + c % 0x40]
  }

  predicate Scalars(cs: seq<nat>) {
    forall i :: 0 <= i < |cs| ==> Scalar(cs[i])
  }

  function EncodeAll(cs: seq<nat>): Text
    requires Scalars(cs)
  {
    if cs == [] then [] else Encode(cs[0]) + EncodeAll(cs[1..])
  }

  // The number whose encoding follows from a higher part and six further bits.
  function Append(high: nat, b: int): int {
    high * 0x40 + (b - 0x80)
  }

  lemma Parts(high: nat, b: int)
    requires 0x80 <= b < 0xC0
    ensures Append(high, b) >= 0 && Append(high, b) / 0x40 == high && Append(high, b) % 0x40 == b - 0x80
  {
  }

  lemma ByThousands(c: nat)
    ensures c / 0x1000 == c / 0x40 / 0x40 && c / 0x40000 == c / 0x40 / 0x40 / 0x40
  {
  }

  lemma TwoBytes(a: int, b: int)
    requires 0xC2 <= a <= 0xDF && 0x80 <= b < 0xC0
    ensures var c := Append(a - 0xC0, b); 0x80 <= c < 0x800 && Encode(c) == [a, b]
  {
    Parts(a - 0xC0, b);
  }

  lemma ThreeBytes(a: int, b: int, d: int)
    requires 0xE0 <= a <= 0xEF && 0x80 <= b < 0xC0 && 0x80 <= d < 0xC0
    requires (a == 0xE0 ==> 0xA0 <= b) && (a == 0xED ==> b <= 0x9F)
    ensures var high := Append(a - 0xE0, b);
            high >= 0 && var c := Append(high, d); 0x800 <= c < 0x10000 && Scalar(c) && Encode(c) == [a, b, d]
  {
    Parts(a - 0xE0, b);
    var high := Append(a - 0xE0, b);
    Parts(high, d);
    ByThousands(Append(high, d));
  }

  lemma FourBytes(a: int, b: int, d: int, e: int)
    requires 0xF0 <= a <= 0xF4 && 0x80 <= b < 0xC0 && 0x80 <= d < 0xC0 && 0x80 <= e < 0xC0
    requires (a == 0xF0 ==> 0x90 <= b) && (a == 0xF4 ==> b <= 0x8F)
    ensures var high := Append(a - 0xF0, b);
            high >= 0 && var middle := Append(high, d);
            middle >= 0 && var c := Append(middle, e); 0x10000 <= c <= 0x10FFFF && Encode(c) == [a, b, d, e]
  {
    Parts(a - 0xF0, b);
    var high := Append(a - 0xF0, b);
    Parts(high, d);
    var middle := Append(high, d);
    Parts(middle, e);
    ByThousands(Append(middle, e));
  }

  // A character at the front is the encoding of a number.
  lemma LeadSpells(s: Text) returns (c: nat)
    requires Lead(s) > 0
    ensures Scalar(c) && Encode(c) == s[..Lead(s)]
  {
    hide Append;
    var n := Lead(s);
    if n == 1 {
      c := s[0];
    } else if n == 2 {
      TwoBytes(s[0], s[1]);
      c := Append(s[0] as int - 0xC0, s[1]);
    } else if n == 3 {
      ThreeBytes(s[0], s[1], s[2]);
      c := Append(Append(s[0] as int - 0xE0, s[1]), s[2]);
    } else {
      FourBytes(s[0], s[1], s[2], s[3]);
      c := Append(Append(Append(s[0] as int - 0xF0, s[1]), s[2]), s[3]);
    }
  }

  // And the encoding of a number at the front is a character.
  lemma SpelledLead(c: nat, rest: Text)
    requires Scalar(c)
    ensures Lead(Encode(c) + rest) == |Encode(c)| > 0
  {
    ByThousands(c);
    assert c % 0x40 < 0x40 && c / 0x40 % 0x40 < 0x40;
  }

  lemma {:induction false} ValidIsEncoded(s: Text) returns (cs: seq<nat>)
    requires Valid(s)
    ensures Scalars(cs) && EncodeAll(cs) == s
    decreases |s|
  {
    hide Encode, Lead, Scalar;
    if s == [] {
      cs := [];
    } else {
      var c := LeadSpells(s);
      var more := ValidIsEncoded(s[Lead(s)..]);
      cs := [c] + more;
      assert cs[1..] == more;
      assert s == s[..Lead(s)] + s[Lead(s)..];
    }
  }

  lemma {:induction false} EncodedIsValid(cs: seq<nat>)
    requires Scalars(cs)
    ensures Valid(EncodeAll(cs))
    decreases |cs|
  {
    hide Encode, Lead, Scalar;
    if cs != [] {
      var rest := EncodeAll(cs[1..]);
      SpelledLead(cs[0], rest);
      EncodedIsValid(cs[1..]);
      var s := Encode(cs[0]) + rest;
      assert EncodeAll(cs) == s && s[Lead(s)..] == rest;
    }
  }

  // Well-formed text is what characters encode to, one after the other.
  lemma ValidIffCharacters(s: Text)
    ensures Valid(s) <==> exists cs :: Scalars(cs) && EncodeAll(cs) == s
  {
    hide Valid, Scalars, EncodeAll;
    if Valid(s) {
      var cs := ValidIsEncoded(s);
    }
    if cs :| Scalars(cs) && EncodeAll(cs) == s {
      EncodedIsValid(cs);
    }
  }
}
