// An order of fact identities as digests give one: an injective rank exists, so what is
// proved of programs with such a rank is about programs there are.
module FactRank {
  import opened Options
  import opened Summaries
  import opened Transfer

  // Pairs and lists of numbers as numbers: (x, y) is 2^x (2y + 1).
  function Pair(x: nat, y: nat): (r: nat)
    ensures r > 0
  {
    if x == 0 then 2 * y + 1 else 2 * Pair(x - 1, y)
  }

  lemma {:induction false} PairInjective(x: nat, y: nat, x': nat, y': nat)
    requires Pair(x, y) == Pair(x', y')
    ensures x == x' && y == y'
  {
    if x > 0 && x' > 0 {
      PairInjective(x - 1, y, x' - 1, y');
    }
  }

  function List(s: seq<nat>): nat {
    if s == [] then 0 else Pair(s[0], List(s[1..]))
  }

  lemma {:induction false} ListInjective(s: seq<nat>, t: seq<nat>)
    requires List(s) == List(t)
    ensures s == t
  {
    if s != [] && t != [] {
      PairInjective(s[0], List(s[1..]), t[0], List(t[1..]));
      ListInjective(s[1..], t[1..]);
      assert s == [s[0]] + s[1..] && t == [t[0]] + t[1..];
    }
  }

  function Optional(o: Option<nat>): nat {
    match o
    case None => 0
    case Some(v) => v + 1
  }

  function EffectKindNumber(k: EffectKind): nat {
    match k
    case Read => 0
    case Write => 1
    case Escape => 2
  }

  function StorageNumber(k: LocationKind): nat {
    match k
    case LocalStorage => 0
    case ParameterStorage => 1
    case GlobalStorage => 2
    case ReturnSlot => 3
    case DereferenceStorage => 4
    case FieldStorage => 5
    case UnknownStorage => 6
  }

  function OptionalStorage(o: Option<LocationKind>): nat {
    match o
    case None => 0
    case Some(k) => StorageNumber(k) + 1
  }

  function Fields(i: FactId): seq<nat> {
    match i
    case LocalFact(number) => [0, number]
    case PropagatedEffect(caller, kind, locationKind, parameter, path, site, target, access) =>
      [1, caller, EffectKindNumber(kind), StorageNumber(locationKind), Optional(parameter), List(path), site, target, Optional(access)]
    case PropagatedOrigin(caller, site, target, originLocation, parameter, path, location) =>
      [2, caller, site, target, OptionalStorage(originLocation), Optional(parameter), List(path), Optional(location)]
  }

  lemma StorageInjective(a: Option<LocationKind>, b: Option<LocationKind>)
    requires OptionalStorage(a) == OptionalStorage(b)
    ensures a == b
  {
  }

  lemma FieldsInjective(a: FactId, b: FactId)
    requires Fields(a) == Fields(b)
    ensures a == b
  {
    hide List;
    var f, g := Fields(a), Fields(b);
    assert f[0] == g[0] && f[1] == g[1];
    if a.PropagatedEffect? {
      assert f[2] == g[2] && f[3] == g[3] && f[4] == g[4] && f[5] == g[5] && f[6] == g[6] && f[7] == g[7] && f[8] == g[8];
      StorageInjective(Some(a.locationKind), Some(b.locationKind));
      ListInjective(a.path, b.path);
    } else if a.PropagatedOrigin? {
      assert f[2] == g[2] && f[3] == g[3] && f[4] == g[4] && f[5] == g[5] && f[6] == g[6] && f[7] == g[7];
      StorageInjective(a.originLocation, b.originLocation);
      ListInjective(a.path, b.path);
    }
  }

  function Rank(i: FactId): nat {
    List(Fields(i))
  }

  lemma RankIsInjective()
    ensures Injective(Rank)
  {
    hide Fields, List;
    forall a: FactId, b: FactId | Rank(a) == Rank(b)
      ensures a == b
    {
      ListInjective(Fields(a), Fields(b));
      FieldsInjective(a, b);
    }
  }
}
