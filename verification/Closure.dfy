// The bounded nearest-first closure of translation units that deep materialization
// loads for a symbol.
module Closure {

  // A call-graph node: a function body in one unit of one build variant.
  datatype Node = Node(variant: nat, unit: nat, symbol: nat)

  datatype UnitKey = UnitKey(variant: nat, unit: nat)

  datatype Unit = Unit(distance: nat, variant: nat, configuration: nat, unit: nat) {
    function Key(): UnitKey { UnitKey(variant, unit) }
  }

  // A callee row of the store: the callee symbol and the unit that defines it.
  datatype Row = Row(symbol: nat, unit: nat, configuration: nat)

  type Store = map<Node, seq<Row>>

  // A worklist entry: a unit and the symbol to expand there.
  datatype Item = Item(unit: Unit, symbol: nat) {
    function At(): Node { Node(unit.variant, unit.unit, symbol) }
  }

  function RowItem(from: Item, r: Row): Item {
    Item(Unit(from.unit.distance + 1, from.unit.variant, r.configuration, r.unit), r.symbol)
  }

  // Callees of an entry: same build variant, one step farther.
  function Callees(store: Store, from: Item): seq<Item> {
    if from.At() !in store then []
    else seq(|store[from.At()]|, i requires 0 <= i < |store[from.At()]| => RowItem(from, store[from.At()][i]))
  }

  // Order -------------------------------------------------------------------------

  predicate UnitBefore(a: Unit, b: Unit) {
    || a.distance < b.distance
    || (a.distance == b.distance && (a.variant < b.variant || (a.variant == b.variant && a.unit <= b.unit)))
  }

  predicate ItemBefore(a: Item, b: Item) {
    || a.unit.distance < b.unit.distance
    || (a.unit.distance == b.unit.distance
        && (a.unit.variant < b.unit.variant
            || (a.unit.variant == b.unit.variant
                && (a.unit.unit < b.unit.unit || (a.unit.unit == b.unit.unit && a.symbol <= b.symbol)))))
  }

  // Roots are first listed by configuration as well.
  predicate RootBefore(a: Unit, b: Unit) {
    || a.distance < b.distance
    || (a.distance == b.distance
        && (a.variant < b.variant
            || (a.variant == b.variant
                && (a.configuration < b.configuration || (a.configuration == b.configuration && a.unit <= b.unit)))))
  }

  function Insert(before: (Unit, Unit) -> bool, u: Unit, s: seq<Unit>): seq<Unit> {
    if s == [] || before(u, s[0]) then [u] + s else [s[0]] + Insert(before, u, s[1..])
  }

  function Sort(before: (Unit, Unit) -> bool, s: seq<Unit>): seq<Unit> {
    if s == [] then [] else Insert(before, s[0], Sort(before, s[1..]))
  }

  ghost predicate SortedBy(before: (Unit, Unit) -> bool, s: seq<Unit>) {
    forall i, j :: 0 <= i < j < |s| ==> before(s[i], s[j])
  }

  ghost predicate Orders(before: (Unit, Unit) -> bool) {
    && (forall a, b :: before(a, b) || before(b, a))
    && (forall a, b, c :: before(a, b) && before(b, c) ==> before(a, c))
  }

  lemma {:induction false} InsertSorts(before: (Unit, Unit) -> bool, u: Unit, s: seq<Unit>)
    requires Orders(before) && SortedBy(before, s)
    ensures SortedBy(before, Insert(before, u, s)) && multiset(Insert(before, u, s)) == multiset(s) + multiset{u}
  {
    if s == [] || before(u, s[0]) {
    } else {
      InsertSorts(before, u, s[1..]);
      var rest := Insert(before, u, s[1..]);
      assert s == [s[0]] + s[1..];
      forall j | 0 <= j < |rest|
        ensures before(s[0], rest[j])
      {
        assert rest[j] in multiset(rest);
        assert rest[j] == u || rest[j] in s[1..];
      }
    }
  }

  lemma {:induction false} SortSorts(before: (Unit, Unit) -> bool, s: seq<Unit>)
    requires Orders(before)
    ensures SortedBy(before, Sort(before, s)) && multiset(Sort(before, s)) == multiset(s)
  {
    if s != [] {
      SortSorts(before, s[1..]);
      InsertSorts(before, s[0], Sort(before, s[1..]));
      assert s == [s[0]] + s[1..];
    }
  }

  // Sorting a dictionary's values keeps them distinct.
  lemma SortKeeps(before: (Unit, Unit) -> bool, s: seq<Unit>)
    requires Orders(before) && Distinct(s)
    ensures Distinct(Sort(before, s)) && |Sort(before, s)| == |s|
    ensures forall u :: u in Sort(before, s) <==> u in s
  {
    SortSorts(before, s);
    var t := Sort(before, s);
    assert |multiset(t)| == |t| && |multiset(s)| == |s|;
    forall u
      ensures u in t <==> u in s
    {
      assert u in multiset(t) <==> u in multiset(s);
    }
    DistinctByCount(s, t);
  }

  lemma DistinctByCount(s: seq<Unit>, t: seq<Unit>)
    requires Distinct(s) && multiset(s) == multiset(t)
    ensures Distinct(t)
  {
    forall i, j | 0 <= i < j < |t|
      ensures t[i].Key() != t[j].Key()
    {
      if t[i] == t[j] {
        assert t == t[..i] + [t[i]] + t[i + 1..j] + [t[j]] + t[j + 1..];
        assert multiset(t)[t[i]] >= 2;
        OnceEach(s, t[i]);
      }
      assert t[i] in multiset(s) && t[j] in multiset(s);
    }
  }

  lemma {:induction false} OnceEach(s: seq<Unit>, u: Unit)
    requires Distinct(s)
    ensures multiset(s)[u] <= 1
  {
    if s != [] {
      OnceEach(s[1..], u);
      assert s == [s[0]] + s[1..];
      if s[0] == u {
        assert u !in s[1..];
      }
    }
  }

  // Removes the first least entry, as sorting and popping the front does.
  method PopNearest(pending: seq<Item>) returns (item: Item, rest: seq<Item>)
    requires pending != []
    ensures forall i :: i in pending <==> i == item || i in rest
    ensures |rest| == |pending| - 1
    ensures forall i :: i in pending ==> ItemBefore(item, i)
    ensures forall i :: i in pending && i.unit.distance == item.unit.distance && i.unit.Key() == item.unit.Key() ==>
                          item.symbol <= i.symbol
  {
    var best := 0;
    for k := 1 to |pending|
      invariant best < |pending|
      invariant forall j :: 0 <= j < k ==> ItemBefore(pending[best], pending[j])
    {
      if !ItemBefore(pending[best], pending[k]) {
        best := k;
      }
    }
    item, rest := pending[best], pending[..best] + pending[best + 1..];
    assert pending == pending[..best] + [item] + pending[best + 1..];
  }

  // Reference: what is reachable, and how far ----------------------------------------

  // One call, spelled out: a callee row of the node says where it leads, in the same build variant
  // and one step farther.
  ghost predicate Step(store: Store, from: Item, to: Item) {
    var node := Node(from.unit.variant, from.unit.unit, from.symbol);
    && node in store
    && exists i :: && 0 <= i < |store[node]| && to.symbol == store[node][i].symbol
                   && to.unit == Unit(from.unit.distance + 1, from.unit.variant, store[node][i].configuration, store[node][i].unit)
  }

  lemma CalleesAreSteps(store: Store, from: Item)
    ensures forall c :: c in Callees(store, from) <==> Step(store, from, c)
  {
    forall c | Step(store, from, c)
      ensures c in Callees(store, from)
    {
      var rows := store[from.At()];
      var i :| 0 <= i < |rows| && c == RowItem(from, rows[i]);
      assert Callees(store, from)[i] == c;
    }
  }

  // The entry arises after n steps from a root.
  ghost predicate Arrives(store: Store, roots: seq<Unit>, symbol: nat, item: Item, n: nat)
    decreases n
  {
    if n == 0 then item.unit in roots && item.symbol == symbol
    else exists from :: Arrives(store, roots, symbol, from, n - 1) && Step(store, from, item)
  }

  ghost predicate Reached(store: Store, roots: seq<Unit>, symbol: nat, item: Item) {
    exists n: nat :: Arrives(store, roots, symbol, item, n)
  }

  // Some entry of the unit arises at this distance.
  ghost predicate UnitReached(store: Store, roots: seq<Unit>, symbol: nat, key: UnitKey, distance: nat) {
    exists item :: Reached(store, roots, symbol, item) && item.unit.Key() == key && item.unit.distance == distance
  }

  // Some entry is of this very unit, at this distance and in this configuration.
  ghost predicate Met(store: Store, roots: seq<Unit>, symbol: nat, u: Unit) {
    exists item :: Reached(store, roots, symbol, item) && item.unit == u
  }

  ghost predicate Distinct(units: seq<Unit>) {
    forall i, j :: 0 <= i < j < |units| ==> units[i].Key() != units[j].Key()
  }

  predicate Knows(units: seq<Unit>, key: UnitKey) {
    exists u :: u in units && u.Key() == key
  }

  // What the store supplies as roots: one row per unit, all at one distance.
  ghost predicate Roots(roots: seq<Unit>, base: nat) {
    Distinct(roots) && forall r :: r in roots ==> r.distance == base
  }

  // The search ------------------------------------------------------------------------

  // An entry already dealt with: its node was expanded at no greater distance.
  ghost predicate Handled(dist: map<Node, nat>, item: Item) {
    item.At() in dist && dist[item.At()] <= item.unit.distance
  }

  // Pending or dealt with.
  ghost predicate Covered(dist: map<Node, nat>, pending: seq<Item>, item: Item) {
    item in pending || Handled(dist, item)
  }

  // Callees of every expanded node, at the distance it was expanded from.
  ghost predicate Expanded(store: Store, dist: map<Node, nat>, pending: seq<Item>) {
    forall from: Item, c: Item ::
      from.At() in dist && dist[from.At()] == from.unit.distance && c in Callees(store, from) ==> Covered(dist, pending, c)
  }

  ghost predicate KnownOk(store: Store, roots: seq<Unit>, symbol: nat, known: seq<Unit>, frontier: nat) {
    && Distinct(known)
    && (forall u :: u in known ==> u.distance <= frontier && Met(store, roots, symbol, u))
    && (forall r :: r in roots ==> Knows(known, r.Key()))
    && Nearest(store, roots, symbol, known)
  }

  ghost predicate Search(store: Store, roots: seq<Unit>, symbol: nat,
                         known: seq<Unit>, dist: map<Node, nat>, pending: seq<Item>, frontier: nat)
  {
    && KnownOk(store, roots, symbol, known, frontier)
    && (forall x :: x in dist ==> Knows(known, UnitKey(x.variant, x.unit)) && dist[x] <= frontier)
    && (forall i :: i in pending ==> Reached(store, roots, symbol, i) && frontier <= i.unit.distance)
    && (forall r :: r in roots ==> Covered(dist, pending, Item(r, symbol)))
    && Expanded(store, dist, pending)
    && PoppedInOrder(roots, known, pending)
  }

  // Known units that are not roots came before all that is pending.
  ghost predicate PoppedInOrder(roots: seq<Unit>, known: seq<Unit>, pending: seq<Item>) {
    forall u, i :: u in known && i in pending ==> u in roots || UnitBefore(u, i.unit)
  }

  // A known unit's distance is the least at which it is reachable.
  ghost predicate Nearest(store: Store, roots: seq<Unit>, symbol: nat, known: seq<Unit>) {
    forall u, d: nat :: u in known && UnitReached(store, roots, symbol, u.Key(), d) ==> u.distance <= d
  }

  // Every entry that precedes all pending ones has been dealt with.
  lemma {:induction false} EarlierHandled(store: Store, roots: seq<Unit>, symbol: nat, known: seq<Unit>,
                                          dist: map<Node, nat>, pending: seq<Item>, frontier: nat, item: Item, n: nat)
    requires Search(store, roots, symbol, known, dist, pending, frontier)
    requires Arrives(store, roots, symbol, item, n)
    requires forall i :: i in pending ==> !ItemBefore(i, item)
    ensures Handled(dist, item)
    decreases n
  {
    hide Reached, UnitReached, Distinct, Knows, Nearest, Step, Met;
    if n > 0 {
      var from :| Arrives(store, roots, symbol, from, n - 1) && Step(store, from, item);
      CalleesAreSteps(store, from);
      CalleeShape(store, from, item);
      EarlierHandled(store, roots, symbol, known, dist, pending, frontier, from, n - 1);
      var nearer := Item(from.unit.(distance := dist[from.At()]), from.symbol);
      var c := SameRow(store, from, nearer, item);
      assert Covered(dist, pending, c);
      SameNode(c, item);
    }
  }

  lemma SameNode(a: Item, b: Item)
    requires a.At() == b.At() && a.unit.distance <= b.unit.distance
    ensures ItemBefore(a, b)
  {
  }

  lemma CalleeShape(store: Store, from: Item, c: Item)
    requires c in Callees(store, from)
    ensures c.unit.distance == from.unit.distance + 1 && c.unit.variant == from.unit.variant
  {
  }

  // The same callee seen from the same node at another distance.
  lemma SameRow(store: Store, from: Item, other: Item, c: Item) returns (c': Item)
    requires c in Callees(store, from) && other.At() == from.At()
    ensures c' in Callees(store, other) && c'.At() == c.At() && c'.unit.distance == other.unit.distance + 1
  {
    var i :| 0 <= i < |store[from.At()]| && Callees(store, from)[i] == c;
    c' := RowItem(other, store[from.At()][i]);
    assert Callees(store, other)[i] == c';
  }

  lemma {:induction false} DistanceFromBase(store: Store, roots: seq<Unit>, symbol: nat, base: nat, item: Item, n: nat)
    requires Roots(roots, base) && Arrives(store, roots, symbol, item, n)
    ensures item.unit.distance == base + n
    decreases n
  {
    if n > 0 {
      var from :| Arrives(store, roots, symbol, from, n - 1) && Step(store, from, item);
      CalleesAreSteps(store, from);
      DistanceFromBase(store, roots, symbol, base, from, n - 1);
      CalleeShape(store, from, item);
    }
  }

  // `ordered` lists exactly the roots.
  ghost predicate Lists(ordered: seq<Unit>, roots: seq<Unit>) {
    Distinct(ordered) && |ordered| == |roots| && forall u :: u in ordered <==> u in roots
  }

  lemma RootReached(store: Store, roots: seq<Unit>, symbol: nat, r: Unit)
    requires r in roots
    ensures Reached(store, roots, symbol, Item(r, symbol))
    ensures Met(store, roots, symbol, r) && UnitReached(store, roots, symbol, r.Key(), r.distance)
  {
    assert Arrives(store, roots, symbol, Item(r, symbol), 0);
    assert Reached(store, roots, symbol, Item(r, symbol));
  }

  lemma NothingNearerThanBase(store: Store, roots: seq<Unit>, symbol: nat, base: nat, key: UnitKey, d: nat)
    requires Roots(roots, base) && UnitReached(store, roots, symbol, key, d)
    ensures base <= d
  {
    var item :| Reached(store, roots, symbol, item) && item.unit.Key() == key && item.unit.distance == d;
    var n: nat :| Arrives(store, roots, symbol, item, n);
    DistanceFromBase(store, roots, symbol, base, item, n);
  }

  lemma RootsKnown(store: Store, roots: seq<Unit>, symbol: nat, base: nat, ordered: seq<Unit>)
    requires Roots(roots, base) && Lists(ordered, roots)
    ensures KnownOk(store, roots, symbol, ordered, base)
    ensures forall k: UnitKey, d: nat :: UnitReached(store, roots, symbol, k, d) ==> base <= d
  {
    hide UnitReached, Met;
    forall k: UnitKey, d: nat | UnitReached(store, roots, symbol, k, d)
      ensures base <= d
    {
      NothingNearerThanBase(store, roots, symbol, base, k, d);
    }
    forall r | r in roots
      ensures Met(store, roots, symbol, r) && Knows(ordered, r.Key())
    {
      RootReached(store, roots, symbol, r);
      assert r in ordered;
    }
  }

  lemma BeginSearch(store: Store, roots: seq<Unit>, symbol: nat, base: nat, ordered: seq<Unit>, pending: seq<Item>)
    requires Roots(roots, base) && Lists(ordered, roots)
    requires |pending| == |ordered| && forall i :: 0 <= i < |pending| ==> pending[i] == Item(ordered[i], symbol)
    ensures Search(store, roots, symbol, ordered, map[], pending, base)
    ensures forall i :: i in pending ==> i.At() in Universe(store, roots, symbol)
  {
    hide KnownOk, Distinct, Reached;
    RootsKnown(store, roots, symbol, base, ordered);
    forall i | i in pending
      ensures Reached(store, roots, symbol, i) && i.unit.distance == base && i.At() in Universe(store, roots, symbol)
    {
      assert i.unit in roots;
      RootReached(store, roots, symbol, i.unit);
    }
    forall r | r in roots
      ensures Covered(map[], pending, Item(r, symbol))
    {
      assert r in ordered;
      var k :| 0 <= k < |ordered| && ordered[k] == r;
      assert pending[k] == Item(r, symbol);
    }
  }

  lemma RootsSorted(roots: seq<Unit>, base: nat, ordered: seq<Unit>)
    requires Roots(roots, base) && Orders(RootBefore) && ordered == Sort(RootBefore, roots)
    ensures Lists(ordered, roots) && SortedBy(RootBefore, ordered)
  {
    SortKeeps(RootBefore, roots);
    SortSorts(RootBefore, roots);
    assert |ordered| == |roots|;
  }

  // Too many roots: the first of them in their own order.
  lemma RootsSuffice(store: Store, roots: seq<Unit>, symbol: nat, base: nat, maxUnits: nat, ordered: seq<Unit>)
    requires Roots(roots, base) && Lists(ordered, roots) && SortedBy(RootBefore, ordered) && |ordered| > maxUnits
    ensures Honest(store, roots, symbol, maxUnits, ordered[..maxUnits], |ordered|, |ordered| - maxUnits)
  {
    hide UnitReached, KnownOk, Selection, RootsInOrder;
    RootsKnown(store, roots, symbol, base, ordered);
    TakeIsSelection(store, roots, symbol, maxUnits, ordered, base, ordered);
    TakeRoots(roots, base, ordered, maxUnits);
  }

  lemma TakeRoots(roots: seq<Unit>, base: nat, ordered: seq<Unit>, n: nat)
    requires Roots(roots, base) && Lists(ordered, roots) && SortedBy(RootBefore, ordered) && n <= |ordered|
    ensures RootsInOrder(roots, ordered[..n])
  {
    var selected := ordered[..n];
    PrefixMembers(ordered, n);
    assert forall i :: 0 <= i < |ordered| ==> ordered[i] in roots;
    forall i, j | 0 <= i < j < |ordered|
      ensures Listed(ordered[i], ordered[j])
    {
      assert RootBefore(ordered[i], ordered[j]) && ordered[i].Key() != ordered[j].Key();
    }
    forall u, r | u in selected && r in roots && r !in selected
      ensures Listed(u, r)
    {
      var i :| 0 <= i < n && selected[i] == u;
      assert r in ordered;
      var j :| 0 <= j < |ordered| && ordered[j] == r;
      assert n <= j;
    }
  }

  lemma PrefixMembers(s: seq<Unit>, n: nat)
    requires n <= |s|
    ensures forall j :: 0 <= j < n ==> s[j] in s[..n]
  {
    assert forall j :: 0 <= j < n ==> s[..n][j] == s[j];
  }

  lemma UnitsSorted(units: seq<Unit>, ordered: seq<Unit>)
    requires Distinct(units) && Orders(UnitBefore) && ordered == Sort(UnitBefore, units)
    ensures Lists(ordered, units) && Ranked(ordered)
  {
    SortKeeps(UnitBefore, units);
    SortSorts(UnitBefore, units);
    forall i, j | 0 <= i < j < |ordered|
      ensures Precedes(ordered[i].distance, ordered[i].Key(), ordered[j].distance, ordered[j].Key())
    {
      assert UnitBefore(ordered[i], ordered[j]) && ordered[i].Key() != ordered[j].Key();
    }
  }

  // Whatever is reachable but not known comes after all that is known.
  ghost predicate NothingSkipped(store: Store, roots: seq<Unit>, symbol: nat, known: seq<Unit>) {
    forall k: UnitKey, d: nat, u: Unit ::
      UnitReached(store, roots, symbol, k, d) && !Knows(known, k) && u in known ==> Precedes(u.distance, u.Key(), d, k)
  }

  ghost predicate AllKnown(store: Store, roots: seq<Unit>, symbol: nat, known: seq<Unit>) {
    forall k: UnitKey, d: nat :: UnitReached(store, roots, symbol, k, d) ==> Knows(known, k)
  }

  // The search is over: the worklist is empty, or one unit too many is known.
  lemma Finish(store: Store, roots: seq<Unit>, symbol: nat, maxUnits: nat, units: seq<Unit>, dist: map<Node, nat>,
               pending: seq<Item>, frontier: nat, stopped: bool, ordered: seq<Unit>)
    requires Orders(UnitBefore) && ordered == Sort(UnitBefore, units) && |roots| <= maxUnits
    requires (stopped <==> |units| > maxUnits) && |units| <= maxUnits + 1
    requires !stopped ==> pending == [] && Search(store, roots, symbol, units, dist, pending, frontier)
    requires stopped ==> KnownOk(store, roots, symbol, units, frontier) && NothingSkipped(store, roots, symbol, units)
    ensures var n := if |ordered| <= maxUnits then |ordered| else maxUnits;
            Honest(store, roots, symbol, maxUnits, ordered[..n], |ordered|, |ordered| - n)
    ensures |ordered| == |units|
  {
    hide UnitReached, Selection, UnitsInOrder, Knows, Sort, Distinct, Expanded, Nearest, Reached, Met;
    assert KnownOk(store, roots, symbol, units, frontier);
    UnitsSorted(units, ordered);
    if !stopped {
      forall k: UnitKey, d: nat | UnitReached(store, roots, symbol, k, d)
        ensures Knows(units, k)
      {
        EarlierKnown(store, roots, symbol, units, dist, pending, frontier, k, d);
      }
      assert AllKnown(store, roots, symbol, units);
    }
    TakeIsSelection(store, roots, symbol, maxUnits, units, frontier, ordered);
    TakeIsFirst(store, roots, symbol, units, ordered, if |ordered| <= maxUnits then |ordered| else maxUnits);
  }

  // Every unit reachable before all pending entries is known.
  lemma EarlierKnown(store: Store, roots: seq<Unit>, symbol: nat, known: seq<Unit>, dist: map<Node, nat>,
                     pending: seq<Item>, frontier: nat, key: UnitKey, d: nat)
    requires Search(store, roots, symbol, known, dist, pending, frontier)
    requires UnitReached(store, roots, symbol, key, d) && forall i :: i in pending ==> Precedes(d, key, i.unit.distance, i.unit.Key())
    ensures Knows(known, key)
  {
    hide KnownOk, Expanded, Knows, Arrives;
    var item :| Reached(store, roots, symbol, item) && item.unit.Key() == key && item.unit.distance == d;
    var n: nat :| Arrives(store, roots, symbol, item, n);
    EarlierHandled(store, roots, symbol, known, dist, pending, frontier, item, n);
    assert item.At() in dist;
  }

  function Remember(known: seq<Unit>, u: Unit): seq<Unit> {
    if Knows(known, u.Key()) then known else known + [u]
  }

  // The popped entry's unit is remembered at its least distance.
  lemma PopRemembers(store: Store, roots: seq<Unit>, symbol: nat, known: seq<Unit>, dist: map<Node, nat>,
                     pending: seq<Item>, frontier: nat, item: Item)
    requires Search(store, roots, symbol, known, dist, pending, frontier)
    requires item in pending && forall i :: i in pending ==> ItemBefore(item, i)
    ensures KnownOk(store, roots, symbol, Remember(known, item.unit), item.unit.distance)
    ensures Knows(Remember(known, item.unit), item.unit.Key())
    ensures forall k :: Knows(known, k) ==> Knows(Remember(known, item.unit), k)
    ensures forall k: UnitKey, d: nat ::
              UnitReached(store, roots, symbol, k, d) && Precedes(d, k, item.unit.distance, item.unit.Key()) ==> Knows(known, k)
  {
    hide Expanded, Reached, Arrives;
    var known' := Remember(known, item.unit);
    forall k: UnitKey, d: nat | UnitReached(store, roots, symbol, k, d) && Precedes(d, k, item.unit.distance, item.unit.Key())
      ensures Knows(known, k)
    {
      EarlierKnown(store, roots, symbol, known, dist, pending, frontier, k, d);
    }
    assert Met(store, roots, symbol, item.unit);
    if !Knows(known, item.unit.Key()) {
      assert item.unit in known';
      forall k | Knows(known, k)
        ensures Knows(known', k)
      {
        var u :| u in known && u.Key() == k;
        assert u in known';
      }
    }
  }

  // One unit too many: all that is known comes no later than the entry just popped, and all that
  // is not known comes after it.
  lemma StopSkipsNothing(store: Store, roots: seq<Unit>, symbol: nat, base: nat, known: seq<Unit>, dist: map<Node, nat>,
                         pending: seq<Item>, frontier: nat, item: Item)
    requires Search(store, roots, symbol, known, dist, pending, frontier) && Roots(roots, base)
    requires item in pending && !Knows(known, item.unit.Key())
    requires forall k: UnitKey, d: nat ::
               UnitReached(store, roots, symbol, k, d) && Precedes(d, k, item.unit.distance, item.unit.Key()) ==> Knows(known, k)
    requires forall k :: Knows(known, k) ==> Knows(Remember(known, item.unit), k)
    requires Knows(Remember(known, item.unit), item.unit.Key())
    ensures NothingSkipped(store, roots, symbol, Remember(known, item.unit))
  {
    hide Expanded, Arrives, UnitReached, KnownOk;
    NotARoot(store, roots, symbol, base, known, item, frontier);
    var known' := Remember(known, item.unit);
    forall k: UnitKey, d: nat, u: Unit | UnitReached(store, roots, symbol, k, d) && !Knows(known', k) && u in known'
      ensures Precedes(u.distance, u.Key(), d, k)
    {
      hide Knows;
      assert k != item.unit.Key() && !Precedes(d, k, item.unit.distance, item.unit.Key());
      assert u == item.unit || u.distance < item.unit.distance || UnitBefore(u, item.unit);
    }
  }

  lemma NotARoot(store: Store, roots: seq<Unit>, symbol: nat, base: nat, known: seq<Unit>, item: Item, frontier: nat)
    requires KnownOk(store, roots, symbol, known, frontier) && Roots(roots, base)
    requires Reached(store, roots, symbol, item) && !Knows(known, item.unit.Key())
    ensures base < item.unit.distance
  {
    hide Nearest, Distinct, Knows, Met;
    var n: nat :| Arrives(store, roots, symbol, item, n);
    DistanceFromBase(store, roots, symbol, base, item, n);
  }

  lemma StillInOrder(roots: seq<Unit>, known: seq<Unit>, pending: seq<Item>, item: Item, rest: seq<Item>, more: seq<Item>)
    requires PoppedInOrder(roots, known, pending) && item in pending
    requires (forall i :: i in pending <==> i == item || i in rest) && forall i :: i in pending ==> ItemBefore(item, i)
    requires forall u :: u in Remember(known, item.unit) ==> u.distance <= item.unit.distance
    requires forall c :: c in more ==> c.unit.distance == item.unit.distance + 1
    ensures PoppedInOrder(roots, Remember(known, item.unit), rest + more)
  {
    hide Knows;
    assert forall u :: u in Remember(known, item.unit) ==> u in known || u == item.unit;
  }

  lemma SkipKeeps(store: Store, roots: seq<Unit>, symbol: nat, known: seq<Unit>, dist: map<Node, nat>,
                  pending: seq<Item>, frontier: nat, item: Item, rest: seq<Item>)
    requires Search(store, roots, symbol, known, dist, pending, frontier)
    requires (forall i :: i in pending <==> i == item || i in rest) && forall i :: i in pending ==> ItemBefore(item, i)
    requires KnownOk(store, roots, symbol, Remember(known, item.unit), item.unit.distance)
    requires forall k :: Knows(known, k) ==> Knows(Remember(known, item.unit), k)
    requires item.At() in dist
    ensures Search(store, roots, symbol, Remember(known, item.unit), dist, rest, item.unit.distance)
  {
    assert forall u :: u in Remember(known, item.unit) ==> u.distance <= item.unit.distance;
    hide KnownOk, Knows, Remember, Reached, PoppedInOrder;
    assert item in pending;
    StillInOrder(roots, known, pending, item, rest, []);
    assert rest + [] == rest;
    forall c | Covered(dist, pending, c)
      ensures Covered(dist, rest, c)
    {
    }
  }

  lemma SameCallees(store: Store, a: Item, b: Item)
    requires a.At() == b.At() && a.unit.distance == b.unit.distance
    ensures Callees(store, a) == Callees(store, b)
  {
  }

  lemma ExpandKeeps(store: Store, roots: seq<Unit>, symbol: nat, known: seq<Unit>, dist: map<Node, nat>,
                    pending: seq<Item>, frontier: nat, item: Item, rest: seq<Item>)
    requires Search(store, roots, symbol, known, dist, pending, frontier)
    requires (forall i :: i in pending <==> i == item || i in rest) && forall i :: i in pending ==> ItemBefore(item, i)
    requires KnownOk(store, roots, symbol, Remember(known, item.unit), item.unit.distance)
    requires Knows(Remember(known, item.unit), item.unit.Key())
    requires forall k :: Knows(known, k) ==> Knows(Remember(known, item.unit), k)
    requires item.At() !in dist
    ensures Search(store, roots, symbol, Remember(known, item.unit), dist[item.At() := item.unit.distance],
                   rest + Callees(store, item), item.unit.distance)
  {
    assert forall u :: u in Remember(known, item.unit) ==> u.distance <= item.unit.distance;
    hide KnownOk, Knows, Remember, Callees, PoppedInOrder, Reached, ItemBefore;
    assert item in pending;
    forall c | c in Callees(store, item)
      ensures c.unit.distance == item.unit.distance + 1
    {
      CalleeShape(store, item, c);
    }
    StillInOrder(roots, known, pending, item, rest, Callees(store, item));
    var dist' := dist[item.At() := item.unit.distance];
    var pending' := rest + Callees(store, item);
    forall c | Covered(dist, pending, c)
      ensures Covered(dist', pending', c)
    {
    }
    forall from: Item, c: Item | from.At() in dist' && dist'[from.At()] == from.unit.distance && c in Callees(store, from)
      ensures Covered(dist', pending', c)
    {
      if from.At() == item.At() {
        SameCallees(store, from, item);
      } else {
        assert Covered(dist, pending, c);
      }
    }
    CalleesReached(store, roots, symbol, item);
  }

  lemma CalleesReached(store: Store, roots: seq<Unit>, symbol: nat, item: Item)
    requires Reached(store, roots, symbol, item)
    ensures forall c :: c in Callees(store, item) ==> Reached(store, roots, symbol, c)
  {
    hide Callees, Step;
    var n: nat :| Arrives(store, roots, symbol, item, n);
    CalleesAreSteps(store, item);
    forall c | c in Callees(store, item)
      ensures Reached(store, roots, symbol, c)
    {
      assert Arrives(store, roots, symbol, c, n + 1);
    }
  }

  // All nodes the search can meet.
  ghost function Universe(store: Store, roots: seq<Unit>, symbol: nat): set<Node> {
    (set r | r in roots :: Item(r, symbol).At())
    + (set x, i | x in store && 0 <= i < |store[x]| :: Node(x.variant, store[x][i].unit, store[x][i].symbol))
  }

  lemma CalleesInUniverse(store: Store, roots: seq<Unit>, symbol: nat, item: Item)
    ensures forall c :: c in Callees(store, item) ==> c.At() in Universe(store, roots, symbol)
  {
    forall c | c in Callees(store, item)
      ensures c.At() in Universe(store, roots, symbol)
    {
      var i :| 0 <= i < |store[item.At()]| && Callees(store, item)[i] == c;
      var rows := store[item.At()];
      assert c.At() == Node(item.At().variant, rows[i].unit, rows[i].symbol);
    }
  }

  // First by distance, then by build variant, then by unit.
  predicate Precedes(d: nat, a: UnitKey, e: nat, b: UnitKey) {
    d < e || (d == e && (a.variant < b.variant || (a.variant == b.variant && a.unit < b.unit)))
  }

  ghost predicate Ranked(units: seq<Unit>) {
    forall i, j :: 0 <= i < j < |units| ==> Precedes(units[i].distance, units[i].Key(), units[j].distance, units[j].Key())
  }

  // Each unit in order, and whatever is reachable but not selected comes after all that is.
  ghost predicate UnitsInOrder(store: Store, roots: seq<Unit>, symbol: nat, selected: seq<Unit>) {
    Ranked(selected) && NothingSkipped(store, roots, symbol, selected)
  }

  // Roots are listed by build variant, then by configuration, then by unit.
  predicate Listed(a: Unit, b: Unit) {
    a.variant < b.variant
    || (a.variant == b.variant && (a.configuration < b.configuration || (a.configuration == b.configuration && a.unit < b.unit)))
  }

  ghost predicate RootsInOrder(roots: seq<Unit>, selected: seq<Unit>) {
    && (forall u :: u in selected ==> u in roots)
    && (forall i, j :: 0 <= i < j < |selected| ==> Listed(selected[i], selected[j]))
    && (forall u, r :: u in selected && r in roots && r !in selected ==> Listed(u, r))
  }

  // Units that were met, each at its least distance and no two the same; complete if none is omitted.
  ghost predicate Selection(store: Store, roots: seq<Unit>, symbol: nat, maxUnits: nat,
                            selected: seq<Unit>, known: nat, omitted: nat)
  {
    && |selected| <= maxUnits && Distinct(selected) && known == |selected| + omitted
    && (forall u :: u in selected ==> Met(store, roots, symbol, u))
    && Nearest(store, roots, symbol, selected)
    && (omitted == 0 <==> AllKnown(store, roots, symbol, selected))
  }

  // The answer. With too many roots, the first of them in their order; otherwise the first of all
  // reachable units by distance, variant and unit, where at most one omission is counted.
  ghost predicate Honest(store: Store, roots: seq<Unit>, symbol: nat, maxUnits: nat,
                         selected: seq<Unit>, known: nat, omitted: nat)
  {
    && Selection(store, roots, symbol, maxUnits, selected, known, omitted)
    && if |roots| > maxUnits then omitted == |roots| - maxUnits && RootsInOrder(roots, selected)
       else omitted <= 1 && UnitsInOrder(store, roots, symbol, selected)
  }

  lemma SomethingDropped(known: seq<Unit>, ordered: seq<Unit>, n: nat) returns (v: Unit)
    requires n < |ordered| && Distinct(ordered) && (forall u :: u in ordered <==> u in known)
    ensures v in known && !Knows(ordered[..n], v.Key())
  {
    v := ordered[n];
  }

  lemma MetIsReached(store: Store, roots: seq<Unit>, symbol: nat, u: Unit)
    requires Met(store, roots, symbol, u)
    ensures UnitReached(store, roots, symbol, u.Key(), u.distance)
  {
  }

  lemma TakeIsSelection(store: Store, roots: seq<Unit>, symbol: nat, maxUnits: nat, known: seq<Unit>, frontier: nat, ordered: seq<Unit>)
    requires KnownOk(store, roots, symbol, known, frontier) && Lists(ordered, known)
    requires |known| <= maxUnits ==> AllKnown(store, roots, symbol, known)
    ensures var n := if |ordered| <= maxUnits then |ordered| else maxUnits;
            Selection(store, roots, symbol, maxUnits, ordered[..n], |ordered|, |ordered| - n)
  {
    hide UnitReached, Met;
    var n := if |ordered| <= maxUnits then |ordered| else maxUnits;
    var selected := ordered[..n];
    assert forall u :: u in selected ==> u in ordered && u in known;
    if |ordered| <= maxUnits {
      assert selected == ordered;
      assert forall k :: Knows(known, k) ==> Knows(selected, k);
    } else {
      var dropped := SomethingDropped(known, ordered, n);
      MetIsReached(store, roots, symbol, dropped);
      assert UnitReached(store, roots, symbol, dropped.Key(), dropped.distance);
    }
  }

  // Cutting the sorted list keeps what comes first.
  lemma TakeIsFirst(store: Store, roots: seq<Unit>, symbol: nat, known: seq<Unit>, ordered: seq<Unit>, n: nat)
    requires Lists(ordered, known) && Ranked(ordered) && n <= |ordered| && Nearest(store, roots, symbol, known)
    requires NothingSkipped(store, roots, symbol, known)
    ensures UnitsInOrder(store, roots, symbol, ordered[..n])
  {
    hide UnitReached, Distinct;
    var selected := ordered[..n];
    assert forall u :: u in selected ==> u in ordered && u in known;
    forall k: UnitKey, d: nat, u: Unit | UnitReached(store, roots, symbol, k, d) && !Knows(selected, k) && u in selected
      ensures Precedes(u.distance, u.Key(), d, k)
    {
      if Knows(known, k) {
        var v := DroppedComesLater(known, ordered, n, k, u);
        assert v.distance <= d;
      }
    }
  }

  lemma DroppedComesLater(known: seq<Unit>, ordered: seq<Unit>, n: nat, k: UnitKey, u: Unit) returns (v: Unit)
    requires n <= |ordered| && (forall u :: u in ordered <==> u in known) && Ranked(ordered)
    requires Knows(known, k) && !Knows(ordered[..n], k) && u in ordered[..n]
    ensures v in known && v.Key() == k && Precedes(u.distance, u.Key(), v.distance, k)
  {
    PrefixMembers(ordered, n);
    v :| v in known && v.Key() == k;
    var i :| 0 <= i < n && ordered[i] == u;
    assert v in ordered;
    var j :| 0 <= j < |ordered| && ordered[j] == v;
    assert n <= j;
  }

  lemma TotalOrders()
    ensures Orders(UnitBefore) && Orders(RootBefore)
  {
  }

  method Closure(store: Store, roots: seq<Unit>, symbol: nat, maxUnits: nat, ghost base: nat)
    returns (selected: seq<Unit>, known: nat, omitted: nat)
    requires Roots(roots, base)
    ensures Honest(store, roots, symbol, maxUnits, selected, known, omitted)
  {
    hide Search, Honest, KnownOk, Distinct, UnitReached, Universe, Callees, Knows, Orders, SortedBy, NothingSkipped;
    TotalOrders();
    var orderedRoots := Sort(RootBefore, roots);
    RootsSorted(roots, base, orderedRoots);
    var units := orderedRoots;
    if |units| > maxUnits {
      RootsSuffice(store, roots, symbol, base, maxUnits, orderedRoots);
      return units[..maxUnits], |units|, |units| - maxUnits;
    }
    var pending := seq(|orderedRoots|, i requires 0 <= i < |orderedRoots| => Item(orderedRoots[i], symbol));
    var expanded: set<Node> := {};
    ghost var dist: map<Node, nat> := map[];
    ghost var frontier := base;
    ghost var universe := Universe(store, roots, symbol);
    BeginSearch(store, roots, symbol, base, orderedRoots, pending);
    ghost var stopped := false;
    while pending != [] && |units| <= maxUnits
      invariant expanded == dist.Keys && expanded <= universe
      invariant forall i :: i in pending ==> i.At() in universe
      invariant !stopped ==> Search(store, roots, symbol, units, dist, pending, frontier)
      invariant stopped ==> |units| > maxUnits && KnownOk(store, roots, symbol, units, frontier)
      invariant stopped ==> NothingSkipped(store, roots, symbol, units)
      invariant |units| > maxUnits ==> stopped
      invariant |units| <= maxUnits + 1
      decreases universe - expanded, |pending|
    {
      var current, rest := PopNearest(pending);
      PopRemembers(store, roots, symbol, units, dist, pending, frontier, current);
      ghost var units0 := units;
      units := Remember(units, current.unit);
      if |units| > maxUnits {
        StopSkipsNothing(store, roots, symbol, base, units0, dist, pending, frontier, current);
        stopped, frontier := true, current.unit.distance;
        break;
      }
      var node := current.At();
      if node in expanded {
        SkipKeeps(store, roots, symbol, units0, dist, pending, frontier, current, rest);
        pending := rest;
      } else {
        ExpandKeeps(store, roots, symbol, units0, dist, pending, frontier, current, rest);
        CalleesInUniverse(store, roots, symbol, current);
        expanded := expanded + {node};
        dist := dist[node := current.unit.distance];
        pending := rest + Callees(store, current);
      }
      frontier := current.unit.distance;
    }
    var ordered := Sort(UnitBefore, units);
    omitted := if |ordered| > maxUnits then |ordered| - maxUnits else 0;
    Finish(store, roots, symbol, maxUnits, units, dist, pending, frontier, stopped, ordered);
    // Entries left over are always among those counted, so no further omission need be reported.
    assert pending != [] ==> omitted > 0;
    selected := ordered[..if |ordered| <= maxUnits then |ordered| else maxUnits];
    known := |ordered|;
  }
}
