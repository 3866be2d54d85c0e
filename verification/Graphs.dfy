// Finite directed graphs given as adjacency maps, in the form the call graph of
// the summary solver has: a node that is not a key has no successors.
module Graphs {

  type Node = nat
  type Graph = map<Node, set<Node>>

  function Successors(g: Graph, x: Node): set<Node> {
    if x in g then g[x] else {}
  }

  ghost predicate IsPath(g: Graph, p: seq<Node>) {
    |p| > 0 && forall i :: 0 <= i < |p| - 1 ==> p[i + 1] in Successors(g, p[i])
  }

  // y can be reached from x along zero or more edges.
  ghost predicate Reach(g: Graph, x: Node, y: Node) {
    exists p: seq<Node> :: IsPath(g, p) && p[0] == x && p[|p| - 1] == y
  }

  ghost predicate Closed(g: Graph, s: set<Node>) {
    forall x, y :: x in s && y in Successors(g, x) ==> y in s
  }

  // x lies on a cycle: some successor of x leads back to x.
  ghost predicate OnCycle(g: Graph, x: Node) {
    exists y :: y in Successors(g, x) && Reach(g, y, x)
  }

  // A strongly connected component: a non-empty class of mutual reachability.
  ghost predicate IsScc(g: Graph, c: seq<Node>) {
    && |c| > 0
    && forall x, y :: x in c ==> (y in c <==> Reach(g, x, y) && Reach(g, y, x))
  }

  lemma ReachRefl(g: Graph, x: Node)
    ensures Reach(g, x, x)
  {
    assert IsPath(g, [x]);
  }

  lemma ReachEdge(g: Graph, x: Node, y: Node)
    requires y in Successors(g, x)
    ensures Reach(g, x, y)
  {
    assert IsPath(g, [x, y]);
  }

  lemma ReachTrans(g: Graph, x: Node, y: Node, z: Node)
    requires Reach(g, x, y) && Reach(g, y, z)
    ensures Reach(g, x, z)
  {
    var p: seq<Node> :| IsPath(g, p) && p[0] == x && p[|p| - 1] == y;
    var q: seq<Node> :| IsPath(g, q) && q[0] == y && q[|q| - 1] == z;
    var r := p + q[1..];
    assert r[|r| - 1] == z;
    forall i | 0 <= i < |r| - 1
      ensures r[i + 1] in Successors(g, r[i])
    {
      if i >= |p| - 1 {
        assert r[i] == q[i - (|p| - 1)] && r[i + 1] == q[i + 1 - (|p| - 1)];
      }
    }
    assert IsPath(g, r);
  }

  lemma {:induction false} PathStaysClosed(g: Graph, s: set<Node>, p: seq<Node>, i: nat)
    requires Closed(g, s) && IsPath(g, p) && p[0] in s && i < |p|
    ensures p[i] in s
  {
    if i > 0 {
      PathStaysClosed(g, s, p, i - 1);
    }
  }

  // Nothing outside a closed set can be reached from inside it.
  lemma ReachStaysClosed(g: Graph, s: set<Node>, x: Node, y: Node)
    requires Closed(g, s) && x in s && Reach(g, x, y)
    ensures y in s
  {
    var p: seq<Node> :| IsPath(g, p) && p[0] == x && p[|p| - 1] == y;
    PathStaysClosed(g, s, p, |p| - 1);
  }

  // A path of at least one edge can be split after its first edge.
  lemma ReachSplit(g: Graph, x: Node, y: Node) returns (z: Node)
    requires Reach(g, x, y) && x != y
    ensures z in Successors(g, x) && Reach(g, z, y)
  {
    var p: seq<Node> :| IsPath(g, p) && p[0] == x && p[|p| - 1] == y;
    z := p[1];
    var q := p[1..];
    forall i | 0 <= i < |q| - 1
      ensures q[i + 1] in Successors(g, q[i])
    {
      assert q[i] == p[i + 1] && q[i + 1] == p[i + 2];
    }
    assert IsPath(g, q) && q[0] == z && q[|q| - 1] == y;
  }

  lemma SubsetSize<T>(a: set<T>, b: set<T>)
    requires a <= b
    ensures |a| <= |b| && (a != b ==> |a| < |b|)
  {
    assert b == a + (b - a);
    assert a != b ==> b - a != {};
  }

  lemma {:induction false} LeastFrom(s: set<nat>, a: nat) returns (m: nat)
    requires a in s
    ensures m in s && forall x :: x in s ==> m <= x
    decreases a
  {
    if x :| x in s && x < a {
      m := LeastFrom(s, x);
    } else {
      m := a;
    }
  }

  lemma MinExists(s: set<nat>)
    requires s != {}
    ensures exists m :: m in s && forall x :: x in s ==> m <= x
  {
    var a :| a in s;
    var m := LeastFrom(s, a);
  }

  function Min(s: set<nat>): (m: nat)
    requires s != {}
    ensures m in s && forall x :: x in s ==> m <= x
  {
    MinExists(s);
    var m :| m in s && forall x :: x in s ==> m <= x;
    m
  }

  predicate StrictlyAscending(s: seq<nat>) {
    forall i, j :: 0 <= i < j < |s| ==> s[i] < s[j]
  }

  // Ascending enumeration of a finite set.
  function Sorted(s: set<nat>): (r: seq<nat>)
    ensures forall x :: x in r <==> x in s
    ensures StrictlyAscending(r)
    decreases |s|
  {
    if s == {} then []
    else
      var m := Min(s);
      var rest := Sorted(s - {m});
      AscendingCons(m, rest, s);
      [m] + rest
  }

  lemma AscendingCons(m: nat, rest: seq<nat>, s: set<nat>)
    requires m in s && forall x :: x in s ==> m <= x
    requires StrictlyAscending(rest)
    requires forall x :: x in rest <==> x in s - {m}
    ensures StrictlyAscending([m] + rest)
    ensures forall x :: x in [m] + rest <==> x in s
  {
    forall j | 0 <= j < |rest|
      ensures m < rest[j]
    {
      assert rest[j] in s - {m};
    }
  }
}
