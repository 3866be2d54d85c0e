// Tarjan's strongly connected components, as the summary solver runs it: one
// recursive visit per node, an explicit node stack, and components emitted
// callees first.
module Tarjan {
  import opened Graphs

  // The walk's bookkeeping as a value. `gray` below is the set of nodes whose
  // visit has started and not yet returned.
  datatype Walk = Walk(
    index: nat,
    stack: seq<Node>,
    indexes: map<Node, nat>,
    lows: map<Node, nat>,
    result: seq<seq<Node>>
  )

  ghost predicate Emitted(result: seq<seq<Node>>, x: Node) {
    exists k :: 0 <= k < |result| && x in result[k]
  }

  // Numbering, stack and emitted components describe the same visited nodes.
  ghost predicate Basic(w: Walk) {
    && (forall i :: 0 <= i < |w.stack| ==> w.stack[i] in w.indexes)
    && (forall i, j :: 0 <= i < j < |w.stack| ==> w.indexes[w.stack[i]] < w.indexes[w.stack[j]])
    && (forall x :: x in w.indexes ==> w.indexes[x] < w.index)
    && w.lows.Keys == w.indexes.Keys
    && (forall x :: x in w.indexes <==> (x in w.stack || Emitted(w.result, x)))
    && (forall x :: !(x in w.stack && Emitted(w.result, x)))
    && Disjoint(w.result)
  }

  ghost predicate Disjoint(result: seq<seq<Node>>) {
    forall j, k, x :: 0 <= j < k < |result| && x in result[j] ==> x !in result[k]
  }

  // A finished node has no unvisited successor.
  ghost predicate NoBlackToWhite(g: Graph, w: Walk, gray: set<Node>) {
    forall x, y :: x in w.indexes && x !in gray && y in Successors(g, x) ==> y in w.indexes
  }

  // A stack entry reaches every entry above it.
  ghost predicate StackReach(g: Graph, stack: seq<Node>) {
    forall i, j :: 0 <= i <= j < |stack| ==> Reach(g, stack[i], stack[j])
  }

  ghost predicate GrayWitness(g: Graph, stack: seq<Node>, gray: set<Node>, i: nat, j: nat)
    requires i < |stack|
  {
    j <= i && stack[j] in gray && Reach(g, stack[i], stack[j])
  }

  // Every stack entry reaches an unfinished entry at or below it.
  ghost predicate GrayBelow(g: Graph, stack: seq<Node>, gray: set<Node>) {
    forall i :: 0 <= i < |stack| ==> HasGray(g, stack, gray, i)
  }

  ghost predicate HasGray(g: Graph, stack: seq<Node>, gray: set<Node>, i: nat)
    requires i < |stack|
  {
    exists j: nat :: GrayWitness(g, stack, gray, i, j)
  }

  ghost predicate Components(g: Graph, result: seq<seq<Node>>) {
    && (forall k :: 0 <= k < |result| ==> IsScc(g, result[k]))
    && (forall k, x, y :: 0 <= k < |result| && x in result[k] && y in Successors(g, x) ==>
          Emitted(result[..k + 1], y))
  }

  ghost predicate Inv(g: Graph, w: Walk, gray: set<Node>) {
    && Basic(w)
    && (forall x :: x in gray ==> x in w.stack)
    && NoBlackToWhite(g, w, gray)
    && StackReach(g, w.stack)
    && GrayBelow(g, w.stack, gray)
    && Components(g, w.result)
  }

  // Later walks only add: the stack, numbers and components already there stay.
  ghost predicate Extends(w0: Walk, w: Walk) {
    && w0.stack <= w.stack
    && w0.result <= w.result
    && w0.index <= w.index
    && (forall x :: x in w0.indexes ==> x in w.indexes && w.indexes[x] == w0.indexes[x])
    && (forall x :: x in w0.lows ==> x in w.lows && w.lows[x] == w0.lows[x])
  }

  // What the number `low` found for x says about the stack `below` x: it is x's
  // own number or that of an entry below that x reaches ...
  ghost predicate LowReached(g: Graph, w: Walk, below: seq<Node>, x: Node, low: nat)
    requires x in w.indexes && forall v :: v in below ==> v in w.indexes
  {
    && low <= w.indexes[x]
    && (low < w.indexes[x] ==> exists v :: v in below && w.indexes[v] == low && Reach(g, x, v))
  }

  // ... and no edge into `below` from the stack above position b goes lower.
  ghost predicate LowBound(g: Graph, w: Walk, below: seq<Node>, b: nat, low: nat)
    requires forall v :: v in below ==> v in w.indexes
  {
    forall i, v :: b <= i < |w.stack| && v in Successors(g, w.stack[i]) && v in below ==> low <= w.indexes[v]
  }

  ghost predicate VisitPost(g: Graph, w0: Walk, w: Walk, x: Node) {
    && Extends(w0, w)
    && (forall v :: v in w0.stack ==> v in w0.indexes)
    && x in w.indexes && w.indexes[x] >= w0.index && x in w.lows
    && LowReached(g, w, w0.stack, x, w.lows[x])
    && LowBound(g, w, w0.stack, |w0.stack|, w.lows[x])
    && (forall y :: y in w.indexes && y !in w0.indexes ==> Reach(g, x, y))
  }

  ghost predicate ScanShape(g: Graph, w0: Walk, w: Walk, x: Node, done: set<Node>) {
    && Extends(w0, w)
    && x !in w0.indexes
    && |w.stack| > |w0.stack| && w.stack[|w0.stack|] == x
    && x in w.indexes && w.indexes[x] == w0.index
    && x in w.lows
    && (forall v :: v in w0.stack ==> v in w.indexes)
    && done <= w.indexes.Keys
    && (forall y :: y in w.indexes && y !in w0.indexes ==> Reach(g, x, y))
  }

  ghost predicate ScanLow(g: Graph, w0: Walk, w: Walk, x: Node, done: set<Node>, low: nat)
    requires ScanShape(g, w0, w, x, done)
  {
    && LowReached(g, w, w0.stack, x, low)
    && LowBound(g, w, w0.stack, |w0.stack| + 1, low)
    && (forall v :: v in done && v in w0.stack ==> low <= w.indexes[v])
  }

  // The loop over the successors of x: `done` are the ones already handled.
  ghost predicate Scanning(g: Graph, w0: Walk, w: Walk, x: Node, gray: set<Node>, done: set<Node>) {
    && Inv(g, w0, gray)
    && Inv(g, w, gray + {x})
    && ScanShape(g, w0, w, x, done)
    && ScanLow(g, w0, w, x, done, w.lows[x])
  }

  function Push(w: Walk, x: Node): Walk {
    Walk(w.index + 1, w.stack + [x], w.indexes[x := w.index], w.lows[x := w.index], w.result)
  }

  // A stack entry reaches everything at or above the entry its gray witness names.
  lemma GrayReaches(g: Graph, stack: seq<Node>, gray: set<Node>, i: nat, top: nat)
    requires StackReach(g, stack) && GrayBelow(g, stack, gray)
    requires i < |stack| && top < |stack|
    requires forall j :: 0 <= j < |stack| && stack[j] in gray ==> j <= top
    ensures Reach(g, stack[i], stack[top])
  {
    assert HasGray(g, stack, gray, i);
    var k: nat :| GrayWitness(g, stack, gray, i, k);
    ReachTrans(g, stack[i], stack[k], stack[top]);
  }

  lemma PushStackReach(g: Graph, stack: seq<Node>, gray: set<Node>, x: Node)
    requires StackReach(g, stack) && GrayBelow(g, stack, gray)
    requires forall y :: y in gray ==> Reach(g, y, x)
    ensures StackReach(g, stack + [x])
  {
    ReachRefl(g, x);
    forall i | 0 <= i < |stack|
      ensures Reach(g, stack[i], x)
    {
      assert HasGray(g, stack, gray, i);
      var k: nat :| GrayWitness(g, stack, gray, i, k);
      ReachTrans(g, stack[i], stack[k], x);
    }
  }

  lemma PushGrayBelow(g: Graph, stack: seq<Node>, gray: set<Node>, x: Node)
    requires GrayBelow(g, stack, gray)
    ensures GrayBelow(g, stack + [x], gray + {x})
  {
    var stack' := stack + [x];
    ReachRefl(g, x);
    forall i | 0 <= i < |stack'|
      ensures HasGray(g, stack', gray + {x}, i)
    {
      if i < |stack| {
        assert HasGray(g, stack, gray, i);
        var k: nat :| GrayWitness(g, stack, gray, i, k);
        assert GrayWitness(g, stack', gray + {x}, i, k);
      } else {
        assert GrayWitness(g, stack', gray + {x}, i, i);
      }
    }
  }

  lemma PushBasic(w: Walk, x: Node)
    requires Basic(w) && x !in w.indexes
    ensures Basic(Push(w, x))
  {
    hide Emitted, Disjoint;
    var w' := Push(w, x);
    assert forall y :: y in w'.stack <==> y in w.stack || y == x;
  }

  lemma PushInv(g: Graph, w: Walk, x: Node, gray: set<Node>)
    requires Inv(g, w, gray) && x !in w.indexes
    requires forall y :: y in gray ==> Reach(g, y, x)
    ensures Inv(g, Push(w, x), gray + {x})
  {
    hide Basic, GrayBelow, StackReach, Components;
    PushBasic(w, x);
    PushStackReach(g, w.stack, gray, x);
    PushGrayBelow(g, w.stack, gray, x);
  }

  lemma PushShape(g: Graph, w: Walk, x: Node)
    requires Basic(w) && x !in w.indexes
    ensures ScanShape(g, w, Push(w, x), x, {}) && ScanLow(g, w, Push(w, x), x, {}, w.index)
  {
    hide Emitted, Disjoint;
    ReachRefl(g, x);
  }

  lemma PushScans(g: Graph, w: Walk, x: Node, gray: set<Node>)
    requires Inv(g, w, gray) && x !in w.indexes
    requires forall y :: y in gray ==> Reach(g, y, x)
    ensures Scanning(g, w, Push(w, x), x, gray, {})
  {
    hide Basic, NoBlackToWhite, GrayBelow, StackReach, Components, ScanShape, ScanLow;
    PushInv(g, w, x, gray);
    PushShape(g, w, x);
  }

  function Min2(a: nat, b: nat): nat {
    if a <= b then a else b
  }

  // Only the numbers' keys matter to the invariant, not the low numbers.
  lemma LowsAreFree(g: Graph, w: Walk, gray: set<Node>, x: Node, low: nat)
    requires Inv(g, w, gray) && x in w.lows
    ensures Inv(g, w.(lows := w.lows[x := low]), gray)
  {
  }

  lemma SetLowShape(g: Graph, w0: Walk, w: Walk, x: Node, done: set<Node>, low: nat)
    requires w0.lows.Keys == w0.indexes.Keys
    requires ScanShape(g, w0, w, x, done) && ScanLow(g, w0, w, x, done, low)
    ensures var w' := w.(lows := w.lows[x := low]);
            ScanShape(g, w0, w', x, done) && ScanLow(g, w0, w', x, done, low)
  {
    assert x !in w0.lows;
  }

  lemma SetLow(g: Graph, w0: Walk, w: Walk, x: Node, gray: set<Node>, done: set<Node>, low: nat)
    requires Inv(g, w0, gray) && Inv(g, w, gray + {x})
    requires ScanShape(g, w0, w, x, done) && ScanLow(g, w0, w, x, done, low)
    ensures Scanning(g, w0, w.(lows := w.lows[x := low]), x, gray, done)
  {
    LowsAreFree(g, w, gray + {x}, x, low);
    SetLowShape(g, w0, w, x, done, low);
  }

  lemma AfterVisit(g: Graph, w0: Walk, w: Walk, w1: Walk, x: Node, t: Node, gray: set<Node>, done: set<Node>)
    requires Scanning(g, w0, w, x, gray, done)
    requires t in Successors(g, x) && t !in w.indexes
    requires Inv(g, w1, gray + {x}) && VisitPost(g, w, w1, t)
    ensures x in w1.lows && t in w1.lows
    ensures Scanning(g, w0, w1.(lows := w1.lows[x := Min2(w1.lows[x], w1.lows[t])]), x, gray, done + {t})
  {
    VisitShape(g, w0, w, w1, x, t, done);
    VisitLow(g, w0, w, w1, x, t, done);
    SetLow(g, w0, w1, x, gray, done + {t}, Min2(w1.lows[x], w1.lows[t]));
  }

  lemma VisitShape(g: Graph, w0: Walk, w: Walk, w1: Walk, x: Node, t: Node, done: set<Node>)
    requires ScanShape(g, w0, w, x, done)
    requires t in Successors(g, x)
    requires VisitPost(g, w, w1, t)
    ensures ScanShape(g, w0, w1, x, done + {t})
  {
    forall y | y in w1.indexes && y !in w0.indexes
      ensures Reach(g, x, y)
    {
      if y !in w.indexes {
        ReachEdge(g, x, t);
        ReachTrans(g, x, t, y);
      }
    }
  }

  lemma VisitLow(g: Graph, w0: Walk, w: Walk, w1: Walk, x: Node, t: Node, done: set<Node>)
    requires Basic(w) && ScanShape(g, w0, w, x, done) && ScanLow(g, w0, w, x, done, w.lows[x])
    requires t in Successors(g, x) && t !in w.indexes
    requires VisitPost(g, w, w1, t) && ScanShape(g, w0, w1, x, done + {t})
    ensures ScanLow(g, w0, w1, x, done + {t}, Min2(w1.lows[x], w1.lows[t]))
  {
    VisitLowReached(g, w0, w, w1, x, t, done);
    VisitLowBound(g, w0, w, w1, x, t, done);
  }

  lemma VisitLowReached(g: Graph, w0: Walk, w: Walk, w1: Walk, x: Node, t: Node, done: set<Node>)
    requires Basic(w) && ScanShape(g, w0, w, x, done) && LowReached(g, w, w0.stack, x, w.lows[x])
    requires t in Successors(g, x) && t !in w.indexes
    requires VisitPost(g, w, w1, t) && ScanShape(g, w0, w1, x, done + {t})
    ensures LowReached(g, w1, w0.stack, x, Min2(w1.lows[x], w1.lows[t]))
  {
    hide LowBound;
    if w1.lows[t] < w1.lows[x] {
      var v :| v in w.stack && w1.indexes[v] == w1.lows[t] && Reach(g, t, v);
      StackBelow(w, w0.stack, v, x);
      ReachEdge(g, x, t);
      ReachTrans(g, x, t, v);
    }
  }

  lemma VisitLowBound(g: Graph, w0: Walk, w: Walk, w1: Walk, x: Node, t: Node, done: set<Node>)
    requires ScanShape(g, w0, w, x, done) && LowBound(g, w, w0.stack, |w0.stack| + 1, w.lows[x])
    requires VisitPost(g, w, w1, t) && ScanShape(g, w0, w1, x, done + {t})
    ensures LowBound(g, w1, w0.stack, |w0.stack| + 1, Min2(w1.lows[x], w1.lows[t]))
  {
    hide LowReached, Reach;
    var low := Min2(w1.lows[x], w1.lows[t]);
    assert w0.stack <= w.stack;
    forall i, v | |w0.stack| + 1 <= i < |w1.stack| && v in Successors(g, w1.stack[i]) && v in w0.stack
      ensures low <= w1.indexes[v]
    {
      assert v in w.stack;
      if i < |w.stack| {
        assert w1.stack[i] == w.stack[i];
      }
    }
  }

  // A stack entry numbered below x sits below x.
  lemma StackBelow(w: Walk, below: seq<Node>, v: Node, x: Node)
    requires Basic(w) && below <= w.stack && |below| < |w.stack| && w.stack[|below|] == x
    requires v in w.stack && w.indexes[v] < w.indexes[x]
    ensures v in below
  {
    var k :| 0 <= k < |w.stack| && w.stack[k] == v;
    assert k < |below|;
    assert below[k] == v;
  }

  lemma AfterStackEdge(g: Graph, w0: Walk, w: Walk, x: Node, t: Node, gray: set<Node>, done: set<Node>)
    requires Scanning(g, w0, w, x, gray, done)
    requires t in Successors(g, x) && t in w.stack
    ensures t in w.indexes
    ensures Scanning(g, w0, w.(lows := w.lows[x := Min2(w.lows[x], w.indexes[t])]), x, gray, done + {t})
  {
    if w.indexes[t] < w.lows[x] {
      StackBelow(w, w0.stack, t, x);
      ReachEdge(g, x, t);
    }
    SetLow(g, w0, w, x, gray, done + {t}, Min2(w.lows[x], w.indexes[t]));
  }

  lemma AfterEmittedEdge(g: Graph, w0: Walk, w: Walk, x: Node, t: Node, gray: set<Node>, done: set<Node>)
    requires Scanning(g, w0, w, x, gray, done)
    requires t in w.indexes && t !in w.stack
    ensures Scanning(g, w0, w, x, gray, done + {t})
  {
    assert forall v :: v in w0.stack ==> v in w.stack;
  }

  // Emitted nodes are closed under successors.
  lemma EmittedClosed(g: Graph, w: Walk)
    requires Basic(w) && Components(g, w.result)
    ensures Closed(g, set v | v in w.indexes && v !in w.stack)
  {
    forall u, v | u in w.indexes && u !in w.stack && v in Successors(g, u)
      ensures Emitted(w.result, v)
    {
      assert Emitted(w.result, u);
      var k :| 0 <= k < |w.result| && u in w.result[k];
      assert Emitted(w.result[..k + 1], v);
      var j :| 0 <= j < k + 1 && v in w.result[j];
    }
  }

  lemma PopEdges(g: Graph, w0: Walk, w: Walk, x: Node, gray: set<Node>, c: seq<Node>, u: Node, v: Node)
    requires Scanning(g, w0, w, x, gray, Successors(g, x)) && w.lows[x] == w.indexes[x]
    requires forall n :: n in c <==> n in w.stack[|w0.stack|..]
    requires u in c && v in Successors(g, u)
    ensures v in w.indexes && v !in w0.stack && (v in c || Emitted(w.result, v))
  {
    hide Inv, ScanLow, Extends, Emitted;
    OffStack(g, w0, w, x, gray, u, v);
    VisitedSplit(g, w, gray + {x}, v);
    StackPrefix(g, w0, w, x, gray);
    assert w.stack == w0.stack + w.stack[|w0.stack|..];
  }

  lemma VisitedSplit(g: Graph, w: Walk, gray: set<Node>, v: Node)
    requires Inv(g, w, gray) && v in w.indexes
    ensures v in w.stack || Emitted(w.result, v)
  {
  }

  // All successors handled and nothing lower reached: the entries from x upward
  // form one component.
  lemma PopIsScc(g: Graph, w0: Walk, w: Walk, x: Node, gray: set<Node>, c: seq<Node>)
    requires Scanning(g, w0, w, x, gray, Successors(g, x)) && w.lows[x] == w.indexes[x]
    requires |c| > 0 && forall v :: v in c <==> v in w.stack[|w0.stack|..]
    ensures IsScc(g, c)
  {
    var emitted := set v | v in w.indexes && v !in w.stack;
    EmittedClosed(g, w);
    PopMembers(w0, w, c);
    forall u, v | u in c && v in Successors(g, u)
      ensures v in c || v in emitted
    {
      PopEdges(g, w0, w, x, gray, c, u, v);
      PopSplit(w0, w, c, v);
    }
    forall u | u in c
      ensures Reach(g, u, x) && Reach(g, x, u)
    {
      ReachesRoot(g, w0, w, x, gray, u);
    }
    MutualWithin(g, x, c, emitted);
  }

  lemma PopMembers(w0: Walk, w: Walk, c: seq<Node>)
    requires Basic(w) && w0.stack <= w.stack
    requires forall v :: v in c <==> v in w.stack[|w0.stack|..]
    ensures forall v :: v in c ==> v in w.indexes && v in w.stack
  {
  }

  lemma PopSplit(w0: Walk, w: Walk, c: seq<Node>, v: Node)
    requires w0.stack <= w.stack && v !in w0.stack && v in w.indexes
    requires forall v :: v in c <==> v in w.stack[|w0.stack|..]
    ensures v in c || (v in w.indexes && v !in w.stack)
  {
    assert w.stack == w0.stack + w.stack[|w0.stack|..];
  }

  // A set of nodes mutually reachable with x, whose edges otherwise lead into a
  // closed set elsewhere, is a whole component.
  lemma MutualWithin(g: Graph, x: Node, c: seq<Node>, elsewhere: set<Node>)
    requires |c| > 0 && Closed(g, elsewhere)
    requires forall u :: u in c ==> u !in elsewhere && Reach(g, u, x) && Reach(g, x, u)
    requires forall u, v :: u in c && v in Successors(g, u) ==> v in c || v in elsewhere
    ensures IsScc(g, c)
  {
    var region := (set v | v in c) + elsewhere;
    assert Closed(g, region);
    forall u, v | u in c
      ensures v in c <==> Reach(g, u, v) && Reach(g, v, u)
    {
      if v in c {
        ReachTrans(g, u, x, v);
        ReachTrans(g, v, x, u);
      } else if Reach(g, u, v) {
        ReachStaysClosed(g, region, u, v);
        if Reach(g, v, u) {
          ReachStaysClosed(g, elsewhere, v, u);
        }
      }
    }
  }

  lemma OffStack(g: Graph, w0: Walk, w: Walk, x: Node, gray: set<Node>, u: Node, v: Node)
    requires Scanning(g, w0, w, x, gray, Successors(g, x)) && w.lows[x] == w.indexes[x]
    requires u in w.stack[|w0.stack|..] && v in Successors(g, u)
    ensures v in w.indexes && v !in w0.stack
  {
    hide StackReach, GrayBelow, Components, LowReached, Emitted, Disjoint, Reach, Successors;
    var b := |w0.stack|;
    var i :| b <= i < |w.stack| && w.stack[i] == u;
    if i > b {
      assert w.indexes[w.stack[b]] < w.indexes[u];
      GrayAtMost(g, w0, w, x, gray);
      assert u !in gray;
    }
    if v in w0.stack {
      BelowIsLower(w0, w, x, v);
    }
  }

  // What lies below x is numbered lower.
  lemma BelowIsLower(w0: Walk, w: Walk, x: Node, v: Node)
    requires Basic(w) && w0.stack <= w.stack && |w0.stack| < |w.stack| && w.stack[|w0.stack|] == x && v in w0.stack
    ensures v in w.indexes && x in w.indexes && w.indexes[v] < w.indexes[x]
  {
    hide Emitted, Disjoint;
    var k :| 0 <= k < |w0.stack| && w0.stack[k] == v;
    assert w.stack[k] == v;
  }

  // Unfinished nodes are x and entries below it.
  lemma GrayAtMost(g: Graph, w0: Walk, w: Walk, x: Node, gray: set<Node>)
    requires Scanning(g, w0, w, x, gray, Successors(g, x))
    ensures forall j :: 0 <= j < |w.stack| && w.stack[j] in gray + {x} ==> j <= |w0.stack|
  {
    hide ScanLow, NoBlackToWhite, StackReach, GrayBelow, Components;
    Numbered(w);
    forall j | 0 <= j < |w.stack| && w.stack[j] in gray + {x}
      ensures j <= |w0.stack|
    {
      if w.stack[j] in gray {
        var k :| 0 <= k < |w0.stack| && w0.stack[k] == w.stack[j];
        assert w.stack[k] == w.stack[j];
      }
    }
  }

  lemma Numbered(w: Walk)
    requires Basic(w)
    ensures NoRepeats(w.stack)
  {
  }

  lemma ReachesRoot(g: Graph, w0: Walk, w: Walk, x: Node, gray: set<Node>, u: Node)
    requires Scanning(g, w0, w, x, gray, Successors(g, x))
    requires u in w.stack[|w0.stack|..]
    ensures Reach(g, u, x) && Reach(g, x, u)
  {
    var b := |w0.stack|;
    var i :| b <= i < |w.stack| && w.stack[i] == u;
    GrayAtMost(g, w0, w, x, gray);
    GrayReaches(g, w.stack, gray + {x}, i, b);
  }

  lemma PopNoBlackToWhite(g: Graph, w0: Walk, w: Walk, x: Node, gray: set<Node>, w': Walk)
    requires Scanning(g, w0, w, x, gray, Successors(g, x)) && w'.indexes == w.indexes
    ensures NoBlackToWhite(g, w', gray)
  {
  }

  lemma PopPost(g: Graph, w0: Walk, w: Walk, x: Node, c: seq<Node>)
    requires forall v :: v in w0.stack ==> v in w0.indexes
    requires ScanShape(g, w0, w, x, Successors(g, x)) && w.lows[x] == w.indexes[x]
    ensures VisitPost(g, w0, w.(stack := w0.stack, result := w.result + [c]), x)
  {
  }

  lemma PopKeepsInv(g: Graph, w0: Walk, w: Walk, x: Node, gray: set<Node>, c: seq<Node>)
    requires Scanning(g, w0, w, x, gray, Successors(g, x)) && w.lows[x] == w.indexes[x]
    requires |c| > 0 && forall v :: v in c <==> v in w.stack[|w0.stack|..]
    ensures Inv(g, w.(stack := w0.stack, result := w.result + [c]), gray)
    ensures VisitPost(g, w0, w.(stack := w0.stack, result := w.result + [c]), x)
  {
    hide ScanLow, Basic, NoBlackToWhite, StackReach, GrayBelow, Components, IsScc, VisitPost, Extends;
    var w' := w.(stack := w0.stack, result := w.result + [c]);
    PopIsScc(g, w0, w, x, gray, c);
    StackPrefix(g, w0, w, x, gray);
    PopBasic(w0, w, x, c);
    PopNoBlackToWhite(g, w0, w, x, gray, w');
    forall u, v | u in c && v in Successors(g, u)
      ensures v in c || Emitted(w.result, v)
    {
      PopEdges(g, w0, w, x, gray, c, u, v);
    }
    PopComponents(g, w.result, c);
    PopPost(g, w0, w, x, c);
  }

  lemma StackPrefix(g: Graph, w0: Walk, w: Walk, x: Node, gray: set<Node>)
    requires Scanning(g, w0, w, x, gray, Successors(g, x))
    ensures w0.stack <= w.stack
    ensures forall v :: v in w0.stack ==> v in w0.indexes
  {
  }

  lemma PopBasic(w0: Walk, w: Walk, x: Node, c: seq<Node>)
    requires Basic(w) && w0.stack <= w.stack
    requires forall v :: v in c <==> v in w.stack[|w0.stack|..]
    ensures Basic(w.(stack := w0.stack, result := w.result + [c]))
  {
    hide Emitted, Disjoint;
    var r' := w.result + [c];
    forall v
      ensures Emitted(r', v) <==> Emitted(w.result, v) || v in c
      ensures v in w.stack <==> v in w0.stack || v in c
    {
      EmittedSnoc(w.result, c, v);
      StackSplit(w0.stack, w.stack, c, v);
    }
    forall v | v in w0.stack
      ensures v !in c
    {
      BelowNotAbove(w, w0.stack, c, v);
    }
    PopOnce(w.result, c);
  }

  lemma StackSplit(below: seq<Node>, stack: seq<Node>, c: seq<Node>, v: Node)
    requires below <= stack && forall u :: u in c <==> u in stack[|below|..]
    ensures v in stack <==> v in below || v in c
  {
    assert stack == below + stack[|below|..];
  }

  lemma BelowNotAbove(w: Walk, below: seq<Node>, c: seq<Node>, v: Node)
    requires Basic(w) && below <= w.stack && v in below
    requires forall u :: u in c <==> u in w.stack[|below|..]
    ensures v !in c
  {
    hide Emitted, Disjoint;
    Numbered(w);
    var i :| 0 <= i < |below| && below[i] == v;
    assert w.stack[i] == v;
  }

  lemma PopOnce(result: seq<seq<Node>>, c: seq<Node>)
    requires Disjoint(result) && forall v :: v in c ==> !Emitted(result, v)
    ensures Disjoint(result + [c])
  {
    var r' := result + [c];
    forall j, k, v | 0 <= j < k < |r'| && v in r'[j]
      ensures v !in r'[k]
    {
      assert r'[j] == result[j];
      if k == |result| && v in c {
        assert Emitted(result, v);
      }
    }
  }

  lemma EmittedSnoc(result: seq<seq<Node>>, c: seq<Node>, v: Node)
    ensures Emitted(result + [c], v) <==> Emitted(result, v) || v in c
  {
    var r' := result + [c];
    if Emitted(result, v) {
      var k :| 0 <= k < |result| && v in result[k];
      assert v in r'[k];
    }
    if v in c {
      assert v in r'[|result|];
    }
  }

  lemma PopComponents(g: Graph, result: seq<seq<Node>>, c: seq<Node>)
    requires Components(g, result) && IsScc(g, c)
    requires forall u, v :: u in c && v in Successors(g, u) ==> v in c || Emitted(result, v)
    ensures Components(g, result + [c])
  {
    var r' := result + [c];
    forall k, u, v | 0 <= k < |r'| && u in r'[k] && v in Successors(g, u)
      ensures Emitted(r'[..k + 1], v)
    {
      if k < |result| {
        assert r'[..k + 1] == result[..k + 1];
        assert Emitted(result[..k + 1], v);
      } else {
        assert r'[..k + 1] == result + [c];
        EmittedSnoc(result, c, v);
      }
    }
  }

  lemma StayGray(g: Graph, w0: Walk, w: Walk, x: Node, gray: set<Node>, i: nat)
    requires Scanning(g, w0, w, x, gray, Successors(g, x)) && w.lows[x] < w.indexes[x]
    requires i < |w.stack|
    ensures HasGray(g, w.stack, gray, i)
  {
    hide Basic, Components, NoBlackToWhite, LowBound;
    var b := |w0.stack|;
    var i0 := i;
    if i >= b {
      var v :| v in w0.stack && w.indexes[v] == w.lows[x] && Reach(g, x, v);
      i0 :| 0 <= i0 < b && w0.stack[i0] == v;
      GrayAtMost(g, w0, w, x, gray);
      GrayReaches(g, w.stack, gray + {x}, i, b);
      ReachTrans(g, w.stack[i], x, v);
    } else {
      ReachRefl(g, w.stack[i]);
    }
    assert HasGray(g, w0.stack, gray, i0);
    var j: nat :| GrayWitness(g, w0.stack, gray, i0, j);
    ReachTrans(g, w.stack[i], w0.stack[i0], w.stack[j]);
    assert GrayWitness(g, w.stack, gray, i, j);
  }

  lemma StayPost(g: Graph, w0: Walk, w: Walk, x: Node)
    requires forall v :: v in w0.stack ==> v in w0.indexes
    requires ScanShape(g, w0, w, x, Successors(g, x)) && ScanLow(g, w0, w, x, Successors(g, x), w.lows[x])
    ensures VisitPost(g, w0, w, x)
  {
  }

  // All successors handled and something lower reached: x stays on the stack.
  lemma StayKeepsInv(g: Graph, w0: Walk, w: Walk, x: Node, gray: set<Node>)
    requires Scanning(g, w0, w, x, gray, Successors(g, x)) && w.lows[x] < w.indexes[x]
    ensures Inv(g, w, gray) && VisitPost(g, w0, w, x)
  {
    hide Basic, StackReach, Components, HasGray, ScanLow, VisitPost;
    forall i | 0 <= i < |w.stack|
      ensures HasGray(g, w.stack, gray, i)
    {
      StayGray(g, w0, w, x, gray, i);
    }
    StackPrefix(g, w0, w, x, gray);
    StayPost(g, w0, w, x);
  }

  ghost predicate Reachable(g: Graph, nodes: set<Node>, x: Node) {
    exists r :: r in nodes && Reach(g, r, x)
  }

  // What the finished walk delivers for a set of start nodes.
  ghost predicate Correct(g: Graph, nodes: set<Node>, result: seq<seq<Node>>) {
    && (forall x :: Emitted(result, x) <==> Reachable(g, nodes, x))
    && Disjoint(result)
    && (forall k :: 0 <= k < |result| ==> IsScc(g, result[k]) && StrictlyAscending(result[k]))
    && (forall k, x, y :: 0 <= k < |result| && x in result[k] && y in Successors(g, x) ==>
          Emitted(result[..k + 1], y))
  }

  class ComponentWalk {
    const adjacency: Graph
    var index: nat
    var stack: seq<Node>
    var onStack: set<Node>
    var indexes: map<Node, nat>
    var lows: map<Node, nat>
    var result: seq<seq<Node>>

    ghost function View(): Walk
      reads this
    {
      Walk(index, stack, indexes, lows, result)
    }

    ghost predicate Valid()
      reads this
    {
      && (forall x :: x in onStack <==> x in stack)
      && (forall k :: 0 <= k < |result| ==> StrictlyAscending(result[k]))
    }

    constructor (g: Graph)
      ensures adjacency == g
      ensures Valid() && View() == Walk(0, [], map[], map[], [])
    {
      adjacency := g;
      index, stack, onStack, indexes, lows, result := 0, [], {}, map[], map[], [];
    }

    // Pops the stack down to `node` and emits what was popped.
    method PopComponent(node: Node, ghost b: nat) returns (ghost c: seq<Node>)
      requires Valid() && NoRepeats(stack)
      requires b < |stack| && stack[b] == node
      modifies this
      ensures Valid()
      ensures |c| > 0 && forall v :: v in c <==> v in old(stack[b..])
      ensures View() == old(View()).(stack := old(stack[..b]), result := old(result) + [c])
    {
      hide NoRepeats, StrictlyAscending, PopState;
      ghost var w := View();
      var component: set<Node> := {};
      PopStarts(stack, onStack);
      while true
        invariant PopState(w.stack, stack, onStack, component) && b < |stack| <= |w.stack|
        invariant View() == w.(stack := stack)
        decreases |stack|
      {
        var member := stack[|stack| - 1];
        PopOne(w.stack, stack, onStack, component, b);
        stack, onStack, component := stack[..|stack| - 1], onStack - {member}, component + {member};
        if member == node {
          break;
        }
      }
      var sorted := Sorted(component);
      c := sorted;
      PopEnds(w.stack, stack, onStack, component, b);
      result := result + [sorted];
    }

    method Visit(node: Node, ghost gray: set<Node>, ghost universe: set<Node>)
      requires Valid() && Inv(adjacency, View(), gray)
      requires node !in indexes && node in universe
      requires Closed(adjacency, universe) && indexes.Keys <= universe
      requires forall y :: y in gray ==> Reach(adjacency, y, node)
      modifies this
      ensures Valid() && Inv(adjacency, View(), gray)
      ensures VisitPost(adjacency, old(View()), View(), node)
      ensures indexes.Keys <= universe
      decreases universe - indexes.Keys, 0
    {
      hide Inv, Scanning, ScanShape, ScanLow, VisitPost, Extends;
      ghost var w0 := View();
      PushScans(adjacency, w0, node, gray);
      ReachRefl(adjacency, node);
      indexes, lows := indexes[node := index], lows[node := index];
      index := index + 1;
      stack, onStack := stack + [node], onStack + {node};
      var targets := Sorted(Successors(adjacency, node));
      ghost var done: set<Node> := {};
      for k := 0 to |targets|
        invariant Valid() && indexes.Keys <= universe
        invariant forall v :: v in done <==> v in targets[..k]
        invariant Scanning(adjacency, w0, View(), node, gray, done)
      {
        var target := targets[k];
        ScanBasics(adjacency, w0, View(), node, gray, done);
        ScanTarget(node, target, w0, gray, done, universe);
        done := done + {target};
      }
      assert targets[..|targets|] == targets;
      assert done == Successors(adjacency, node);
      CloseVisit(node, w0, gray);
    }

    // One edge node -> target of the scan.
    method ScanTarget(node: Node, target: Node, ghost w0: Walk, ghost gray: set<Node>,
                      ghost done: set<Node>, ghost universe: set<Node>)
      requires Valid() && Scanning(adjacency, w0, View(), node, gray, done)
      requires target in Successors(adjacency, node) && node in universe
      requires Closed(adjacency, universe) && indexes.Keys <= universe
      requires forall y :: y in gray ==> Reach(adjacency, y, node)
      modifies this
      ensures Valid() && Scanning(adjacency, w0, View(), node, gray, done + {target})
      ensures indexes.Keys <= universe
      decreases universe - indexes.Keys, 1
    {
      hide Inv, Scanning, ScanShape, ScanLow, VisitPost, Extends;
      ghost var w := View();
      ScanBasics(adjacency, w0, w, node, gray, done);
      if target !in indexes {
        ReachEdge(adjacency, node, target);
        forall y | y in gray
          ensures Reach(adjacency, y, target)
        {
          ReachTrans(adjacency, y, node, target);
        }
        Visit(target, gray + {node}, universe);
        AfterVisit(adjacency, w0, w, View(), node, target, gray, done);
        lows := lows[node := Min2(lows[node], lows[target])];
      } else if target in onStack {
        AfterStackEdge(adjacency, w0, w, node, target, gray, done);
        lows := lows[node := Min2(lows[node], indexes[target])];
      } else {
        AfterEmittedEdge(adjacency, w0, w, node, target, gray, done);
      }
    }

    // The end of a visit: emit a component when `node` is its root.
    method CloseVisit(node: Node, ghost w0: Walk, ghost gray: set<Node>)
      requires Valid()
      requires Scanning(adjacency, w0, View(), node, gray, Successors(adjacency, node))
      modifies this
      ensures Valid() && Inv(adjacency, View(), gray)
      ensures VisitPost(adjacency, w0, View(), node)
      ensures indexes == old(indexes)
    {
      hide Inv, ScanLow, VisitPost, Extends;
      ghost var w := View();
      ScanFacts(adjacency, w0, w, node, gray, Successors(adjacency, node));
      if lows[node] != indexes[node] {
        StayKeepsInv(adjacency, w0, w, node, gray);
        return;
      }
      ghost var c := PopComponent(node, |w0.stack|);
      PopKeepsInv(adjacency, w0, w, node, gray, c);
    }
  }

  lemma ScanBasics(g: Graph, w0: Walk, w: Walk, x: Node, gray: set<Node>, done: set<Node>)
    requires Scanning(g, w0, w, x, gray, done)
    ensures Inv(g, w, gray + {x})
    ensures x in w.lows && x in w.indexes && x !in w0.indexes
    ensures w0.indexes.Keys <= w.indexes.Keys
  {
  }

  lemma ScanFacts(g: Graph, w0: Walk, w: Walk, x: Node, gray: set<Node>, done: set<Node>)
    requires Scanning(g, w0, w, x, gray, done)
    ensures NoRepeats(w.stack)
    ensures w.lows[x] <= w.indexes[x]
    ensures w.stack[..|w0.stack|] == w0.stack
  {
  }

  lemma GrayIfStacked(g: Graph, stack: seq<Node>, gray: set<Node>)
    requires GrayBelow(g, stack, gray)
    ensures stack != [] ==> gray != {}
  {
    if stack != [] {
      assert HasGray(g, stack, gray, 0);
    }
  }

  // With nothing unfinished, what has been visited is closed and all emitted.
  lemma FinishedWalk(g: Graph, w: Walk, nodes: set<Node>)
    requires Inv(g, w, {}) && nodes <= w.indexes.Keys
    requires forall x :: x in w.indexes ==> Reachable(g, nodes, x)
    ensures w.stack == []
    ensures forall x :: Emitted(w.result, x) <==> Reachable(g, nodes, x)
    ensures Disjoint(w.result) && Components(g, w.result)
  {
    hide GrayBelow, StackReach, Components, Reach, Emitted, Disjoint;
    GrayIfStacked(g, w.stack, {});
    assert Closed(g, w.indexes.Keys);
    forall r, x | r in nodes && Reach(g, r, x)
      ensures x in w.indexes
    {
      ReachStaysClosed(g, w.indexes.Keys, r, x);
    }
  }

  lemma EmptyWalk(g: Graph)
    ensures Inv(g, Walk(0, [], map[], map[], []), {})
  {
  }

  ghost function Universe(g: Graph, nodes: set<Node>): set<Node> {
    nodes + g.Keys + (set x, y | x in g && y in g[x] :: y)
  }

  lemma UniverseClosed(g: Graph, nodes: set<Node>)
    ensures Closed(g, Universe(g, nodes)) && nodes <= Universe(g, nodes)
  {
  }

  lemma GrowReached(g: Graph, nodes: set<Node>, w0: Walk, w: Walk, x: Node)
    requires x in nodes && VisitPost(g, w0, w, x)
    requires forall y :: y in w0.indexes ==> Reachable(g, nodes, y)
    ensures forall y :: y in w.indexes ==> Reachable(g, nodes, y)
    ensures w0.indexes.Keys + {x} <= w.indexes.Keys
  {
  }

  // All components reachable from `nodes`, callees before callers.
  method StronglyConnected(nodes: set<Node>, g: Graph) returns (components: seq<seq<Node>>)
    ensures Correct(g, nodes, components)
  {
    hide Inv, VisitPost, Closed, Reachable, Universe;
    var walk := new ComponentWalk(g);
    EmptyWalk(g);
    UniverseClosed(g, nodes);
    var order := Sorted(nodes);
    ghost var universe := Universe(g, nodes);
    var k := 0;
    while k < |order|
      invariant k <= |order|
      invariant walk.adjacency == g && walk.Valid() && fresh(walk)
      invariant Inv(g, walk.View(), {})
      invariant walk.indexes.Keys <= universe
      invariant forall i :: 0 <= i < k ==> order[i] in walk.indexes
      invariant forall x :: x in walk.indexes ==> Reachable(g, nodes, x)
    {
      if order[k] !in walk.indexes {
        ghost var w0 := walk.View();
        walk.Visit(order[k], {}, universe);
        GrowReached(g, nodes, w0, walk.View(), order[k]);
      }
      k := k + 1;
    }
    assert nodes <= walk.indexes.Keys;
    FinishedWalk(g, walk.View(), nodes);
    components := walk.result;
  }

  // Partway through a pop: `component` holds exactly the entries already removed.
  ghost predicate PopState(full: seq<Node>, stack: seq<Node>, onStack: set<Node>, component: set<Node>) {
    && |stack| <= |full| && stack == full[..|stack|]
    && (forall v :: v in component <==> v in full[|stack|..])
    && (forall v :: v in onStack <==> v in stack)
  }

  lemma PopOne(full: seq<Node>, stack: seq<Node>, onStack: set<Node>, component: set<Node>, b: nat)
    requires NoRepeats(full) && PopState(full, stack, onStack, component) && b < |stack|
    ensures var n := |stack| - 1;
            && PopState(full, stack[..n], onStack - {stack[n]}, component + {stack[n]})
            && (stack[n] == full[b] <==> n == b)
  {
    var n := |stack| - 1;
    assert stack[n] == full[n];
    assert full[n..] == [stack[n]] + full[n + 1..];
    assert stack == stack[..n] + [stack[n]];
  }

  lemma PopStarts(full: seq<Node>, onStack: set<Node>)
    requires forall v :: v in onStack <==> v in full
    ensures PopState(full, full, onStack, {})
  {
  }

  lemma PopEnds(full: seq<Node>, stack: seq<Node>, onStack: set<Node>, component: set<Node>, b: nat)
    requires PopState(full, stack, onStack, component) && |stack| == b < |full|
    ensures stack == full[..b] && full[b] in component
    ensures forall v :: v in component <==> v in full[b..]
    ensures forall v :: v in onStack <==> v in stack
  {
    assert full[b..][0] == full[b];
  }

  ghost predicate NoRepeats(s: seq<Node>) {
    forall i, j :: 0 <= i < j < |s| ==> s[i] != s[j]
  }

  // The solver's `recursive` flag: a component of several members, or a self edge.
  predicate FlaggedRecursive(g: Graph, component: seq<Node>, x: Node) {
    |component| > 1 || x in Successors(g, x)
  }

  lemma RecursiveIffOnCycle(g: Graph, nodes: set<Node>, result: seq<seq<Node>>, k: nat, x: Node)
    requires Correct(g, nodes, result) && k < |result| && x in result[k]
    ensures FlaggedRecursive(g, result[k], x) <==> OnCycle(g, x)
  {
    var c := result[k];
    ReachRefl(g, x);
    if |c| > 1 {
      var y := if c[0] == x then c[1] else c[0];
      assert y in c && y != x;
      var z := ReachSplit(g, x, y);
      ReachTrans(g, z, y, x);
    }
    if OnCycle(g, x) {
      var y :| y in Successors(g, x) && Reach(g, y, x);
      ReachEdge(g, x, y);
      assert y in c;
      if |c| == 1 {
        assert c[0] == x && c[0] == y;
      }
    }
  }

  // An edge never leads to a component emitted later; one that leaves its component leads to
  // one emitted strictly earlier.
  lemma CrossEdgesPointBack(g: Graph, nodes: set<Node>, result: seq<seq<Node>>, j: nat, k: nat, x: Node, y: Node)
    requires Correct(g, nodes, result) && j < |result| && k < |result|
    requires x in result[k] && y in result[j] && y in Successors(g, x)
    ensures j <= k && (y !in result[k] ==> j < k)
  {
    assert Emitted(result[..k + 1], y);
    var i :| 0 <= i < k + 1 && y in result[..k + 1][i];
    assert y in result[i];
  }
}
