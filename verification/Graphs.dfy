/** Finite directed graphs: paths, reachability and acyclicity. In the blocked-by graph of the task store an edge
    (a, b) says that task a is blocked by task b; in the include graph of a source tree, that header a includes b. */
module Graphs {
  type Id = string
  type Edges = set<(Id, Id)>

  /** A walk of one or more edges. */
  ghost predicate IsPath(edges: Edges, p: seq<Id>) {
    |p| >= 2 && forall i :: 0 <= i < |p| - 1 ==> (p[i], p[i + 1]) in edges
  }

  ghost predicate Connects(edges: Edges, p: seq<Id>, a: Id, b: Id) {
    IsPath(edges, p) && p[0] == a && p[|p| - 1] == b
  }

  /** b can be reached from a in one or more steps. */
  ghost predicate Reaches(edges: Edges, a: Id, b: Id) {
    exists p :: Connects(edges, p, a, b)
  }

  ghost predicate Acyclic(edges: Edges) {
    forall x: Id :: !Reaches(edges, x, x)
  }

  /** The nodes one step from x. */
  function Successors(edges: Edges, x: Id): set<Id> {
    set e | e in edges && e.0 == x :: e.1
  }

  /** Every node some edge leads to. */
  function Targets(edges: Edges): set<Id> {
    set e | e in edges :: e.1
  }

  lemma EdgeReaches(edges: Edges, a: Id, b: Id)
    requires (a, b) in edges
    ensures Reaches(edges, a, b)
  {
    assert Connects(edges, [a, b], a, b);
  }

  lemma ReachesTransitive(edges: Edges, a: Id, b: Id, c: Id)
    requires Reaches(edges, a, b) && Reaches(edges, b, c)
    ensures Reaches(edges, a, c)
  {
    var p :| Connects(edges, p, a, b);
    var q :| Connects(edges, q, b, c);
    var r := p + q[1..];
    forall i | 0 <= i < |r| - 1
      ensures (r[i], r[i + 1]) in edges
    {
      if i >= |p| - 1 {
        assert r[i] == q[i - (|p| - 1)] && r[i + 1] == q[i + 1 - (|p| - 1)];
      }
    }
    assert Connects(edges, r, a, c);
  }

  lemma ReachesMonotone(small: Edges, big: Edges, a: Id, b: Id)
    requires small <= big && Reaches(small, a, b)
    ensures Reaches(big, a, b)
  {
    var p :| Connects(small, p, a, b);
    assert Connects(big, p, a, b);
  }

  /** Dropping edges cannot create a cycle. */
  lemma SubgraphAcyclic(small: Edges, big: Edges)
    requires small <= big && Acyclic(big)
    ensures Acyclic(small)
  {
    forall x: Id | Reaches(small, x, x)
      ensures false
    {
      ReachesMonotone(small, big, x, x);
    }
  }

  /** A path is its first edge followed by nothing or by a shorter path. */
  lemma FirstStep(edges: Edges, p: seq<Id>, a: Id, c: Id)
    requires Connects(edges, p, a, c)
    ensures (a, p[1]) in edges
    ensures |p| > 2 ==> Connects(edges, p[1..], p[1], c)
    ensures |p| == 2 ==> p[1] == c
  {
    assert (p[0], p[0 + 1]) in edges;
    if |p| > 2 {
      var q := p[1..];
      forall i | 0 <= i < |q| - 1
        ensures (q[i], q[i + 1]) in edges
      {
        assert (p[i + 1], p[i + 1 + 1]) in edges;
      }
    }
  }

  lemma EmptyAcyclic()
    ensures Acyclic({})
  {
    forall x: Id
      ensures !Reaches({}, x, x)
    {
      if Reaches({}, x, x) {
        var p :| Connects({}, p, x, x);
        FirstStep({}, p, x, x);
      }
    }
  }

  ghost predicate ReachesOrIs(edges: Edges, a: Id, b: Id) {
    a == b || Reaches(edges, a, b)
  }

  /** What one more edge (t, b) adds to reachability: walks that get to t, cross it, and go on from b. */
  lemma {:induction false} PathOverNewEdge(edges: Edges, t: Id, b: Id, p: seq<Id>, x: Id, y: Id)
    requires Connects(edges + {(t, b)}, p, x, y)
    ensures Reaches(edges, x, y) || (ReachesOrIs(edges, x, t) && ReachesOrIs(edges, b, y))
    decreases |p|
  {
    var bigger := edges + {(t, b)};
    FirstStep(bigger, p, x, y);
    var m := p[1];
    if |p| > 2 {
      PathOverNewEdge(edges, t, b, p[1..], m, y);
    }
    if (x, m) in edges {
      EdgeReaches(edges, x, m);
      if |p| > 2 {
        if Reaches(edges, m, y) {
          ReachesTransitive(edges, x, m, y);
        } else if m != t {
          ReachesTransitive(edges, x, m, t);
        }
      }
    } else {
      assert (x, m) == (t, b);
    }
  }

  /** Adding (t, b) to an acyclic graph closes a cycle exactly when t is b or b already reaches t. */
  lemma AddEdgeClosesCycleIff(edges: Edges, t: Id, b: Id)
    requires Acyclic(edges)
    ensures !Acyclic(edges + {(t, b)}) <==> ReachesOrIs(edges, b, t)
  {
    var bigger := edges + {(t, b)};
    if ReachesOrIs(edges, b, t) {
      EdgeReaches(bigger, t, b);
      if t != b {
        ReachesMonotone(edges, bigger, b, t);
        ReachesTransitive(bigger, t, b, t);
      }
      assert Reaches(bigger, t, t);
    }
    if !Acyclic(bigger) {
      var x: Id :| Reaches(bigger, x, x);
      var p :| Connects(bigger, p, x, x);
      PathOverNewEdge(edges, t, b, p, x, x);
      if b != x && x != t {
        ReachesTransitive(edges, b, x, t);
      }
    }
  }

  /** A set that holds the successors of a and is closed under successors holds all that a can reach. */
  lemma {:induction false} ClosedSetHoldsPath(edges: Edges, closed: set<Id>, p: seq<Id>, a: Id, c: Id)
    requires Successors(edges, a) <= closed
    requires forall x :: x in closed ==> Successors(edges, x) <= closed
    requires Connects(edges, p, a, c)
    ensures c in closed
    decreases |p|
  {
    FirstStep(edges, p, a, c);
    assert p[1] in Successors(edges, a);
    if |p| > 2 {
      ClosedSetHoldsPath(edges, closed, p[1..], p[1], c);
    }
  }

  ghost predicate SinkWithin(edges: Edges, pool: set<Id>, x: Id) {
    x in pool && Successors(edges, x) !! pool
  }

  /** In an acyclic graph every non-empty set of nodes has a member none of whose successors is in the set. */
  lemma {:induction false} SomeSink(edges: Edges, pool: set<Id>, all: set<Id>) returns (m: Id)
    requires Acyclic(edges) && pool != {} && pool <= all
    requires forall x, y :: x in pool && y in all && Reaches(edges, x, y) ==> y in pool
    ensures SinkWithin(edges, all, m) && m in pool
    decreases |pool|
  {
    var x :| x in pool;
    var below := set y | y in pool && Reaches(edges, x, y);
    if below == {} {
      forall y | y in Successors(edges, x)
        ensures y !in all
      {
        EdgeReaches(edges, x, y);
        assert y in all ==> y in below;
      }
      m := x;
    } else {
      assert x !in below;
      assert |below| < |pool| by { StrictSubsetSmaller(below, pool, x); }
      forall u, v | u in below && v in all && Reaches(edges, u, v)
        ensures v in below
      {
        ReachesTransitive(edges, x, u, v);
      }
      m := SomeSink(edges, below, all);
    }
  }

  lemma StrictSubsetSmaller<T>(small: set<T>, big: set<T>, x: T)
    requires small <= big && x in big && x !in small
    ensures |small| < |big|
  {
    assert small <= big - {x};
    SubsetSize(small, big - {x});
  }

  lemma {:induction false} SubsetSize<T>(small: set<T>, big: set<T>)
    requires small <= big
    ensures |small| <= |big|
  {
    if small != {} {
      var x :| x in small;
      SubsetSize(small - {x}, big - {x});
    }
  }
}
