/** Directed edges, walks along them, and cycles. Concepts are numbered. */
module Walks {
  import Base

  type Node = nat
  type Edge = (Node, Node)

  ghost predicate IsWalk(edges: set<Edge>, p: seq<Node>) {
    p != [] && forall i :: 0 <= i < |p| - 1 ==> (p[i], p[i + 1]) in edges
  }

  /** A walk of between one and `limit` edges. */
  ghost predicate WalkTo(edges: set<Edge>, a: Node, b: Node, p: seq<Node>, limit: nat) {
    IsWalk(edges, p) && 2 <= |p| <= limit + 1 && p[0] == a && p[|p| - 1] == b
  }

  ghost predicate ReachesWithin(edges: set<Edge>, a: Node, b: Node, limit: nat) {
    exists p :: WalkTo(edges, a, b, p, limit)
  }

  ghost predicate Reaches(edges: set<Edge>, a: Node, b: Node) {
    exists limit: nat :: ReachesWithin(edges, a, b, limit)
  }

  ghost predicate Acyclic(edges: set<Edge>) {
    forall a :: !Reaches(edges, a, a)
  }

  lemma WalkReaches(edges: set<Edge>, p: seq<Node>)
    requires IsWalk(edges, p) && |p| >= 2
    ensures Reaches(edges, p[0], p[|p| - 1])
    ensures ReachesWithin(edges, p[0], p[|p| - 1], |p| - 1)
  {
    var limit: nat := |p| - 1;
    assert WalkTo(edges, p[0], p[|p| - 1], p, limit);
    assert ReachesWithin(edges, p[0], p[|p| - 1], limit);
  }

  lemma WalkOf(edges: set<Edge>, a: Node, b: Node) returns (p: seq<Node>)
    requires Reaches(edges, a, b)
    ensures |p| >= 2 && WalkTo(edges, a, b, p, |p| - 1)
  {
    var limit: nat :| ReachesWithin(edges, a, b, limit);
    p :| WalkTo(edges, a, b, p, limit);
  }

  /** A walk has a first and a last edge; a closed one goes on from its first step. */
  lemma WalkEnds(edges: set<Edge>, a: Node, b: Node) returns (next: Node, last: Node)
    requires Reaches(edges, a, b)
    ensures (a, next) in edges && (last, b) in edges
    ensures next == b || exists m :: (next, m) in edges
  {
    var p := WalkOf(edges, a, b);
    next, last := p[1], p[|p| - 2];
    assert (p[0], p[0 + 1]) in edges && (p[|p| - 2], p[|p| - 2 + 1]) in edges;
    if |p| > 2 {
      assert (p[1], p[1 + 1]) in edges;
    }
  }

  lemma WalkSnoc(edges: set<Edge>, p: seq<Node>, n: Node)
    requires IsWalk(edges, p) && (p[|p| - 1], n) in edges
    ensures IsWalk(edges, p + [n])
  {
    var r := p + [n];
    forall i | 0 <= i < |r| - 1 ensures (r[i], r[i + 1]) in edges {
      if i < |p| - 1 {
        assert r[i] == p[i] && r[i + 1] == p[i + 1];
      }
    }
  }

  lemma WalkPart(edges: set<Edge>, p: seq<Node>, i: nat, j: nat)
    requires IsWalk(edges, p) && i < j <= |p|
    ensures IsWalk(edges, p[i..j])
  {
  }

  lemma WalkConcat(edges: set<Edge>, p: seq<Node>, q: seq<Node>)
    requires IsWalk(edges, p) && IsWalk(edges, q) && p[|p| - 1] == q[0]
    ensures IsWalk(edges, p + q[1..])
    ensures (p + q[1..])[0] == p[0]
    ensures (p + q[1..])[|p + q[1..]| - 1] == q[|q| - 1]
  {
    var r := p + q[1..];
    forall i | 0 <= i < |r| - 1 ensures (r[i], r[i + 1]) in edges {
      if i >= |p| - 1 {
        assert r[i] == q[i - |p| + 1] && r[i + 1] == q[i - |p| + 2];
      }
    }
  }

  lemma ReachesTransitively(edges: set<Edge>, a: Node, b: Node, c: Node)
    requires Reaches(edges, a, b) && Reaches(edges, b, c)
    ensures Reaches(edges, a, c)
  {
    var p := WalkOf(edges, a, b);
    var q := WalkOf(edges, b, c);
    WalkConcat(edges, p, q);
    WalkReaches(edges, p + q[1..]);
  }

  lemma ReachesMonotone(small: set<Edge>, large: set<Edge>, a: Node, b: Node)
    requires small <= large && Reaches(small, a, b)
    ensures Reaches(large, a, b)
  {
    var p := WalkOf(small, a, b);
    WalkReaches(large, p);
  }

  lemma AcyclicSubset(small: set<Edge>, large: set<Edge>)
    requires small <= large && Acyclic(large)
    ensures Acyclic(small)
  {
    forall a ensures !Reaches(small, a, a) {
      if Reaches(small, a, a) {
        ReachesMonotone(small, large, a, a);
      }
    }
  }

  // ----- One more edge -----------------------------------------------------------------------

  /** The first visit to `s` of a walk from `t` uses no edge out of `s`. */
  lemma {:induction false} FirstVisit(edges: set<Edge>, s: Node, t: Node, p: seq<Node>)
    requires IsWalk(edges + {(s, t)}, p) && |p| >= 2 && p[|p| - 1] == s && p[0] != s
    ensures Reaches(edges, p[0], s)
    decreases |p|
  {
    assert (p[0], p[1]) in edges;
    if p[1] == s {
      assert IsWalk(edges, [p[0], s]);
      WalkReaches(edges, [p[0], s]);
    } else {
      WalkPart(edges + {(s, t)}, p, 1, |p|);
      assert p[1..|p|] == p[1..];
      FirstVisit(edges, s, t, p[1..]);
      assert IsWalk(edges, [p[0], p[1]]);
      WalkReaches(edges, [p[0], p[1]]);
      ReachesTransitively(edges, p[0], p[1], s);
    }
  }

  /** Up to its first visit to `s` a walk uses no edge out of `s`, so it needs no edge added there. */
  lemma {:induction false} FirstVisitWithin(edges: set<Edge>, s: Node, t: Node, p: seq<Node>)
    requires IsWalk(edges + {(s, t)}, p) && |p| >= 2 && p[|p| - 1] == s && p[0] != s
    ensures ReachesWithin(edges, p[0], s, |p| - 1)
    decreases |p|
  {
    assert (p[0], p[0 + 1]) in edges;
    if p[1] == s {
      assert WalkTo(edges, p[0], s, [p[0], s], |p| - 1);
    } else {
      WalkPart(edges + {(s, t)}, p, 1, |p|);
      assert p[1..|p|] == p[1..];
      FirstVisitWithin(edges, s, t, p[1..]);
      var q :| WalkTo(edges, p[1], s, q, |p| - 2);
      assert IsWalk(edges, [p[0], p[1]]);
      WalkConcat(edges, [p[0], p[1]], q);
      assert WalkTo(edges, p[0], s, [p[0], p[1]] + q[1..], |p| - 1);
    }
  }

  /** A closed walk either avoids the new edge or gives a walk from its target to its source. */
  lemma {:induction false} NewEdgeOnCycle(edges: set<Edge>, s: Node, t: Node, p: seq<Node>)
    requires IsWalk(edges + {(s, t)}, p) && |p| >= 2
    ensures IsWalk(edges, p) || Reaches(edges + {(s, t)}, p[0], s) || p[0] == s
    ensures IsWalk(edges, p) || Reaches(edges + {(s, t)}, t, p[|p| - 1]) || p[|p| - 1] == t
  {
    var all := edges + {(s, t)};
    if i :| 0 <= i < |p| - 1 && (p[i], p[i + 1]) !in edges {
      assert (p[i], p[i + 1]) in all;
      if i > 0 {
        WalkPart(all, p, 0, i + 1);
        WalkReaches(all, p[0..i + 1]);
      }
      if i + 1 < |p| - 1 {
        WalkPart(all, p, i + 1, |p|);
        WalkReaches(all, p[i + 1..|p|]);
      }
    }
  }

  /** Adding an edge keeps the graph acyclic exactly when its target does not reach its source. */
  lemma InsertAcyclicIff(edges: set<Edge>, s: Node, t: Node)
    requires Acyclic(edges)
    ensures Acyclic(edges + {(s, t)}) <==> s != t && !Reaches(edges, t, s)
  {
    var all := edges + {(s, t)};
    assert IsWalk(all, [s, t]);
    WalkReaches(all, [s, t]);
    if s != t && !Reaches(edges, t, s) {
      forall a ensures !Reaches(all, a, a) {
        if Reaches(all, a, a) {
          var p := WalkOf(all, a, a);
          NewEdgeOnCycle(edges, s, t, p);
          if IsWalk(edges, p) {
            WalkReaches(edges, p);
          } else {
            if a != t && a != s {
              ReachesTransitively(all, t, a, s);
            }
            assert Reaches(all, t, s);
            var q := WalkOf(all, t, s);
            FirstVisit(edges, s, t, q);
          }
        }
      }
    } else if s != t {
      ReachesMonotone(edges, all, t, s);
      ReachesTransitively(all, s, t, s);
    }
  }

  // ----- Shortening walks --------------------------------------------------------------------

  /** A walk between two different nodes can be cut down to one that repeats no node. */
  lemma {:induction false} ShortestIsSimple(edges: set<Edge>, a: Node, b: Node, limit: nat) returns (p: seq<Node>)
    requires ReachesWithin(edges, a, b, limit) && a != b
    ensures WalkTo(edges, a, b, p, limit) && Base.Distinct(p)
    decreases limit
  {
    p :| WalkTo(edges, a, b, p, limit);
    if i, j :| 0 <= i < j < |p| && p[i] == p[j] {
      var q := p[..i + 1] + p[j + 1..];
      WalkPart(edges, p, 0, i + 1);
      WalkPart(edges, p, j, |p|);
      assert p[0..i + 1] == p[..i + 1] && p[j..|p|][1..] == p[j + 1..];
      WalkConcat(edges, p[..i + 1], p[j..|p|]);
      assert |q| >= 2;
      WalkReaches(edges, q);
      assert WalkTo(edges, a, b, q, limit - 1);
      p := ShortestIsSimple(edges, a, b, limit - 1);
    }
  }

  lemma {:induction false} DistinctFitsIn(p: seq<Node>, s: set<Node>)
    requires Base.Distinct(p) && forall x :: x in p ==> x in s
    ensures |p| <= |s|
    decreases |p|
  {
    if p != [] {
      assert p[0] in p;
      forall x | x in p[1..] ensures x in s - {p[0]} {
        var i :| 0 <= i < |p[1..]| && p[1..][i] == x;
        assert p[i + 1] == x;
      }
      DistinctFitsIn(p[1..], s - {p[0]});
    }
  }
}
