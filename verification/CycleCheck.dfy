/**
  The insert-time cycle check: the recursive query `reach`, level by level, with its depth cap and
  its path guard, and what it does and does not exclude.
 */
module CycleCheck {
  import opened Walks

  /** `GRAPH_DEFAULT_MAX_PATH_LEN`, the default depth cap of the query. */
  const MAX_PATH_LEN: nat := 20

  /**
    The paths the recursive query holds at one depth. The base rows are the edges out of `t`; a
    recursive row extends a path by an edge whose target is not on the path yet.
   */
  function Level(edges: set<Edge>, t: Node, depth: nat): (paths: set<seq<Node>>)
    requires depth >= 1
    ensures forall p :: p in paths ==> |p| == depth + 1
  {
    if depth == 1 then
      set e | e in edges && e.0 == t :: [t, e.1]
    else
      set p, e | p in Level(edges, t, depth - 1) && e in edges && e.0 == p[depth - 1] && e.1 !in p :: p + [e.1]
  }

  /** `would_create_cycle`: some path of at most `cap` edges from `t` ends in `s`. */
  predicate WouldCreateCycle(edges: set<Edge>, s: Node, t: Node, cap: nat) {
    exists depth | 1 <= depth <= cap :: exists p | p in Level(edges, t, depth) :: p[depth] == s
  }

  /** No node after the first step repeats an earlier one. */
  ghost predicate Guarded(p: seq<Node>) {
    forall i, j :: 0 <= i < j < |p| && j >= 2 ==> p[i] != p[j]
  }

  /** The rows of one depth are exactly the guarded walks of that length. */
  lemma {:induction false} LevelIsGuardedWalks(edges: set<Edge>, t: Node, depth: nat, p: seq<Node>)
    requires depth >= 1
    ensures p in Level(edges, t, depth) <==> IsWalk(edges, p) && |p| == depth + 1 && p[0] == t && Guarded(p)
    decreases depth
  {
    if depth == 1 {
      if |p| == 2 && p[0] == t && (t, p[1]) in edges {
        assert p == [t, (t, p[1]).1];
      }
    } else if |p| == depth + 1 {
      var q := p[..depth];
      LevelIsGuardedWalks(edges, t, depth - 1, q);
      assert p == q + [p[depth]];
      if p in Level(edges, t, depth) {
        ExtendedWalk(edges, t, depth, p);
      }
      if IsWalk(edges, p) && p[0] == t && Guarded(p) {
        WalkPart(edges, p, 0, depth);
        assert p[0..depth] == q;
        assert (p[depth - 1], p[depth - 1 + 1]) in edges;
        var e := (p[depth - 1], p[depth]);
        assert q in Level(edges, t, depth - 1) && e in edges && e.0 == q[depth - 1] && e.1 !in q;
      }
    }
  }

  lemma ExtendedWalk(edges: set<Edge>, t: Node, depth: nat, p: seq<Node>)
    requires depth >= 2 && p in Level(edges, t, depth)
    requires forall q :: q in Level(edges, t, depth - 1) && q == p[..depth] ==>
      IsWalk(edges, q) && q[0] == t && Guarded(q)
    ensures IsWalk(edges, p) && p[0] == t && Guarded(p)
  {
    var q, e :| q in Level(edges, t, depth - 1) && e in edges && e.0 == q[depth - 1] && e.1 !in q && p == q + [e.1];
    assert p[..depth] == q;
    assert e == (q[|q| - 1], e.1);
    WalkSnoc(edges, q, e.1);
  }

  /** Between different concepts the query answers "is there a walk within the cap". */
  lemma CheckIsBoundedReachability(edges: set<Edge>, s: Node, t: Node, cap: nat)
    requires s != t
    ensures WouldCreateCycle(edges, s, t, cap) <==> ReachesWithin(edges, t, s, cap)
  {
    if WouldCreateCycle(edges, s, t, cap) {
      var depth: nat :| 1 <= depth <= cap && exists p :: p in Level(edges, t, depth) && p[depth] == s;
      var p :| p in Level(edges, t, depth) && p[depth] == s;
      LevelIsGuardedWalks(edges, t, depth, p);
      assert WalkTo(edges, t, s, p, cap);
    }
    if ReachesWithin(edges, t, s, cap) {
      var p := ShortestIsSimple(edges, t, s, cap);
      LevelIsGuardedWalks(edges, t, |p| - 1, p);
      assert p[|p| - 1] == s;
    }
  }

  /** From a concept to itself the query only sees a stored self-loop. */
  lemma CheckOfSelfLoop(edges: set<Edge>, s: Node, cap: nat)
    ensures WouldCreateCycle(edges, s, s, cap) <==> cap >= 1 && (s, s) in edges
  {
    if WouldCreateCycle(edges, s, s, cap) {
      var depth: nat :| 1 <= depth <= cap && exists p :: p in Level(edges, s, depth) && p[depth] == s;
      var p :| p in Level(edges, s, depth) && p[depth] == s;
      LevelIsGuardedWalks(edges, s, depth, p);
      assert depth == 1;
      assert (p[0], p[0 + 1]) in edges;
    }
    if cap >= 1 && (s, s) in edges {
      LevelIsGuardedWalks(edges, s, 1, [s, s]);
      assert [s, s] in Level(edges, s, 1) && [s, s][1] == s;
    }
  }

  /** The source can be reached from the target, but only beyond the cap. */
  ghost predicate BeyondCap(edges: set<Edge>, s: Node, t: Node, cap: nat) {
    Reaches(edges, t, s) && !ReachesWithin(edges, t, s, cap)
  }

  /** An insert that passed the check keeps the graph acyclic exactly when nothing lay beyond the cap. */
  lemma CheckedInsertIff(edges: set<Edge>, s: Node, t: Node, cap: nat)
    requires Acyclic(edges) && s != t && !WouldCreateCycle(edges, s, t, cap)
    ensures Acyclic(edges + {(s, t)}) <==> !BeyondCap(edges, s, t, cap)
  {
    CheckIsBoundedReachability(edges, s, t, cap);
    InsertAcyclicIff(edges, s, t);
  }

  /** The concepts numbered below `n`. */
  function Below(n: nat): (nodes: set<Node>)
    ensures |nodes| == n && forall x: Node :: x in nodes <==> x < n
  {
    if n == 0 then {} else Below(n - 1) + {n - 1}
  }

  ghost predicate Over(edges: set<Edge>, nodes: set<Node>) {
    forall e :: e in edges ==> e.0 in nodes && e.1 in nodes
  }

  lemma WalkStaysIn(edges: set<Edge>, nodes: set<Node>, p: seq<Node>)
    requires Over(edges, nodes) && IsWalk(edges, p) && |p| >= 2
    ensures forall x :: x in p ==> x in nodes
  {
    forall x | x in p ensures x in nodes {
      var i :| 0 <= i < |p| && p[i] == x;
      var e := if i == 0 then (p[0], p[0 + 1]) else (p[i - 1], p[i - 1 + 1]);
      assert e in edges;
    }
  }

  /** A graph over at most cap + 1 concepts has nothing beyond the cap. */
  lemma SmallGraphsAreSeenWhole(edges: set<Edge>, nodes: set<Node>, s: Node, t: Node, cap: nat)
    requires Over(edges, nodes) && |nodes| <= cap + 1 && s != t
    ensures !BeyondCap(edges, s, t, cap)
  {
    if Reaches(edges, t, s) {
      var limit: nat :| ReachesWithin(edges, t, s, limit);
      var p := ShortestIsSimple(edges, t, s, limit);
      WalkStaysIn(edges, nodes, p);
      DistinctFitsIn(p, nodes);
      assert WalkTo(edges, t, s, p, cap);
    }
  }

  // ----- The cap is exact ----------------------------------------------------------------------

  /** The chain 0 -> 1 -> ... -> n. */
  function Chain(n: nat): (edges: set<Edge>)
    ensures forall a: Node, b: Node :: (a, b) in edges <==> a < n && b == a + 1
  {
    if n == 0 then {} else Chain(n - 1) + {(n - 1, n)}
  }

  lemma {:induction false} ChainWalkClimbs(n: nat, p: seq<Node>)
    requires IsWalk(Chain(n), p)
    ensures p[|p| - 1] == p[0] + |p| - 1
    decreases |p|
  {
    if |p| > 1 {
      assert (p[0], p[0 + 1]) in Chain(n);
      WalkPart(Chain(n), p, 1, |p|);
      assert p[1..|p|] == p[1..];
      ChainWalkClimbs(n, p[1..]);
    }
  }

  lemma ChainReaches(n: nat)
    requires n >= 1
    ensures Reaches(Chain(n), 0, n)
  {
    var p := seq(n + 1, i => i);
    forall i | 0 <= i < |p| - 1 ensures (p[i], p[i + 1]) in Chain(n) {
      assert (i, i + 1) in Chain(n);
    }
    WalkReaches(Chain(n), p);
  }

  lemma ChainIsAcyclic(n: nat)
    ensures Acyclic(Chain(n))
  {
    forall a ensures !Reaches(Chain(n), a, a) {
      if Reaches(Chain(n), a, a) {
        var p := WalkOf(Chain(n), a, a);
        ChainWalkClimbs(n, p);
      }
    }
  }

  /** Closing a chain one edge longer than the cap passes the check and makes a cycle. */
  lemma LongChainDefeatsCheck(cap: nat)
    ensures var edges := Chain(cap + 1);
            && Acyclic(edges)
            && !WouldCreateCycle(edges, cap + 1, 0, cap)
            && !Acyclic(edges + {(cap + 1, 0)})
  {
    var edges := Chain(cap + 1);
    ChainIsAcyclic(cap + 1);
    ChainReaches(cap + 1);
    CheckIsBoundedReachability(edges, cap + 1, 0, cap);
    if ReachesWithin(edges, 0, cap + 1, cap) {
      var p :| WalkTo(edges, 0, cap + 1, p, cap);
      ChainWalkClimbs(cap + 1, p);
    }
    InsertAcyclicIff(edges, cap + 1, 0);
  }

  /** Every checked insert between different concepts numbered below `n` keeps the graph acyclic. */
  ghost predicate CheckSuffices(n: nat, cap: nat) {
    forall edges: set<Edge>, s: Node, t: Node ::
      Over(edges, Below(n)) && s < n && t < n && s != t && Acyclic(edges) && !WouldCreateCycle(edges, s, t, cap) ==>
        Acyclic(edges + {(s, t)})
  }

  /** The check is enough for every graph on `n` concepts exactly when n is at most cap + 1. */
  lemma CheckSufficesIff(n: nat, cap: nat)
    ensures CheckSuffices(n, cap) <==> n <= cap + 1
  {
    if n <= cap + 1 {
      forall edges: set<Edge>, s: Node, t: Node | Over(edges, Below(n)) && s < n && t < n && s != t && Acyclic(edges)
          && !WouldCreateCycle(edges, s, t, cap)
        ensures Acyclic(edges + {(s, t)})
      {
        SmallGraphsAreSeenWhole(edges, Below(n), s, t, cap);
        CheckedInsertIff(edges, s, t, cap);
      }
    } else {
      LongChainDefeatsCheck(cap);
      assert Over(Chain(cap + 1), Below(n));
      assert cap + 1 < n && 0 < n;
    }
  }
}
