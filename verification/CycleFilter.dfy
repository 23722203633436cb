/** The six relations, edge keys, and the batch filter over proposed `requires` edges. */
module CycleFilter {
  import Base
  import opened Walks

  datatype Relation = Requires | Contains | RelatedTo | PartOf | Assesses | TaughtBy

  datatype Key = Key(source: Node, target: Node, relation: Relation)

  /** The proposed `requires` edges, self-loops aside. */
  function RequiresEdges(keys: set<Key>): set<Edge> {
    set k | k in keys && k.relation == Requires && k.source != k.target :: (k.source, k.target)
  }

  function RequiresNodes(keys: set<Key>): set<Node> {
    (set k | k in keys && k.relation == Requires :: k.source) + (set k | k in keys && k.relation == Requires :: k.target)
  }

  ghost predicate LeadsInto(edges: set<Edge>, n: Node, s: set<Node>) {
    exists m :: m in s && (n, m) in edges
  }

  /** Every node of `s` has a successor in `s`. */
  ghost predicate Stuck(edges: set<Edge>, s: set<Node>) {
    forall n {:trigger LeadsInto(edges, n, s)} :: n in s ==> LeadsInto(edges, n, s)
  }

  lemma Next(edges: set<Edge>, n: Node, s: set<Node>) returns (m: Node)
    requires Stuck(edges, s) && n in s
    ensures m in s && (n, m) in edges
  {
    assert LeadsInto(edges, n, s);
    m :| m in s && (n, m) in edges;
  }

  function Ends(edges: set<Edge>): set<Node> {
    set e | e in edges :: e.0
  }

  /** The nodes that lie in some stuck set. */
  ghost function Stranded(edges: set<Edge>): set<Node> {
    set n | n in Ends(edges) && exists s: set<Node> :: n in s && Stuck(edges, s)
  }

  /** The `requires` keys, self-loops included, with both endpoints stranded. */
  ghost function Contradictory(keys: set<Key>): set<Key> {
    var stranded := Stranded(RequiresEdges(keys));
    set k | k in keys && k.relation == Requires && k.source in stranded && k.target in stranded
  }

  lemma StuckIsStranded(edges: set<Edge>, s: set<Node>)
    requires Stuck(edges, s)
    ensures s <= Stranded(edges)
  {
    forall n | n in s ensures n in Stranded(edges) {
      var m := Next(edges, n, s);
      assert (n, m).0 in Ends(edges);
    }
  }

  /** The stranded nodes are themselves stuck, and no stuck set is larger. */
  lemma StrandedIsGreatestStuck(edges: set<Edge>)
    ensures Stuck(edges, Stranded(edges))
    ensures forall s: set<Node> :: Stuck(edges, s) ==> s <= Stranded(edges)
  {
    forall n | n in Stranded(edges) ensures LeadsInto(edges, n, Stranded(edges)) {
      var s: set<Node> :| n in s && Stuck(edges, s);
      var m := Next(edges, n, s);
      StuckIsStranded(edges, s);
      assert m in Stranded(edges);
    }
    forall s: set<Node> | Stuck(edges, s) ensures s <= Stranded(edges) {
      StuckIsStranded(edges, s);
    }
  }

  lemma {:induction false} StuckWalk(edges: set<Edge>, s: set<Node>, n: Node, len: nat) returns (p: seq<Node>)
    requires Stuck(edges, s) && n in s
    ensures IsWalk(edges, p) && |p| == len + 1 && p[0] == n && forall x :: x in p ==> x in s
    decreases len
  {
    if len == 0 {
      p := [n];
    } else {
      var m := Next(edges, n, s);
      var q := StuckWalk(edges, s, m, len - 1);
      assert IsWalk(edges, [n, m]);
      WalkConcat(edges, [n, m], q);
      p := [n, m] + q[1..];
      assert p == [n] + q;
    }
  }

  /** The node lies on a cycle or leads to one. */
  ghost predicate LeadsToCycle(edges: set<Edge>, n: Node) {
    exists c :: (n == c || Reaches(edges, n, c)) && Reaches(edges, c, c)
  }

  /** A node is stranded exactly when it lies on a cycle or leads to one. */
  lemma StrandedIffLeadsToCycle(edges: set<Edge>, n: Node)
    ensures n in Stranded(edges) <==> LeadsToCycle(edges, n)
  {
    if n in Stranded(edges) {
      var c := StrandedReachesCycle(edges, n);
    }
    if c :| (n == c || Reaches(edges, n, c)) && Reaches(edges, c, c) {
      LeadsToCycleIsStranded(edges, n, c);
    }
  }

  lemma StrandedReachesCycle(edges: set<Edge>, n: Node) returns (c: Node)
    requires n in Stranded(edges)
    ensures (n == c || Reaches(edges, n, c)) && Reaches(edges, c, c)
  {
    var s := Stranded(edges);
    StrandedIsGreatestStuck(edges);
    var p := StuckWalk(edges, s, n, |s|);
    if Base.Distinct(p) {
      DistinctFitsIn(p, s);
    }
    var i, j :| 0 <= i < j < |p| && p[i] == p[j];
    c := p[i];
    WalkPart(edges, p, i, j + 1);
    WalkReaches(edges, p[i..j + 1]);
    if i > 0 {
      WalkPart(edges, p, 0, i + 1);
      WalkReaches(edges, p[0..i + 1]);
    }
  }

  lemma LeadsToCycleIsStranded(edges: set<Edge>, n: Node, c: Node)
    requires (n == c || Reaches(edges, n, c)) && Reaches(edges, c, c)
    ensures n in Stranded(edges)
  {
    var q := WalkOf(edges, c, c);
    var p := [c];
    if n != c {
      p := WalkOf(edges, n, c);
    }
    WalkConcat(edges, p, q);
    var r := p + q[1..];
    var s := set x | x in r;
    forall x | x in s ensures LeadsInto(edges, x, s) {
      var i :| 0 <= i < |r| && r[i] == x;
      var k := if i < |r| - 1 then i else |p| - 1;
      assert r[k] == x && r[k + 1] in s && (x, r[k + 1]) in edges;
    }
    assert r[0] == n && n in s;
    StuckIsStranded(edges, s);
  }

  // ----- The worklist ------------------------------------------------------------------------

  function KeySet(keys: seq<Key>): set<Key> {
    set k | k in keys
  }

  ghost predicate PendingIs(edges: set<Edge>, pending: map<Node, set<Node>>) {
    forall n, m :: n in pending ==> (m in pending[n] <==> m in pending && (n, m) in edges)
  }

  /**
    Kahn's algorithm: remove the nodes without pending successors until none is ready. The result
    is a function of the set of keys, so it does not depend on their order.
   */
  method ContradictoryRequiresEdges(keys: seq<Key>) returns (result: set<Key>)
    ensures result == Contradictory(KeySet(keys))
  {
    ghost var edges := RequiresEdges(KeySet(keys));
    var pending := PendingSuccessors(keys);
    while true
      invariant Stranded(edges) <= pending.Keys
      invariant PendingIs(edges, pending)
      decreases pending.Keys
    {
      var ready := set n | n in pending && pending[n] == {};
      if ready == {} {
        break;
      }
      StrandedNotReady(edges, pending);
      assert exists n :: n in ready;
      pending := map n | n in pending && n !in ready :: pending[n] - ready;
    }
    NoneReadyIsStranded(edges, pending);
    var stranded := pending.Keys;
    result := set k | k in keys && k.relation == Requires && k.source in stranded && k.target in stranded;
  }

  lemma StrandedNotReady(edges: set<Edge>, pending: map<Node, set<Node>>)
    requires Stranded(edges) <= pending.Keys && PendingIs(edges, pending)
    ensures forall n :: n in Stranded(edges) ==> pending[n] != {}
  {
    StrandedIsGreatestStuck(edges);
    forall n | n in Stranded(edges) ensures pending[n] != {} {
      var m := Next(edges, n, Stranded(edges));
      assert m in pending[n];
    }
  }

  lemma NoneReadyIsStranded(edges: set<Edge>, pending: map<Node, set<Node>>)
    requires Stranded(edges) <= pending.Keys && PendingIs(edges, pending)
    requires forall n :: n in pending ==> pending[n] != {}
    ensures pending.Keys == Stranded(edges)
  {
    forall n | n in pending ensures LeadsInto(edges, n, pending.Keys) {
      var m :| m in pending[n];
      assert m in pending.Keys && (n, m) in edges;
    }
    StuckIsStranded(edges, pending.Keys);
  }

  /** Each node of a `requires` key with its distinct successors. */
  method PendingSuccessors(keys: seq<Key>) returns (pending: map<Node, set<Node>>)
    ensures PendingIs(RequiresEdges(KeySet(keys)), pending)
    ensures Stranded(RequiresEdges(KeySet(keys))) <= pending.Keys
  {
    ghost var nodes := RequiresNodes(KeySet(keys));
    pending := map[];
    NothingFromNone(keys);
    hide RequiresNodes, RequiresEdges, KeySet, Stranded;
    for i := 0 to |keys|
      invariant pending.Keys == RequiresNodes(KeySet(keys[..i]))
      invariant forall n :: n in pending ==> pending[n] == {}
    {
      NodesGrow(keys, i);
      if keys[i].relation == Requires {
        pending := pending[keys[i].source := {}][keys[i].target := {}];
      }
    }
    assert keys[..|keys|] == keys;
    EdgesJoinNodes(KeySet(keys));
    for i := 0 to |keys|
      invariant pending.Keys == nodes
      invariant forall n, m :: n in pending ==> (m in pending[n] <==> (n, m) in RequiresEdges(KeySet(keys[..i])))
    {
      EdgesGrow(keys, i);
      var source, target := keys[i].source, keys[i].target;
      if keys[i].relation == Requires && source != target {
        NodesHold(keys, i);
        pending := pending[source := pending[source] + {target}];
      }
    }
  }

  lemma EdgesJoinNodes(keys: set<Key>)
    ensures forall e :: e in RequiresEdges(keys) ==> e.0 in RequiresNodes(keys) && e.1 in RequiresNodes(keys)
    ensures Stranded(RequiresEdges(keys)) <= RequiresNodes(keys)
  {
    forall e | e in RequiresEdges(keys) ensures e.0 in RequiresNodes(keys) && e.1 in RequiresNodes(keys) {
      var k :| k in keys && k.relation == Requires && (k.source, k.target) == e;
    }
  }

  lemma NothingFromNone(keys: seq<Key>)
    ensures RequiresNodes(KeySet(keys[..0])) == {} && RequiresEdges(KeySet(keys[..0])) == {}
  {
  }

  lemma NodesHold(keys: seq<Key>, i: nat)
    requires i < |keys| && keys[i].relation == Requires
    ensures keys[i].source in RequiresNodes(KeySet(keys)) && keys[i].target in RequiresNodes(KeySet(keys))
  {
    assert keys[i] in KeySet(keys);
  }

  lemma NodesGrow(keys: seq<Key>, i: nat)
    requires i < |keys|
    ensures var k := keys[i];
            RequiresNodes(KeySet(keys[..i + 1])) == RequiresNodes(KeySet(keys[..i]))
              + if k.relation == Requires then {k.source, k.target} else {}
  {
    assert keys[..i + 1] == keys[..i] + [keys[i]];
    assert KeySet(keys[..i + 1]) == KeySet(keys[..i]) + {keys[i]};
    NodesOfInsert(KeySet(keys[..i]), keys[i]);
  }

  lemma NodesOfInsert(keys: set<Key>, k: Key)
    ensures RequiresNodes(keys + {k}) == RequiresNodes(keys) + if k.relation == Requires then {k.source, k.target} else {}
  {
    var more := keys + {k};
    assert k in more;
    forall n | n in RequiresNodes(keys) ensures n in RequiresNodes(more) {
      var j :| j in keys && j.relation == Requires && (j.source == n || j.target == n);
      assert j in more;
    }
    if k.relation == Requires {
      assert k.source in RequiresNodes(more) && k.target in RequiresNodes(more);
    }
  }

  lemma EdgesGrow(keys: seq<Key>, i: nat)
    requires i < |keys|
    ensures var k := keys[i];
            RequiresEdges(KeySet(keys[..i + 1])) == RequiresEdges(KeySet(keys[..i]))
              + if k.relation == Requires && k.source != k.target then {(k.source, k.target)} else {}
  {
    assert keys[..i + 1] == keys[..i] + [keys[i]];
    assert KeySet(keys[..i + 1]) == KeySet(keys[..i]) + {keys[i]};
    assert keys[i] in KeySet(keys[..i + 1]);
  }

  // ----- What the filter leaves --------------------------------------------------------------

  lemma LeadsIntoLarger(edges: set<Edge>, n: Node, s: set<Node>, t: set<Node>)
    requires LeadsInto(edges, n, s) && s <= t
    ensures LeadsInto(edges, n, t)
  {
  }

  /** Peeling the non-stranded nodes of `alive` one at a time gives each a rank. */
  lemma {:induction false} PeelRanks(edges: set<Edge>, alive: set<Node>, level: nat) returns (rank: map<Node, nat>)
    requires Stranded(edges) <= alive
    ensures rank.Keys == alive - Stranded(edges)
    ensures forall n :: n in rank ==> level <= rank[n] < level + |alive|
    ensures forall n, m :: n in rank && m in rank && (n, m) in edges ==> rank[n] > rank[m]
    decreases |alive|
  {
    StrandedIsGreatestStuck(edges);
    if alive == Stranded(edges) {
      rank := map[];
    } else {
      assert !Stuck(edges, alive);
      var n :| n in alive && !LeadsInto(edges, n, alive);
      if n in Stranded(edges) {
        LeadsIntoLarger(edges, n, Stranded(edges), alive);
      }
      var rest := PeelRanks(edges, alive - {n}, level + 1);
      rank := rest[n := level];
    }
  }

  /** Self-loops aside, the `requires` keys left over admit a topological rank. */
  lemma LeftoverHasRank(keys: set<Key>) returns (rank: map<Node, nat>)
    ensures forall k :: k in keys - Contradictory(keys) && k.relation == Requires && k.source != k.target ==>
      k.source in rank && k.target in rank && rank[k.source] > rank[k.target]
  {
    var edges := RequiresEdges(keys);
    var stranded := Stranded(edges);
    var nodes := RequiresNodes(keys) + stranded;
    var peeled := PeelRanks(edges, nodes, 0);
    rank := map n | n in nodes :: if n in stranded then |nodes| else peeled[n];
    StrandedIsGreatestStuck(edges);
    forall k | k in keys - Contradictory(keys) && k.relation == Requires && k.source != k.target
      ensures k.source in rank && k.target in rank && rank[k.source] > rank[k.target]
    {
      var e := (k.source, k.target);
      assert e in edges;
      assert k.source in nodes && k.target in nodes;
      if k.target in stranded {
        LeadsIntoStranded(edges, k.source, k.target);
      }
    }
  }

  /** Whatever has a stranded successor is stranded. */
  lemma LeadsIntoStranded(edges: set<Edge>, n: Node, m: Node)
    requires (n, m) in edges && m in Stranded(edges)
    ensures n in Stranded(edges)
  {
    var stranded := Stranded(edges);
    var wider := stranded + {n};
    StrandedIsGreatestStuck(edges);
    forall x | x in wider ensures LeadsInto(edges, x, wider) {
      if x != n {
        var y := Next(edges, x, stranded);
        assert y in wider;
      } else {
        assert m in wider;
      }
    }
    StuckIsStranded(edges, wider);
  }

  lemma {:induction false} WalkDescends(edges: set<Edge>, rank: map<Node, nat>, p: seq<Node>)
    requires forall e :: e in edges ==> e.0 in rank && e.1 in rank && rank[e.0] > rank[e.1]
    requires IsWalk(edges, p) && |p| >= 2
    ensures p[0] in rank && p[|p| - 1] in rank && rank[p[0]] > rank[p[|p| - 1]]
    decreases |p|
  {
    assert (p[0], p[1]) in edges;
    assert (p[0], p[1]).0 in rank && (p[0], p[1]).1 in rank;
    if |p| > 2 {
      WalkPart(edges, p, 1, |p|);
      assert p[1..|p|] == p[1..];
      WalkDescends(edges, rank, p[1..]);
    }
  }

  /** What the filter leaves has no cycle, apart from self-loops, which it does not look at. */
  lemma LeftoverIsAcyclic(keys: set<Key>)
    ensures Acyclic(RequiresEdges(keys - Contradictory(keys)))
  {
    var left := RequiresEdges(keys - Contradictory(keys));
    var rank := LeftoverHasRank(keys);
    forall e | e in left ensures e.0 in rank && e.1 in rank && rank[e.0] > rank[e.1] {
      var k :| k in keys - Contradictory(keys) && k.relation == Requires && k.source != k.target && (k.source, k.target) == e;
    }
    forall a ensures !Reaches(left, a, a) {
      if Reaches(left, a, a) {
        var p := WalkOf(left, a, a);
        WalkDescends(left, rank, p);
      }
    }
  }

  /** The filter removes nothing exactly when the batch, self-loops aside, has no cycle. */
  lemma FilterIdleIffAcyclic(keys: set<Key>)
    ensures Contradictory(keys) == {} <==> Acyclic(RequiresEdges(keys))
  {
    var edges := RequiresEdges(keys);
    var stranded := Stranded(edges);
    if Contradictory(keys) == {} {
      LeftoverIsAcyclic(keys);
      assert keys - Contradictory(keys) == keys;
    } else if Acyclic(edges) {
      var k :| k in Contradictory(keys);
      StrandedIffLeadsToCycle(edges, k.source);
    }
  }

  /**
    More than the cycle goes: an edge that only leads into a cycle is removed with it, although no
    cycle passes through it.
   */
  lemma FilterAlsoTakesEdgesIntoACycle(a: Node, b: Node, c: Node)
    requires a != b && b != c && a != c
    ensures var keys := {Key(a, b, Requires), Key(b, c, Requires), Key(c, b, Requires)};
            Key(a, b, Requires) in Contradictory(keys) && !Reaches(RequiresEdges(keys), b, a)
  {
    var keys := {Key(a, b, Requires), Key(b, c, Requires), Key(c, b, Requires)};
    var edges := RequiresEdges(keys);
    assert Key(a, b, Requires) in keys && Key(b, c, Requires) in keys && Key(c, b, Requires) in keys;
    assert edges == {(a, b), (b, c), (c, b)};
    var s := {a, b, c};
    assert LeadsInto(edges, a, s) && LeadsInto(edges, b, s) && LeadsInto(edges, c, s) by {
      assert b in s && c in s;
    }
    StuckIsStranded(edges, s);
    if Reaches(edges, b, a) {
      var _, _ := WalkEnds(edges, b, a);
    }
  }

  /** A proposed `requires` edge is removed exactly when its target lies on a cycle or leads to one. */
  lemma RemovedIff(keys: set<Key>, k: Key)
    requires k in keys && k.relation == Requires
    ensures k in Contradictory(keys) <==> LeadsToCycle(RequiresEdges(keys), k.target)
  {
    var edges := RequiresEdges(keys);
    StrandedIffLeadsToCycle(edges, k.target);
    if k.source != k.target && k.target in Stranded(edges) {
      LeadsIntoStranded(edges, k.source, k.target);
    }
  }

  /** A proposed edge lies on a cycle when its target leads back to its source. */
  ghost predicate OnCycle(edges: set<Edge>, k: Key) {
    Reaches(edges, k.target, k.source)
  }

  /**
    Every removed edge, self-loops aside, is part of a cycle exactly when each proposed edge whose
    target leads to a cycle also leads back to its source.
   */
  lemma OnlyCyclesRemovedIff(keys: set<Key>)
    ensures (forall k :: k in Contradictory(keys) && k.source != k.target ==> OnCycle(RequiresEdges(keys), k))
       <==> forall k :: k in keys && k.relation == Requires && k.source != k.target && LeadsToCycle(RequiresEdges(keys), k.target)
              ==> OnCycle(RequiresEdges(keys), k)
  {
    forall k | k in keys && k.relation == Requires
      ensures k in Contradictory(keys) <==> LeadsToCycle(RequiresEdges(keys), k.target) {
      RemovedIff(keys, k);
    }
    hide LeadsToCycle, OnCycle, RequiresEdges;
  }
}
