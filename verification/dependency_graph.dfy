/**
 Dependency graphs as maps from a node to its deps: topological orders, cycles and Kahn's
 algorithm. A dep may be listed more than once.
 */
module DependencyGraph {
  import opened Common

  type Node = string

  type Graph = map<Node, seq<Node>>

  /** Every dep is itself a node. */
  predicate Closed(g: Graph) {
    forall n, d :: n in g && d in g[n] ==> d in g
  }

  predicate DependsOn(g: Graph, a: Node, b: Node) {
    a in g && b in g[a]
  }

  ghost predicate DepsBefore(g: Graph, order: seq<Node>, k: nat)
    requires k < |order| && order[k] in g
  {
    forall d :: d in g[order[k]] ==> d in order[..k]
  }

  /** Distinct nodes, each preceded by all its deps. */
  ghost predicate OrderedPrefix(g: Graph, order: seq<Node>) {
    && NoDuplicates(order)
    && (forall k :: 0 <= k < |order| ==> order[k] in g)
    && forall k :: 0 <= k < |order| ==> DepsBefore(g, order, k)
  }

  ghost predicate TopologicalOrder(g: Graph, order: seq<Node>) {
    OrderedPrefix(g, order) && Elements(order) == g.Keys
  }

  ghost predicate HasOrder(g: Graph) {
    exists order :: TopologicalOrder(g, order)
  }

  /** Consecutive nodes depend on one another. */
  ghost predicate Walk(g: Graph, c: seq<Node>) {
    forall i :: 0 <= i < |c| - 1 ==> DependsOn(g, c[i], c[i + 1])
  }

  /** A closed walk: each node depends on the next one and the last on the first. */
  ghost predicate Cycle(g: Graph, c: seq<Node>) {
    c != [] && Walk(g, c) && DependsOn(g, c[|c| - 1], c[0])
  }

  ghost predicate HasCycle(g: Graph) {
    exists c :: Cycle(g, c)
  }

  /** Along a walk that starts at position `k` of an order, positions go strictly down. */
  lemma {:induction false} WalkDescends(g: Graph, order: seq<Node>, c: seq<Node>, k: nat) returns (j: nat)
    requires OrderedPrefix(g, order)
    requires c != [] && Walk(g, c) && k < |order| && order[k] == c[0]
    ensures j <= k && order[j] == c[|c| - 1]
    ensures |c| > 1 ==> j < k
    decreases |c|
  {
    if |c| == 1 {
      j := k;
    } else {
      assert DependsOn(g, c[0], c[1]) && DepsBefore(g, order, k);
      var m: nat :| m < k && order[..k][m] == c[1];
      forall i | 0 <= i < |c[1..]| - 1
        ensures DependsOn(g, c[1..][i], c[1..][i + 1])
      {
        assert DependsOn(g, c[i + 1], c[i + 2]);
      }
      j := WalkDescends(g, order, c[1..], m);
    }
  }

  lemma OrderExcludesCycle(g: Graph)
    requires HasOrder(g)
    ensures !HasCycle(g)
  {
    var order :| TopologicalOrder(g, order);
    forall c | Cycle(g, c)
      ensures false
    {
      var last := c[|c| - 1];
      assert last in Elements(order);
      var end: nat :| end < |order| && order[end] == last;
      var j := WalkDescends(g, order, [last] + c, end);
    }
  }

  /** A closed part of an ordered graph is ordered. */
  lemma OrderRestricts(whole: Graph, part: Graph)
    requires HasOrder(whole) && Closed(part)
    requires forall n :: n in part ==> n in whole && whole[n] == part[n]
    ensures HasOrder(part)
  {
    var order :| TopologicalOrder(whole, order);
    var kept := KeepNodes(order, part.Keys);
    KeptOrder(whole, part, order);
    forall n | n in part
      ensures n in Elements(kept)
    {
      assert n in Elements(order);
      KeptMember(order, part.Keys, n);
    }
    assert TopologicalOrder(part, kept);
  }

  ghost function KeepNodes(order: seq<Node>, keep: set<Node>): seq<Node> {
    if order == [] then []
    else KeepNodes(order[..|order| - 1], keep) +
         if order[|order| - 1] in keep then [order[|order| - 1]] else []
  }

  lemma {:induction false} KeptMember(order: seq<Node>, keep: set<Node>, n: Node)
    ensures n in KeepNodes(order, keep) <==> n in order && n in keep
  {
    if order != [] {
      KeptMember(order[..|order| - 1], keep, n);
      assert order == order[..|order| - 1] + [order[|order| - 1]];
    }
  }

  lemma {:induction false} KeptOrder(whole: Graph, part: Graph, order: seq<Node>)
    requires OrderedPrefix(whole, order) && Closed(part)
    requires forall n :: n in part ==> n in whole && whole[n] == part[n]
    ensures OrderedPrefix(part, KeepNodes(order, part.Keys))
    ensures Elements(KeepNodes(order, part.Keys)) <= part.Keys
  {
    if order != [] {
      var front, last := order[..|order| - 1], order[|order| - 1];
      PrefixShorter(whole, order);
      KeptOrder(whole, part, front);
      KeptMember(front, part.Keys, last);
      if last in part {
        var kept := KeepNodes(front, part.Keys);
        assert DepsBefore(whole, order, |order| - 1);
        forall d | d in part[last]
          ensures d in Elements(kept)
        {
          KeptMember(front, part.Keys, d);
        }
        PrefixExtends(part, kept, last);
        assert KeepNodes(order, part.Keys) == kept + [last];
      } else {
        assert KeepNodes(order, part.Keys) == KeepNodes(front, part.Keys);
      }
    }
  }

  lemma PrefixShorter(g: Graph, order: seq<Node>)
    requires OrderedPrefix(g, order) && order != []
    ensures OrderedPrefix(g, order[..|order| - 1]) && order[|order| - 1] !in order[..|order| - 1]
  {
    var front := order[..|order| - 1];
    forall k | 0 <= k < |front|
      ensures DepsBefore(g, front, k)
    {
      assert DepsBefore(g, order, k) && order[..k] == front[..k];
    }
  }

  /** `n` is a transitive dep of `t`, or `t` itself. */
  ghost predicate Feeds(g: Graph, n: Node, t: Node) {
    exists c :: FeedingWalk(g, c, n, t)
  }

  ghost predicate FeedingWalk(g: Graph, c: seq<Node>, n: Node, t: Node) {
    c != [] && Walk(g, c) && c[0] == t && c[|c| - 1] == n
  }

  /** No node lists `n` among its deps. */
  ghost predicate Terminal(g: Graph, n: Node) {
    n in g && forall m :: m in g ==> n !in g[m]
  }

  /** In an acyclic graph with a single terminal, following dependents leads from any node to it. */
  lemma {:induction false} FeedsTerminal(g: Graph, order: seq<Node>, t: Node, k: nat)
    requires TopologicalOrder(g, order) && k < |order|
    requires forall n :: Terminal(g, n) ==> n == t
    ensures Feeds(g, order[k], t)
    decreases |order| - k
  {
    var n := order[k];
    if n == t {
      assert FeedingWalk(g, [t], n, t);
    } else {
      assert !Terminal(g, n);
      var m :| m in g && n in g[m];
      assert m in Elements(order);
      var j: nat :| j < |order| && order[j] == m;
      assert DependsOn(g, m, n) && DepsBefore(g, order, j);
      var i: nat :| i < j && order[..j][i] == n;
      assert i == k;
      FeedsTerminal(g, order, t, j);
      var c :| FeedingWalk(g, c, m, t);
      WalkExtends(g, c, n);
      assert FeedingWalk(g, c + [n], n, t);
    }
  }

  /** Conversely, a node that everything feeds in an acyclic graph is the only terminal. */
  lemma FedByAllIsTerminal(g: Graph, t: Node)
    requires HasOrder(g) && t in g
    requires forall n :: n in g ==> Feeds(g, n, t)
    ensures Terminal(g, t)
    ensures forall n :: Terminal(g, n) ==> n == t
  {
    OrderExcludesCycle(g);
    forall m | m in g
      ensures t !in g[m]
    {
      var c :| FeedingWalk(g, c, m, t);
      assert Cycle(g, c) <==> DependsOn(g, m, t);
    }
    forall n | Terminal(g, n)
      ensures n == t
    {
      var c :| FeedingWalk(g, c, n, t);
      assert |c| > 1 ==> DependsOn(g, c[|c| - 2], c[|c| - 2 + 1]);
    }
  }

  ghost predicate HasDepInside(g: Graph, stuck: set<Node>, a: Node) {
    exists b :: b in stuck && DependsOn(g, a, b)
  }

  ghost predicate EachHasDepInside(g: Graph, stuck: set<Node>) {
    forall a {:trigger HasDepInside(g, stuck, a)} :: a in stuck ==> HasDepInside(g, stuck, a)
  }

  lemma WalkExtends(g: Graph, path: seq<Node>, b: Node)
    requires path != [] && Walk(g, path) && DependsOn(g, path[|path| - 1], b)
    ensures Walk(g, path + [b])
  {
  }

  lemma WalkSuffix(g: Graph, path: seq<Node>, j: nat)
    requires Walk(g, path) && j <= |path|
    ensures Walk(g, path[j..])
  {
    forall i | 0 <= i < |path[j..]| - 1
      ensures DependsOn(g, path[j..][i], path[j..][i + 1])
    {
      assert DependsOn(g, path[j + i], path[j + i + 1]);
    }
  }

  /** Following deps inside a finite set must revisit a node, which closes a cycle. */
  lemma {:induction false} WalkCloses(g: Graph, stuck: set<Node>, path: seq<Node>) returns (c: seq<Node>)
    requires EachHasDepInside(g, stuck)
    requires path != [] && NoDuplicates(path) && Elements(path) <= stuck && Walk(g, path)
    ensures Cycle(g, c) && Elements(c) <= stuck
    decreases |stuck| - |path|
  {
    var last := path[|path| - 1];
    assert last in Elements(path) && HasDepInside(g, stuck, last);
    var b :| b in stuck && DependsOn(g, last, b);
    if b in path {
      var j: nat :| j < |path| && path[j] == b;
      c := path[j..];
      WalkSuffix(g, path, j);
      assert Elements(c) <= Elements(path);
    } else {
      var longer := path + [b];
      WalkExtends(g, path, b);
      assert Elements(longer) == Elements(path) + {b};
      DistinctCount(longer);
      SubsetCount(Elements(longer), stuck);
      c := WalkCloses(g, stuck, longer);
    }
  }

  lemma StuckSetHasCycle(g: Graph, stuck: set<Node>) returns (c: seq<Node>)
    requires stuck != {} && EachHasDepInside(g, stuck)
    ensures Cycle(g, c) && Elements(c) <= stuck
  {
    var a :| a in stuck;
    assert Elements([a]) == {a};
    c := WalkCloses(g, stuck, [a]);
  }

  // ---------------------------------------------------------------------------------------
  // Kahn's algorithm
  // ---------------------------------------------------------------------------------------

  /** How many dep entries (with repetitions) are not in `done`: the in-degree still to clear. */
  function OpenDeps(deps: seq<Node>, done: set<Node>): nat {
    if deps == [] then 0
    else OpenDeps(deps[..|deps| - 1], done) + (if deps[|deps| - 1] in done then 0 else 1)
  }

  lemma {:induction false} OpenDepsNone(deps: seq<Node>)
    ensures OpenDeps(deps, {}) == |deps|
  {
    if deps != [] { OpenDepsNone(deps[..|deps| - 1]); }
  }

  lemma {:induction false} OpenDepsDrop(deps: seq<Node>, done: set<Node>, d: Node)
    requires d !in done
    ensures OpenDeps(deps, done) == OpenDeps(deps, done + {d}) + multiset(deps)[d]
  {
    if deps != [] {
      OpenDepsDrop(deps[..|deps| - 1], done, d);
      assert deps == deps[..|deps| - 1] + [deps[|deps| - 1]];
    }
  }

  lemma {:induction false} OpenDepsZero(deps: seq<Node>, done: set<Node>)
    ensures OpenDeps(deps, done) == 0 <==> forall d :: d in deps ==> d in done
  {
    if deps != [] {
      OpenDepsZero(deps[..|deps| - 1], done);
      assert deps == deps[..|deps| - 1] + [deps[|deps| - 1]];
    }
  }

  /** `adj[d]` lists a dependent once for every time it names `d`. */
  ghost predicate AdjacencyOf(g: Graph, adj: map<Node, seq<Node>>) {
    && adj.Keys == g.Keys
    && (forall d, n :: d in adj && n in adj[d] ==> n in g)
    && forall d, n :: d in adj && n in g ==> multiset(adj[d])[n] == multiset(g[n])[d]
  }

  ghost predicate InDegrees(g: Graph, indeg: map<Node, int>, done: set<Node>) {
    && indeg.Keys == g.Keys
    && forall n :: n in g ==> indeg[n] == OpenDeps(g[n], done)
  }

  /** The queue holds exactly the unvisited nodes whose in-degree is zero, each once. */
  ghost predicate ReadyQueue(g: Graph, indeg: map<Node, int>, done: set<Node>, queue: seq<Node>)
    requires indeg.Keys == g.Keys
  {
    && NoDuplicates(queue)
    && forall n :: n in queue <==> n in g && n !in done && indeg[n] == 0
  }

  ghost predicate DownClosed(g: Graph, done: set<Node>) {
    forall n, d :: n in done && n in g && d in g[n] ==> d in done
  }

  /** The unpopped nodes when the queue runs dry all wait for one another. */
  lemma UnvisitedWait(g: Graph, indeg: map<Node, int>, done: set<Node>)
    requires Closed(g) && InDegrees(g, indeg, done) && ReadyQueue(g, indeg, done, [])
    ensures EachHasDepInside(g, g.Keys - done)
  {
    forall a | a in g.Keys - done
      ensures HasDepInside(g, g.Keys - done, a)
    {
      assert a !in [];
      OpenDepsZero(g[a], done);
      var b :| b in g[a] && b !in done;
      assert b in g.Keys - done && DependsOn(g, a, b);
    }
  }

  /** In-degrees while the edges out of `node` are half processed. */
  ghost predicate Relaxing(g: Graph, indeg: map<Node, int>, done: set<Node>, todo: seq<Node>) {
    && indeg.Keys == g.Keys
    && forall n :: n in g ==> indeg[n] == OpenDeps(g[n], done) + multiset(todo)[n]
  }

  lemma StartRelaxing(g: Graph, adj: map<Node, seq<Node>>, indeg: map<Node, int>, done: set<Node>, node: Node, queue: seq<Node>)
    requires AdjacencyOf(g, adj) && InDegrees(g, indeg, done)
    requires node in g && node !in done && ReadyQueue(g, indeg, done, queue + [node])
    ensures Relaxing(g, indeg, done + {node}, adj[node])
    ensures ReadyQueue(g, indeg, done + {node}, queue)
  {
    forall n | n in g
      ensures indeg[n] == OpenDeps(g[n], done + {node}) + multiset(adj[node])[n]
    {
      OpenDepsDrop(g[n], done, node);
    }
    forall i, j | 0 <= i < j < |queue|
      ensures queue[i] != queue[j]
    {
      assert (queue + [node])[i] != (queue + [node])[j];
    }
    forall i | 0 <= i < |queue|
      ensures queue[i] != node
    {
      assert (queue + [node])[i] != (queue + [node])[|queue|];
    }
    forall n
      ensures n in queue <==> n in g && n !in done + {node} && indeg[n] == 0
    {
      assert n in queue + [node] <==> n in queue || n == node;
    }
  }

  lemma StepRelaxing(g: Graph, indeg: map<Node, int>, done: set<Node>, todo: seq<Node>)
    requires todo != [] && todo[0] in g && Relaxing(g, indeg, done, todo)
    ensures Relaxing(g, indeg[todo[0] := indeg[todo[0]] - 1], done, todo[1..])
  {
    assert todo == [todo[0]] + todo[1..];
  }

  lemma StepQueue(g: Graph, indeg: map<Node, int>, done: set<Node>, queue: seq<Node>, n: Node)
    requires indeg.Keys == g.Keys && n in g && n !in done && indeg[n] >= 1
    requires ReadyQueue(g, indeg, done, queue)
    ensures ReadyQueue(g, indeg[n := indeg[n] - 1], done, if indeg[n] == 1 then queue + [n] else queue)
  {
    assert n !in queue;
    if indeg[n] == 1 {
      forall m
        ensures m in queue + [n] <==> m in queue || m == n
      {
      }
    }
  }

  /** A node that still has an edge out of `node` has not been popped. */
  lemma DependentsUnvisited(g: Graph, adj: map<Node, seq<Node>>, done: set<Node>, node: Node)
    requires AdjacencyOf(g, adj) && DownClosed(g, done)
    requires node in g && node !in done && OpenDeps(g[node], done) == 0
    ensures forall n :: n in adj[node] ==> n in g && n !in done + {node}
  {
    OpenDepsZero(g[node], done);
    forall n | n in adj[node]
      ensures n in g && n !in done + {node}
    {
      assert multiset(adj[node])[n] > 0;
      assert node in g[n];
    }
  }

  /** The state of the inner loop: some edges out of the popped node are still to be cleared. */
  ghost predicate RelaxState(g: Graph, indeg: map<Node, int>, done: set<Node>, todo: seq<Node>, queue: seq<Node>) {
    && Relaxing(g, indeg, done, todo)
    && ReadyQueue(g, indeg, done, queue)
    && forall n :: n in todo ==> n in g && n !in done
  }

  lemma StepRelaxState(g: Graph, indeg: map<Node, int>, done: set<Node>, todo: seq<Node>, queue: seq<Node>)
    requires todo != [] && RelaxState(g, indeg, done, todo, queue)
    ensures todo[0] in indeg
    ensures RelaxState(g, indeg[todo[0] := indeg[todo[0]] - 1], done, todo[1..],
                       if indeg[todo[0]] == 1 then queue + [todo[0]] else queue)
  {
    assert todo[0] in todo && multiset(todo)[todo[0]] > 0;
    StepRelaxing(g, indeg, done, todo);
    StepQueue(g, indeg, done, queue, todo[0]);
  }

  /** One pop: the dependents lose one in-degree per edge and join the queue at zero. */
  method Relax(ghost g: Graph, ghost done: set<Node>, dependents: seq<Node>, indeg0: map<Node, int>, queue0: seq<Node>)
    returns (indeg: map<Node, int>, queue: seq<Node>)
    requires RelaxState(g, indeg0, done, dependents, queue0)
    ensures RelaxState(g, indeg, done, [], queue)
  {
    indeg, queue := indeg0, queue0;
    var todo := dependents;
    while todo != []
      invariant RelaxState(g, indeg, done, todo, queue)
    {
      var nxt := todo[0];
      StepRelaxState(g, indeg, done, todo, queue);
      indeg := indeg[nxt := indeg[nxt] - 1];
      queue := if indeg[nxt] == 0 then queue + [nxt] else queue;
      todo := todo[1..];
    }
  }

  /** The outer loop: `order` has been popped and the queue holds what became ready. */
  ghost predicate KahnState(g: Graph, adj: map<Node, seq<Node>>, indeg: map<Node, int>, order: seq<Node>, queue: seq<Node>) {
    && AdjacencyOf(g, adj)
    && OrderedPrefix(g, order)
    && InDegrees(g, indeg, Elements(order))
    && ReadyQueue(g, indeg, Elements(order), queue)
  }

  /** Popping `node` starts the inner loop in a good state. */
  lemma Pop(g: Graph, adj: map<Node, seq<Node>>, indeg: map<Node, int>, order: seq<Node>, node: Node, queue: seq<Node>)
    requires KahnState(g, adj, indeg, order, queue + [node])
    ensures node in adj && OrderedPrefix(g, order + [node])
    ensures RelaxState(g, indeg, Elements(order + [node]), adj[node], queue)
  {
    var done := Elements(order);
    assert node in queue + [node];
    OpenDepsZero(g[node], done);
    PrefixDownClosed(g, order);
    PrefixExtends(g, order, node);
    StartRelaxing(g, adj, indeg, done, node, queue);
    DependentsUnvisited(g, adj, done, node);
  }

  /** One iteration of the outer loop: pop from the end of the queue, then relax its dependents. */
  method PopLast(ghost g: Graph, adj: map<Node, seq<Node>>, indeg0: map<Node, int>, ghost order: seq<Node>, queue0: seq<Node>)
    returns (node: Node, indeg: map<Node, int>, queue: seq<Node>)
    requires queue0 != [] && KahnState(g, adj, indeg0, order, queue0)
    ensures KahnState(g, adj, indeg, order + [node], queue)
    ensures |order| < |g|
  {
    node := queue0[|queue0| - 1];
    queue := queue0[..|queue0| - 1];
    assert queue0 == queue + [node];
    assert |order| < |g| by {
      Pop(g, adj, indeg0, order, node, queue);
      VisitedBound(g, order + [node]);
    }
    Pop(g, adj, indeg0, order, node, queue);
    indeg, queue := Relax(g, Elements(order + [node]), adj[node], indeg0, queue);
  }

  lemma PrefixExtends(g: Graph, order: seq<Node>, node: Node)
    requires OrderedPrefix(g, order) && node in g && node !in Elements(order)
    requires forall d :: d in g[node] ==> d in Elements(order)
    ensures OrderedPrefix(g, order + [node])
    ensures Elements(order + [node]) == Elements(order) + {node}
  {
    var longer := order + [node];
    forall k | 0 <= k < |longer|
      ensures DepsBefore(g, longer, k)
    {
      if k < |order| {
        assert longer[..k] == order[..k] && DepsBefore(g, order, k);
      } else {
        assert longer[..k] == order;
      }
    }
  }

  lemma PrefixDownClosed(g: Graph, order: seq<Node>)
    requires OrderedPrefix(g, order)
    ensures DownClosed(g, Elements(order))
  {
    forall n, d | n in Elements(order) && n in g && d in g[n]
      ensures d in Elements(order)
    {
      var k: nat :| k < |order| && order[k] == n;
      assert DepsBefore(g, order, k);
    }
  }

  lemma VisitedBound(g: Graph, order: seq<Node>)
    requires OrderedPrefix(g, order)
    ensures |order| <= |g|
    ensures |order| == |g| <==> TopologicalOrder(g, order)
  {
    DistinctCount(order);
    assert Elements(order) <= g.Keys;
    SubsetCount(Elements(order), g.Keys);
  }

  /** What the loop's exit says: all nodes popped is an order, anything less leaves a cycle among the rest. */
  lemma Verdict(g: Graph, adj: map<Node, seq<Node>>, indeg: map<Node, int>, order: seq<Node>)
    requires Closed(g) && KahnState(g, adj, indeg, order, [])
    ensures |order| == |g| <==> HasOrder(g)
    ensures |order| == |g| <==> !HasCycle(g)
    ensures |order| != |g| ==> exists c :: Cycle(g, c) && Elements(c) !! Elements(order)
  {
    VisitedBound(g, order);
    if |order| == |g| {
      OrderExcludesCycle(g);
    } else {
      UnvisitedWait(g, indeg, Elements(order));
      assert !(g.Keys <= Elements(order));
      var a :| a in g.Keys && a !in Elements(order);
      assert a in g.Keys - Elements(order);
      var c := StuckSetHasCycle(g, g.Keys - Elements(order));
      if HasOrder(g) { OrderExcludesCycle(g); assert false; }
    }
  }

  /** The outer loop, counting the pops. */
  method CountPopped(ghost g: Graph, adj: map<Node, seq<Node>>, indeg0: map<Node, int>, queue0: seq<Node>)
    returns (visited: nat)
    requires Closed(g) && KahnState(g, adj, indeg0, [], queue0)
    ensures visited == |g| <==> HasOrder(g)
    ensures visited == |g| <==> !HasCycle(g)
  {
    var indeg, queue := indeg0, queue0;
    ghost var order: seq<Node> := [];
    visited := 0;
    while queue != []
      invariant visited == |order| <= |g|
      invariant KahnState(g, adj, indeg, order, queue)
      decreases |g| - visited
    {
      var node;
      node, indeg, queue := PopLast(g, adj, indeg, order, queue);
      order := order + [node];
      visited := visited + 1;
    }
    Verdict(g, adj, indeg, order);
  }

  /** Without a cycle some unplaced node always has all its deps placed, so an order can grow. */
  lemma {:induction false} GrowOrder(g: Graph, order: seq<Node>)
    requires Closed(g) && !HasCycle(g) && OrderedPrefix(g, order)
    ensures HasOrder(g)
    decreases |g| - |order|
  {
    VisitedBound(g, order);
    if |order| < |g| {
      var left := g.Keys - Elements(order);
      assert !(g.Keys <= Elements(order));
      var a :| a in g.Keys && a !in Elements(order);
      assert a in left;
      if EachHasDepInside(g, left) {
        var c := StuckSetHasCycle(g, left);
        assert false;
      }
      var n :| n in left && !HasDepInside(g, left, n);
      forall d | d in g[n]
        ensures d in Elements(order)
      {
        assert DependsOn(g, n, d);
      }
      PrefixExtends(g, order, n);
      VisitedBound(g, order + [n]);
      GrowOrder(g, order + [n]);
    }
  }
}
