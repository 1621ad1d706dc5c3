/** `ChannelFinderByDistance::Run`: drives the shortest-path search with the
    node's answers to `listchannels`, then collects the leaves of the tree. */
module ChannelFinder {
  import opened Wrappers
  import opened Amounts
  import opened ShortestPath

  /** Highest usable fee per hop: 50 satoshi. */
  const MAX_FEE: Amount := 50_000

  /** One entry of a `listchannels` answer with its cost already computed. */
  datatype Channel = Channel(active: bool, destination: Node, cost: Amount)

  /** The entries read before the answer ended or turned out to be malformed. */
  datatype Listing = Listing(channels: seq<Channel>, wellFormed: bool)
  type Network = map<Node, Listing>

  function Ask(net: Network, n: Node): Listing {
    if n in net then net[n] else Listing([], true)
  }

  predicate Usable(c: Channel) {
    c.active && c.cost <= MAX_FEE
  }

  ghost function Offered(n: Node, channels: seq<Channel>): set<Edge> {
    set i | 0 <= i < |channels| && Usable(channels[i]) :: Edge(n, channels[i].destination, channels[i].cost)
  }

  /** Every usable channel of the network, as an edge. */
  ghost function Graph(net: Network): set<Edge> {
    set n, e | n in net && e in Offered(n, net[n].channels) :: e
  }

  /** The network's edges are its active channels that cost no more than the limit, at
      the cost and in the direction of their listing. */
  lemma GraphIff(net: Network, e: Edge)
    ensures e in Graph(net) <==>
              e.src in net && exists c :: c in net[e.src].channels && c.active && c.cost <= MAX_FEE
                                          && e == Edge(e.src, c.destination, c.cost)
  {
    if e in Graph(net) {
      var i :| 0 <= i < |net[e.src].channels| && Usable(net[e.src].channels[i])
            && e == Edge(e.src, net[e.src].channels[i].destination, net[e.src].channels[i].cost);
      assert net[e.src].channels[i] in net[e.src].channels;
    }
    if e.src in net {
      forall c | c in net[e.src].channels && c.active && c.cost <= MAX_FEE && e == Edge(e.src, c.destination, c.cost)
        ensures e in Graph(net)
      {
        var i :| 0 <= i < |net[e.src].channels| && net[e.src].channels[i] == c;
        assert e in Offered(e.src, net[e.src].channels);
      }
    }
  }

  ghost predicate ClosedEdges(s: Search, net: Network) {
    forall e :: e in s.edges <==> e in Graph(net) && e.src in s.closed
  }

  // ------------------------------------------------- completeness of a full run

  lemma {:induction false} GraphPathWasReported(s: Search, net: Network, p: seq<Edge>, n: Node)
    requires Inv(s) && s.top.None? && ClosedEdges(s, net) && IsPath(Graph(net), s.root, p, n)
    ensures IsPath(s.edges, s.root, p, n)
  {
    if p != [] {
      var last := p[|p| - 1];
      GraphPathWasReported(s, net, p[..|p| - 1], last.src);
      NoPathIsCheaper(s, p[..|p| - 1], last.src);
      AllClosed(s);
    }
  }

  lemma {:induction false} ReportedPathIsInGraph(s: Search, net: Network, p: seq<Edge>, n: Node)
    requires ClosedEdges(s, net) && IsPath(s.edges, s.root, p, n)
    ensures IsPath(Graph(net), s.root, p, n)
  {
    if p != [] {
      ReportedPathIsInGraph(s, net, p[..|p| - 1], p[|p| - 1].src);
    }
  }

  /** `tree` is a shortest-path tree of the whole network: it holds exactly the
      reachable nodes, each at its least cost. */
  ghost predicate SolvesNetwork(root: Node, rootCost: Amount, tree: Tree, net: Network) {
    forall n :: (n in tree <==> Reachable(Graph(net), root, n))
             && (n in tree ==> IsShortest(Graph(net), root, rootCost, n, tree[n].cost))
  }

  lemma CompleteRunSolves(s: Search, net: Network)
    requires Inv(s) && s.top.None? && ClosedEdges(s, net)
    ensures SolvesNetwork(s.root, s.rootCost, s.tree, net)
  {
    CostsAreShortest(s);
    hide Inv;
    forall p, n ensures IsPath(Graph(net), s.root, p, n) <==> IsPath(s.edges, s.root, p, n) {
      if IsPath(Graph(net), s.root, p, n) {
        GraphPathWasReported(s, net, p, n);
      }
      if IsPath(s.edges, s.root, p, n) {
        ReportedPathIsInGraph(s, net, p, n);
      }
    }
    forall n ensures Reachable(Graph(net), s.root, n) <==> Reachable(s.edges, s.root, n) {}
    forall n | n in s.tree ensures IsShortest(Graph(net), s.root, s.rootCost, n, s.tree[n].cost) {
      assert IsShortest(s.edges, s.root, s.rootCost, n, s.tree[n].cost);
    }
  }

  ghost function Universe(root: Node, net: Network): set<Node> {
    {root} + set e | e in Graph(net) :: e.dst
  }

  lemma TreeStaysInUniverse(s: Search, net: Network)
    requires Inv(s) && s.edges <= Graph(net)
    ensures s.tree.Keys <= Universe(s.root, net)
  {
    forall n | n in s.tree ensures n in Universe(s.root, net) {
      if n != s.root {
        assert Tight(s, n);
      }
    }
  }

  // ---------------------------------------------------------------- leaf scan

  predicate Discovered(tree: Tree, root: Node, visited: seq<Node>, n: Node) {
    n in tree && (n == root || (tree[n].parent.Some? && tree[n].parent.value in visited))
  }

  /** Visited and queued nodes together are the root and the children of visited
      nodes, each exactly once. */
  ghost predicate Frontier(tree: Tree, root: Node, visited: seq<Node>, queue: seq<Node>) {
    forall n {:trigger Discovered(tree, root, visited, n)} ::
      multiset(visited)[n] + multiset(queue)[n] == if Discovered(tree, root, visited, n) then 1 else 0
  }

  lemma ScanStep(tree: Tree, root: Node, visited: seq<Node>, queue: seq<Node>)
    requires Rooted(root, tree) && Inverse(tree) && Frontier(tree, root, visited, queue) && queue != []
    ensures queue[0] in tree && queue[0] !in visited
    ensures Frontier(tree, root, visited + [queue[0]], queue[1..] + tree[queue[0]].children)
  {
    var x := queue[0];
    assert queue == [x] + queue[1..];
    assert Discovered(tree, root, visited, x);
    assert x in multiset(queue);
    forall n
      ensures multiset(visited + [x])[n] + multiset(queue[1..] + tree[x].children)[n]
           == if Discovered(tree, root, visited + [x], n) then 1 else 0
    {
      assert ChildCount(tree, x, n) == if IsParent(tree, x, n) then 1 else 0;
      assert multiset(visited)[n] + multiset(queue)[n] == if Discovered(tree, root, visited, n) then 1 else 0;
    }
  }

  lemma {:induction false} AllVisited(s: Search, visited: seq<Node>, n: Node)
    requires Inv(s) && Frontier(s.tree, s.root, visited, []) && n in s.tree
    ensures n in visited
    decreases Rank(s, n)
  {
    if n != s.root {
      assert ParentFirst(s, n);
      AllVisited(s, visited, s.tree[n].parent.value);
    }
    assert Discovered(s.tree, s.root, visited, n);
    assert n in multiset(visited);
  }

  /** The childless nodes of a visiting order. */
  function Childless(tree: Tree, visited: seq<Node>): seq<Node> {
    if visited == [] then []
    else
      var last := visited[|visited| - 1];
      Childless(tree, visited[..|visited| - 1])
      + if last in tree && tree[last].children == [] then [last] else []
  }

  lemma {:induction false} ChildlessCounts(tree: Tree, visited: seq<Node>, n: Node)
    ensures multiset(Childless(tree, visited))[n]
         == if n in tree && tree[n].children == [] then multiset(visited)[n] else 0
  {
    if visited != [] {
      var k := |visited| - 1;
      assert visited == visited[..k] + [visited[k]];
      ChildlessCounts(tree, visited[..k], n);
    }
  }

  lemma FewerThanKeys(tree: Tree, visited: seq<Node>)
    requires forall n :: multiset(visited)[n] <= if n in tree then 1 else 0
    ensures |visited| <= |tree|
  {
    assert multiset(visited) <= multiset(tree.Keys);
    assert multiset(tree.Keys) == multiset(visited) + (multiset(tree.Keys) - multiset(visited));
    assert |multiset(tree.Keys)| == |tree.Keys|;
  }

  // ---------------------------------------------------------------- the module

  class Run {
    const djk: Dijkstra
    var extractQ: seq<Node>
    var leaves: seq<Node>
    var progress: nat

    constructor (selfId: Node)
      ensures fresh(djk) && djk.root == selfId && djk.rootCost == 0
      ensures djk.State() == Init(selfId, 0) && Inv(djk.State())
      ensures extractQ == [] && leaves == [] && progress == 0
    {
      djk := new Dijkstra(selfId, 0);
      extractQ, leaves, progress := [], [], 0;
    }

    /** Report the usable channels of the current node; close it unless its
        listing was malformed. */
    method Step(net: Network) returns (ok: bool)
      requires Inv(djk.State()) && djk.top.Some?
      modifies djk
      ensures Inv(djk.State())
      ensures var u := old(djk.top.value.node);
              && ok == Ask(net, u).wellFormed
              && djk.edges == old(djk.edges) + Offered(u, Ask(net, u).channels)
              && djk.closed == old(djk.closed) + (if ok then {u} else {})
              && djk.order == old(djk.order) + (if ok then [u] else [])
              && (!ok ==> djk.top == old(djk.top))
    {
      hide Inv, Extends, Relax, Filtered;
      var u := djk.top.value.node;
      var listing := Ask(net, u);
      var i := 0;
      while i < |listing.channels|
        invariant 0 <= i <= |listing.channels|
        invariant Inv(djk.State()) && djk.top == old(djk.top)
        invariant djk.edges == old(djk.edges) + Offered(u, listing.channels[..i])
        invariant djk.closed == old(djk.closed) && djk.order == old(djk.order)
      {
        var c := listing.channels[i];
        RelaxFrame(djk.State(), c.destination, c.cost);
        assert listing.channels[..i + 1] == listing.channels[..i] + [c];
        OfferedSnoc(u, listing.channels[..i], c);
        if c.active && c.cost <= MAX_FEE {
          djk.Neighbor(c.destination, c.cost);
        }
        i := i + 1;
      }
      assert listing.channels[..i] == listing.channels;
      ok := listing.wellFormed;
      if ok {
        djk.EndNeighbors();
      }
    }

    /** Run until the queue is empty or a malformed answer stops the search. */
    method Loop(net: Network) returns (complete: bool)
      requires djk.State() == Init(djk.root, djk.rootCost) && Inv(djk.State())
      modifies djk
      ensures Inv(djk.State()) && djk.edges <= Graph(net)
      ensures complete <==> forall n :: n in djk.treenodes ==> Ask(net, n).wellFormed
      ensures complete ==> djk.top.None? && SolvesNetwork(djk.root, djk.rootCost, djk.treenodes, net)
    {
      hide Inv, Init, SolvesNetwork, ClosedEdges, Offered, Graph, Universe;
      StartsClosed(djk.State(), net);
      while djk.top.Some?
        invariant Inv(djk.State()) && ClosedEdges(djk.State(), net)
        invariant forall n :: n in djk.closed ==> Ask(net, n).wellFormed
        decreases |Universe(djk.root, net) - djk.closed|
      {
        var u := djk.top.value.node;
        CurrentIsFresh(djk.State(), net);
        ghost var s := djk.State();
        ghost var unvisited := Universe(djk.root, net) - djk.closed;
        var ok := Step(net);
        EdgesAdvance(s, djk.State(), net, u);
        if !ok {
          StillInTree(djk.State(), u);
          return false;
        }
        assert Universe(djk.root, net) - djk.closed == unvisited - {u};
      }
      AllClosed(djk.State());
      EdgesAreInGraph(djk.State(), net);
      CompleteRunSolves(djk.State(), net);
      complete := true;
    }

    /** Breadth-first scan of the finished or partial tree. */
    method FindLeaves() returns (ghost visited: seq<Node>)
      requires Inv(djk.State()) && extractQ == [] && leaves == []
      modifies this
      ensures forall n :: multiset(visited)[n] == if n in djk.treenodes then 1 else 0
      ensures forall n :: multiset(leaves)[n] ==
                if n in djk.treenodes && djk.treenodes[n].children == [] then 1 else 0
      ensures progress == |djk.treenodes| && extractQ == []
    {
      ghost var s := djk.State();
      progress := 0;
      extractQ := [djk.root];
      visited := [];
      while extractQ != []
        invariant djk.State() == s && progress == |visited|
        invariant Frontier(s.tree, s.root, visited, extractQ)
        invariant leaves == Childless(s.tree, visited)
        decreases |s.tree| - |visited|
      {
        ScanStep(s.tree, s.root, visited, extractQ);
        FewerThanKeysNow(s.tree, s.root, visited, extractQ);
        ghost var before := visited;
        var n := extractQ[0];
        extractQ := extractQ[1..];
        progress := progress + 1;
        visited := visited + [n];
        assert visited[..|visited| - 1] == before;
        if djk.treenodes[n].children == [] {
          leaves := leaves + [n];
        } else {
          extractQ := extractQ + djk.treenodes[n].children;
        }
      }
      ScanComplete(s, visited);
    }
  }

  lemma FewerThanKeysNow(tree: Tree, root: Node, visited: seq<Node>, queue: seq<Node>)
    requires Frontier(tree, root, visited, queue) && queue != []
    ensures |visited| < |tree|
  {
    var x := queue[0];
    assert queue == [x] + queue[1..];
    forall n ensures multiset(visited + [x])[n] <= if n in tree then 1 else 0 {
      assert multiset(visited)[n] + multiset(queue)[n] == if Discovered(tree, root, visited, n) then 1 else 0;
    }
    FewerThanKeys(tree, visited + [x]);
  }

  lemma ScanComplete(s: Search, visited: seq<Node>)
    requires Inv(s) && Frontier(s.tree, s.root, visited, [])
    ensures forall n :: multiset(visited)[n] == if n in s.tree then 1 else 0
    ensures forall n :: multiset(Childless(s.tree, visited))[n] ==
              if n in s.tree && s.tree[n].children == [] then 1 else 0
    ensures |visited| == |s.tree|
  {
    hide Inv;
    forall n
      ensures multiset(visited)[n] == if n in s.tree then 1 else 0
      ensures multiset(Childless(s.tree, visited))[n] ==
              if n in s.tree && s.tree[n].children == [] then 1 else 0
    {
      if n in s.tree {
        AllVisited(s, visited, n);
      }
      assert multiset(visited)[n] == if Discovered(s.tree, s.root, visited, n) then 1 else 0;
      ChildlessCounts(s.tree, visited, n);
    }
    assert multiset(visited) == multiset(s.tree.Keys);
    assert |multiset(s.tree.Keys)| == |s.tree.Keys|;
  }

  // -------------------------------------------------- small facts for the loops

  lemma RelaxFrame(s: Search, n: Node, c: Amount)
    requires Inv(s) && s.top.Some?
    ensures s.top.value.node in s.tree
    ensures var s' := Relax(s, n, c);
            && s'.edges == s.edges + {Edge(s.top.value.node, n, c)}
            && s'.closed == s.closed && s'.order == s.order
  {
    RelaxEffect(s, n, c);
  }

  lemma OfferedSnoc(u: Node, channels: seq<Channel>, c: Channel)
    ensures Offered(u, channels + [c]) ==
              Offered(u, channels) + if Usable(c) then {Edge(u, c.destination, c.cost)} else {}
  {
    var both := channels + [c];
    forall e | e in Offered(u, channels) ensures e in Offered(u, both) {
      var i :| 0 <= i < |channels| && Usable(channels[i]) && e == Edge(u, channels[i].destination, channels[i].cost);
      assert both[i] == channels[i];
    }
    assert both[|channels|] == c;
  }

  lemma OfferedIsGraph(net: Network, u: Node)
    ensures forall e :: e in Offered(u, Ask(net, u).channels) <==> e in Graph(net) && e.src == u
  {
  }

  lemma StartsClosed(s: Search, net: Network)
    requires s == Init(s.root, s.rootCost)
    ensures ClosedEdges(s, net) && s.closed == {}
  {
  }

  lemma EdgesAreInGraph(s: Search, net: Network)
    requires ClosedEdges(s, net)
    ensures s.edges <= Graph(net)
  {
  }

  lemma EdgesAdvance(s: Search, s': Search, net: Network, u: Node)
    requires ClosedEdges(s, net) && u !in s.closed
    requires s'.edges == s.edges + Offered(u, Ask(net, u).channels)
    ensures s'.edges <= Graph(net)
    ensures s'.closed == s.closed + {u} ==> ClosedEdges(s', net)
  {
    OfferedIsGraph(net, u);
  }

  lemma CurrentIsFresh(s: Search, net: Network)
    requires Inv(s) && s.top.Some? && ClosedEdges(s, net)
    ensures s.top.value.node !in s.closed && s.top.value.node in Universe(s.root, net)
  {
    CurrentIsLeastOpen(s);
    TreeStaysInUniverse(s, net);
  }

  lemma StillInTree(s: Search, u: Node)
    requires Inv(s) && IsCurrent(s, u)
    ensures u in s.tree
  {
    CurrentIsLeastOpen(s);
  }

  lemma AllClosed(s: Search)
    requires Inv(s) && s.top.None?
    ensures s.tree.Keys == s.closed
  {
    forall n | n in s.tree ensures n in s.closed {
      assert n !in s.closed ==> Entry(n, s.tree[n].cost) in Contents(s.top, s.rest);
    }
  }
}
