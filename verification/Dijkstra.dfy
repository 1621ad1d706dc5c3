/** `Graph::Dijkstra`: a passive shortest-path search that is fed edges by its
    client.  The priority queue is modelled by its current top and the bag of
    entries below it, so every heap layout that keeps a minimal entry on top is
    covered; pushing an entry replaces the top only when it is strictly cheaper. */
module ShortestPath {
  import opened Wrappers
  import opened Amounts

  type Node = nat

  /** The pointers of the original are keys of the owning node map here. */
  datatype TreeNode = TreeNode(cost: Amount, parent: Option<Node>, children: seq<Node>)
  type Tree = map<Node, TreeNode>

  datatype Entry = Entry(node: Node, cost: Amount)
  datatype Edge = Edge(src: Node, dst: Node, cost: Amount)

  /** A snapshot of the search, with its history: the closing order and every
      edge reported so far. */
  datatype Search = Search(
    root: Node, rootCost: Amount,
    top: Option<Entry>, rest: multiset<Entry>,
    tree: Tree, closed: set<Node>,
    order: seq<Node>, edges: set<Edge>)

  // ---------------------------------------------------------------- the steps

  function Init(root: Node, rootCost: Amount): Search {
    Search(root, rootCost, Some(Entry(root, rootCost)), multiset{},
           map[root := TreeNode(rootCost, None, [])], {}, [], {})
  }

  predicate IsCurrent(s: Search, n: Node) {
    s.top.Some? && s.top.value.node == n
  }

  /** `std::remove` followed by `erase`. */
  function Without(s: seq<Node>, n: Node): seq<Node> {
    if s == [] then []
    else (if s[0] == n then [] else [s[0]]) + Without(s[1..], n)
  }

  function Detach(tree: Tree, n: Node): Tree
    requires n in tree
  {
    if tree[n].parent.Some? && tree[n].parent.value in tree then
      var p := tree[n].parent.value;
      tree[p := tree[p].(children := Without(tree[p].children, n))]
    else tree
  }

  function Reparented(tree: Tree, n: Node, p: Node): Tree
    requires n in tree && p in tree
  {
    var t1 := Detach(tree, n);
    var t2 := t1[n := t1[n].(parent := Some(p))];
    t2[p := t2[p].(children := t2[p].children + [n])]
  }

  function Push(s: Search, e: Entry): Search {
    match s.top
    case None => s.(top := Some(e))
    case Some(t) =>
      if e.cost < t.cost then s.(top := Some(e), rest := s.rest + multiset{t})
      else s.(rest := s.rest + multiset{e})
  }

  /** Find or create the node and set its cost. */
  function Touch(tree: Tree, n: Node, alt: Amount): Tree {
    tree[n := if n in tree then tree[n].(cost := alt) else TreeNode(alt, None, [])]
  }

  /** Give `n` the cost `alt`, hang it under `u` and queue it. */
  function Improve(s: Search, n: Node, u: Node, alt: Amount): Search
    requires u in s.tree
  {
    Push(s.(tree := Reparented(Touch(s.tree, n, alt), n, u)), Entry(n, alt))
  }

  /** `neighbor`. */
  function Relax(s: Search, n: Node, c: Amount): Search
    requires s.top.Some? && s.top.value.node in s.tree
  {
    var u := s.top.value.node;
    var alt := SatAdd(s.tree[u].cost, c);
    var s1 := s.(edges := s.edges + {Edge(u, n, c)});
    if n !in s.tree || alt < s.tree[n].cost then Improve(s1, n, u, alt) else s1
  }

  function Contents(top: Option<Entry>, rest: multiset<Entry>): multiset<Entry> {
    match top case None => rest case Some(e) => rest + multiset{e}
  }

  ghost predicate TopIsLeast(top: Option<Entry>, rest: multiset<Entry>) {
    match top
    case None => rest == multiset{}
    case Some(t) => forall e :: e in rest ==> t.cost <= e.cost
  }

  /** What any sequence of pops that stops at the first unclosed top leaves. */
  ghost predicate Filtered(q: multiset<Entry>, closed: set<Node>, top: Option<Entry>, rest: multiset<Entry>) {
    && Contents(top, rest) <= q
    && (forall e :: e in q && e.node !in closed ==> e in Contents(top, rest))
    && TopIsLeast(top, rest)
    && (top.Some? ==> top.value.node !in closed)
  }

  /** `end_neighbors`. */
  ghost predicate Closes(s: Search, s': Search) {
    && s.top.Some?
    && var u := s.top.value.node;
       && s' == s.(top := s'.top, rest := s'.rest, closed := s.closed + {u}, order := s.order + [u])
       && Filtered(s.rest, s.closed + {u}, s'.top, s'.rest)
  }

  // ----------------------------------------------------------- the invariant

  predicate HasParent(tree: Tree, n: Node) {
    n in tree && tree[n].parent.Some? && tree[n].parent.value in tree
  }

  ghost predicate Rooted(root: Node, tree: Tree) {
    && root in tree && tree[root].parent == None
    && forall n {:trigger HasParent(tree, n)} :: n in tree && n != root ==> HasParent(tree, n)
  }

  predicate IsParent(tree: Tree, p: Node, n: Node) {
    n in tree && tree[n].parent == Some(p)
  }

  function ChildCount(tree: Tree, p: Node, n: Node): nat
    requires p in tree
  {
    multiset(tree[p].children)[n]
  }

  /** Child lists are exactly the inverse of the parent links, without duplicates. */
  ghost predicate Inverse(tree: Tree) {
    forall p, n {:trigger ChildCount(tree, p, n)} :: p in tree ==>
      ChildCount(tree, p, n) == if IsParent(tree, p, n) then 1 else 0
  }

  function IndexOf(s: seq<Node>, n: Node): (i: nat)
    ensures i <= |s| && (i < |s| ==> s[i] == n) && (n in s <==> i < |s|)
  {
    if s == [] then 0 else if s[0] == n then 0 else 1 + IndexOf(s[1..], n)
  }

  /** Position in the closing order; the current node comes next, then the rest. */
  function Rank(s: Search, n: Node): nat {
    IndexOf(s.order, n) + if n in s.closed || IsCurrent(s, n) then 0 else 1
  }

  predicate Expanded(s: Search, n: Node) {
    n in s.closed || IsCurrent(s, n)
  }

  predicate ParentFirst(s: Search, n: Node) {
    && HasParent(s.tree, n)
    && Expanded(s, s.tree[n].parent.value) && Rank(s, s.tree[n].parent.value) < Rank(s, n)
  }

  ghost predicate ParentsFirst(s: Search) {
    forall n {:trigger ParentFirst(s, n)} :: n in s.tree && n != s.root ==> ParentFirst(s, n)
  }

  ghost predicate Tight(s: Search, n: Node) {
    && HasParent(s.tree, n)
    && var p := s.tree[n].parent.value;
       exists e :: e in s.edges && e.src == p && e.dst == n && s.tree[n].cost == SatAdd(s.tree[p].cost, e.cost)
  }

  ghost predicate TightCosts(s: Search) {
    && s.root in s.tree && s.tree[s.root].cost == s.rootCost
    && forall n {:trigger Tight(s, n)} :: n in s.tree && n != s.root ==> Tight(s, n)
  }

  ghost predicate Relaxed(s: Search) {
    forall e :: e in s.edges ==>
      && Expanded(s, e.src) && e.src in s.tree && e.dst in s.tree
      && s.tree[e.dst].cost <= SatAdd(s.tree[e.src].cost, e.cost)
  }

  ghost predicate ClosingOrder(s: Search) {
    && s.closed <= s.tree.Keys
    && (forall n :: n in s.order <==> n in s.closed)
    && (forall i, j :: 0 <= i < j < |s.order| ==>
          s.order[i] != s.order[j] && s.tree[s.order[i]].cost <= s.tree[s.order[j]].cost)
    && (forall m, n :: m in s.closed && n in s.tree && n !in s.closed ==> s.tree[m].cost <= s.tree[n].cost)
  }

  ghost predicate QueueInv(s: Search) {
    && TopIsLeast(s.top, s.rest)
    && (forall e :: e in Contents(s.top, s.rest) ==> e.node in s.tree && s.tree[e.node].cost <= e.cost)
    && (forall n :: n in s.tree && n !in s.closed ==> Entry(n, s.tree[n].cost) in Contents(s.top, s.rest))
    && (s.top.Some? ==> s.top.value.node !in s.closed)
  }

  ghost predicate Inv(s: Search) {
    && Rooted(s.root, s.tree) && Inverse(s.tree)
    && ParentsFirst(s) && TightCosts(s) && Relaxed(s)
    && ClosingOrder(s) && QueueInv(s)
  }

  /** The top entry is never stale: it carries its node's present cost, and that
      cost is least among the open nodes. */
  lemma CurrentIsLeastOpen(s: Search)
    requires QueueInv(s) && s.top.Some?
    ensures s.top.value.node in s.tree && s.top.value.cost == s.tree[s.top.value.node].cost
    ensures forall n :: n in s.tree && n !in s.closed ==> s.tree[s.top.value.node].cost <= s.tree[n].cost
  {
    var t := s.top.value;
    assert t in Contents(s.top, s.rest);
    assert Entry(t.node, s.tree[t.node].cost) in Contents(s.top, s.rest);
    forall n | n in s.tree && n !in s.closed ensures s.tree[t.node].cost <= s.tree[n].cost {
      assert Entry(n, s.tree[n].cost) in Contents(s.top, s.rest);
    }
  }

  lemma InitInv(root: Node, rootCost: Amount)
    ensures Inv(Init(root, rootCost))
  {
  }

  // ------------------------------------------------------------------- relax

  lemma {:induction false} WithoutCounts(s: seq<Node>, n: Node)
    ensures forall m :: multiset(Without(s, n))[m] == if m == n then 0 else multiset(s)[m]
  {
    if s != [] {
      WithoutCounts(s[1..], n);
      assert s == [s[0]] + s[1..];
    }
  }

  /** `reparent` changes one parent link ... */
  lemma ReparentLinks(tree: Tree, n: Node, p: Node)
    requires n in tree && p in tree && n != p
    ensures var t := Reparented(tree, n, p);
            && t.Keys == tree.Keys
            && forall m :: m in tree ==>
                 t[m].cost == tree[m].cost && t[m].parent == if m == n then Some(p) else tree[m].parent
  {
  }

  lemma ReparentChildren(tree: Tree, n: Node, p: Node, q: Node, m: Node)
    requires n in tree && p in tree && n != p && q in tree
    ensures q in Reparented(tree, n, p)
    ensures ChildCount(Reparented(tree, n, p), q, m) ==
              (if m == n && tree[n].parent == Some(q) then 0 else ChildCount(tree, q, m))
            + (if q == p && m == n then 1 else 0)
  {
    WithoutCounts(tree[q].children, n);
  }

  /** ... and keeps the parent and child links inverse to each other. */
  lemma ReparentInverse(tree: Tree, n: Node, p: Node)
    requires n in tree && p in tree && n != p && Inverse(tree)
    ensures Inverse(Reparented(tree, n, p))
  {
    var t := Reparented(tree, n, p);
    ReparentLinks(tree, n, p);
    forall q, m | q in t
      ensures ChildCount(t, q, m) == if IsParent(t, q, m) then 1 else 0
    {
      ReparentChildren(tree, n, p, q, m);
      assert ChildCount(tree, q, m) == if IsParent(tree, q, m) then 1 else 0;
    }
  }

  /** Only an open node other than the current one can be improved: closed nodes
      are protected by the closing order, not by a test. */
  lemma ImprovedIsOpen(s: Search, n: Node, c: Amount)
    requires Inv(s) && s.top.Some? && s.top.value.node in s.tree
    requires n in s.tree && SatAdd(s.tree[s.top.value.node].cost, c) < s.tree[n].cost
    ensures n !in s.closed && n != s.top.value.node && n != s.root
  {
    var u := s.top.value.node;
    SatAddIsCappedSum(s.tree[u].cost, c);
    RootIsFirst(s);
  }

  lemma RootIsFirst(s: Search)
    requires Inv(s)
    ensures s.root in s.closed || IsCurrent(s, s.root)
    ensures s.top.Some? ==> s.top.value.node in s.tree && s.tree[s.root].cost <= s.tree[s.top.value.node].cost
  {
    if s.top.Some? {
      CurrentIsLeastOpen(s);
      var u := s.top.value.node;
      if s.root !in s.closed && u != s.root {
        FirstAncestorIsRoot(s, u);
        assert false;
      }
    }
  }

  /** Walking up from an expanded node ends at the root, so the root is closed
      once any other node is current. */
  lemma {:induction false} FirstAncestorIsRoot(s: Search, n: Node)
    requires Inv(s) && n in s.tree && n != s.root
    ensures s.root in s.closed || IsCurrent(s, s.root)
    decreases Rank(s, n)
  {
    assert ParentFirst(s, n);
    var p := s.tree[n].parent.value;
    if p != s.root {
      FirstAncestorIsRoot(s, p);
    }
  }

  lemma TouchInverse(root: Node, tree: Tree, n: Node, alt: Amount)
    requires Rooted(root, tree) && Inverse(tree)
    ensures Inverse(Touch(tree, n, alt))
  {
    var t := Touch(tree, n, alt);
    forall p, m | p in t
      ensures ChildCount(t, p, m) == if IsParent(t, p, m) then 1 else 0
    {
      if p in tree {
        assert ChildCount(tree, p, m) == if IsParent(tree, p, m) then 1 else 0;
      } else {
        assert m != root && m in tree ==> HasParent(tree, m);
      }
    }
  }

  ghost predicate Improved(s: Search, s': Search, n: Node, u: Node, alt: Amount) {
    && n !in s.closed && n != u && n != s.root && (n in s.tree ==> alt < s.tree[n].cost)
    && s'.tree.Keys == s.tree.Keys + {n}
    && s'.tree[n].cost == alt && s'.tree[n].parent == Some(u)
    && s'.rest == s.rest + multiset{Entry(n, alt)}
    && forall m :: m in s.tree && m != n ==>
         s'.tree[m].cost == s.tree[m].cost && s'.tree[m].parent == s.tree[m].parent
  }

  /** The whole effect of `neighbor`: the edge is recorded, and at most the cost
      and parent of one open, non-current node change. */
  ghost predicate Relaxes(s: Search, s': Search, n: Node, c: Amount) {
    && s.top.Some? && s.top.value.node in s.tree
    && s.top.value.cost == s.tree[s.top.value.node].cost
    && var u := s.top.value.node;
       var alt := SatAdd(s.tree[u].cost, c);
       && s' == s.(tree := s'.tree, rest := s'.rest, edges := s.edges + {Edge(u, n, c)})
       && s.tree[u].cost <= alt
       && ((s'.tree == s.tree && s'.rest == s.rest && n in s.tree && s.tree[n].cost <= alt)
           || Improved(s, s', n, u, alt))
  }

  lemma ImproveEffect(s: Search, n: Node, u: Node, alt: Amount)
    requires Rooted(s.root, s.tree) && Inverse(s.tree) && u in s.tree && n != u
    requires s.top.Some? && s.top.value.cost <= alt
    requires n !in s.closed && n != s.root && (n in s.tree ==> alt < s.tree[n].cost)
    ensures var s' := Improve(s, n, u, alt);
            Improved(s, s', n, u, alt) && s' == s.(tree := s'.tree, rest := s'.rest) && Inverse(s'.tree)
  {
    TouchInverse(s.root, s.tree, n, alt);
    ReparentLinks(Touch(s.tree, n, alt), n, u);
    ReparentInverse(Touch(s.tree, n, alt), n, u);
  }

  lemma RelaxEffect(s: Search, n: Node, c: Amount)
    requires Inv(s) && s.top.Some?
    ensures s.top.value.node in s.tree && Relaxes(s, Relax(s, n, c), n, c)
    ensures Inverse(Relax(s, n, c).tree)
  {
    CurrentIsLeastOpen(s);
    var u := s.top.value.node;
    var alt := SatAdd(s.tree[u].cost, c);
    SatAddIsCappedSum(s.tree[u].cost, c);
    if n !in s.tree || alt < s.tree[n].cost {
      if n in s.tree {
        ImprovedIsOpen(s, n, c);
      }
      ImproveEffect(s.(edges := s.edges + {Edge(u, n, c)}), n, u, alt);
    }
  }

  lemma RelaxKeepsParents(s: Search, s': Search, n: Node, c: Amount)
    requires Relaxes(s, s', n, c) && Rooted(s.root, s.tree) && ParentsFirst(s)
    requires (forall m :: m in s.order <==> m in s.closed) && s.top.value.node !in s.closed
    ensures Rooted(s'.root, s'.tree) && ParentsFirst(s')
  {
    forall m | m in s'.tree && m != s'.root
      ensures HasParent(s'.tree, m) && ParentFirst(s', m)
    {
      if m in s.tree {
        assert ParentFirst(s, m);
      }
    }
  }

  lemma RelaxKeepsTight(s: Search, s': Search, n: Node, c: Amount)
    requires Relaxes(s, s', n, c) && Rooted(s.root, s.tree) && Rooted(s'.root, s'.tree)
    requires ParentsFirst(s) && TightCosts(s)
    ensures TightCosts(s')
  {
    forall m | m in s'.tree && m != s'.root
      ensures Tight(s', m)
    {
      if s'.tree == s.tree || m != n {
        assert Tight(s, m) && ParentFirst(s, m) && HasParent(s'.tree, m);
        var p := s.tree[m].parent.value;
        var e :| e in s.edges && e.src == p && e.dst == m && s.tree[m].cost == SatAdd(s.tree[p].cost, e.cost);
        assert e in s'.edges;
      } else {
        assert HasParent(s'.tree, m) && Edge(s.top.value.node, n, c) in s'.edges;
      }
    }
  }

  lemma RelaxKeepsRelaxed(s: Search, s': Search, n: Node, c: Amount)
    requires Relaxes(s, s', n, c) && Relaxed(s)
    ensures Relaxed(s')
  {
    assert forall m :: Expanded(s', m) == Expanded(s, m);
  }

  lemma RelaxKeepsOrder(s: Search, s': Search, n: Node, c: Amount)
    requires Relaxes(s, s', n, c) && ClosingOrder(s) && s.top.value.node !in s.closed
    ensures ClosingOrder(s')
  {
    forall m | m in s.closed ensures m in s'.tree && s'.tree[m].cost == s.tree[m].cost {}
    forall i | 0 <= i < |s.order| ensures s.order[i] in s.closed { assert s.order[i] in s.order; }
  }

  lemma RelaxKeepsQueue(s: Search, s': Search, n: Node, c: Amount)
    requires Relaxes(s, s', n, c) && QueueInv(s)
    ensures QueueInv(s')
  {
    if s'.tree != s.tree {
      var e' := Entry(n, s'.tree[n].cost);
      assert Contents(s'.top, s'.rest) == Contents(s.top, s.rest) + multiset{e'};
      forall m | m in s'.tree && m !in s'.closed
        ensures Entry(m, s'.tree[m].cost) in Contents(s'.top, s'.rest)
      {
        if m != n {
          assert Entry(m, s.tree[m].cost) in Contents(s.top, s.rest);
        }
      }
    }
  }

  lemma RelaxInv(s: Search, n: Node, c: Amount)
    requires Inv(s) && s.top.Some?
    ensures s.top.value.node in s.tree && Inv(Relax(s, n, c))
  {
    RelaxEffect(s, n, c);
    var s' := Relax(s, n, c);
    RelaxKeepsParents(s, s', n, c);
    RelaxKeepsTight(s, s', n, c);
    RelaxKeepsRelaxed(s, s', n, c);
    RelaxKeepsOrder(s, s', n, c);
    RelaxKeepsQueue(s, s', n, c);
  }

  // ------------------------------------------------------------------- close

  lemma {:induction false} IndexOfSnoc(s: seq<Node>, u: Node, n: Node)
    ensures IndexOf(s + [u], n) == if n in s then IndexOf(s, n) else if n == u then |s| else |s| + 1
  {
    if s != [] {
      assert (s + [u])[1..] == s[1..] + [u];
      IndexOfSnoc(s[1..], u, n);
    }
  }

  lemma CloseKeepsParents(s: Search, s': Search)
    requires Closes(s, s') && Rooted(s.root, s.tree) && ParentsFirst(s)
    requires ClosingOrder(s) && s.top.value.node !in s.closed
    ensures ParentsFirst(s')
  {
    var u := s.top.value.node;
    forall n | n in s'.tree && n != s'.root
      ensures ParentFirst(s', n)
    {
      assert ParentFirst(s, n);
      var p := s.tree[n].parent.value;
      IndexOfSnoc(s.order, u, n);
      IndexOfSnoc(s.order, u, p);
    }
  }

  lemma CloseKeepsCosts(s: Search, s': Search)
    requires Closes(s, s') && Rooted(s.root, s.tree) && TightCosts(s) && Relaxed(s)
    ensures TightCosts(s') && Relaxed(s')
  {
    forall n | n in s'.tree && n != s'.root ensures Tight(s', n) {
      assert Tight(s, n);
    }
  }

  lemma CloseKeepsQueue(s: Search, s': Search)
    requires Closes(s, s') && QueueInv(s)
    ensures QueueInv(s')
  {
    forall n | n in s'.tree && n !in s'.closed
      ensures Entry(n, s'.tree[n].cost) in Contents(s'.top, s'.rest)
    {
      assert Entry(n, s.tree[n].cost) in Contents(s.top, s.rest);
      assert Entry(n, s.tree[n].cost) in s.rest;
    }
    forall e | e in Contents(s'.top, s'.rest)
      ensures e.node in s'.tree && s'.tree[e.node].cost <= e.cost
    {
      assert e in Contents(s.top, s.rest);
    }
  }

  lemma CloseKeepsOrder(s: Search, s': Search)
    requires Closes(s, s') && QueueInv(s) && ClosingOrder(s)
    ensures ClosingOrder(s')
  {
    CurrentIsLeastOpen(s);
    hide QueueInv, Filtered;
    forall i | 0 <= i < |s.order| ensures s.order[i] in s.closed { assert s.order[i] in s.order; }
  }

  lemma CloseInv(s: Search, s': Search)
    requires Inv(s) && Closes(s, s')
    ensures Inv(s')
  {
    CloseKeepsParents(s, s');
    CloseKeepsCosts(s, s');
    CloseKeepsOrder(s, s');
    CloseKeepsQueue(s, s');
  }

  // ------------------------------------------------------------------- paths

  ghost predicate IsPath(edges: set<Edge>, root: Node, p: seq<Edge>, n: Node) {
    if p == [] then n == root
    else
      var last := p[|p| - 1];
      last in edges && last.dst == n && IsPath(edges, root, p[..|p| - 1], last.src)
  }

  ghost predicate Reachable(edges: set<Edge>, root: Node, n: Node) {
    exists p :: IsPath(edges, root, p, n)
  }

  /** The cost of a path, accumulated the way the search does it. */
  function PathCost(rootCost: Amount, p: seq<Edge>): Amount {
    if p == [] then rootCost else SatAdd(PathCost(rootCost, p[..|p| - 1]), p[|p| - 1].cost)
  }

  function Sum(p: seq<Edge>): nat {
    if p == [] then 0 else Sum(p[..|p| - 1]) + p[|p| - 1].cost
  }

  lemma {:induction false} PathCostIsCappedSum(rootCost: Amount, p: seq<Edge>)
    ensures PathCost(rootCost, p) == if rootCost + Sum(p) <= MAX_AMOUNT then rootCost + Sum(p) else MAX_AMOUNT
  {
    if p != [] {
      PathCostIsCappedSum(rootCost, p[..|p| - 1]);
      SatAddIsCappedSum(PathCost(rootCost, p[..|p| - 1]), p[|p| - 1].cost);
    }
  }

  /** `d` is the least cost of a path from the root to `n`, and is attained. */
  ghost predicate IsShortest(edges: set<Edge>, root: Node, rootCost: Amount, n: Node, d: Amount) {
    && (exists p :: IsPath(edges, root, p, n) && PathCost(rootCost, p) == d)
    && (forall p :: IsPath(edges, root, p, n) ==> d <= PathCost(rootCost, p))
  }

  lemma {:induction false} NoPathIsCheaper(s: Search, p: seq<Edge>, n: Node)
    requires Inv(s) && IsPath(s.edges, s.root, p, n)
    ensures n in s.tree && s.tree[n].cost <= PathCost(s.rootCost, p)
  {
    if p != [] {
      var last := p[|p| - 1];
      NoPathIsCheaper(s, p[..|p| - 1], last.src);
      SatAddIsCappedSum(s.tree[last.src].cost, last.cost);
      SatAddIsCappedSum(PathCost(s.rootCost, p[..|p| - 1]), last.cost);
    }
  }

  lemma {:induction false} TreePath(s: Search, n: Node) returns (p: seq<Edge>)
    requires Inv(s) && n in s.tree
    ensures IsPath(s.edges, s.root, p, n) && PathCost(s.rootCost, p) == s.tree[n].cost
    decreases Rank(s, n)
  {
    if n == s.root {
      p := [];
    } else {
      assert Tight(s, n) && ParentFirst(s, n);
      var q := s.tree[n].parent.value;
      var e :| e in s.edges && e.src == q && e.dst == n && s.tree[n].cost == SatAdd(s.tree[q].cost, e.cost);
      var p' := TreePath(s, q);
      p := p' + [e];
      assert p[..|p| - 1] == p';
    }
  }

  /** In every state of every run, each discovered node carries the least cost of
      a path of reported edges, and exactly the reachable nodes are discovered. */
  lemma CostsAreShortest(s: Search)
    requires Inv(s)
    ensures forall n :: n in s.tree ==> IsShortest(s.edges, s.root, s.rootCost, n, s.tree[n].cost)
    ensures forall n :: n in s.tree <==> Reachable(s.edges, s.root, n)
  {
    hide Inv;
    forall p, n | IsPath(s.edges, s.root, p, n)
      ensures n in s.tree && s.tree[n].cost <= PathCost(s.rootCost, p)
    {
      NoPathIsCheaper(s, p, n);
    }
    forall n | n in s.tree
      ensures exists p :: IsPath(s.edges, s.root, p, n) && PathCost(s.rootCost, p) == s.tree[n].cost
    {
      var p := TreePath(s, n);
    }
    forall n ensures n in s.tree <==> Reachable(s.edges, s.root, n) {
      if n in s.tree {
        var p := TreePath(s, n);
      }
    }
  }

  /** Walking up the parent links `k` times. */
  function Ancestor(tree: Tree, n: Node, k: nat): Option<Node>
    decreases k
  {
    if k == 0 then Some(n)
    else if n in tree && tree[n].parent.Some? then Ancestor(tree, tree[n].parent.value, k - 1)
    else None
  }

  /** Every node hangs under the root, and no node is its own proper ancestor. */
  lemma {:induction false} HangsUnderRoot(s: Search, n: Node) returns (k: nat)
    requires Rooted(s.root, s.tree) && ParentsFirst(s) && n in s.tree
    ensures Ancestor(s.tree, n, k) == Some(s.root)
    decreases Rank(s, n)
  {
    if n == s.root {
      k := 0;
    } else {
      assert ParentFirst(s, n);
      var k' := HangsUnderRoot(s, s.tree[n].parent.value);
      k := k' + 1;
    }
  }

  lemma {:induction false} AncestorsRankLower(s: Search, n: Node, k: nat)
    requires Inv(s) && n in s.tree && Ancestor(s.tree, n, k).Some?
    ensures Ancestor(s.tree, n, k).value in s.tree
    ensures k > 0 ==> Rank(s, Ancestor(s.tree, n, k).value) < Rank(s, n)
    decreases k
  {
    if k > 0 {
      assert ParentFirst(s, n);
      AncestorsRankLower(s, s.tree[n].parent.value, k - 1);
    }
  }

  lemma LinksAreAcyclic(s: Search, n: Node, k: nat)
    requires Inv(s) && n in s.tree && k > 0
    ensures Ancestor(s.tree, n, k) != Some(n)
  {
    if Ancestor(s.tree, n, k).Some? {
      AncestorsRankLower(s, n, k);
    }
  }

  // -------------------------------------------------------------------- runs

  ghost predicate Next(s: Search, s': Search) {
    || (s.top.Some? && s.top.value.node in s.tree && exists n, c :: s' == Relax(s, n, c))
    || Closes(s, s')
  }

  ghost predicate IsRun(run: seq<Search>, root: Node, rootCost: Amount) {
    && |run| > 0 && run[0] == Init(root, rootCost)
    && forall i {:trigger run[i]} :: 0 <= i < |run| - 1 ==> Next(run[i], run[i + 1])
  }

  /** What can never be undone: closed nodes stay closed at the same cost. */
  ghost predicate Extends(s: Search, s': Search) {
    && s.order <= s'.order && s.edges <= s'.edges && s.closed <= s'.closed
    && s'.root == s.root && s'.rootCost == s.rootCost
    && forall n :: n in s.closed ==> n in s.tree && n in s'.tree && s'.tree[n].cost == s.tree[n].cost
  }

  /** `neighbor` keeps the invariant, leaves `current()` alone and never touches
      a closed node, although it does not look at the closed set. */
  lemma NeighborInv(s: Search, n: Node, c: Amount)
    requires Inv(s) && s.top.Some?
    ensures s.top.value.node in s.tree
    ensures var s' := Relax(s, n, c); Inv(s') && s'.top == s.top && Extends(s, s')
  {
    RelaxEffect(s, n, c);
    RelaxInv(s, n, c);
  }

  lemma NextInv(s: Search, s': Search)
    requires Inv(s) && Next(s, s')
    ensures Inv(s') && Extends(s, s')
  {
    if Closes(s, s') {
      CloseInv(s, s');
    } else {
      var n, c :| s' == Relax(s, n, c);
      NeighborInv(s, n, c);
    }
  }

  lemma ExtendsItself(s: Search)
    requires Inv(s)
    ensures Extends(s, s)
  {
  }

  lemma ExtendsIsTransitive(a: Search, b: Search, c: Search)
    requires Extends(a, b) && Extends(b, c)
    ensures Extends(a, c)
  {
  }

  lemma {:induction false} RunInv(run: seq<Search>, root: Node, rootCost: Amount, i: nat, j: nat)
    requires IsRun(run, root, rootCost) && i <= j < |run|
    ensures Inv(run[i]) && Inv(run[j]) && Extends(run[i], run[j])
    decreases j
  {
    hide Inv, Extends, Next;
    if j == 0 {
      InitInv(root, rootCost);
      ExtendsItself(run[0]);
    } else if i < j {
      RunInv(run, root, rootCost, i, j - 1);
      NextInv(run[j - 1], run[j]);
      ExtendsIsTransitive(run[i], run[j - 1], run[j]);
    } else {
      RunInv(run, root, rootCost, j - 1, j - 1);
      NextInv(run[j - 1], run[j]);
      ExtendsItself(run[j]);
    }
  }

  /** Over every run: the cost a node has when it is closed is already the least
      cost of a path among all edges reported until any later moment, and closing
      happens in order of non-decreasing cost. */
  lemma ClosedCostIsFinal(run: seq<Search>, root: Node, rootCost: Amount, i: nat, j: nat, n: Node)
    requires IsRun(run, root, rootCost) && i <= j < |run| && n in run[i].closed
    ensures n in run[i].tree && IsShortest(run[j].edges, root, rootCost, n, run[i].tree[n].cost)
    ensures run[i].order <= run[j].order
    ensures forall a, b :: 0 <= a < b < |run[j].order| ==>
              && run[j].order[a] in run[j].tree && run[j].order[b] in run[j].tree
              && run[j].tree[run[j].order[a]].cost <= run[j].tree[run[j].order[b]].cost
  {
    RunInv(run, root, rootCost, i, j);
    RunInv(run, root, rootCost, 0, j);
    CostsAreShortest(run[j]);
    forall a | 0 <= a < |run[j].order| ensures run[j].order[a] in run[j].closed {
      assert run[j].order[a] in run[j].order;
    }
  }

  // --------------------------------------------------------------- the class

  lemma LeastEntry(q: multiset<Entry>) returns (e: Entry)
    requires q != multiset{}
    ensures e in q && forall f :: f in q ==> e.cost <= f.cost
    decreases |q|
  {
    e :| e in q;
    if q != multiset{e} {
      var q' := q - multiset{e};
      if q' != multiset{} {
        var f := LeastEntry(q');
        assert forall g :: g in q ==> g == e || g in q';
        if f.cost < e.cost {
          e := f;
        }
      }
    }
  }

  class Dijkstra {
    const root: Node
    const rootCost: Amount
    var top: Option<Entry>
    var rest: multiset<Entry>
    var treenodes: Tree
    var closed: set<Node>
    ghost var order: seq<Node>
    ghost var edges: set<Edge>

    ghost function State(): Search
      reads this
    {
      Search(root, rootCost, top, rest, treenodes, closed, order, edges)
    }

    constructor (root: Node, rootCost: Amount)
      ensures this.root == root && this.rootCost == rootCost
      ensures State() == Init(root, rootCost) && Inv(State())
    {
      this.root, this.rootCost := root, rootCost;
      top, rest := Some(Entry(root, rootCost)), multiset{};
      treenodes := map[root := TreeNode(rootCost, None, [])];
      closed, order, edges := {}, [], {};
      new;
      InitInv(root, rootCost);
    }

    /** The node the client is asked about: a discovered node of least cost that is
        not closed yet.  There is none exactly when all are closed. */
    method Current() returns (n: Option<Node>)
      ensures n == if top.None? then None else Some(top.value.node)
      ensures Inv(State()) ==> (n.None? <==> treenodes.Keys == closed)
      ensures Inv(State()) && n.Some? ==>
                n.value in treenodes && n.value !in closed &&
                forall m :: m in treenodes && m !in closed ==> treenodes[n.value].cost <= treenodes[m].cost
    {
      n := if top.None? then None else Some(top.value.node);
      if Inv(State()) {
        hide Rooted, Inverse, ParentsFirst, TightCosts, Relaxed;
        if n.Some? {
          CurrentIsLeastOpen(State());
        }
      }
    }

    method Reparent(node: Node, parent: Node)
      requires node in treenodes && parent in treenodes
      modifies `treenodes
      ensures treenodes == Reparented(old(treenodes), node, parent)
    {
      var cur := treenodes[node].parent;
      if cur.Some? && cur.value in treenodes {
        treenodes := treenodes[cur.value :=
          treenodes[cur.value].(children := Without(treenodes[cur.value].children, node))];
      }
      treenodes := treenodes[node := treenodes[node].(parent := Some(parent))];
      treenodes := treenodes[parent := treenodes[parent].(children := treenodes[parent].children + [node])];
    }

    /** A heap push: the old top survives a tie. */
    method PushEntry(e: Entry)
      modifies `top, `rest
      ensures State() == Push(old(State()), e)
    {
      if top.None? {
        top := Some(e);
      } else if e.cost < top.value.cost {
        rest := rest + multiset{top.value};
        top := Some(e);
      } else {
        rest := rest + multiset{e};
      }
    }

    method Neighbor(n: Node, c: Amount)
      requires Inv(State()) && top.Some?
      modifies this
      ensures old(top.value.node in treenodes) && State() == Relax(old(State()), n, c)
      ensures Inv(State()) && top == old(top) && Extends(old(State()), State())
    {
      hide Inv, Extends;
      ghost var s := State();
      NeighborInv(s, n, c);
      var u := top.value.node;
      var alt := SatAdd(treenodes[u].cost, c);
      edges := edges + {Edge(u, n, c)};
      if n !in treenodes {
        treenodes := treenodes[n := TreeNode(alt, None, [])];
        this.Reparent(n, u);
        PushEntry(Entry(n, alt));
      } else if alt < treenodes[n].cost {
        treenodes := treenodes[n := treenodes[n].(cost := alt)];
        this.Reparent(n, u);
        PushEntry(Entry(n, alt));
      }
    }

    /** A heap pop: some least entry of the remaining ones comes up. */
    method PopEntry()
      requires top.Some?
      modifies `top, `rest
      ensures Contents(top, rest) == old(rest) && TopIsLeast(top, rest)
    {
      if rest == multiset{} {
        top := None;
      } else {
        ghost var w := LeastEntry(rest);
        var e :| e in rest && forall f :: f in rest ==> e.cost <= f.cost;
        top, rest := Some(e), rest - multiset{e};
      }
    }

    method PopWhileClosed()
      requires TopIsLeast(top, rest)
      modifies `top, `rest
      ensures Filtered(old(Contents(top, rest)), closed, top, rest)
    {
      while top.Some? && top.value.node in closed
        invariant Contents(top, rest) <= old(Contents(top, rest)) && TopIsLeast(top, rest)
        invariant forall e :: e in old(Contents(top, rest)) && e.node !in closed ==> e in Contents(top, rest)
        decreases |Contents(top, rest)|
      {
        PopEntry();
      }
    }

    method EndNeighbors()
      requires Inv(State()) && top.Some?
      modifies this
      ensures Closes(old(State()), State())
      ensures Inv(State()) && Extends(old(State()), State())
    {
      hide Inv, Extends, Filtered;
      ghost var s := State();
      var u := top.value.node;
      closed := closed + {u};
      order := order + [u];
      PopEntry();
      PopWhileClosed();
      NextInv(s, State());
    }
  }
}
