/** What the operations on the tree do to each node, told by chains of parents. */
module NodeMeaning {
  import opened Options
  import opened NodeTrees

  /** From `m` up to `n`, parent by parent. */
  predicate ParentChain(nodes: Nodes, path: seq<NodeId>, m: NodeId, n: NodeId) {
    && path != [] && path[0] == m && path[|path| - 1] == n
    && forall i :: 0 <= i < |path| - 1 ==> path[i] in nodes && nodes[path[i]].parent == Some(path[i + 1])
  }

  /** `m` is `n` or one of its descendants. */
  ghost predicate Below(nodes: Nodes, m: NodeId, n: NodeId) {
    exists path :: ParentChain(nodes, path, m, n)
  }

  lemma {:induction false} ChainOfUnder(nodes: Nodes, rank: Ranks, m: NodeId, n: NodeId) returns (path: seq<NodeId>)
    requires Ranked(Up(nodes), rank) && m in nodes && Under(Up(nodes), rank, m, n)
    ensures ParentChain(nodes, path, m, n)
    decreases rank[m]
  {
    path := [m];
    if m != n {
      var rest := ChainOfUnder(nodes, rank, nodes[m].parent.value, n);
      path := [m] + rest;
    }
  }

  lemma {:induction false} UnderOfChain(nodes: Nodes, rank: Ranks, path: seq<NodeId>, m: NodeId, n: NodeId)
    requires Ranked(Up(nodes), rank) && m in nodes && ParentChain(nodes, path, m, n)
    ensures Under(Up(nodes), rank, m, n)
    decreases |path|
  {
    if |path| > 1 {
      assert Up(nodes)[m] == Some(path[1]);
      UnderOfChain(nodes, rank, path[1..], path[1], n);
    }
  }

  /** The subtree of a node is what a chain of parents leads from to it. */
  lemma SubtreeIsBelow(nodes: Nodes, rank: Ranks, m: NodeId, n: NodeId)
    requires Ranked(Up(nodes), rank) && m in nodes
    ensures m in Subtree(Up(nodes), rank, n) <==> Below(nodes, m, n)
  {
    if Under(Up(nodes), rank, m, n) {
      var path := ChainOfUnder(nodes, rank, m, n);
    } else if path :| ParentChain(nodes, path, m, n) {
      UnderOfChain(nodes, rank, path, m, n);
    }
  }

  predicate SameButOwner(a: NodeData, b: NodeData) {
    a.parent == b.parent && a.children == b.children && a.isRoot == b.isRoot
  }

  /** `n` and its descendants, and no other node, now belong to `target`; the tree is the same. */
  ghost predicate SubtreeMoved(before: Nodes, after: Nodes, n: NodeId, target: Exec) {
    && after.Keys == before.Keys
    && forall m :: m in before ==>
         SameButOwner(after[m], before[m])
         && after[m].owner == if Below(before, m, n) then target else before[m].owner
  }

  lemma MovedMeans(nodes: Nodes, after: Nodes, rank: Ranks, n: NodeId, target: Exec)
    requires Ranked(Up(nodes), rank) && after == Moved(nodes, Subtree(Up(nodes), rank, n), target)
    ensures SubtreeMoved(nodes, after, n, target)
  {
    forall m | m in nodes ensures m in Subtree(Up(nodes), rank, n) <==> Below(nodes, m, n) {
      SubtreeIsBelow(nodes, rank, m, n);
    }
  }

  /** `r` is `s` without `x`, in the same order; `s` itself if it has no `x`. */
  ghost predicate WithoutOne(s: seq<NodeId>, r: seq<NodeId>, x: NodeId) {
    if x in s then exists i :: 0 <= i < |s| && s[i] == x && r == s[..i] + s[i + 1..] else r == s
  }

  lemma DropMeans(s: seq<NodeId>, x: NodeId)
    requires NoRepeats(s)
    ensures WithoutOne(s, Drop(s, x), x)
  {
    if x in s {
      var i :| 0 <= i < |s| && s[i] == x;
      DropAt(s, i);
    } else {
      DropAbsent(s, x);
    }
  }

  predicate SameButChildren(a: NodeData, b: NodeData) {
    a.parent == b.parent && a.isRoot == b.isRoot && a.owner == b.owner
  }

  /** `n` and its descendants are gone, the other nodes are there, and only the list of the parent is shorter. */
  ghost predicate SubtreeGone(before: Nodes, after: Nodes, n: NodeId) {
    && (forall m :: m in after <==> m in before && !Below(before, m, n))
    && (forall m :: m in after ==>
          SameButChildren(after[m], before[m]) && WithoutOne(before[m].children, after[m].children, n))
  }

  lemma DetachedAt(nodes: Nodes, n: NodeId, m: NodeId)
    requires Linked(nodes) && n in nodes && m in nodes
    ensures m in Detached(nodes, n) && SameButChildren(Detached(nodes, n)[m], nodes[m])
    ensures WithoutOne(nodes[m].children, Detached(nodes, n)[m].children, n)
  {
    assert ChildrenOf(Up(nodes), m, nodes[m].children);
    DropMeans(nodes[m].children, n);
    if n in nodes[m].children { ListedOnlyByParent(nodes, n, m); }
  }

  lemma DestroyedMeans(nodes: Nodes, rank: Ranks, n: NodeId)
    requires TreeOk(nodes, rank) && n in nodes
    ensures SubtreeGone(nodes, Detached(nodes, n) - Subtree(Up(nodes), rank, n), n)
  {
    var after := Detached(nodes, n) - Subtree(Up(nodes), rank, n);
    forall m | m in nodes
      ensures (m in after <==> !Below(nodes, m, n)) && SameButChildren(Detached(nodes, n)[m], nodes[m])
      ensures WithoutOne(nodes[m].children, Detached(nodes, n)[m].children, n)
    {
      SubtreeIsBelow(nodes, rank, m, n);
      DetachedAt(nodes, n, m);
    }
  }

  /** `n` has left its parent's list and is the last child of `v`; no other node has changed. */
  ghost predicate Reparented(before: Nodes, after: Nodes, n: NodeId, v: Option<NodeId>) {
    && after.Keys == before.Keys && n in before
    && after[n] == before[n].(parent := v, isRoot := v.None?)
    && forall q :: q in before && q != n ==>
         SameButChildren(after[q], before[q]) && Rejoined(before[q].children, after[q].children, n, v == Some(q))
  }

  ghost predicate Rejoined(before: seq<NodeId>, after: seq<NodeId>, n: NodeId, joins: bool) {
    if joins then after != [] && after[|after| - 1] == n && WithoutOne(before, after[..|after| - 1], n)
    else WithoutOne(before, after, n)
  }

  lemma RelinkedAt(nodes: Nodes, n: NodeId, v: Option<NodeId>, q: NodeId)
    requires Linked(nodes) && n in nodes && q in nodes && q != n
    ensures var after := Relinked(nodes, n, v);
      SameButChildren(after[q], nodes[q]) && Rejoined(nodes[q].children, after[q].children, n, v == Some(q))
  {
    assert ChildrenOf(Up(nodes), q, nodes[q].children);
    DropMeans(nodes[q].children, n);
    KidsMeans(nodes[q].children, n, q, v);
  }

  lemma RelinkedMeans(nodes: Nodes, rank: Ranks, n: NodeId, v: Option<NodeId>)
    requires TreeOk(nodes, rank) && n in nodes
    ensures Reparented(nodes, Relinked(nodes, n, v), n, v)
  {
    var after := Relinked(nodes, n, v);
    forall q | q in nodes && q != n
      ensures SameButChildren(after[q], nodes[q])
        && Rejoined(nodes[q].children, after[q].children, n, v == Some(q))
    {
      RelinkedAt(nodes, n, v, q);
    }
  }

  lemma KidsMeans(cs: seq<NodeId>, n: NodeId, q: NodeId, v: Option<NodeId>)
    requires WithoutOne(cs, Drop(cs, n), n)
    ensures Rejoined(cs, Kids(cs, n, q, v), n, v == Some(q))
  {
    if v == Some(q) {
      var kids := Kids(cs, n, q, v);
      assert kids[..|kids| - 1] == Drop(cs, n);
    }
  }

  /** A new last child of `p`, owned by its owner; no other node has changed. */
  ghost predicate Born(before: Nodes, after: Nodes, n: NodeId, p: NodeId) {
    && p in before && after.Keys == before.Keys + {n}
    && after[n].parent == Some(p) && after[n].children == [] && !after[n].isRoot && after[n].owner == before[p].owner
    && SameButChildren(after[p], before[p]) && after[p].children == before[p].children + [n]
    && forall q :: q in before && q != p ==> after[q] == before[q]
  }

  lemma AdoptedMeans(nodes: Nodes, rank: Ranks, n: NodeId, p: NodeId)
    requires TreeOk(nodes, rank) && n !in nodes && p in nodes
    ensures Born(nodes, Adopted(WithRoot(nodes, n, nodes[p].owner), n, p), n, p)
  {
  }
}
