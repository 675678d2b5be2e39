/**
 The ownership tree: parent and child links, and the node and root registries of the executors.
 Destruction and migration recurse over the children; they are proved to act on the set of
 descendants at once.
 */
module NodeTrees {
  import opened Options
  import opened Strands

  type NodeId = nat
  type Exec = nat

  datatype NodeData = NodeData(parent: Option<NodeId>, children: seq<NodeId>, isRoot: bool, owner: Exec)

  /** An executor's registries; a strand keeps only the number of its nodes, in `count`. */
  datatype Registry = Registry(nodes: multiset<NodeId>, count: int, roots: multiset<NodeId>)
  {
    function AddNode(n: NodeId): Registry { this.(nodes := nodes + multiset{n}, count := count + 1) }

    function RemoveNode(n: NodeId): Registry { this.(nodes := nodes[n := 0], count := count - 1) }

    function AddRoot(n: NodeId): Registry { this.(roots := roots + multiset{n}) }

    function RemoveRoot(n: NodeId): Registry { this.(roots := roots[n := 0]) }
  }

  type Nodes = map<NodeId, NodeData>
  type Registries = map<Exec, Registry>

  // ------------------------------------------------------------------ ancestors

  type Links = map<NodeId, Option<NodeId>>
  type Ranks = map<NodeId, nat>

  ghost function Up(nodes: Nodes): Links { map m | m in nodes :: nodes[m].parent }

  /** No cycles: ranks grow from parent to child. */
  ghost predicate Ranked(up: Links, rank: Ranks) {
    forall m :: m in up ==>
      && m in rank
      && (up[m].Some? ==> up[m].value in up && up[m].value in rank && rank[up[m].value] < rank[m])
  }

  /** `n` is `m` or one of its ancestors. */
  ghost predicate Under(up: Links, rank: Ranks, m: NodeId, n: NodeId)
    requires Ranked(up, rank) && m in up
    decreases rank[m]
  {
    m == n || (up[m].Some? && Under(up, rank, up[m].value, n))
  }

  ghost function Subtree(up: Links, rank: Ranks, n: NodeId): set<NodeId>
    requires Ranked(up, rank)
  {
    set m | m in up && Under(up, rank, m, n)
  }

  lemma {:induction false} UnderRank(up: Links, rank: Ranks, m: NodeId, n: NodeId)
    requires Ranked(up, rank) && m in up && Under(up, rank, m, n)
    ensures n in up && rank[n] <= rank[m] && (rank[n] == rank[m] ==> m == n)
    decreases rank[m]
  {
    if m != n { UnderRank(up, rank, up[m].value, n); }
  }

  lemma {:induction false} UnderTrans(up: Links, rank: Ranks, m: NodeId, c: NodeId, n: NodeId)
    requires Ranked(up, rank) && m in up && c in up && Under(up, rank, m, c) && Under(up, rank, c, n)
    ensures Under(up, rank, m, n)
    decreases rank[m]
  {
    if m != c { UnderTrans(up, rank, up[m].value, c, n); }
  }

  /** Below `n` means below one of its children. */
  lemma {:induction false} UnderChild(up: Links, rank: Ranks, m: NodeId, n: NodeId) returns (c: NodeId)
    requires Ranked(up, rank) && m in up && Under(up, rank, m, n) && m != n
    ensures c in up && up[c] == Some(n) && Under(up, rank, m, c)
    decreases rank[m]
  {
    if up[m].value == n { c := m; }
    else { c := UnderChild(up, rank, up[m].value, n); }
  }

  /** Siblings have no descendant in common. */
  lemma {:induction false} SiblingsApart(up: Links, rank: Ranks, m: NodeId, c: NodeId, d: NodeId)
    requires Ranked(up, rank) && m in up && c in up && d in up && c != d && up[c].Some? && up[c] == up[d]
    requires Under(up, rank, m, c)
    ensures !Under(up, rank, m, d)
    decreases rank[m]
  {
    if Under(up, rank, m, d) {
      if m == c { UnderRank(up, rank, up[c].value, d); }
      else if m == d { UnderRank(up, rank, up[d].value, c); }
      else { SiblingsApart(up, rank, up[m].value, c, d); }
    }
  }

  /** All the descendants of the nodes of a list. */
  ghost function Subtrees(up: Links, rank: Ranks, cs: seq<NodeId>): set<NodeId>
    requires Ranked(up, rank)
  {
    if cs == [] then {} else Subtrees(up, rank, cs[..|cs| - 1]) + Subtree(up, rank, cs[|cs| - 1])
  }

  lemma {:induction false} SubtreesMember(up: Links, rank: Ranks, cs: seq<NodeId>, m: NodeId)
    requires Ranked(up, rank)
    ensures m in Subtrees(up, rank, cs) <==> m in up && exists i :: 0 <= i < |cs| && Under(up, rank, m, cs[i])
  {
    if cs != [] {
      SubtreesMember(up, rank, cs[..|cs| - 1], m);
      if m in up && exists i :: 0 <= i < |cs| && Under(up, rank, m, cs[i]) {
        var i :| 0 <= i < |cs| && Under(up, rank, m, cs[i]);
        if i < |cs| - 1 { assert cs[..|cs| - 1][i] == cs[i]; }
      }
    }
  }

  predicate NoRepeats(s: seq<NodeId>) { forall i, j :: 0 <= i < j < |s| ==> s[i] != s[j] }

  /** The children listed are exactly the nodes that name `n` as their parent. */
  ghost predicate ChildrenOf(up: Links, n: NodeId, cs: seq<NodeId>) {
    && NoRepeats(cs)
    && (forall i :: 0 <= i < |cs| ==> cs[i] in up && up[cs[i]] == Some(n))
    && (forall m :: m in up && up[m] == Some(n) ==> m in cs)
  }

  /** A subtree is its root and the subtrees of the children, which are disjoint. */
  lemma SubtreeSplits(up: Links, rank: Ranks, n: NodeId, cs: seq<NodeId>)
    requires Ranked(up, rank) && n in up && ChildrenOf(up, n, cs)
    ensures Subtree(up, rank, n) == {n} + Subtrees(up, rank, cs) && n !in Subtrees(up, rank, cs)
  {
    forall m
      ensures m in Subtree(up, rank, n) <==> m == n || m in Subtrees(up, rank, cs)
    {
      SubtreesMember(up, rank, cs, m);
      if m in up && Under(up, rank, m, n) && m != n {
        var c := UnderChild(up, rank, m, n);
        var i :| 0 <= i < |cs| && cs[i] == c;
      }
      if m in Subtrees(up, rank, cs) {
        var i :| 0 <= i < |cs| && Under(up, rank, m, cs[i]);
        UnderTrans(up, rank, m, cs[i], n);
      }
    }
    SubtreesMember(up, rank, cs, n);
    if n in Subtrees(up, rank, cs) {
      var i :| 0 <= i < |cs| && Under(up, rank, n, cs[i]);
      UnderRank(up, rank, n, cs[i]);
    }
  }

  lemma NextSubtreeApart(up: Links, rank: Ranks, n: NodeId, cs: seq<NodeId>, i: nat)
    requires Ranked(up, rank) && n in up && ChildrenOf(up, n, cs) && i < |cs|
    ensures Subtree(up, rank, cs[i]) !! Subtrees(up, rank, cs[..i])
    ensures Subtrees(up, rank, cs[..i + 1]) == Subtrees(up, rank, cs[..i]) + Subtree(up, rank, cs[i])
    ensures Subtree(up, rank, cs[i]) < Subtree(up, rank, n)
  {
    assert cs[..i + 1][..i] == cs[..i];
    forall m | m in Subtree(up, rank, cs[i])
      ensures m !in Subtrees(up, rank, cs[..i]) && m in Subtree(up, rank, n)
    {
      SubtreesMember(up, rank, cs[..i], m);
      forall j | 0 <= j < i ensures !Under(up, rank, m, cs[j]) { SiblingsApart(up, rank, m, cs[i], cs[j]); }
      UnderTrans(up, rank, m, cs[i], n);
    }
    if n in Subtree(up, rank, cs[i]) { UnderRank(up, rank, n, cs[i]); }
  }

  lemma {:induction false} OwnerShared(nodes: Nodes, rank: Ranks, m: NodeId, n: NodeId)
    requires TreeOk(nodes, rank) && m in nodes && Under(Up(nodes), rank, m, n)
    ensures n in nodes && nodes[m].owner == nodes[n].owner && (m != n ==> !nodes[m].isRoot)
    decreases rank[m]
  {
    if m != n { OwnerShared(nodes, rank, nodes[m].parent.value, n); }
  }

  // ------------------------------------------------------------------ agreement

  ghost predicate Linked(nodes: Nodes) {
    forall p :: p in nodes ==> ChildrenOf(Up(nodes), p, nodes[p].children)
  }

  /** Parent and child links agree, without cycles; roots are the parentless nodes; a child has its parent's owner. */
  ghost predicate TreeOk(nodes: Nodes, rank: Ranks) {
    Ranked(Up(nodes), rank) && Linked(nodes) && OwnersOk(nodes)
  }

  ghost function OwnedBy(nodes: Nodes, e: Exec): set<NodeId> { set m | m in nodes && nodes[m].owner == e }

  ghost function RootsOf(nodes: Nodes, e: Exec): set<NodeId> {
    set m | m in nodes && nodes[m].owner == e && nodes[m].isRoot
  }

  /** The registries of an executor that holds exactly these nodes and roots, each one once. */
  ghost function Exactly(owned: set<NodeId>, roots: set<NodeId>): Registry {
    Registry(multiset(owned), |owned|, multiset(roots))
  }

  /** Every executor has registered exactly its nodes and exactly its parentless nodes. */
  ghost predicate RegistriesOk(nodes: Nodes, reg: Registries) {
    && (forall m :: m in nodes ==> nodes[m].owner in reg)
    && (forall e :: e in reg ==> reg[e] == Exactly(OwnedBy(nodes, e), RootsOf(nodes, e)))
  }

  // ------------------------------------------------------------------ migration

  ghost function Moved(nodes: Nodes, d: set<NodeId>, target: Exec): Nodes {
    map m | m in nodes :: if m in d then nodes[m].(owner := target) else nodes[m]
  }

  ghost function Less(r: Registry, d: set<NodeId>, roots: set<NodeId>): Registry {
    Registry(r.nodes - multiset(d), r.count - |d|, r.roots - multiset(roots))
  }

  ghost function More(r: Registry, d: set<NodeId>, roots: set<NodeId>): Registry {
    Registry(r.nodes + multiset(d), r.count + |d|, r.roots + multiset(roots))
  }

  ghost function MovedRegistries(reg: Registries, d: set<NodeId>, roots: set<NodeId>, old_: Exec,
                                 target: Exec): Registries
    requires old_ in reg && target in reg
  {
    reg[old_ := Less(reg[old_], d, roots)][target := More(reg[target], d, roots)]
  }

  lemma MovedTwice(nodes: Nodes, a: set<NodeId>, b: set<NodeId>, target: Exec)
    ensures Moved(Moved(nodes, a, target), b, target) == Moved(nodes, a + b, target)
    ensures Up(Moved(nodes, a, target)) == Up(nodes)
  {
  }

  lemma MovedLinked(nodes: Nodes, d: set<NodeId>, target: Exec)
    requires Linked(nodes)
    ensures Linked(Moved(nodes, d, target)) && Up(Moved(nodes, d, target)) == Up(nodes)
  {
    var nodes' := Moved(nodes, d, target);
    MovedTwice(nodes, d, d, target);
    forall p | p in nodes'
      ensures ChildrenOf(Up(nodes'), p, nodes'[p].children)
    {
      assert nodes'[p].children == nodes[p].children;
    }
  }

  lemma LessTwice(r: Registry, a: set<NodeId>, b: set<NodeId>, roots: set<NodeId>)
    requires a !! b
    ensures Less(Less(r, a, roots), b, {}) == Less(r, a + b, roots)
    ensures More(More(r, a, roots), b, {}) == More(r, a + b, roots)
  {
    assert a * b == {};
    assert multiset(a + b) == multiset(a) + multiset(b);
  }

  lemma MovedRegistriesTwice(reg: Registries, a: set<NodeId>, b: set<NodeId>, roots: set<NodeId>, e: Exec, target: Exec)
    requires e in reg && target in reg && e != target && a !! b
    ensures MovedRegistries(MovedRegistries(reg, a, roots, e, target), b, {}, e, target)
      == MovedRegistries(reg, a + b, roots, e, target)
  {
    LessTwice(reg[e], a, b, roots);
    LessTwice(reg[target], a, b, roots);
  }

  lemma OneMoved(reg: Registries, n: NodeId, root: bool, e: Exec, target: Exec)
    requires e in reg && target in reg && e != target
    requires reg[e].nodes[n] == 1 && (root ==> reg[e].roots[n] == 1)
    ensures var roots := if root then {n} else {};
      var left := if root then reg[e].RemoveNode(n).RemoveRoot(n) else reg[e].RemoveNode(n);
      var joined := if root then reg[target].AddNode(n).AddRoot(n) else reg[target].AddNode(n);
      reg[e := left][target := joined] == MovedRegistries(reg, {n}, roots, e, target)
  {
    var none: set<NodeId> := {};
    assert multiset({n}) == multiset{n} && multiset(none) == multiset{};
    assert reg[e].nodes[n := 0] == reg[e].nodes - multiset{n};
    assert root ==> reg[e].roots[n := 0] == reg[e].roots - multiset{n};
    assert Less(reg[e], {n}, {}) == reg[e].RemoveNode(n) && More(reg[target], {n}, {}) == reg[target].AddNode(n);
    assert root ==> Less(reg[e], {n}, {n}) == reg[e].RemoveNode(n).RemoveRoot(n);
    assert More(reg[target], {n}, {n}) == reg[target].AddNode(n).AddRoot(n);
  }

  /** The subtree of `n` is registered with `e` as a whole; only `n` may be a root. */
  ghost predicate InOneExecutor(nodes: Nodes, reg: Registries, up: Links, rank: Ranks, n: NodeId, e: Exec) {
    && up == Up(nodes) && Ranked(up, rank) && Linked(nodes) && n in nodes && e in reg
    && (forall m :: m in Subtree(up, rank, n) ==> nodes[m].owner == e && reg[e].nodes[m] == 1)
    && (forall m :: m in Subtree(up, rank, n) && m != n ==> !nodes[m].isRoot)
    && (nodes[n].isRoot ==> reg[e].roots[n] == 1)
  }

  lemma UnderRankChild(up: Links, rank: Ranks, n: NodeId, c: NodeId)
    requires Ranked(up, rank) && n in up && c in up && up[c] == Some(n)
    ensures n !in Subtree(up, rank, c) && c in Subtree(up, rank, c) && c in Subtree(up, rank, n)
  {
    if Under(up, rank, n, c) { UnderRank(up, rank, n, c); }
    assert Under(up, rank, n, n);
  }

  /** `n` and the subtrees of its first `i` children have moved. */
  ghost predicate MovedSoFar(nodes0: Nodes, reg0: Registries, up: Links, rank: Ranks, n: NodeId, e: Exec,
                             target: Exec, i: nat,
                             nodes: Nodes, reg: Registries)
    requires Ranked(up, rank) && n in nodes0 && i <= |nodes0[n].children| && e in reg0 && target in reg0
  {
    var done := {n} + Subtrees(up, rank, nodes0[n].children[..i]);
    nodes == Moved(nodes0, done, target)
    && reg == MovedRegistries(reg0, done, if nodes0[n].isRoot then {n} else {}, e, target)
  }

  /** What moves elsewhere does not disturb a subtree. */
  lemma StaysInOneExecutor(nodes: Nodes, reg: Registries, up: Links, rank: Ranks, c: NodeId, e: Exec, target: Exec,
                           done: set<NodeId>, roots: set<NodeId>)
    requires up == Up(nodes) && Ranked(up, rank) && Linked(nodes) && c in nodes && e in reg && target in reg
    requires target != e
    requires forall m :: m in Subtree(up, rank, c) ==>
      m !in done && nodes[m].owner == e && reg[e].nodes[m] == 1 && !nodes[m].isRoot
    ensures InOneExecutor(Moved(nodes, done, target), MovedRegistries(reg, done, roots, e, target), up, rank, c, e)
  {
    MovedLinked(nodes, done, target);
    assert c in Subtree(up, rank, c);
  }

  /** After `n` and some children have moved, the next child's subtree is still where it was. */
  lemma NextMoves(nodes0: Nodes, reg0: Registries, up: Links, rank: Ranks, n: NodeId, e: Exec, target: Exec, i: nat,
                  nodes: Nodes, reg: Registries)
    requires InOneExecutor(nodes0, reg0, up, rank, n, e) && target in reg0 && target != e && i < |nodes0[n].children|
    requires MovedSoFar(nodes0, reg0, up, rank, n, e, target, i, nodes, reg)
    ensures var c := nodes0[n].children[i];
      InOneExecutor(nodes, reg, up, rank, c, e) && !nodes[c].isRoot && target in reg
  {
    var cs := nodes0[n].children;
    NextSubtreeApart(up, rank, n, cs, i);
    UnderRankChild(up, rank, n, cs[i]);
    StaysInOneExecutor(nodes0, reg0, up, rank, cs[i], e, target, {n} + Subtrees(up, rank, cs[..i]),
      if nodes0[n].isRoot then {n} else {});
  }

  lemma NextMoved(nodes0: Nodes, reg0: Registries, up: Links, rank: Ranks, n: NodeId, e: Exec, target: Exec, i: nat,
                  nodes: Nodes, reg: Registries)
    requires Ranked(up, rank) && n in up && n in nodes0 && ChildrenOf(up, n, nodes0[n].children)
    requires e in reg0 && target in reg0 && target != e && i < |nodes0[n].children|
    requires MovedSoFar(nodes0, reg0, up, rank, n, e, target, i, nodes, reg)
    ensures var next := Subtree(up, rank, nodes0[n].children[i]);
      && e in reg && target in reg
      && MovedSoFar(nodes0, reg0, up, rank, n, e, target, i + 1, Moved(nodes, next, target),
        MovedRegistries(reg, next, {}, e, target))
  {
    var cs := nodes0[n].children;
    var done := {n} + Subtrees(up, rank, cs[..i]);
    var next := Subtree(up, rank, cs[i]);
    NextSubtreeApart(up, rank, n, cs, i);
    UnderRankChild(up, rank, n, cs[i]);
    assert done + next == {n} + Subtrees(up, rank, cs[..i + 1]);
    MovedTwice(nodes0, done, next, target);
    MovedRegistriesTwice(reg0, done, next, if nodes0[n].isRoot then {n} else {}, e, target);
  }

  lemma AllMoved(nodes0: Nodes, reg0: Registries, up: Links, rank: Ranks, n: NodeId, e: Exec, target: Exec,
                 nodes: Nodes, reg: Registries)
    requires InOneExecutor(nodes0, reg0, up, rank, n, e) && target in reg0 && target != e
    requires MovedSoFar(nodes0, reg0, up, rank, n, e, target, |nodes0[n].children|, nodes, reg)
    ensures nodes == Moved(nodes0, Subtree(up, rank, n), target)
    ensures reg == MovedRegistries(reg0, Subtree(up, rank, n), if nodes0[n].isRoot then {n} else {}, e, target)
  {
    var cs := nodes0[n].children;
    assert cs[..|cs|] == cs;
    SubtreeSplits(up, rank, n, cs);
  }

  lemma ChildIsSmaller(up: Links, rank: Ranks, n: NodeId, cs: seq<NodeId>, i: nat)
    requires Ranked(up, rank) && n in up && ChildrenOf(up, n, cs) && i < |cs|
    ensures |Subtree(up, rank, cs[i])| < |Subtree(up, rank, n)|
  {
    NextSubtreeApart(up, rank, n, cs, i);
    SubsetIsSmaller(Subtree(up, rank, cs[i]), Subtree(up, rank, n));
  }

  /** One turn of the loop over the children: what the recursive call needs, and what it completes. */
  lemma NextChild(nodes0: Nodes, reg0: Registries, up: Links, rank: Ranks, n: NodeId, e: Exec, target: Exec, i: nat,
                  nodes: Nodes, reg: Registries)
    requires InOneExecutor(nodes0, reg0, up, rank, n, e) && target in reg0 && target != e && i < |nodes0[n].children|
    requires MovedSoFar(nodes0, reg0, up, rank, n, e, target, i, nodes, reg)
    ensures var c := nodes0[n].children[i]; var next := Subtree(up, rank, c);
      && InOneExecutor(nodes, reg, up, rank, c, e) && !nodes[c].isRoot && target in reg
        && |next| < |Subtree(up, rank, n)|
      && MovedSoFar(nodes0, reg0, up, rank, n, e, target, i + 1,
                    Moved(nodes, next, target), MovedRegistries(reg, next, {}, e, target))
  {
    NextMoves(nodes0, reg0, up, rank, n, e, target, i, nodes, reg);
    NextMoved(nodes0, reg0, up, rank, n, e, target, i, nodes, reg);
    ChildIsSmaller(up, rank, n, nodes0[n].children, i);
  }

  lemma FirstMoved(nodes: Nodes, reg: Registries, up: Links, rank: Ranks, n: NodeId, e: Exec, target: Exec)
    requires InOneExecutor(nodes, reg, up, rank, n, e) && target in reg && target != e
    ensures var r := if nodes[n].isRoot then reg[e].RemoveNode(n).RemoveRoot(n) else reg[e].RemoveNode(n);
      var t := if nodes[n].isRoot then reg[target].AddNode(n).AddRoot(n) else reg[target].AddNode(n);
      nodes[n].owner == e
      && MovedSoFar(nodes, reg, up, rank, n, e, target, 0, nodes[n := nodes[n].(owner := target)],
        reg[e := r][target := t])
  {
    assert n in Subtree(up, rank, n);
    OneMoved(reg, n, nodes[n].isRoot, e, target);
    OwnerMoved(nodes, n, target);
    NoneYet(up, rank, n, nodes[n].children);
  }

  lemma OwnerMoved(nodes: Nodes, n: NodeId, target: Exec)
    requires n in nodes
    ensures nodes[n := nodes[n].(owner := target)] == Moved(nodes, {n}, target)
  {
  }

  lemma NoneYet(up: Links, rank: Ranks, n: NodeId, cs: seq<NodeId>)
    requires Ranked(up, rank)
    ensures {n} + Subtrees(up, rank, cs[..0]) == {n}
  {
    assert cs[..0] == [];
  }

  // ------------------------------------------------------------------ destruction

  /** A vector without `x`. */
  function Drop(s: seq<NodeId>, x: NodeId): (r: seq<NodeId>)
    ensures forall y :: y in r <==> y in s && y != x
    ensures NoRepeats(s) ==> NoRepeats(r)
  {
    if s == [] then []
    else
      var rest := Drop(s[1..], x);
      assert forall y :: y in s <==> y == s[0] || y in s[1..];
      assert NoRepeats(s) ==> s[0] !in s[1..] && NoRepeats(s[1..]);
      if s[0] == x then rest else [s[0]] + rest
  }

  /** `n` has left its parent's list. */
  function Detached(nodes: Nodes, n: NodeId): Nodes
    requires n in nodes
  {
    match nodes[n].parent
    case None => nodes
    case Some(p) => if p in nodes then nodes[p := nodes[p].(children := Drop(nodes[p].children, n))] else nodes
  }

  /** The subtree of `n` is complete, with `e`; other parts of the forest may be gone already. */
  ghost predicate Destroyable(nodes: Nodes, reg: Registries, up: Links, rank: Ranks, n: NodeId, e: Exec) {
    && Ranked(up, rank) && n in up && e in reg
    && (forall m :: m in Subtree(up, rank, n) ==>
          && m in nodes && nodes[m].parent == up[m] && nodes[m].owner == e && reg[e].nodes[m] == 1
          && (nodes[m].isRoot <==> up[m].None?) && ChildrenOf(up, m, nodes[m].children))
    && (n in nodes && nodes[n].isRoot ==> reg[e].roots[n] == 1)
  }

  /** `n` is detached and its children taken out of it; the first `i` of them are destroyed. */
  ghost predicate DestroyedSoFar(nodes0: Nodes, reg0: Registries, up: Links, rank: Ranks, n: NodeId, e: Exec, i: nat,
                                 nodes: Nodes, reg: Registries)
    requires Ranked(up, rank) && n in nodes0 && i <= |nodes0[n].children| && e in reg0
  {
    var done := Subtrees(up, rank, nodes0[n].children[..i]);
    && nodes == Detached(nodes0, n)[n := nodes0[n].(children := [])] - done
    && reg == reg0[e := Less(reg0[e], done, if nodes0[n].isRoot then {n} else {})]
  }

  lemma FirstDestroyed(nodes: Nodes, reg: Registries, up: Links, rank: Ranks, n: NodeId, e: Exec)
    requires Destroyable(nodes, reg, up, rank, n, e)
    ensures n in nodes && nodes[n].owner == e && (nodes[n].parent.Some? ==> nodes[n].parent.value != n)
    ensures DestroyedSoFar(nodes, reg, up, rank, n, e, 0, Detached(nodes, n)[n := nodes[n].(children := [])],
      if nodes[n].isRoot then reg[e := reg[e].RemoveRoot(n)] else reg)
  {
    assert n in Subtree(up, rank, n);
    RootOnly(reg[e], n);
    assert nodes[n].parent.Some? ==> nodes[n].parent.value != n by { if up[n].Some? { ParentOutside(up, rank, n); } }
  }

  lemma RootOnly(r: Registry, n: NodeId)
    ensures Less(r, {}, {}) == r
    ensures r.roots[n] == 1 ==> Less(r, {}, {n}) == r.RemoveRoot(n)
  {
    var none: set<NodeId> := {};
    assert multiset({n}) == multiset{n} && multiset(none) == multiset{};
    if r.roots[n] == 1 { assert r.roots[n := 0] == r.roots - multiset{n}; }
  }

  /** The next child's subtree is as it was. */
  lemma NextUntouched(nodes0: Nodes, reg0: Registries, up: Links, rank: Ranks, n: NodeId, e: Exec, i: nat,
                      nodes: Nodes, reg: Registries, m: NodeId)
    requires Ranked(up, rank) && n in up && n in nodes0 && e in reg0 && i < |nodes0[n].children|
    requires ChildrenOf(up, n, nodes0[n].children) && nodes0[n].parent == up[n]
    requires DestroyedSoFar(nodes0, reg0, up, rank, n, e, i, nodes, reg)
    requires m in Subtree(up, rank, nodes0[n].children[i])
    requires m in nodes0 && reg0[e].nodes[m] == 1
    ensures m in nodes && nodes[m] == nodes0[m] && e in reg && reg[e].nodes[m] == 1
    ensures m in Subtree(up, rank, n) && m != n
  {
    var cs := nodes0[n].children;
    NextSubtreeApart(up, rank, n, cs, i);
    UnderRankChild(up, rank, n, cs[i]);
    if up[n].Some? { ParentOutside(up, rank, n); }
  }

  lemma NextDestroyable(nodes0: Nodes, reg0: Registries, up: Links, rank: Ranks, n: NodeId, e: Exec, i: nat,
                        nodes: Nodes, reg: Registries)
    requires Destroyable(nodes0, reg0, up, rank, n, e) && n in nodes0 && i < |nodes0[n].children|
    requires DestroyedSoFar(nodes0, reg0, up, rank, n, e, i, nodes, reg)
    ensures Destroyable(nodes, reg, up, rank, nodes0[n].children[i], e)
  {
    var c := nodes0[n].children[i];
    assert n in Subtree(up, rank, n);
    forall m | m in Subtree(up, rank, c)
      ensures m in nodes0 && m in nodes && nodes[m] == nodes0[m] && reg[e].nodes[m] == 1 && m in Subtree(up, rank, n)
    {
      UnderTrans(up, rank, m, c, n);
      NextUntouched(nodes0, reg0, up, rank, n, e, i, nodes, reg, m);
    }
    assert c in Subtree(up, rank, c);
  }

  lemma ParentOutside(up: Links, rank: Ranks, n: NodeId)
    requires Ranked(up, rank) && n in up && up[n].Some?
    ensures up[n].value !in Subtree(up, rank, n)
  {
    if Under(up, rank, up[n].value, n) { UnderRank(up, rank, up[n].value, n); }
  }

  /** A parent without children is not changed by a child that leaves. */
  lemma HollowDetaches(nodes: Nodes, c: NodeId, n: NodeId)
    requires c in nodes && nodes[c].parent == Some(n) && (n in nodes ==> nodes[n].children == [])
    ensures Detached(nodes, c) == nodes
  {
  }

  lemma NextDestroyed(nodes0: Nodes, reg0: Registries, up: Links, rank: Ranks, n: NodeId, e: Exec, i: nat,
                      nodes: Nodes, reg: Registries)
    requires Ranked(up, rank) && n in up && n in nodes0 && e in reg0 && i < |nodes0[n].children|
    requires ChildrenOf(up, n, nodes0[n].children)
    requires DestroyedSoFar(nodes0, reg0, up, rank, n, e, i, nodes, reg)
    requires var c := nodes0[n].children[i]; c in nodes && nodes[c].parent == Some(n)
    ensures var c := nodes0[n].children[i]; var next := Subtree(up, rank, c);
      && e in reg
      && DestroyedSoFar(nodes0, reg0, up, rank, n, e, i + 1, Detached(nodes, c) - next,
        reg[e := Less(reg[e], next, {})])
  {
    var cs := nodes0[n].children;
    NextSubtreeApart(up, rank, n, cs, i);
    HollowDetaches(nodes, cs[i], n);
    LessTwice(reg0[e], Subtrees(up, rank, cs[..i]), Subtree(up, rank, cs[i]), if nodes0[n].isRoot then {n} else {});
  }

  lemma AllDestroyed(nodes0: Nodes, reg0: Registries, up: Links, rank: Ranks, n: NodeId, e: Exec, nodes: Nodes,
                     reg: Registries)
    requires Ranked(up, rank) && n in up && n in nodes0 && e in reg0 && ChildrenOf(up, n, nodes0[n].children)
    requires reg0[e].nodes[n] == 1
    requires DestroyedSoFar(nodes0, reg0, up, rank, n, e, |nodes0[n].children|, nodes, reg)
    ensures nodes - {n} == Detached(nodes0, n) - Subtree(up, rank, n)
    ensures e in reg
    ensures reg[e := reg[e].RemoveNode(n)]
      == reg0[e := Less(reg0[e], Subtree(up, rank, n), if nodes0[n].isRoot then {n} else {})]
  {
    var cs := nodes0[n].children;
    assert cs[..|cs|] == cs;
    assert n in Subtree(up, rank, n);
    SubtreeSplits(up, rank, n, cs);
    HollowGone(Detached(nodes0, n), n, nodes0[n].(children := []), Subtrees(up, rank, cs));
    LessOne(reg0[e], Subtrees(up, rank, cs), if nodes0[n].isRoot then {n} else {}, n);
  }

  lemma HollowGone(nodes: Nodes, n: NodeId, x: NodeData, below: set<NodeId>)
    ensures nodes[n := x] - below - {n} == nodes - ({n} + below)
  {
  }

  lemma LessOne(r: Registry, d: set<NodeId>, roots: set<NodeId>, n: NodeId)
    requires r.nodes[n] == 1 && n !in d
    ensures Less(r, d, roots).RemoveNode(n) == Less(r, {n} + d, roots)
  {
    var left := r.nodes - multiset(d);
    assert left[n := 0] == r.nodes - multiset({n} + d);
    assert {n} * d == {};
  }

  // ------------------------------------------------------------------ agreement is kept

  /** Descendants share the owner, so a subtree can be moved or destroyed as a whole. */
  lemma ValidSubtree(nodes: Nodes, reg: Registries, rank: Ranks, n: NodeId)
    requires TreeOk(nodes, rank) && RegistriesOk(nodes, reg) && n in nodes
    ensures InOneExecutor(nodes, reg, Up(nodes), rank, n, nodes[n].owner)
    ensures Destroyable(nodes, reg, Up(nodes), rank, n, nodes[n].owner)
  {
    var up := Up(nodes);
    forall m | m in Subtree(up, rank, n)
      ensures nodes[m].owner == nodes[n].owner && (m != n ==> !nodes[m].isRoot)
    {
      OwnerShared(nodes, rank, m, n);
    }
  }

  /** Moving a root moves its subtree: every child keeps its parent's owner, and the registries still agree. */
  lemma MovedValid(nodes: Nodes, reg: Registries, rank: Ranks, n: NodeId, target: Exec)
    requires TreeOk(nodes, rank) && RegistriesOk(nodes, reg) && n in nodes && nodes[n].parent.None?
    requires target in reg && target != nodes[n].owner
    ensures var d := Subtree(Up(nodes), rank, n);
      TreeOk(Moved(nodes, d, target), rank)
        && RegistriesOk(Moved(nodes, d, target), MovedRegistries(reg, d, {n}, nodes[n].owner, target))
  {
    var d := Subtree(Up(nodes), rank, n);
    MovedTree(nodes, rank, n, target);
    forall m | m in d
      ensures nodes[m].owner == nodes[n].owner && (m != n ==> !nodes[m].isRoot)
    {
      OwnerShared(nodes, rank, m, n);
    }
    assert n in d;
    MovedRegistriesValid(nodes, reg, d, n, target);
  }

  lemma MovedTree(nodes: Nodes, rank: Ranks, n: NodeId, target: Exec)
    requires TreeOk(nodes, rank) && n in nodes && nodes[n].parent.None?
    ensures TreeOk(Moved(nodes, Subtree(Up(nodes), rank, n), target), rank)
  {
    var d := Subtree(Up(nodes), rank, n);
    MovedLinked(nodes, d, target);
    SubtreeCloses(nodes, rank, n);
    MovedOwners(nodes, d, target);
  }

  /** A child is in the subtree of a root exactly if its parent is. */
  lemma SubtreeCloses(nodes: Nodes, rank: Ranks, n: NodeId)
    requires Ranked(Up(nodes), rank) && n in nodes && nodes[n].parent.None?
    ensures forall m :: m in nodes && nodes[m].parent.Some? ==>
      (m in Subtree(Up(nodes), rank, n) <==> nodes[m].parent.value in Subtree(Up(nodes), rank, n))
  {
    forall m | m in nodes && nodes[m].parent.Some?
      ensures m in Subtree(Up(nodes), rank, n) <==> nodes[m].parent.value in Subtree(Up(nodes), rank, n)
    {
      assert Up(nodes)[m] == nodes[m].parent;
    }
  }

  lemma MovedOwners(nodes: Nodes, d: set<NodeId>, target: Exec)
    requires OwnersOk(nodes) && forall m :: m in nodes && nodes[m].parent.Some? ==>
      (m in d <==> nodes[m].parent.value in d)
    ensures OwnersOk(Moved(nodes, d, target))
  {
  }

  /** The subtree changes hands: it is `e`'s, and `n` is its only root. */
  ghost predicate Whole(nodes: Nodes, d: set<NodeId>, n: NodeId) {
    && n in nodes && n in d
    && (forall m :: m in d ==> m in nodes && nodes[m].owner == nodes[n].owner && (m != n ==> !nodes[m].isRoot))
  }

  lemma MovedRegistriesValid(nodes: Nodes, reg: Registries, d: set<NodeId>, n: NodeId, target: Exec)
    requires RegistriesOk(nodes, reg) && Whole(nodes, d, n) && nodes[n].isRoot && target in reg
    requires target != nodes[n].owner
    ensures RegistriesOk(Moved(nodes, d, target), MovedRegistries(reg, d, {n}, nodes[n].owner, target))
  {
    var nodes', reg' := Moved(nodes, d, target), MovedRegistries(reg, d, {n}, nodes[n].owner, target);
    forall x | x in reg'
      ensures reg'[x] == Exactly(OwnedBy(nodes', x), RootsOf(nodes', x))
    {
      MovedRegistry(nodes, reg, d, n, target, x);
    }
    assert forall m :: m in nodes' ==> nodes'[m].owner == target || nodes'[m].owner == nodes[m].owner;
  }

  lemma MovedSets(nodes: Nodes, d: set<NodeId>, n: NodeId, target: Exec, x: Exec)
    requires Whole(nodes, d, n) && nodes[n].isRoot && target != nodes[n].owner
    ensures OwnedBy(Moved(nodes, d, target), x)
      == if x == nodes[n].owner then OwnedBy(nodes, x) - d else if x == target then OwnedBy(nodes, x) + d
        else OwnedBy(nodes, x)
  {
  }

  lemma MovedRoots(nodes: Nodes, d: set<NodeId>, n: NodeId, target: Exec, x: Exec)
    requires Whole(nodes, d, n) && nodes[n].isRoot && target != nodes[n].owner
    ensures RootsOf(Moved(nodes, d, target), x)
      == if x == nodes[n].owner then RootsOf(nodes, x) - {n} else if x == target then RootsOf(nodes, x) + {n}
        else RootsOf(nodes, x)
  {
  }

  lemma MovedRegistry(nodes: Nodes, reg: Registries, d: set<NodeId>, n: NodeId, target: Exec, x: Exec)
    requires Whole(nodes, d, n) && nodes[n].isRoot && nodes[n].owner in reg && target in reg && target != nodes[n].owner
    requires x in reg && reg[x] == Exactly(OwnedBy(nodes, x), RootsOf(nodes, x))
    ensures var nodes' := Moved(nodes, d, target);
      MovedRegistries(reg, d, {n}, nodes[n].owner, target)[x] == Exactly(OwnedBy(nodes', x), RootsOf(nodes', x))
  {
    var owned, roots := OwnedBy(nodes, x), RootsOf(nodes, x);
    MovedSets(nodes, d, n, target, x);
    MovedRoots(nodes, d, n, target, x);
    if x == nodes[n].owner {
      LessSet(owned, roots, d, {n});
    } else if x == target {
      MoreSet(owned, roots, d, {n});
    }
  }

  lemma LessSet(owned: set<NodeId>, roots: set<NodeId>, d: set<NodeId>, gone: set<NodeId>)
    requires d <= owned && gone <= roots
    ensures Less(Exactly(owned, roots), d, gone) == Exactly(owned - d, roots - gone)
  {
    assert owned == (owned - d) + d && (owned - d) * d == {};
    assert multiset(owned - d) == multiset(owned) - multiset(d);
    assert multiset(roots - gone) == multiset(roots) - multiset(gone);
  }

  lemma MoreSet(owned: set<NodeId>, roots: set<NodeId>, d: set<NodeId>, joined: set<NodeId>)
    requires d !! owned && joined !! roots
    ensures More(Exactly(owned, roots), d, joined) == Exactly(owned + d, roots + joined)
  {
    assert owned * d == {};
    assert multiset(owned + d) == multiset(owned) + multiset(d);
    assert multiset(roots + joined) == multiset(roots) + multiset(joined);
  }

  /** Destroying a node unregisters exactly its subtree. */
  lemma DestroyedValid(nodes: Nodes, reg: Registries, rank: Ranks, n: NodeId)
    requires TreeOk(nodes, rank) && RegistriesOk(nodes, reg) && n in nodes
    ensures var d := Subtree(Up(nodes), rank, n);
      && TreeOk(Detached(nodes, n) - d, rank)
      && RegistriesOk(Detached(nodes, n) - d,
        reg[nodes[n].owner := Less(reg[nodes[n].owner], d, if nodes[n].isRoot then {n} else {})])
  {
    var d := Subtree(Up(nodes), rank, n);
    assert n in d;
    forall m | m in d
      ensures nodes[m].owner == nodes[n].owner && (m != n ==> !nodes[m].isRoot)
    {
      OwnerShared(nodes, rank, m, n);
    }
    DestroyedTree(nodes, rank, n, d);
    DestroyedRegistries(nodes, reg, d, n);
  }

  /** What is left is a forest: nobody's parent is gone. */
  lemma DestroyedTree(nodes: Nodes, rank: Ranks, n: NodeId, d: set<NodeId>)
    requires TreeOk(nodes, rank) && n in nodes && d == Subtree(Up(nodes), rank, n)
    ensures TreeOk(Detached(nodes, n) - d, rank)
  {
    var nodes' := Detached(nodes, n) - d;
    DestroyedOwners(nodes, rank, n, d);
    forall p | p in nodes'
      ensures ChildrenOf(Up(nodes'), p, nodes'[p].children)
    {
      DestroyedChildren(nodes, rank, n, d, p);
    }
  }

  lemma DestroyedOwners(nodes: Nodes, rank: Ranks, n: NodeId, d: set<NodeId>)
    requires Ranked(Up(nodes), rank) && OwnersOk(nodes) && n in nodes && d == Subtree(Up(nodes), rank, n)
    ensures Ranked(Up(Detached(nodes, n) - d), rank) && OwnersOk(Detached(nodes, n) - d)
  {
    var nodes' := Detached(nodes, n) - d;
    forall m | m in nodes'
      ensures m !in d && nodes'[m] == nodes[m].(children := nodes'[m].children)
      ensures nodes[m].parent.Some? ==> nodes[m].parent.value in nodes'
    {
      assert Up(nodes)[m] == nodes[m].parent;
    }
  }

  lemma DestroyedChildren(nodes: Nodes, rank: Ranks, n: NodeId, d: set<NodeId>, p: NodeId)
    requires Ranked(Up(nodes), rank) && n in nodes && d == Subtree(Up(nodes), rank, n) && p in nodes && p !in d
    requires ChildrenOf(Up(nodes), p, nodes[p].children)
    ensures ChildrenOf(Up(Detached(nodes, n) - d), p, (Detached(nodes, n) - d)[p].children)
  {
    var up := Up(nodes);
    var cs := (Detached(nodes, n) - d)[p].children;
    assert n in d;
    assert cs == if nodes[n].parent == Some(p) then Drop(nodes[p].children, n) else nodes[p].children;
    forall i | 0 <= i < |cs|
      ensures cs[i] in nodes && up[cs[i]] == Some(p) && cs[i] !in d
    {
      var c := cs[i];
      assert c in nodes[p].children && up[c] == Some(p);
      assert !Under(up, rank, p, n);
    }
  }

  lemma DestroyedSets(nodes: Nodes, d: set<NodeId>, n: NodeId, x: Exec)
    requires Whole(nodes, d, n)
    ensures var nodes' := Detached(nodes, n) - d;
      && OwnedBy(nodes', x) == (if x == nodes[n].owner then OwnedBy(nodes, x) - d else OwnedBy(nodes, x))
      && RootsOf(nodes', x) ==
         (if x == nodes[n].owner then RootsOf(nodes, x) - (if nodes[n].isRoot then {n} else {}) else RootsOf(nodes, x))
  {
    var nodes' := Detached(nodes, n) - d;
    assert forall m :: m in nodes' <==> m in nodes && m !in d;
    assert forall m :: m in nodes' ==> nodes'[m].owner == nodes[m].owner && nodes'[m].isRoot == nodes[m].isRoot;
  }

  lemma DestroyedRegistry(nodes: Nodes, r: Registry, d: set<NodeId>, n: NodeId, x: Exec)
    requires Whole(nodes, d, n) && r == Exactly(OwnedBy(nodes, x), RootsOf(nodes, x))
    ensures var nodes' := Detached(nodes, n) - d;
      (if x == nodes[n].owner then Less(r, d, if nodes[n].isRoot then {n} else {}) else r)
        == Exactly(OwnedBy(nodes', x), RootsOf(nodes', x))
  {
    DestroyedSets(nodes, d, n, x);
    if x == nodes[n].owner { LessSet(OwnedBy(nodes, x), RootsOf(nodes, x), d, if nodes[n].isRoot then {n} else {}); }
  }

  lemma DestroyedRegistries(nodes: Nodes, reg: Registries, d: set<NodeId>, n: NodeId)
    requires RegistriesOk(nodes, reg) && Whole(nodes, d, n)
    ensures var roots := if nodes[n].isRoot then {n} else {};
      RegistriesOk(Detached(nodes, n) - d, reg[nodes[n].owner := Less(reg[nodes[n].owner], d, roots)])
  {
    var roots := if nodes[n].isRoot then {n} else {};
    var nodes', reg' := Detached(nodes, n) - d, reg[nodes[n].owner := Less(reg[nodes[n].owner], d, roots)];
    forall x | x in reg'
      ensures reg'[x] == Exactly(OwnedBy(nodes', x), RootsOf(nodes', x))
    {
      DestroyedRegistry(nodes, reg[x], d, n, x);
    }
    forall m | m in nodes'
      ensures nodes'[m].owner in reg'
    {
      assert nodes'[m].owner == nodes[m].owner;
    }
  }

  /** `n` gets the parent `v`, or none: it leaves the list it was in and goes to the end of the new one. */
  ghost function Relinked(nodes: Nodes, n: NodeId, v: Option<NodeId>): Nodes
    requires n in nodes
  {
    map q | q in nodes ::
      if q == n then nodes[n].(parent := v, isRoot := v.None?)
        else nodes[q].(children := Kids(nodes[q].children, n, q, v))
  }

  function Kids(cs: seq<NodeId>, n: NodeId, q: NodeId, v: Option<NodeId>): seq<NodeId> {
    if v == Some(q) then Drop(cs, n) + [n] else Drop(cs, n)
  }

  lemma {:induction false} DropAbsent(s: seq<NodeId>, x: NodeId)
    requires x !in s
    ensures Drop(s, x) == s
  {
    if s != [] { DropAbsent(s[1..], x); }
  }

  lemma RelinkedChildren(up: Links, n: NodeId, v: Option<NodeId>, q: NodeId, cs: seq<NodeId>)
    requires ChildrenOf(up, q, cs) && n in up
    ensures ChildrenOf(up[n := v], q, Kids(cs, n, q, v))
  {
    var kids, up' := Kids(cs, n, q, v), up[n := v];
    forall m | m in up' && up'[m] == Some(q)
      ensures m in kids
    {
      if m != n { assert m in Drop(cs, n); }
    }
    forall i | 0 <= i < |kids|
      ensures kids[i] in up' && up'[kids[i]] == Some(q)
    {
      assert kids[i] in kids;
      assert kids[i] != n ==> kids[i] in Drop(cs, n);
    }
    assert n !in Drop(cs, n) && NoRepeats(Drop(cs, n));
    assert NoRepeats(Drop(cs, n) + [n]);
  }

  /** Below a new parent that is not among its descendants, ranks are raised past the parent's. */
  ghost function Raised(rank: Ranks, d: set<NodeId>, k: nat): Ranks {
    map m | m in rank :: if m in d then rank[m] + k else rank[m]
  }

  lemma RelinkedRanked(up: Links, rank: Ranks, n: NodeId, p: NodeId)
    requires Ranked(up, rank) && n in up && p in up && !Under(up, rank, p, n)
    ensures Ranked(up[n := Some(p)], Raised(rank, Subtree(up, rank, n), rank[p] + 1))
  {
    var d := Subtree(up, rank, n);
    var up', rank' := up[n := Some(p)], Raised(rank, d, rank[p] + 1);
    forall m | m in up' && up'[m].Some?
      ensures up'[m].value in up' && rank'[up'[m].value] < rank'[m]
    {
      if m == n {
        assert p !in d && n in d;
      } else {
        assert m in d <==> up[m].value in d;
      }
    }
  }

  ghost function RelinkedRank(nodes: Nodes, rank: Ranks, n: NodeId, v: Option<NodeId>): Ranks
    requires Ranked(Up(nodes), rank) && (v.Some? ==> v.value in nodes)
  {
    if v.Some? then Raised(rank, Subtree(Up(nodes), rank, n), rank[v.value] + 1) else rank
  }

  lemma RelinkedUp(nodes: Nodes, n: NodeId, v: Option<NodeId>)
    requires n in nodes
    ensures Up(Relinked(nodes, n, v)) == Up(nodes)[n := v]
  {
  }

  lemma RelinkedLinked(nodes: Nodes, n: NodeId, v: Option<NodeId>)
    requires Linked(nodes) && n in nodes && nodes[n].parent != Some(n) && v != Some(n)
    ensures Linked(Relinked(nodes, n, v))
  {
    var up, nodes' := Up(nodes), Relinked(nodes, n, v);
    RelinkedUp(nodes, n, v);
    forall q | q in nodes'
      ensures ChildrenOf(Up(nodes'), q, nodes'[q].children)
    {
      var cs := nodes[q].children;
      RelinkedChildren(up, n, v, q, cs);
      if q == n {
        assert n !in cs;
        DropAbsent(cs, n);
      }
    }
  }

  ghost predicate OwnersOk(nodes: Nodes) {
    forall m :: m in nodes ==>
      && (nodes[m].isRoot <==> nodes[m].parent.None?)
      && (nodes[m].parent.Some? ==>
            nodes[m].parent.value in nodes && nodes[nodes[m].parent.value].owner == nodes[m].owner)
  }

  lemma RelinkedOwners(nodes: Nodes, n: NodeId, v: Option<NodeId>)
    requires OwnersOk(nodes) && n in nodes && (v.Some? ==> v.value in nodes && nodes[v.value].owner == nodes[n].owner)
    ensures OwnersOk(Relinked(nodes, n, v))
  {
  }

  lemma RelinkedRanks(nodes: Nodes, rank: Ranks, n: NodeId, v: Option<NodeId>)
    requires Ranked(Up(nodes), rank) && n in nodes
    requires (v.Some? ==> v.value in nodes && !Under(Up(nodes), rank, v.value, n))
    ensures Ranked(Up(Relinked(nodes, n, v)), RelinkedRank(nodes, rank, n, v))
    ensures nodes[n].parent != Some(n) && v != Some(n)
  {
    assert nodes[n].parent == Up(nodes)[n];
    RelinkedUp(nodes, n, v);
    if v.Some? { RelinkedRanked(Up(nodes), rank, n, v.value); }
  }

  /** Re-parenting within one owner and not below a descendant keeps the tree. */
  lemma RelinkedTree(nodes: Nodes, rank: Ranks, n: NodeId, v: Option<NodeId>)
    requires TreeOk(nodes, rank) && n in nodes
    requires v.Some? ==>
      v.value in nodes && nodes[v.value].owner == nodes[n].owner && !Under(Up(nodes), rank, v.value, n)
    ensures TreeOk(Relinked(nodes, n, v), RelinkedRank(nodes, rank, n, v))
  {
    RelinkedRanks(nodes, rank, n, v);
    RelinkedLinked(nodes, n, v);
    RelinkedOwners(nodes, n, v);
  }

  lemma RelinkedSets(nodes: Nodes, n: NodeId, v: Option<NodeId>, x: Exec)
    requires n in nodes
    ensures OwnedBy(Relinked(nodes, n, v), x) == OwnedBy(nodes, x)
    ensures RootsOf(Relinked(nodes, n, v), x) ==
      if x != nodes[n].owner then RootsOf(nodes, x) else if v.None? then RootsOf(nodes, x) + {n}
        else RootsOf(nodes, x) - {n}
  {
  }

  lemma RootSwapped(owned: set<NodeId>, roots: set<NodeId>, n: NodeId)
    ensures Exactly(owned, roots).RemoveRoot(n) == Exactly(owned, roots - {n})
    ensures Exactly(owned, roots).RemoveRoot(n).AddRoot(n) == Exactly(owned, roots + {n})
  {
    assert multiset(roots)[n := 0] == multiset(roots - {n});
    assert multiset(roots - {n}) + multiset{n} == multiset(roots + {n});
  }

  function RootsChanged(r: Registry, n: NodeId, v: Option<NodeId>): Registry {
    if v.None? then r.RemoveRoot(n).AddRoot(n) else r.RemoveRoot(n)
  }

  lemma RelinkedRegistry(nodes: Nodes, r: Registry, n: NodeId, v: Option<NodeId>, x: Exec)
    requires n in nodes && r == Exactly(OwnedBy(nodes, x), RootsOf(nodes, x))
    ensures (if x == nodes[n].owner then RootsChanged(r, n, v) else r)
      == Exactly(OwnedBy(Relinked(nodes, n, v), x), RootsOf(Relinked(nodes, n, v), x))
  {
    RelinkedSets(nodes, n, v, x);
    RootSwapped(OwnedBy(nodes, x), RootsOf(nodes, x), n);
  }

  /** The registries change only in the roots of the owner. */
  lemma RelinkedRegistries(nodes: Nodes, reg: Registries, n: NodeId, v: Option<NodeId>)
    requires RegistriesOk(nodes, reg) && n in nodes
    ensures RegistriesOk(Relinked(nodes, n, v), reg[nodes[n].owner := RootsChanged(reg[nodes[n].owner], n, v)])
  {
    var nodes', reg' := Relinked(nodes, n, v), reg[nodes[n].owner := RootsChanged(reg[nodes[n].owner], n, v)];
    forall x | x in reg'
      ensures reg'[x] == Exactly(OwnedBy(nodes', x), RootsOf(nodes', x))
    {
      RelinkedRegistry(nodes, reg[x], n, v, x);
    }
    forall m | m in nodes'
      ensures nodes'[m].owner in reg'
    {
      assert nodes'[m].owner == nodes[m].owner;
    }
  }

  /** `addChild`: `n`, in no list, becomes the last child of `p`. */
  function Adopted(nodes: Nodes, n: NodeId, p: NodeId): Nodes
    requires n in nodes && p in nodes
  {
    var named := nodes[n := nodes[n].(parent := Some(p), isRoot := false)];
    named[p := named[p].(children := named[p].children + [n])]
  }

  /** The node leaves its list, then joins the new one. */
  function LeaveAndJoin(nodes: Nodes, n: NodeId, v: Option<NodeId>): Nodes
    requires n in nodes && (v.Some? ==> v.value in nodes)
  {
    if v.Some? then Adopted(Detached(nodes, n), n, v.value)
      else Detached(nodes, n)[n := nodes[n].(parent := None, isRoot := true)]
  }

  lemma RelinkInStepsAt(nodes: Nodes, n: NodeId, v: Option<NodeId>, q: NodeId)
    requires n in nodes && q in nodes && nodes[n].parent != Some(n) && v != Some(n) && (v.Some? ==> v.value in nodes)
    requires n in nodes[q].children ==> nodes[n].parent == Some(q)
    ensures q in LeaveAndJoin(nodes, n, v) && Relinked(nodes, n, v)[q] == LeaveAndJoin(nodes, n, v)[q]
  {
    if nodes[n].parent != Some(q) { DropAbsent(nodes[q].children, n); }
  }

  /** Leaving one list and joining another is one change of links. */
  lemma RelinkInSteps(nodes: Nodes, n: NodeId, v: Option<NodeId>)
    requires n in nodes && nodes[n].parent != Some(n) && v != Some(n) && (v.Some? ==> v.value in nodes)
    requires forall q :: q in nodes && n in nodes[q].children ==> nodes[n].parent == Some(q)
    ensures Relinked(nodes, n, v) == LeaveAndJoin(nodes, n, v)
  {
    forall q | q in nodes
      ensures q in LeaveAndJoin(nodes, n, v) && Relinked(nodes, n, v)[q] == LeaveAndJoin(nodes, n, v)[q]
    {
      RelinkInStepsAt(nodes, n, v, q);
    }
    LeaveAndJoinKeys(nodes, n, v);
    SameMap(Relinked(nodes, n, v), LeaveAndJoin(nodes, n, v));
  }

  lemma LeaveAndJoinKeys(nodes: Nodes, n: NodeId, v: Option<NodeId>)
    requires n in nodes && (v.Some? ==> v.value in nodes)
    ensures LeaveAndJoin(nodes, n, v).Keys == nodes.Keys && Relinked(nodes, n, v).Keys == nodes.Keys
  {
  }

  lemma SameMap(a: Nodes, b: Nodes)
    requires a.Keys == b.Keys && forall q :: q in a ==> a[q] == b[q]
    ensures a == b
  {
  }

  lemma ListedOnlyByParent(nodes: Nodes, n: NodeId, q: NodeId)
    requires Linked(nodes) && n in nodes && q in nodes && n in nodes[q].children
    ensures nodes[n].parent == Some(q)
  {
    assert ChildrenOf(Up(nodes), q, nodes[q].children);
  }

  /** Erasing the first occurrence is enough in a list without repetitions. */
  lemma {:induction false} DropAt(s: seq<NodeId>, i: nat)
    requires NoRepeats(s) && i < |s|
    ensures Drop(s, s[i]) == s[..i] + s[i + 1..]
    decreases i
  {
    if i == 0 {
      DropAbsent(s[1..], s[0]);
    } else {
      DropAt(s[1..], i - 1);
      assert s[..i] + s[i + 1..] == [s[0]] + (s[1..][..i - 1] + s[1..][i..]);
    }
  }

  ghost function WithRoot(nodes: Nodes, n: NodeId, e: Exec): Nodes { nodes[n := NodeData(None, [], true, e)] }

  lemma NewRootLinked(nodes: Nodes, n: NodeId, e: Exec)
    requires Linked(nodes) && OwnersOk(nodes) && n !in nodes
    ensures Up(WithRoot(nodes, n, e)) == Up(nodes)[n := None] && Linked(WithRoot(nodes, n, e))
  {
    var up, nodes' := Up(nodes), WithRoot(nodes, n, e);
    assert Up(nodes') == up[n := None];
    forall q | q in nodes'
      ensures ChildrenOf(Up(nodes'), q, nodes'[q].children)
    {
      if q != n { NewRootChildren(up, n, q, nodes[q].children); }
    }
  }

  lemma NewRootChildren(up: Links, n: NodeId, q: NodeId, cs: seq<NodeId>)
    requires ChildrenOf(up, q, cs) && n !in up
    ensures ChildrenOf(up[n := None], q, cs)
  {
  }

  /** A node without parent starts in a tree of its own. */
  lemma NewRootTree(nodes: Nodes, rank: Ranks, n: NodeId, e: Exec)
    requires TreeOk(nodes, rank) && n !in nodes
    ensures TreeOk(WithRoot(nodes, n, e), rank[n := 0])
  {
    NewRootLinked(nodes, n, e);
    NewRootOwners(nodes, n, e);
  }

  lemma NewRootOwners(nodes: Nodes, n: NodeId, e: Exec)
    requires OwnersOk(nodes) && n !in nodes
    ensures OwnersOk(WithRoot(nodes, n, e))
  {
  }

  lemma NewRootSets(nodes: Nodes, n: NodeId, e: Exec, x: Exec)
    requires n !in nodes
    ensures OwnedBy(WithRoot(nodes, n, e), x) == if x == e then OwnedBy(nodes, x) + {n} else OwnedBy(nodes, x)
    ensures RootsOf(WithRoot(nodes, n, e), x) == if x == e then RootsOf(nodes, x) + {n} else RootsOf(nodes, x)
  {
  }

  lemma NewRootRegistry(nodes: Nodes, r: Registry, n: NodeId, e: Exec, x: Exec)
    requires n !in nodes && r == Exactly(OwnedBy(nodes, x), RootsOf(nodes, x))
    ensures (if x == e then r.AddRoot(n).AddNode(n) else r)
      == Exactly(OwnedBy(WithRoot(nodes, n, e), x), RootsOf(WithRoot(nodes, n, e), x))
  {
    NewRootSets(nodes, n, e, x);
    OneMore(OwnedBy(nodes, x), RootsOf(nodes, x), n);
  }

  lemma NewRootRegistries(nodes: Nodes, reg: Registries, n: NodeId, e: Exec)
    requires RegistriesOk(nodes, reg) && n !in nodes && e in reg
    ensures RegistriesOk(WithRoot(nodes, n, e), reg[e := reg[e].AddRoot(n).AddNode(n)])
  {
    var nodes', reg' := WithRoot(nodes, n, e), reg[e := reg[e].AddRoot(n).AddNode(n)];
    forall x | x in reg'
      ensures reg'[x] == Exactly(OwnedBy(nodes', x), RootsOf(nodes', x))
    {
      NewRootRegistry(nodes, reg[x], n, e, x);
    }
    forall m | m in nodes'
      ensures nodes'[m].owner in reg'
    {
      assert m != n ==> nodes'[m].owner == nodes[m].owner;
    }
  }

  lemma OneMore(owned: set<NodeId>, roots: set<NodeId>, n: NodeId)
    requires n !in owned && n !in roots
    ensures Exactly(owned, roots).AddRoot(n).AddNode(n) == Exactly(owned + {n}, roots + {n})
  {
    assert multiset(owned + {n}) == multiset(owned) + multiset{n};
    assert multiset(roots + {n}) == multiset(roots) + multiset{n};
  }

  lemma MovedNowhere(nodes: Nodes, reg: Registries, rank: Ranks, n: NodeId)
    requires n in nodes && InOneExecutor(nodes, reg, Up(nodes), rank, n, nodes[n].owner)
    ensures Moved(nodes, Subtree(Up(nodes), rank, n), nodes[n].owner) == nodes
  {
  }

  /** A new child is a new root that is adopted at once. */
  lemma NewChildValid(nodes: Nodes, reg: Registries, rank: Ranks, n: NodeId, p: NodeId) returns (rank': Ranks)
    requires TreeOk(nodes, rank) && RegistriesOk(nodes, reg) && n !in nodes && p in nodes
    ensures var e := nodes[p].owner; var nodes' := Adopted(WithRoot(nodes, n, e), n, p);
      TreeOk(nodes', rank') && RegistriesOk(nodes', reg[e := reg[e].AddNode(n)])
  {
    var e := nodes[p].owner;
    NewRootTree(nodes, rank, n, e);
    NewRootRegistries(nodes, reg, n, e);
    NewRootAdopted(nodes, reg, n, p);
    rank' := AdoptedValid(WithRoot(nodes, n, e), reg[e := reg[e].AddRoot(n).AddNode(n)], rank[n := 0], n, p);
  }

  lemma NewRootAdopted(nodes: Nodes, reg: Registries, n: NodeId, p: NodeId)
    requires RegistriesOk(nodes, reg) && n !in nodes && p in nodes
    ensures var e := nodes[p].owner; var reg0 := reg[e := reg[e].AddRoot(n).AddNode(n)];
      reg0[e := RootsChanged(reg0[e], n, Some(p))] == reg[e := reg[e].AddNode(n)]
  {
    var e := nodes[p].owner;
    assert n !in RootsOf(nodes, e);
    RootNeverListed(reg[e], n, p);
  }

  lemma AdoptedValid(nodes: Nodes, reg: Registries, rank: Ranks, n: NodeId, p: NodeId) returns (rank': Ranks)
    requires TreeOk(nodes, rank) && RegistriesOk(nodes, reg) && n in nodes && p in nodes && p != n
    requires nodes[n].parent.None? && nodes[n].children == [] && nodes[n].owner == nodes[p].owner
    ensures TreeOk(Adopted(nodes, n, p), rank')
    ensures RegistriesOk(Adopted(nodes, n, p), reg[nodes[n].owner := RootsChanged(reg[nodes[n].owner], n, Some(p))])
  {
    NotBelowNew(nodes, rank, n, p);
    rank' := SetParentValid(nodes, reg, rank, n, Some(p));
  }

  lemma NotBelowNew(nodes: Nodes, rank: Ranks, n: NodeId, p: NodeId)
    requires TreeOk(nodes, rank) && n in nodes && p in nodes && p != n && nodes[n].children == []
    ensures !Under(Up(nodes), rank, p, n)
  {
    assert ChildrenOf(Up(nodes), n, nodes[n].children);
    if Under(Up(nodes), rank, p, n) {
      var c := UnderChild(Up(nodes), rank, p, n);
    }
  }

  lemma SetParentValid(nodes: Nodes, reg: Registries, rank: Ranks, n: NodeId, v: Option<NodeId>) returns (rank': Ranks)
    requires TreeOk(nodes, rank) && RegistriesOk(nodes, reg) && n in nodes
    requires v.Some? ==>
      v.value in nodes && nodes[v.value].owner == nodes[n].owner && !Under(Up(nodes), rank, v.value, n)
    ensures var nodes' := Relinked(nodes, n, v);
      && nodes' == LeaveAndJoin(nodes, n, v)
      && TreeOk(nodes', rank') && RegistriesOk(nodes', reg[nodes[n].owner := RootsChanged(reg[nodes[n].owner], n, v)])
    ensures nodes[n].parent.Some? ==>
      && nodes[n].parent.value != n && NoRepeats(nodes[nodes[n].parent.value].children)
      && reg[nodes[n].owner].roots[n] == 0
  {
    RelinkedTree(nodes, rank, n, v);
    RelinkedRanks(nodes, rank, n, v);
    RelinkedRegistries(nodes, reg, n, v);
    forall q | q in nodes && n in nodes[q].children
      ensures nodes[n].parent == Some(q)
    {
      ListedOnlyByParent(nodes, n, q);
    }
    RelinkInSteps(nodes, n, v);
    rank' := RelinkedRank(nodes, rank, n, v);
  }

  lemma RootNeverListed(r: Registry, n: NodeId, p: NodeId)
    requires r.roots[n] == 0
    ensures RootsChanged(r.AddRoot(n).AddNode(n), n, Some(p)) == r.AddNode(n)
  {
    assert (r.roots + multiset{n})[n := 0] == r.roots;
  }
}
