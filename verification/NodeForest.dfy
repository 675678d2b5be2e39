/** The nodes of a program and the registries of its executors, changed in place by `Node.cpp`. */
module NodeForests {
  import opened Options
  import opened NodeTrees
  import opened NodeMeaning

  method EraseFirst(s: seq<NodeId>, x: NodeId) returns (r: seq<NodeId>)
    ensures NoRepeats(s) ==> r == Drop(s, x)
  {
    r := s;
    for i := 0 to |s|
      invariant x !in s[..i]
    {
      if s[i] == x {
        if NoRepeats(s) { DropAt(s, i); }
        return s[..i] + s[i + 1..];
      }
    }
    DropAbsent(s, x);
  }

  class NodeForest {
    var nodes: Nodes
    var registries: Registries
    var retired: set<Exec>          // loops that will never run again
    ghost var rank: Ranks

    ghost predicate Valid()
      reads this
    {
      TreeOk(nodes, rank) && RegistriesOk(nodes, registries)
    }

    /** `applyMoveTo`, node by node. */
    method ApplyMoveTo(n: NodeId, target: Exec, ghost up: Links, ghost e: Exec)
      requires InOneExecutor(nodes, registries, up, rank, n, e) && target in registries && e != target
      modifies this`nodes, this`registries
      ensures nodes == Moved(old(nodes), Subtree(up, rank, n), target)
      ensures registries == MovedRegistries(old(registries), Subtree(up, rank, n), if old(nodes)[n].isRoot then {n}
        else {}, e, target)
      decreases |Subtree(up, rank, n)|, 2
    {
      ghost var nodes0, reg0 := nodes, registries;
      FirstMoved(nodes, registries, up, rank, n, e, target);
      if nodes[n].owner == target {
        return;
      }
      ChangeOwner(n, target);
      MoveChildren(n, target, up, e, nodes0, reg0);
      AllMoved(nodes0, reg0, up, rank, n, e, target, nodes, registries);
    }

    /** The loop over the children. */
    method MoveChildren(n: NodeId, target: Exec, ghost up: Links, ghost e: Exec, ghost nodes0: Nodes,
                        ghost reg0: Registries)
      requires InOneExecutor(nodes0, reg0, up, rank, n, e) && target in reg0 && e != target
      requires MovedSoFar(nodes0, reg0, up, rank, n, e, target, 0, nodes, registries)
      modifies this`nodes, this`registries
      ensures MovedSoFar(nodes0, reg0, up, rank, n, e, target, |nodes0[n].children|, nodes, registries)
      decreases |Subtree(up, rank, n)|, 1
    {
      var cs := nodes[n].children;
      for i := 0 to |cs|
        invariant MovedSoFar(nodes0, reg0, up, rank, n, e, target, i, nodes, registries)
      {
        MoveChild(n, i, cs[i], target, up, e, nodes0, reg0);
      }
    }

    /** The node itself leaves one executor's registries and joins the other's. */
    method ChangeOwner(n: NodeId, target: Exec)
      requires n in nodes && nodes[n].owner in registries && target in registries && nodes[n].owner != target
      modifies this`nodes, this`registries
      ensures nodes == old(nodes)[n := old(nodes)[n].(owner := target)]
      ensures var e, root, reg := old(nodes)[n].owner, nodes[n].isRoot, old(registries);
        registries == reg[e := if root then reg[e].RemoveNode(n).RemoveRoot(n) else reg[e].RemoveNode(n)]
                         [target := if root then reg[target].AddNode(n).AddRoot(n) else reg[target].AddNode(n)]
    {
      var from := nodes[n].owner;
      var left := registries[from].RemoveNode(n);
      if nodes[n].isRoot { left := left.RemoveRoot(n); }
      nodes := nodes[n := nodes[n].(owner := target)];
      var joined := registries[target].AddNode(n);
      if nodes[n].isRoot { joined := joined.AddRoot(n); }
      registries := registries[from := left][target := joined];
    }

    /** One turn of that loop. */
    method MoveChild(ghost n: NodeId, ghost i: nat, c: NodeId, target: Exec, ghost up: Links, ghost e: Exec,
                     ghost nodes0: Nodes, ghost reg0: Registries)
      requires InOneExecutor(nodes0, reg0, up, rank, n, e) && target in reg0 && e != target
      requires i < |nodes0[n].children| && c == nodes0[n].children[i]
      requires MovedSoFar(nodes0, reg0, up, rank, n, e, target, i, nodes, registries)
      modifies this`nodes, this`registries
      ensures MovedSoFar(nodes0, reg0, up, rank, n, e, target, i + 1, nodes, registries)
      decreases |Subtree(up, rank, n)|, 0
    {
      NextChild(nodes0, reg0, up, rank, n, e, target, i, nodes, registries);
      ApplyMoveTo(c, target, up, e);
    }

    /** `~Node`, node by node. */
    method DestroySubtree(n: NodeId, ghost up: Links, ghost e: Exec)
      requires Destroyable(nodes, registries, up, rank, n, e) && n in nodes
      modifies this`nodes, this`registries
      ensures nodes == Detached(old(nodes), n) - Subtree(up, rank, n)
      ensures registries == old(registries)[e := Less(old(registries)[e], Subtree(up, rank, n),
        if old(nodes)[n].isRoot then {n} else {})]
      decreases |Subtree(up, rank, n)|, 1
    {
      ghost var nodes0, reg0 := nodes, registries;
      FirstDestroyed(nodes, registries, up, rank, n, e);
      var owner := nodes[n].owner;
      if nodes[n].isRoot {
        registries := registries[owner := registries[owner].RemoveRoot(n)];
      }
      nodes := Detached(nodes, n);
      var cs := nodes[n].children;
      nodes := nodes[n := nodes[n].(children := [])];
      for i := 0 to |cs|
        invariant DestroyedSoFar(nodes0, reg0, up, rank, n, e, i, nodes, registries)
      {
        DestroyChild(n, i, cs[i], up, e, nodes0, reg0);
      }
      assert n in Subtree(up, rank, n);
      AllDestroyed(nodes0, reg0, up, rank, n, e, nodes, registries);
      registries := registries[owner := registries[owner].RemoveNode(n)];
      nodes := nodes - {n};
    }

    /** One turn of that loop. */
    method DestroyChild(ghost n: NodeId, ghost i: nat, c: NodeId, ghost up: Links, ghost e: Exec, ghost nodes0: Nodes,
                        ghost reg0: Registries)
      requires Destroyable(nodes0, reg0, up, rank, n, e) && n in nodes0
      requires i < |nodes0[n].children| && c == nodes0[n].children[i]
      requires DestroyedSoFar(nodes0, reg0, up, rank, n, e, i, nodes, registries)
      modifies this`nodes, this`registries
      ensures DestroyedSoFar(nodes0, reg0, up, rank, n, e, i + 1, nodes, registries)
      decreases |Subtree(up, rank, n)|, 0
    {
      assert n in Subtree(up, rank, n);
      NextDestroyable(nodes0, reg0, up, rank, n, e, i, nodes, registries);
      assert c in Subtree(up, rank, c);
      NextDestroyed(nodes0, reg0, up, rank, n, e, i, nodes, registries);
      ChildIsSmaller(up, rank, n, nodes0[n].children, i);
      DestroySubtree(c, up, e);
    }

    constructor (executors: set<Exec>)
      ensures Valid() && nodes == map[] && registries.Keys == executors
    {
      nodes, retired, rank := map[], {}, map[];
      registries := map e | e in executors :: Registry(multiset{}, 0, multiset{});
    }

    /** A new node without parent, in the current executor. */
    method ConstructRoot(n: NodeId, e: Exec)
      requires Valid() && n !in nodes && e in registries
      modifies this`nodes, this`registries, this`rank
      ensures Valid() && nodes == old(nodes)[n := NodeData(None, [], true, e)]
    {
      NewRootTree(nodes, rank, n, e);
      NewRootRegistries(nodes, registries, n, e);
      registries := registries[e := registries[e].AddRoot(n).AddNode(n)];
      nodes, rank := nodes[n := NodeData(None, [], true, e)], rank[n := 0];
    }

    /** A new child: it lives where its parent lives. */
    method ConstructChild(n: NodeId, p: NodeId)
      requires Valid() && n !in nodes && p in nodes
      modifies this`nodes, this`registries, this`rank
      ensures Valid() && Born(old(nodes), nodes, n, p)
    {
      AdoptedMeans(nodes, rank, n, p);
      GiveChild(n, p);
    }

    method GiveChild(n: NodeId, p: NodeId)
      requires Valid() && n !in nodes && p in nodes
      modifies this`nodes, this`registries, this`rank
      ensures Valid() && nodes == Adopted(WithRoot(old(nodes), n, old(nodes)[p].owner), n, p)
    {
      ghost var rank' := NewChildValid(nodes, registries, rank, n, p);
      PutChild(n, p);
      rank := rank';
    }

    method PutChild(n: NodeId, p: NodeId)
      requires n !in nodes && p in nodes && nodes[p].owner in registries
      modifies this`nodes, this`registries
      ensures nodes == Adopted(WithRoot(old(nodes), n, old(nodes)[p].owner), n, p)
      ensures registries == old(registries)[old(nodes)[p].owner := old(registries)[old(nodes)[p].owner].AddNode(n)]
    {
      var owner := nodes[p].owner;
      nodes := nodes[n := NodeData(Some(p), [], false, owner)];
      nodes := nodes[p := nodes[p].(children := nodes[p].children + [n])];
      registries := registries[owner := registries[owner].AddNode(n)];
    }

    /** `setParent`, within one owner and not below a descendant. */
    method SetParent(n: NodeId, v: Option<NodeId>)
      requires Valid() && n in nodes
      requires v.Some? ==>
        v.value in nodes && nodes[v.value].owner == nodes[n].owner && !Under(Up(nodes), rank, v.value, n)
      modifies this`nodes, this`registries, this`rank
      ensures Valid() && Reparented(old(nodes), nodes, n, v)
    {
      RelinkedMeans(nodes, rank, n, v);
      GiveParent(n, v);
    }

    method GiveParent(n: NodeId, v: Option<NodeId>)
      requires Valid() && n in nodes
      requires v.Some? ==>
        v.value in nodes && nodes[v.value].owner == nodes[n].owner && !Under(Up(nodes), rank, v.value, n)
      modifies this`nodes, this`registries, this`rank
      ensures Valid() && nodes == Relinked(old(nodes), n, v)
    {
      ghost var rank' := SetParentValid(nodes, registries, rank, n, v);
      Relink(n, v);
      rank := rank';
    }

    method Relink(n: NodeId, v: Option<NodeId>)
      requires n in nodes && nodes[n].owner in registries && (v.Some? ==> v.value in nodes)
      requires nodes[n].parent.None? || (nodes[n].parent.value in nodes
        && NoRepeats(nodes[nodes[n].parent.value].children))
      requires nodes[n].parent.Some? ==> nodes[n].parent.value != n && registries[nodes[n].owner].roots[n] == 0
      modifies this`nodes, this`registries
      ensures nodes == LeaveAndJoin(old(nodes), n, v)
      ensures registries == old(registries)[old(nodes)[n].owner := RootsChanged(old(registries)[old(nodes)[n].owner],
        n, v)]
    {
      ghost var nodes0, reg0 := nodes, registries;
      var owner := nodes[n].owner;
      LeaveList(n);
      match v {
        case None =>
          nodes := nodes[n := nodes[n].(parent := None, isRoot := true)];
          registries := registries[owner := registries[owner].AddRoot(n)];
        case Some(p) =>
          nodes := nodes[n := nodes[n].(parent := Some(p), isRoot := false)];
          nodes := nodes[p := nodes[p].(children := nodes[p].children + [n])];
      }
    }

    /** Out of the parent's list, or of the owner's roots. */
    method LeaveList(n: NodeId)
      requires n in nodes && nodes[n].owner in registries
      requires nodes[n].parent.None? || (nodes[n].parent.value in nodes
        && NoRepeats(nodes[nodes[n].parent.value].children))
      requires nodes[n].parent.Some? ==> nodes[n].parent.value != n && registries[nodes[n].owner].roots[n] == 0
      modifies this`nodes, this`registries
      ensures nodes == Detached(old(nodes), n) && n in nodes && nodes[n] == old(nodes)[n]
      ensures registries == old(registries)[nodes[n].owner := old(registries)[nodes[n].owner].RemoveRoot(n)]
    {
      match nodes[n].parent {
        case Some(p) =>
          assert registries[nodes[n].owner].roots[n := 0] == registries[nodes[n].owner].roots;
          var cs := EraseFirst(nodes[p].children, n);
          nodes := nodes[p := nodes[p].(children := cs)];
        case None =>
          registries := registries[nodes[n].owner := registries[nodes[n].owner].RemoveRoot(n)];
      }
    }

    method Destroy(n: NodeId)
      requires Valid() && n in nodes
      modifies this`nodes, this`registries, this`rank
      ensures Valid() && SubtreeGone(old(nodes), nodes, n)
    {
      DestroyedMeans(nodes, rank, n);
      DestroyAll(n);
    }

    method DestroyAll(n: NodeId)
      requires Valid() && n in nodes
      modifies this`nodes, this`registries, this`rank
      ensures Valid() && nodes == Detached(old(nodes), n) - Subtree(Up(old(nodes)), old(rank), n)
    {
      ValidSubtree(nodes, registries, rank, n);
      DestroyedValid(nodes, registries, rank, n);
      DestroySubtree(n, Up(nodes), nodes[n].owner);
    }

    /**
     `moveToThread` inside the owner: refused for an unknown or retired target, and never splits a
     child from its parent.
     */
    method MoveTo(n: NodeId, target: Exec) returns (ok: bool)
      requires Valid() && n in nodes
      modifies this`nodes, this`registries
      ensures Valid()
      ensures ok <==> target in old(registries) && target !in retired
                      && (old(nodes)[n].parent.None? || old(nodes)[n].owner == target)
      ensures ok ==> SubtreeMoved(old(nodes), nodes, n, target)
      ensures !ok ==> nodes == old(nodes) && registries == old(registries)
    {
      if target !in registries || target in retired {
        return false;
      }
      ok := MoveToKnown(n, target);
    }

    method MoveToKnown(n: NodeId, target: Exec) returns (ok: bool)
      requires Valid() && n in nodes && target in registries
      modifies this`nodes, this`registries
      ensures Valid() && ok == (old(nodes)[n].parent.None? || old(nodes)[n].owner == target)
      ensures ok ==> SubtreeMoved(old(nodes), nodes, n, target)
      ensures !ok ==> nodes == old(nodes) && registries == old(registries)
    {
      ghost var before := nodes;
      ok := MoveSubtree(n, target);
      if ok { MovedMeans(before, nodes, rank, n, target); }
    }

    method MoveSubtree(n: NodeId, target: Exec) returns (ok: bool)
      requires Valid() && n in nodes && target in registries
      modifies this`nodes, this`registries
      ensures Valid() && ok == (old(nodes)[n].parent.None? || old(nodes)[n].owner == target)
      ensures ok ==> nodes == Moved(old(nodes), Subtree(Up(old(nodes)), rank, n), target)
      ensures !ok ==> nodes == old(nodes) && registries == old(registries)
    {
      ValidSubtree(nodes, registries, rank, n);
      if nodes[n].parent.Some? && nodes[nodes[n].parent.value].owner != target {
        return false;
      }
      if nodes[n].owner == target {
        MovedNowhere(nodes, registries, rank, n);
        return true;
      }
      MovedValid(nodes, registries, rank, n, target);
      ApplyMoveTo(n, target, Up(nodes), nodes[n].owner);
      ok := true;
    }
  }
}
