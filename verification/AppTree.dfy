/** The application tree of `pkg/application`: an admin configures nested categories of
    applications, and each user is shown the applications their groups give access to. */
module AppTree {
  import opened Common

  datatype Info = Info(name: string, description: string, icon: string, url: string)

  /** `ApplicationNode`: a node whose `Items` is nil is an application, one whose `Items`
      is a (possibly empty) slice is a category. */
  datatype Node =
    | App(info: Info, groups: seq<string>)
    | Category(info: Info, groups: seq<string>, items: seq<Node>)

  /** An application without groups is public; otherwise one shared group suffices. */
  predicate Accessible(required: seq<string>, userGroups: set<string>) {
    required == [] || exists i :: 0 <= i < |required| && required[i] in userGroups
  }

  /** The user shares a group with the application, or the application asks for none. */
  lemma {:induction false} AccessibleIff(required: seq<string>, userGroups: set<string>)
    ensures Accessible(required, userGroups) <==>
      |required| == 0 || (set g | g in required) * userGroups != {}
  {
    if required != [] && Accessible(required, userGroups) {
      var i :| 0 <= i < |required| && required[i] in userGroups;
      assert required[i] in (set g | g in required) * userGroups;
    }
    if (set g | g in required) * userGroups != {} {
      var g :| g in (set g | g in required) * userGroups;
      assert g in required && g in userGroups;
    }
  }

  predicate AccessibleToAll(required: seq<string>, users: set<set<string>>) {
    forall g :: g in users ==> Accessible(required, g)
  }

  /** The tree pruned to what every group set in `users` may see, without the categories
      that end up empty. `Prune(ns, {g})` is what the source computes for one user. */
  function Prune(nodes: seq<Node>, users: set<set<string>>): (r: seq<Node>)
    ensures NoEmptyCategory(r)
    decreases nodes
  {
    if nodes == [] then [] else PruneNode(nodes[0], users) + Prune(nodes[1..], users)
  }

  function PruneNode(node: Node, users: set<set<string>>): (r: seq<Node>)
    ensures NoEmptyCategory(r)
    decreases node
  {
    match node
    case App(_, groups) => if AccessibleToAll(groups, users) then [node] else []
    case Category(_, _, items) =>
      var kept := Prune(items, users);
      if kept == [] then [] else [node.(items := kept)]
  }

  predicate NoEmptyCategory(nodes: seq<Node>)
    decreases nodes
  {
    forall i :: 0 <= i < |nodes| && nodes[i].Category? ==>
      nodes[i].items != [] && NoEmptyCategory(nodes[i].items)
  }

  /** `filterApplications`. */
  method FilterApplications(nodes: seq<Node>, userGroups: set<string>) returns (result: seq<Node>)
    ensures result == Prune(nodes, {userGroups})
    decreases nodes
  {
    result := [];
    for i := 0 to |nodes|
      invariant result == Prune(nodes[..i], {userGroups})
    {
      var node := nodes[i];
      PruneAppend(nodes[..i], node, {userGroups});
      assert nodes[..i + 1] == nodes[..i] + [node];
      match node
      case Category(_, _, items) =>
        var filteredItems := FilterApplications(items, userGroups);
        if |filteredItems| > 0 {
          result := result + [node.(items := filteredItems)];
        }
      case App(_, groups) =>
        var hasAccess := |groups| == 0;
        var j := 0;
        while j < |groups| && !hasAccess
          invariant 0 <= j <= |groups|
          invariant hasAccess ==> Accessible(groups, userGroups)
          invariant !hasAccess ==> groups != [] && forall k :: 0 <= k < j ==> groups[k] !in userGroups
          decreases |groups| - j, !hasAccess
        {
          if groups[j] in userGroups {
            hasAccess := true;
          } else {
            j := j + 1;
          }
        }
        assert hasAccess <==> AccessibleToAll(groups, {userGroups});
        if hasAccess {
          result := result + [node];
        }
    }
    assert nodes[..|nodes|] == nodes;
  }

  lemma {:induction false} PruneAppend(nodes: seq<Node>, node: Node, users: set<set<string>>)
    ensures Prune(nodes + [node], users) == Prune(nodes, users) + PruneNode(node, users)
  {
    PruneConcat(nodes, [node], users);
    assert Prune([node], users) == PruneNode(node, users);
  }

  lemma {:induction false} PruneConcat(a: seq<Node>, b: seq<Node>, users: set<set<string>>)
    ensures Prune(a + b, users) == Prune(a, users) + Prune(b, users)
  {
    if a == [] {
      assert a + b == b;
    } else {
      assert (a + b)[0] == a[0] && (a + b)[1..] == a[1..] + b;
      PruneConcat(a[1..], b, users);
      Assoc(PruneNode(a[0], users), Prune(a[1..], users), Prune(b, users));
    }
  }

  // -------------------------------------------------------------------- meaning

  /** An application together with the categories it sits in, outermost first. */
  datatype Leaf = Leaf(path: seq<(Info, seq<string>)>, app: Node)

  /** The applications in preorder. */
  function Leaves(nodes: seq<Node>, path: seq<(Info, seq<string>)>): seq<Leaf>
    decreases nodes
  {
    if nodes == [] then [] else NodeLeaves(nodes[0], path) + Leaves(nodes[1..], path)
  }

  function NodeLeaves(node: Node, path: seq<(Info, seq<string>)>): seq<Leaf>
    decreases node
  {
    match node
    case App(_, _) => [Leaf(path, node)]
    case Category(info, groups, items) => Leaves(items, path + [(info, groups)])
  }

  function KeepLeaf(leaf: Leaf, users: set<set<string>>): (kept: seq<Leaf>)
    ensures |kept| <= 1
  {
    if AccessibleToAll(leaf.app.groups, users) then [leaf] else []
  }

  function KeepLeaves(leaves: seq<Leaf>, users: set<set<string>>): seq<Leaf> {
    if leaves == [] then [] else KeepLeaf(leaves[0], users) + KeepLeaves(leaves[1..], users)
  }

  lemma {:induction false} KeepLeavesConcat(a: seq<Leaf>, b: seq<Leaf>, users: set<set<string>>)
    ensures KeepLeaves(a + b, users) == KeepLeaves(a, users) + KeepLeaves(b, users)
  {
    if a == [] {
      assert a + b == b;
    } else {
      assert a + b == [a[0]] + (a[1..] + b);
      KeepLeavesConcat(a[1..], b, users);
      Assoc(KeepLeaf(a[0], users), KeepLeaves(a[1..], users), KeepLeaves(b, users));
    }
  }

  lemma {:induction false} LeavesConcat(a: seq<Node>, b: seq<Node>, path: seq<(Info, seq<string>)>)
    ensures Leaves(a + b, path) == Leaves(a, path) + Leaves(b, path)
  {
    if a == [] {
      assert a + b == b;
    } else {
      assert (a + b)[0] == a[0] && (a + b)[1..] == a[1..] + b;
      LeavesConcat(a[1..], b, path);
      Assoc(NodeLeaves(a[0], path), Leaves(a[1..], path), Leaves(b, path));
    }
  }

  /** The pruned tree shows exactly the accessible applications of the input, in the same
      order, each under the same chain of categories. */
  lemma {:induction false} PruneKeepsAccessibleLeaves(nodes: seq<Node>, users: set<set<string>>,
                                                      path: seq<(Info, seq<string>)>)
    ensures Leaves(Prune(nodes, users), path) == KeepLeaves(Leaves(nodes, path), users)
    decreases nodes
  {
    if nodes != [] {
      LeavesConcat(PruneNode(nodes[0], users), Prune(nodes[1..], users), path);
      KeepLeavesConcat(NodeLeaves(nodes[0], path), Leaves(nodes[1..], path), users);
      PruneKeepsAccessibleLeaves(nodes[1..], users, path);
      PruneNodeKeepsLeaves(nodes[0], users, path);
    }
  }

  lemma {:induction false} PruneNodeKeepsLeaves(node: Node, users: set<set<string>>, path: seq<(Info, seq<string>)>)
    ensures Leaves(PruneNode(node, users), path) == KeepLeaves(NodeLeaves(node, path), users)
    decreases node
  {
    match node
    case App(_, _) =>
      assert NodeLeaves(node, path)[1..] == [];
    case Category(info, groups, items) =>
      PruneKeepsAccessibleLeaves(items, users, path + [(info, groups)]);
      var kept := Prune(items, users);
      if kept != [] {
        LeavesOfOne(node.(items := kept), path);
      }
  }

  lemma {:induction false} LeavesOfOne(node: Node, path: seq<(Info, seq<string>)>)
    ensures Leaves([node], path) == NodeLeaves(node, path)
  {
  }

  /** Nothing else changes: a tree in which everything is accessible and no category is
      empty is returned as it is. */
  lemma {:induction false} PruneIdentity(nodes: seq<Node>, users: set<set<string>>, path: seq<(Info, seq<string>)>)
    requires NoEmptyCategory(nodes)
    requires KeepLeaves(Leaves(nodes, path), users) == Leaves(nodes, path)
    ensures Prune(nodes, users) == nodes
    decreases nodes
  {
    if nodes != [] {
      var first, rest := NodeLeaves(nodes[0], path), Leaves(nodes[1..], path);
      KeepLeavesConcat(first, rest, users);
      KeepLeavesShrinks(first, users);
      KeepLeavesShrinks(rest, users);
      assert KeepLeaves(first, users) == first && KeepLeaves(rest, users) == rest by {
        var k1, k2 := KeepLeaves(first, users), KeepLeaves(rest, users);
        assert |k1| == |first| && |k2| == |rest|;
        assert k1 == (k1 + k2)[..|first|] && k2 == (k1 + k2)[|first|..];
      }
      PruneIdentity(nodes[1..], users, path);
      match nodes[0]
      case App(_, _) =>
      case Category(info, groups, items) =>
        PruneIdentity(items, users, path + [(info, groups)]);
    }
  }

  lemma {:induction false} KeepLeavesShrinks(leaves: seq<Leaf>, users: set<set<string>>)
    ensures |KeepLeaves(leaves, users)| <= |leaves|
  {
    if leaves != [] {
      KeepLeavesShrinks(leaves[1..], users);
    }
  }

  /** Fusion: filtering for one set of users and then for another is one pruning for
      both. */
  lemma {:induction false} PruneFusion(nodes: seq<Node>, a: set<set<string>>, b: set<set<string>>)
    ensures Prune(Prune(nodes, a), b) == Prune(nodes, a + b)
    decreases nodes
  {
    if nodes != [] {
      PruneFusion(nodes[1..], a, b);
      PruneConcat(PruneNode(nodes[0], a), Prune(nodes[1..], a), b);
      match nodes[0]
      case App(_, _) =>
        AccessFusion(nodes[0].groups, a, b);
        assert Prune([nodes[0]], b) == PruneNode(nodes[0], b);
      case Category(_, _, items) =>
        PruneFusion(items, a, b);
        var kept := Prune(items, a);
        if kept != [] {
          var node := nodes[0].(items := kept);
          assert Prune([node], b) == PruneNode(node, b);
        }
    }
  }

  lemma {:induction false} AccessFusion(groups: seq<string>, a: set<set<string>>, b: set<set<string>>)
    ensures AccessibleToAll(groups, a + b) <==> AccessibleToAll(groups, a) && AccessibleToAll(groups, b)
  {
  }

  /** Filtering twice for the same user is filtering once, and the order in which two
      users' filters are applied does not matter. */
  lemma {:induction false} FilterIdempotentAndCommutes(nodes: seq<Node>, g: set<string>, h: set<string>)
    ensures Prune(Prune(nodes, {g}), {g}) == Prune(nodes, {g})
    ensures Prune(Prune(nodes, {g}), {h}) == Prune(Prune(nodes, {h}), {g})
  {
    PruneFusion(nodes, {g}, {g});
    PruneFusion(nodes, {g}, {h});
    PruneFusion(nodes, {h}, {g});
    assert {g} + {g} == {g} && {g} + {h} == {h} + {g};
  }

  /** Monotone: a user with more groups sees at least what a user with fewer sees; the
      smaller user's tree is a pruning of the larger user's tree. */
  lemma {:induction false} FilterMonotone(nodes: seq<Node>, fewer: set<string>, more: set<string>)
    requires fewer <= more
    ensures Prune(Prune(nodes, {more}), {fewer}) == Prune(nodes, {fewer})
  {
    PruneFusion(nodes, {more}, {fewer});
    PruneSameAccess(nodes, {more} + {fewer}, {fewer});
  }

  ghost predicate SameAccess(a: set<set<string>>, b: set<set<string>>) {
    forall groups :: AccessibleToAll(groups, a) <==> AccessibleToAll(groups, b)
  }

  lemma {:induction false} PruneSameAccess(nodes: seq<Node>, a: set<set<string>>, b: set<set<string>>)
    requires SameAccess(a, b)
    ensures Prune(nodes, a) == Prune(nodes, b)
    decreases nodes
  {
    if nodes != [] {
      PruneSameAccess(nodes[1..], a, b);
      match nodes[0]
      case App(_, _) =>
      case Category(_, _, items) =>
        PruneSameAccess(items, a, b);
    }
  }
}
