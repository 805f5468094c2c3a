/** The scene hierarchy: nodes keyed by entity, each with an optional parent
    and an ordered child list, plus the list of root entities. Transform
    math is not modelled; only the hierarchy bookkeeping, the dirty flag and
    the descendant traversal are. */
module Scene {
  import opened Common
  import opened Ecs

  // ---------------------------------------------------------------------------
  // Sequence helpers
  // ---------------------------------------------------------------------------

  /** `Vec::retain(|y| *y != x)`: the sequence with every occurrence of `x`
      removed, the others kept in order. */
  function Without(s: seq<Entity>, x: Entity): (r: seq<Entity>)
    ensures x !in r
    ensures forall y :: y in r <==> y in s && y != x
    ensures |r| <= |s|
    ensures x !in s ==> r == s
  {
    if s == [] then []
    else if s[|s| - 1] == x then Without(s[..|s| - 1], x)
    else Without(s[..|s| - 1], x) + [s[|s| - 1]]
  }

  lemma {:induction false} WithoutKeepsNoDuplicates(s: seq<Entity>, x: Entity)
    requires NoDuplicates(s)
    ensures NoDuplicates(Without(s, x))
  {
    if s != [] {
      var init := s[..|s| - 1];
      assert NoDuplicates(init) by {
        forall i, j | 0 <= i < j < |init| ensures init[i] != init[j] {
          assert init[i] == s[i] && init[j] == s[j];
        }
      }
      WithoutKeepsNoDuplicates(init, x);
      var last := s[|s| - 1];
      if last != x {
        assert last !in init by {
          forall i | 0 <= i < |init| ensures init[i] != last {
            assert init[i] == s[i];
          }
        }
        var w := Without(init, x);
        forall i, j | 0 <= i < j < |w + [last]| ensures (w + [last])[i] != (w + [last])[j] {
          if j == |w| {
            assert (w + [last])[i] == w[i];
            assert w[i] in w;
          } else {
            assert (w + [last])[i] == w[i] && (w + [last])[j] == w[j];
          }
        }
      }
    }
  }

  lemma WithoutKeepsNoDuplicatesIf(s: seq<Entity>, x: Entity)
    ensures NoDuplicates(s) ==> NoDuplicates(Without(s, x))
  {
    if NoDuplicates(s) {
      WithoutKeepsNoDuplicates(s, x);
    }
  }

  // ---------------------------------------------------------------------------
  // Node
  // ---------------------------------------------------------------------------

  /** A scene node (its transforms are not modelled). It lives by value in the
      scene's map, so its mutators return the updated node. */
  datatype Node = Node(entity: Entity, name: string, parent: Option<Entity>,
                       children: seq<Entity>, dirty: bool, visible: bool, enabled: bool)
  {
    /** `Node::add_child`: appends `child` unless it is already a child. */
    function AddChild(child: Entity): (r: Node)
      ensures child in r.children
      ensures forall y :: y in r.children <==> y in children || y == child
      ensures child in children ==> r == this
      ensures child !in children ==> r.children == children + [child]
      ensures r.(children := children) == this
      ensures NoDuplicates(children) ==> NoDuplicates(r.children)
    {
      if child in children then this
      else
        assert forall i :: 0 <= i < |children| ==> children[i] in children;
        this.(children := children + [child])
    }

    /** `Node::remove_child`: removes every occurrence of `child`. */
    function RemoveChild(child: Entity): (r: Node)
      ensures child !in r.children
      ensures forall y :: y in r.children <==> y in children && y != child
      ensures r.(children := children) == this
      ensures NoDuplicates(children) ==> NoDuplicates(r.children)
    {
      WithoutKeepsNoDuplicatesIf(children, child);
      this.(children := Without(children, child))
    }

    /** `Node::mark_dirty`. */
    function MarkDirty(): (r: Node)
      ensures r.dirty
      ensures r.(dirty := dirty) == this
    {
      this.(dirty := true)
    }
  }

  /** `Node::new`: no parent, no children, dirty, visible and enabled. */
  function NewNode(entity: Entity, name: string): (n: Node)
    ensures n.entity == entity && n.name == name
    ensures n.parent == None && n.children == []
    ensures n.dirty && n.visible && n.enabled
  {
    Node(entity, name, None, [], true, true, true)
  }

  /** Adding a child and then removing it restores a node that did not have it. */
  lemma AddThenRemoveChild(n: Node, c: Entity)
    requires c !in n.children
    ensures n.AddChild(c).RemoveChild(c) == n
  {
    var s := n.children;
    assert Without(s + [c], c) == Without(s, c);
  }

  // ---------------------------------------------------------------------------
  // Hierarchy as a value: the child lists, a rank witnessing acyclicity, and the
  // pre-order list of descendants
  // ---------------------------------------------------------------------------

  /** The child list of every node in the scene. */
  function Kids(nodes: map<Entity, Node>): (k: map<Entity, seq<Entity>>)
    ensures k.Keys == nodes.Keys
    ensures forall e :: e in nodes ==> k[e] == nodes[e].children
  {
    map e | e in nodes :: nodes[e].children
  }

  /** `rank` decreases from every node to each of its children that is in the
      scene: the hierarchy has no cycle (the source recurses without bound on a
      cycle). */
  predicate Ranked(kids: map<Entity, seq<Entity>>, rank: map<Entity, nat>)
  {
    (forall e :: e in kids ==> e in rank) &&
    forall e, i :: e in kids && 0 <= i < |kids[e]| && kids[e][i] in kids ==>
      rank[kids[e][i]] < rank[e]
  }

  function Height(kids: map<Entity, seq<Entity>>, rank: map<Entity, nat>, e: Entity): nat
  {
    if e in kids && e in rank then rank[e] + 1 else 0
  }

  /** The pre-order list `collect_descendants` produces for `e`: for each child,
      the child and then its own descendants. */
  function Descendants(kids: map<Entity, seq<Entity>>, rank: map<Entity, nat>, e: Entity): seq<Entity>
    requires Ranked(kids, rank)
    decreases Height(kids, rank, e), 1, 0
  {
    if e !in kids then []
    else
      var cs := kids[e];
      assert forall i :: 0 <= i < |cs| ==> Height(kids, rank, cs[i]) < Height(kids, rank, e);
      DescendantsOfList(kids, rank, cs, Height(kids, rank, e))
  }

  /** The descendants contributed by the child list `cs`, in order. */
  function DescendantsOfList(kids: map<Entity, seq<Entity>>, rank: map<Entity, nat>,
                             cs: seq<Entity>, bound: nat): seq<Entity>
    requires Ranked(kids, rank)
    requires forall i :: 0 <= i < |cs| ==> Height(kids, rank, cs[i]) < bound
    decreases bound, 0, |cs|
  {
    if cs == [] then []
    else
      var last := cs[|cs| - 1];
      DescendantsOfList(kids, rank, cs[..|cs| - 1], bound) + [last] + Descendants(kids, rank, last)
  }

  /** Extending a prefix of the child list by one child appends that child and
      its descendants. */
  lemma DescendantsOfListStep(kids: map<Entity, seq<Entity>>, rank: map<Entity, nat>,
                              cs: seq<Entity>, i: nat, bound: nat)
    requires Ranked(kids, rank) && i < |cs|
    requires forall k :: 0 <= k < |cs| ==> Height(kids, rank, cs[k]) < bound
    ensures DescendantsOfList(kids, rank, cs[..i], bound) + ([cs[i]] + Descendants(kids, rank, cs[i]))
         == DescendantsOfList(kids, rank, cs[..i + 1], bound)
  {
    assert cs[..i + 1][..i] == cs[..i];
  }

  /** Every element of the child list is among its descendants. */
  lemma {:induction false} ListContainsItsChildren(kids: map<Entity, seq<Entity>>, rank: map<Entity, nat>,
                                                   cs: seq<Entity>, bound: nat)
    requires Ranked(kids, rank)
    requires forall i :: 0 <= i < |cs| ==> Height(kids, rank, cs[i]) < bound
    ensures forall c :: c in cs ==> c in DescendantsOfList(kids, rank, cs, bound)
    decreases |cs|
  {
    if cs != [] {
      ListContainsItsChildren(kids, rank, cs[..|cs| - 1], bound);
      forall c | c in cs ensures c in DescendantsOfList(kids, rank, cs, bound) {
        if c != cs[|cs| - 1] {
          var i :| 0 <= i < |cs| && cs[i] == c;
          assert cs[..|cs| - 1][i] == c;
        }
      }
    }
  }

  /** Only descendants are listed, and the list is closed under children:
      an entity is listed exactly when it is a child of `e` or of a listed node. */
  lemma {:induction false} DescendantsAreClosed(kids: map<Entity, seq<Entity>>, rank: map<Entity, nat>, e: Entity)
    requires Ranked(kids, rank)
    ensures forall x :: x in Descendants(kids, rank, e) ==>
              (e in kids && x in kids[e]) ||
              exists y :: y in Descendants(kids, rank, e) && y in kids && x in kids[y]
    ensures forall y, x :: y in Descendants(kids, rank, e) && y in kids && x in kids[y] ==>
              x in Descendants(kids, rank, e)
    ensures e in kids ==> forall x :: x in kids[e] ==> x in Descendants(kids, rank, e)
    decreases Height(kids, rank, e), 1, 0
  {
    if e in kids {
      var cs := kids[e];
      assert forall i :: 0 <= i < |cs| ==> Height(kids, rank, cs[i]) < Height(kids, rank, e);
      ListIsClosed(kids, rank, cs, Height(kids, rank, e));
      ListContainsItsChildren(kids, rank, cs, Height(kids, rank, e));
    }
  }

  lemma {:induction false} ListIsClosed(kids: map<Entity, seq<Entity>>, rank: map<Entity, nat>,
                                        cs: seq<Entity>, bound: nat)
    requires Ranked(kids, rank)
    requires forall i :: 0 <= i < |cs| ==> Height(kids, rank, cs[i]) < bound
    ensures forall x :: x in DescendantsOfList(kids, rank, cs, bound) ==>
              x in cs || exists y :: y in DescendantsOfList(kids, rank, cs, bound) && y in kids && x in kids[y]
    ensures forall y, x :: y in DescendantsOfList(kids, rank, cs, bound) && y in kids && x in kids[y] ==>
              x in DescendantsOfList(kids, rank, cs, bound)
    decreases bound, 0, |cs|
  {
    if cs != [] {
      var init, last := cs[..|cs| - 1], cs[|cs| - 1];
      ListIsClosed(kids, rank, init, bound);
      DescendantsAreClosed(kids, rank, last);
      var a := DescendantsOfList(kids, rank, init, bound);
      var d := Descendants(kids, rank, last);
      var all := DescendantsOfList(kids, rank, cs, bound);
      assert all == a + [last] + d;
      forall x | x in all
        ensures x in cs || exists y :: y in all && y in kids && x in kids[y]
      {
        if x in a {
          if x !in init {
            var y :| y in a && y in kids && x in kids[y];
            assert y in all;
          } else {
            var i :| 0 <= i < |init| && init[i] == x;
            assert cs[i] == x;
          }
        } else if x in d {
          if last in kids && x in kids[last] {
            assert last in all;
          } else {
            var y :| y in d && y in kids && x in kids[y];
            assert y in all;
          }
        }
      }
      forall y, x | y in all && y in kids && x in kids[y] ensures x in all {
        if y == last {
          assert x in d;
        } else if y in a {
          assert x in a;
        } else {
          assert x in d;
        }
      }
    }
  }

  /** Every entity reachable from the list `rs`: each one and its descendants. */
  function ReachedFrom(kids: map<Entity, seq<Entity>>, rank: map<Entity, nat>, rs: seq<Entity>): seq<Entity>
    requires Ranked(kids, rank)
  {
    if rs == [] then []
    else
      var last := rs[|rs| - 1];
      ReachedFrom(kids, rank, rs[..|rs| - 1]) + [last] + Descendants(kids, rank, last)
  }

  lemma ReachedFromStep(kids: map<Entity, seq<Entity>>, rank: map<Entity, nat>, rs: seq<Entity>, i: nat)
    requires Ranked(kids, rank) && i < |rs|
    ensures ReachedFrom(kids, rank, rs[..i]) + ([rs[i]] + Descendants(kids, rank, rs[i]))
         == ReachedFrom(kids, rank, rs[..i + 1])
  {
    assert rs[..i + 1][..i] == rs[..i];
  }

  /** The roots and every descendant of a root are reached. */
  lemma {:induction false} ReachedFromContains(kids: map<Entity, seq<Entity>>, rank: map<Entity, nat>, rs: seq<Entity>)
    requires Ranked(kids, rank)
    ensures forall i :: 0 <= i < |rs| ==> rs[i] in ReachedFrom(kids, rank, rs)
    ensures forall i, x :: 0 <= i < |rs| && x in Descendants(kids, rank, rs[i]) ==> x in ReachedFrom(kids, rank, rs)
  {
    if rs != [] {
      var init := rs[..|rs| - 1];
      ReachedFromContains(kids, rank, init);
      forall i | 0 <= i < |rs| - 1 ensures rs[i] == init[i] {}
    }
  }

  // ---------------------------------------------------------------------------
  // Whole-scene transitions as values
  // ---------------------------------------------------------------------------

  /** Every node is keyed by its own entity and has no repeated child. */
  predicate SceneInv(nodes: map<Entity, Node>)
  {
    forall e :: e in nodes ==> nodes[e].entity == e && NoDuplicates(nodes[e].children)
  }

  /** `e` taken out of the map and out of its parent's child list. */
  function Detached(nodes: map<Entity, Node>, e: Entity): (m: map<Entity, Node>)
    requires e in nodes
    ensures m.Keys == nodes.Keys - {e}
  {
    var n := nodes[e];
    var rest := nodes - {e};
    if n.parent.Some? && n.parent.value in rest
    then rest[n.parent.value := rest[n.parent.value].RemoveChild(e)]
    else rest
  }

  /** Every node of `m` listed in `cs` with its parent cleared. */
  function Orphaned(m: map<Entity, Node>, cs: seq<Entity>): (r: map<Entity, Node>)
    ensures r.Keys == m.Keys
  {
    map x | x in m :: if x in cs then m[x].(parent := None) else m[x]
  }

  lemma OrphanedStep(m: map<Entity, Node>, cs: seq<Entity>, c: Entity)
    ensures c in m ==> Orphaned(m, cs + [c]) == Orphaned(m, cs)[c := Orphaned(m, cs)[c].(parent := None)]
    ensures c !in m ==> Orphaned(m, cs + [c]) == Orphaned(m, cs)
  {
    assert forall x :: x in cs + [c] <==> x in cs || x == c;
  }

  /** The map after `remove_node(e)`, for `e` in the scene. */
  function NodesAfterRemoval(nodes: map<Entity, Node>, e: Entity): (m: map<Entity, Node>)
    requires e in nodes
    ensures m.Keys == nodes.Keys - {e}
  {
    Orphaned(Detached(nodes, e), nodes[e].children)
  }

  /** The entries of `cs` that are in `keys`, in order. */
  function InScene(cs: seq<Entity>, keys: set<Entity>): (r: seq<Entity>)
    ensures forall x :: x in r <==> x in cs && x in keys
  {
    if cs == [] then []
    else InScene(cs[..|cs| - 1], keys) + (if cs[|cs| - 1] in keys then [cs[|cs| - 1]] else [])
  }

  lemma InSceneStep(cs: seq<Entity>, keys: set<Entity>, c: Entity)
    ensures InScene(cs + [c], keys) == InScene(cs, keys) + (if c in keys then [c] else [])
  {
    assert (cs + [c])[..|cs|] == cs;
  }

  /** The roots after `remove_node(e)`: `e` dropped, its surviving children appended. */
  function RootsAfterRemoval(nodes: map<Entity, Node>, roots: seq<Entity>, e: Entity): seq<Entity>
    requires e in nodes
  {
    Without(roots, e) + InScene(nodes[e].children, nodes.Keys - {e})
  }

  lemma RemovalKeepsInv(nodes: map<Entity, Node>, e: Entity)
    requires SceneInv(nodes) && e in nodes
    ensures SceneInv(NodesAfterRemoval(nodes, e))
  {
  }

  /** What `remove_node(e)` promises: `e` is gone from the map, from its
      parent's children and from the roots; each child of `e` still in the
      scene has no parent and is a root; every other node is untouched. */
  lemma RemovalDetaches(nodes: map<Entity, Node>, roots: seq<Entity>, e: Entity)
    requires e in nodes
    ensures var m := NodesAfterRemoval(nodes, e);
            var rs := RootsAfterRemoval(nodes, roots, e);
            && e !in m
            && e !in rs
            && (nodes[e].parent.Some? && nodes[e].parent.value in m ==> e !in m[nodes[e].parent.value].children)
            && (forall c :: c in nodes[e].children && c in m ==> m[c].parent == None && c in rs)
            && (forall x :: x in m && x !in nodes[e].children && Some(x) != nodes[e].parent ==> m[x] == nodes[x])
            && (forall x :: x in roots && x != e ==> x in rs)
  {
    var m := NodesAfterRemoval(nodes, e);
    var d := Detached(nodes, e);
    if nodes[e].parent.Some? && nodes[e].parent.value in m {
      var p := nodes[e].parent.value;
      assert d[p] == nodes[p].RemoveChild(e);
      assert m[p].children == d[p].children;
    }
  }

  /** The parent of `child` before `set_parent`, when both are in the scene. */
  function OldParentOf(nodes: map<Entity, Node>, child: Entity): (op: Option<Entity>)
    ensures op.Some? ==> op.value in nodes && child in nodes && nodes[child].parent == op
  {
    if child in nodes && nodes[child].parent.Some? && nodes[child].parent.value in nodes
    then nodes[child].parent else None
  }

  /** The first step of `set_parent`: `child` taken out of its old parent's list. */
  function DetachedFromOldParent(nodes: map<Entity, Node>, child: Entity): (m: map<Entity, Node>)
    ensures m.Keys == nodes.Keys
  {
    var op := OldParentOf(nodes, child);
    if op.Some? then nodes[op.value := nodes[op.value].RemoveChild(child)] else nodes
  }

  /** The second step: `child` added to the new parent's list. */
  function AttachedToParent(nodes: map<Entity, Node>, child: Entity, parent: Option<Entity>): (m: map<Entity, Node>)
    ensures m.Keys == nodes.Keys
  {
    if parent.Some? && parent.value in nodes then nodes[parent.value := nodes[parent.value].AddChild(child)] else nodes
  }

  /** The last step: `child` given its new parent and marked dirty. */
  function Reparented(nodes: map<Entity, Node>, child: Entity, parent: Option<Entity>): (m: map<Entity, Node>)
    ensures m.Keys == nodes.Keys
  {
    if child in nodes then nodes[child := nodes[child].(parent := parent).MarkDirty()] else nodes
  }

  /** The map after `set_parent(child, parent)`. */
  function NodesAfterSetParent(nodes: map<Entity, Node>, child: Entity, parent: Option<Entity>): (m: map<Entity, Node>)
    ensures m.Keys == nodes.Keys
  {
    Reparented(AttachedToParent(DetachedFromOldParent(nodes, child), child, parent), child, parent)
  }

  /** The roots after `set_parent(child, parent)`. */
  function RootsAfterSetParent(roots: seq<Entity>, child: Entity, parent: Option<Entity>): seq<Entity>
  {
    if parent.Some? then Without(roots, child)
    else if child in roots then roots
    else roots + [child]
  }

  lemma ReplaceKeepsInv(nodes: map<Entity, Node>, x: Entity, n: Node)
    requires SceneInv(nodes) && n.entity == x && NoDuplicates(n.children)
    ensures SceneInv(nodes[x := n])
  {
  }

  lemma SetParentKeepsInv(nodes: map<Entity, Node>, child: Entity, parent: Option<Entity>)
    requires SceneInv(nodes)
    ensures SceneInv(NodesAfterSetParent(nodes, child, parent))
  {
    var op := OldParentOf(nodes, child);
    if op.Some? {
      ReplaceKeepsInv(nodes, op.value, nodes[op.value].RemoveChild(child));
    }
    var n1 := DetachedFromOldParent(nodes, child);
    if parent.Some? && parent.value in n1 {
      ReplaceKeepsInv(n1, parent.value, n1[parent.value].AddChild(child));
    }
    var n2 := AttachedToParent(n1, child, parent);
    if child in n2 {
      ReplaceKeepsInv(n2, child, n2[child].(parent := parent).MarkDirty());
    }
  }

  /** What `set_parent(child, parent)` promises: `child` points at `parent` and
      is dirty; it is in the new parent's list and no longer in a different old
      parent's list; other nodes change only in their child lists, and only the
      old and new parents at all. */
  lemma SetParentEffects(nodes: map<Entity, Node>, child: Entity, parent: Option<Entity>)
    ensures var m := NodesAfterSetParent(nodes, child, parent);
            var op := OldParentOf(nodes, child);
            && (child in m ==> m[child].parent == parent && m[child].dirty)
            && (parent.Some? && parent.value in m ==> child in m[parent.value].children)
            && (op.Some? && op != parent ==> child !in m[op.value].children)
            && (forall x :: x in m && x != child && Some(x) != parent && Some(x) != op ==> m[x] == nodes[x])
            && (forall x :: x in m && x != child ==> m[x].(children := nodes[x].children) == nodes[x])
  {
  }

  /** Attaching a parentless node to a parent that does not list it yet
      appends it to that parent's child list and changes no other list. */
  lemma SetParentKids(nodes: map<Entity, Node>, m: map<Entity, Node>, child: Entity, p: Entity)
    requires OldParentOf(nodes, child) == None && p in nodes && child !in nodes[p].children
    requires m == NodesAfterSetParent(nodes, child, Some(p))
    ensures Kids(m) == Kids(nodes)[p := Kids(nodes)[p] + [child]]
    ensures forall x :: x in nodes && x != child ==> m[x].parent == nodes[x].parent
  {
    var added := nodes[p].AddChild(child);
    assert added.children == nodes[p].children + [child];
    var n2 := AttachedToParent(nodes, child, Some(p));
    assert n2 == nodes[p := added];
    assert Kids(n2) == Kids(nodes)[p := added.children];
    if child in n2 {
      assert Kids(m) == Kids(n2);
    }
  }

  /** `set_parent(child, Some(_))` removes `child` from the roots;
      `set_parent(child, None)` makes it a root without repeating it. */
  lemma SetParentRoots(roots: seq<Entity>, child: Entity, parent: Option<Entity>)
    ensures var rs := RootsAfterSetParent(roots, child, parent);
            && (parent.Some? <==> child !in rs)
            && (parent.None? && NoDuplicates(roots) ==> NoDuplicates(rs))
            && (forall x :: x != child ==> (x in rs <==> x in roots))
  {
    var rs := RootsAfterSetParent(roots, child, parent);
    if parent.None? && NoDuplicates(roots) && child !in roots {
      forall i, j | 0 <= i < j < |rs| ensures rs[i] != rs[j] {
        if j == |roots| {
          assert rs[i] == roots[i];
        }
      }
    }
  }

  /** The two maps hold the same nodes up to their dirty flags. */
  predicate SameButDirty(a: map<Entity, Node>, b: map<Entity, Node>)
  {
    a.Keys == b.Keys && forall x :: x in a ==> a[x].(dirty := false) == b[x].(dirty := false)
  }

  /** `now` has the dirty flags of `before`, except that every node listed in
      `reached` is clean. */
  predicate CleanedExactly(now: map<Entity, Node>, before: map<Entity, Node>, reached: seq<Entity>)
    requires now.Keys == before.Keys
  {
    forall x :: x in now ==> (now[x].dirty <==> before[x].dirty && x !in reached)
  }

  lemma SameButDirtyKids(a: map<Entity, Node>, b: map<Entity, Node>)
    requires SameButDirty(a, b)
    ensures Kids(a) == Kids(b)
  {
    forall x | x in a ensures a[x].children == b[x].children {
      assert a[x].(dirty := false).children == b[x].(dirty := false).children;
    }
  }

  lemma SameButDirtyTrans(a: map<Entity, Node>, b: map<Entity, Node>, c: map<Entity, Node>)
    requires SameButDirty(a, b) && SameButDirty(b, c)
    ensures SameButDirty(a, c)
  {
  }

  lemma CleanedCompose(a: map<Entity, Node>, b: map<Entity, Node>, c: map<Entity, Node>,
                       r2: seq<Entity>, r1: seq<Entity>)
    requires a.Keys == b.Keys == c.Keys
    requires CleanedExactly(a, b, r2) && CleanedExactly(b, c, r1)
    ensures CleanedExactly(a, c, r1 + r2)
  {
  }

  // ---------------------------------------------------------------------------
  // The scene graph
  // ---------------------------------------------------------------------------

  class SceneGraph {
    var nodes: map<Entity, Node>
    var roots: seq<Entity>

    ghost predicate Valid()
      reads this
    {
      SceneInv(nodes)
    }

    /** `SceneGraph::new`. */
    constructor ()
      ensures Valid()
      ensures nodes == map[] && roots == []
    {
      nodes := map[];
      roots := [];
    }

    /** `add_node`: stores a fresh node under `e` (replacing any node there) and
        appends `e` to the roots. */
    method AddNode(e: Entity, name: string)
      requires Valid()
      modifies this
      ensures Valid()
      ensures nodes == old(nodes)[e := NewNode(e, name)]
      ensures roots == old(roots) + [e]
    {
      nodes := nodes[e := NewNode(e, name)];
      roots := roots + [e];
    }

    /** `remove_node`. */
    method RemoveNode(e: Entity) returns (r: Option<Node>)
      requires Valid()
      modifies this
      ensures Valid()
      ensures r.None? <==> e !in old(nodes)
      ensures r.None? ==> nodes == old(nodes) && roots == old(roots)
      ensures r.Some? ==> r.value == old(nodes)[e]
      ensures r.Some? ==> nodes == NodesAfterRemoval(old(nodes), e)
      ensures r.Some? ==> roots == RootsAfterRemoval(old(nodes), old(roots), e)
    {
      if e !in nodes {
        return None;
      }
      var node := nodes[e];
      ghost var n0 := nodes;
      nodes := nodes - {e};
      if node.parent.Some? && node.parent.value in nodes {
        var p := node.parent.value;
        nodes := nodes[p := nodes[p].RemoveChild(e)];
      }
      assert nodes == Detached(n0, e);
      roots := Without(roots, e);
      OrphanChildren(node.children);
      RemovalKeepsInv(n0, e);
      r := Some(node);
    }

    /** The loop of `remove_node` over the removed node's children: each one
        still in the scene loses its parent and is appended to the roots. */
    method OrphanChildren(children: seq<Entity>)
      modifies this
      ensures nodes == Orphaned(old(nodes), children)
      ensures roots == old(roots) + InScene(children, old(nodes).Keys)
    {
      ghost var detached, r0 := nodes, roots;
      var i := 0;
      while i < |children|
        invariant 0 <= i <= |children|
        invariant nodes == Orphaned(detached, children[..i])
        invariant roots == r0 + InScene(children[..i], detached.Keys)
      {
        var child := children[i];
        ghost var done := children[..i];
        assert children[..i + 1] == done + [child];
        OrphanedStep(detached, done, child);
        InSceneStep(done, detached.Keys, child);
        ghost var inDone := InScene(done, detached.Keys);
        assert child in nodes <==> child in detached.Keys;
        if child in nodes {
          nodes := nodes[child := nodes[child].(parent := None)];
          roots := roots + [child];
          assert roots == r0 + (inDone + [child]);
        } else {
          assert roots == r0 + (inDone + []);
        }
        assert nodes == Orphaned(detached, done + [child]);
        i := i + 1;
      }
      assert children[..i] == children;
    }

    /** `set_parent(child, parent)`. */
    method SetParent(child: Entity, parent: Option<Entity>)
      requires Valid()
      modifies this
      ensures Valid()
      ensures nodes == NodesAfterSetParent(old(nodes), child, parent)
      ensures roots == RootsAfterSetParent(old(roots), child, parent)
    {
      ghost var n0 := nodes;
      if child in nodes && nodes[child].parent.Some? && nodes[child].parent.value in nodes {
        var op := nodes[child].parent.value;
        nodes := nodes[op := nodes[op].RemoveChild(child)];
      }
      ghost var n1 := nodes;
      assert n1 == DetachedFromOldParent(n0, child);
      if parent.Some? {
        var p := parent.value;
        if p in nodes {
          nodes := nodes[p := nodes[p].AddChild(child)];
        }
        roots := Without(roots, child);
      } else if child !in roots {
        roots := roots + [child];
      }
      ghost var n2 := nodes;
      assert n2 == AttachedToParent(n1, child, parent);
      if child in nodes {
        nodes := nodes[child := nodes[child].(parent := parent).MarkDirty()];
      }
      assert nodes == Reparented(n2, child, parent);
      SetParentKeepsInv(n0, child, parent);
    }

    /** `roots`. */
    function Roots(): (rs: seq<Entity>)
      reads this
      ensures rs == roots
    {
      roots
    }

    /** `update_transforms`, reduced to the dirty flags: every node reached from
        a root is marked clean, nothing else changes. */
    method UpdateTransforms(ghost rank: map<Entity, nat>)
      requires Valid() && Ranked(Kids(nodes), rank)
      modifies this
      ensures Valid() && roots == old(roots)
      ensures SameButDirty(nodes, old(nodes))
      ensures CleanedExactly(nodes, old(nodes), ReachedFrom(Kids(old(nodes)), rank, old(roots)))
    {
      var rs := roots;
      ghost var kids := Kids(nodes);
      var i := 0;
      while i < |rs|
        invariant 0 <= i <= |rs| && Valid() && roots == rs
        invariant SameButDirty(nodes, old(nodes))
        invariant CleanedExactly(nodes, old(nodes), ReachedFrom(kids, rank, rs[..i]))
      {
        ghost var prev := nodes;
        SameButDirtyKids(nodes, old(nodes));
        UpdateTransformRecursive(rs[i], rank);
        SameButDirtyKids(prev, old(nodes));
        SameButDirtyTrans(nodes, prev, old(nodes));
        CleanedCompose(nodes, prev, old(nodes), [rs[i]] + Descendants(kids, rank, rs[i]),
                       ReachedFrom(kids, rank, rs[..i]));
        ReachedFromStep(kids, rank, rs, i);
        i := i + 1;
      }
      assert rs[..i] == rs;
    }

    /** `update_transform_recursive`: clears the dirty flag of `e` and of all
        its descendants. */
    method UpdateTransformRecursive(e: Entity, ghost rank: map<Entity, nat>)
      requires Valid() && Ranked(Kids(nodes), rank)
      modifies this
      ensures Valid() && roots == old(roots)
      ensures SameButDirty(nodes, old(nodes))
      ensures CleanedExactly(nodes, old(nodes), [e] + Descendants(Kids(old(nodes)), rank, e))
      decreases Height(Kids(nodes), rank, e), 1
    {
      if e !in nodes {
        return;
      }
      ghost var kids := Kids(nodes);
      ghost var n0 := nodes;
      nodes := nodes[e := nodes[e].(dirty := false)];
      ghost var n1 := nodes;
      assert Kids(n1) == kids;
      var children := nodes[e].children;
      assert forall k :: 0 <= k < |children| ==> Height(kids, rank, children[k]) < Height(kids, rank, e);
      assert SameButDirty(n1, n0);
      UpdateChildren(children, rank, Height(kids, rank, e));
      SameButDirtyTrans(nodes, n1, n0);
      CleanedCompose(nodes, n1, n0, Descendants(kids, rank, e), [e]);
    }

    /** The loop of `update_transform_recursive` over a child list. */
    method UpdateChildren(children: seq<Entity>, ghost rank: map<Entity, nat>, ghost bound: nat)
      requires Valid() && Ranked(Kids(nodes), rank)
      requires forall k :: 0 <= k < |children| ==> Height(Kids(nodes), rank, children[k]) < bound
      modifies this
      ensures Valid() && roots == old(roots)
      ensures SameButDirty(nodes, old(nodes))
      ensures CleanedExactly(nodes, old(nodes), DescendantsOfList(Kids(old(nodes)), rank, children, bound))
      decreases bound, 0
    {
      ghost var kids := Kids(nodes);
      ghost var n0 := nodes;
      var i := 0;
      while i < |children|
        invariant 0 <= i <= |children| && Valid() && roots == old(roots)
        invariant SameButDirty(nodes, n0)
        invariant CleanedExactly(nodes, n0, DescendantsOfList(kids, rank, children[..i], bound))
      {
        ghost var prev := nodes;
        var c := children[i];
        SameButDirtyKids(nodes, n0);
        UpdateTransformRecursive(c, rank);
        SameButDirtyKids(prev, n0);
        SameButDirtyTrans(nodes, prev, n0);
        CleanedCompose(nodes, prev, n0, [c] + Descendants(kids, rank, c),
                       DescendantsOfList(kids, rank, children[..i], bound));
        DescendantsOfListStep(kids, rank, children, i, bound);
        i := i + 1;
      }
      assert children[..i] == children;
    }

    /** `find_by_name`: some node with that name, if any (map order is not
        specified). */
    method FindByName(name: string) returns (r: Option<Entity>)
      requires Valid()
      ensures r.None? <==> forall e :: e in nodes ==> nodes[e].name != name
      ensures r.Some? ==> r.value in nodes && nodes[r.value].name == name
    {
      if e :| e in nodes && nodes[e].name == name {
        r := Some(nodes[e].entity);
      } else {
        r := None;
      }
    }

    /** `get_descendants`: the pre-order list of descendants of `e`. */
    method GetDescendants(e: Entity, ghost rank: map<Entity, nat>) returns (r: seq<Entity>)
      requires Ranked(Kids(nodes), rank)
      ensures r == Descendants(Kids(nodes), rank, e)
    {
      r := CollectDescendants(e, [], rank);
    }

    /** `collect_descendants`: appends the descendants of `e` to `result`. */
    method CollectDescendants(e: Entity, result: seq<Entity>, ghost rank: map<Entity, nat>) returns (r: seq<Entity>)
      requires Ranked(Kids(nodes), rank)
      ensures r == result + Descendants(Kids(nodes), rank, e)
      decreases Height(Kids(nodes), rank, e)
    {
      r := result;
      if e in nodes {
        ghost var kids := Kids(nodes);
        var children := nodes[e].children;
        ghost var bound := Height(kids, rank, e);
        assert forall k :: 0 <= k < |children| ==> Height(kids, rank, children[k]) < bound;
        var i := 0;
        while i < |children|
          invariant 0 <= i <= |children|
          invariant r == result + DescendantsOfList(kids, rank, children[..i], bound)
        {
          assert children[..i + 1][..i] == children[..i];
          r := r + [children[i]];
          r := CollectDescendants(children[i], r, rank);
          i := i + 1;
        }
        assert children[..i] == children;
      }
    }

    /** `node_count`. */
    function NodeCount(): (n: nat)
      reads this
      ensures n == 0 <==> nodes == map[]
    {
      |nodes|
    }

    /** `is_empty`. */
    function IsEmpty(): (b: bool)
      reads this
      ensures b <==> NodeCount() == 0
    {
      nodes == map[]
    }

    /** `clear`. */
    method Clear()
      modifies this
      ensures Valid() && nodes == map[] && roots == []
    {
      nodes := map[];
      roots := [];
    }
  }

  // ---------------------------------------------------------------------------
  // Scenarios from the unit tests
  // ---------------------------------------------------------------------------

  method AddNodeScenario()
  {
    var sg := new SceneGraph();
    var e := Entity(0, 0);
    sg.AddNode(e, "TestNode");
    assert sg.NodeCount() == 1 && !sg.IsEmpty();
    assert sg.nodes[e].name == "TestNode";
    assert sg.nodes[e].dirty && sg.nodes[e].parent == None && sg.Roots() == [e];
  }

  method ParentingScenario()
  {
    var sg := new SceneGraph();
    var parent, child := Entity(0, 0), Entity(1, 0);
    sg.AddNode(parent, "Parent");
    sg.AddNode(child, "Child");
    ghost var before := sg.nodes;
    sg.SetParent(child, Some(parent));
    SetParentEffects(before, child, Some(parent));
    SetParentRoots([parent, child], child, Some(parent));
    assert child in sg.nodes[parent].children;
    assert sg.nodes[child].parent == Some(parent);
    assert child !in sg.Roots();
  }

  method RemoveNodeScenario()
  {
    var sg := new SceneGraph();
    var e := Entity(0, 0);
    sg.AddNode(e, "TestNode");
    var r := sg.RemoveNode(e);
    assert r.Some? && sg.IsEmpty() && e !in sg.nodes;
    var again := sg.RemoveNode(e);
    assert again == None;
  }

  method FindByNameScenario()
  {
    var sg := new SceneGraph();
    var e := Entity(42, 0);
    sg.AddNode(e, "UniqueNode");
    assert sg.nodes.Keys == {e} && sg.nodes[e].name == "UniqueNode";
    var found := sg.FindByName("UniqueNode");
    assert found == Some(e);
    var notFound := sg.FindByName("NonExistent");
    assert notFound == None;
  }

  /** The hierarchy of the descendants test: a root `r` with children `c1`
      (which has child `g`) and `c2` is ranked by `FamilyRank`, and its
      descendants are listed in pre-order. */
  function FamilyRank(r: Entity, c1: Entity, c2: Entity, g: Entity): map<Entity, nat>
  {
    map[r := 2, c1 := 1, c2 := 0, g := 0]
  }

  lemma FamilyDescendants(kids: map<Entity, seq<Entity>>, r: Entity, c1: Entity, c2: Entity, g: Entity)
    requires r != c1 && r != c2 && r != g && c1 != c2 && c1 != g && c2 != g
    requires kids.Keys == {r, c1, c2, g}
    requires kids[r] == [c1, c2] && kids[c1] == [g] && kids[c2] == [] && kids[g] == []
    ensures Ranked(kids, FamilyRank(r, c1, c2, g))
    ensures Descendants(kids, FamilyRank(r, c1, c2, g), r) == [c1, g, c2]
  {
    var rank := FamilyRank(r, c1, c2, g);
    forall e, i | e in kids && 0 <= i < |kids[e]| && kids[e][i] in kids
      ensures rank[kids[e][i]] < rank[e]
    {
      if e == r {
        assert kids[e][i] == c1 || kids[e][i] == c2;
      } else {
        assert e == c1 && kids[e][i] == g;
      }
    }
    assert Ranked(kids, rank);
    assert Descendants(kids, rank, g) == [];
    assert Descendants(kids, rank, c2) == [];
    var hc1 := Height(kids, rank, c1);
    assert DescendantsOfList(kids, rank, [g], hc1) == [g];
    assert Descendants(kids, rank, c1) == [g];
    var hr := Height(kids, rank, r);
    assert [c1, c2][..1] == [c1];
    assert DescendantsOfList(kids, rank, [c1], hr) == [c1, g];
    assert DescendantsOfList(kids, rank, [c1, c2], hr) == [c1, g, c2];
  }

  /** One `set_parent` step of the descendants test: a parentless `child` joins the
      end of `p`'s child list, and the other parentless nodes stay parentless. */
  lemma AttachParentless(nodes: map<Entity, Node>, m: map<Entity, Node>, child: Entity, p: Entity,
                         k: map<Entity, seq<Entity>>, parentless: set<Entity>)
    requires Kids(nodes) == k && p in k && child !in k[p]
    requires child in parentless
    requires forall x :: x in parentless ==> x in nodes && nodes[x].parent == None
    requires m == NodesAfterSetParent(nodes, child, Some(p))
    ensures Kids(m) == k[p := k[p] + [child]]
    ensures forall x :: x in parentless - {child} ==> x in m && m[x].parent == None
  {
    SetParentKids(nodes, m, child, p);
  }

  /** `set_parent(child, Some(p))` on a scene whose child lists are `k`, for a
      parentless `child` that `p` does not list yet. */
  method AttachParentlessIn(sg: SceneGraph, child: Entity, p: Entity,
                            ghost k: map<Entity, seq<Entity>>, ghost parentless: set<Entity>)
    requires sg.Valid() && Kids(sg.nodes) == k && p in k && child !in k[p] && child in parentless
    requires forall x :: x in parentless ==> x in sg.nodes && sg.nodes[x].parent == None
    modifies sg
    ensures sg.Valid() && Kids(sg.nodes) == k[p := k[p] + [child]]
    ensures forall x :: x in parentless - {child} ==> x in sg.nodes && sg.nodes[x].parent == None
  {
    ghost var before := sg.nodes;
    sg.SetParent(child, Some(p));
    AttachParentless(before, sg.nodes, child, p, k, parentless);
  }

  /** The four parentless, childless nodes that `test_get_descendants` adds. */
  method FourNodes() returns (sg: SceneGraph, r: Entity, c1: Entity, c2: Entity, g: Entity)
    ensures fresh(sg) && sg.Valid()
    ensures r != c1 && r != c2 && r != g && c1 != c2 && c1 != g && c2 != g
    ensures Kids(sg.nodes) == map[r := [], c1 := [], c2 := [], g := []]
    ensures forall x :: x in {c1, c2, g} ==> x in sg.nodes && sg.nodes[x].parent == None
  {
    sg := new SceneGraph();
    r, c1, c2, g := Entity(0, 0), Entity(1, 0), Entity(2, 0), Entity(3, 0);
    sg.AddNode(r, "Root");
    sg.AddNode(c1, "Child1");
    sg.AddNode(c2, "Child2");
    sg.AddNode(g, "Grandchild");
    assert Kids(sg.nodes) == map[r := [], c1 := [], c2 := [], g := []];
  }

  /** The scene of `test_get_descendants`: `child1` and `child2` put under the
      root and `grandchild` under `child1`. */
  method FamilyScene() returns (sg: SceneGraph, r: Entity, c1: Entity, c2: Entity, g: Entity)
    ensures fresh(sg) && sg.Valid()
    ensures r != c1 && r != c2 && r != g && c1 != c2 && c1 != g && c2 != g
    ensures Kids(sg.nodes) == map[r := [c1, c2], c1 := [g], c2 := [], g := []]
  {
    sg, r, c1, c2, g := FourNodes();
    ghost var k0: map<Entity, seq<Entity>> := map[r := [], c1 := [], c2 := [], g := []];
    AttachParentlessIn(sg, c1, r, k0, {c1, c2, g});
    ghost var k1 := k0[r := k0[r] + [c1]];
    AttachParentlessIn(sg, c2, r, k1, {c2, g});
    ghost var k2 := k1[r := k1[r] + [c2]];
    AttachParentlessIn(sg, g, c1, k2, {g});
    assert k2[c1] + [g] == [g] && k2[r] == [c1, c2];
  }

  /** `test_get_descendants`: the root's descendants are child, grandchild,
      child in pre-order. */
  method DescendantsScenario()
  {
    var sg, r, c1, c2, g := FamilyScene();
    FamilyDescendants(Kids(sg.nodes), r, c1, c2, g);
    var descendants := sg.GetDescendants(r, FamilyRank(r, c1, c2, g));
    assert descendants == [c1, g, c2];
  }
}
