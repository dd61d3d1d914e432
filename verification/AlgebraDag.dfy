/** Relational algebra nodes as linked objects: a node may be an input of several nodes, and every node
    knows the nodes it feeds through its parent link and its sideways links. */
module AlgebraDag {
  import opened Sql

  /** What a node does, apart from its inputs. */
  type Operator = string

  class RelNode {
    var operator: Operator
    const children: seq<RelNode>
    var parent: RelNode?
    var sidewaysPass: set<RelNode>
    /** Inputs are created before the nodes that use them. */
    ghost const height: nat

    /** A copy of a node's operator over the given inputs, with no links yet. */
    constructor (operator: Operator, children: seq<RelNode>, ghost height: nat)
      ensures this.operator == operator && this.children == children && this.height == height
      ensures parent == null && sidewaysPass == {}
    {
      this.operator := operator;
      this.children := children;
      this.height := height;
      parent := null;
      sidewaysPass := {};
    }

    /** The nodes that receive the output of this node, according to its links. */
    ghost function Receivers(): set<RelNode>
      reads this
    {
      (if parent == null then {} else {parent}) + sidewaysPass
    }

    ghost predicate Linked()
      reads this
    {
      parent == null ==> sidewaysPass == {}
    }
  }

  // ----- graphs -----

  /** A set of nodes that contains the inputs of its nodes, without cycles. */
  ghost predicate IsDag(nodes: set<RelNode>) {
    forall n, c :: n in nodes && c in n.children ==> c in nodes && c.height < n.height
  }

  /** The nodes below `n`, with `n` itself. */
  ghost function Reach(nodes: set<RelNode>, n: RelNode): (r: set<RelNode>)
    requires IsDag(nodes) && n in nodes
    ensures r <= nodes && n in r
    decreases n.height, 1
  {
    {n} + ReachAll(nodes, n, n.children)
  }

  ghost function ReachAll(nodes: set<RelNode>, n: RelNode, cs: seq<RelNode>): (r: set<RelNode>)
    requires IsDag(nodes) && n in nodes && forall c :: c in cs ==> c in n.children
    ensures r <= nodes
    decreases n.height, 0, |cs|
  {
    if cs == [] then {} else ReachAll(nodes, n, cs[..|cs| - 1]) + Reach(nodes, cs[|cs| - 1])
  }

  /** The nodes of a set that have `n` as an input. */
  ghost function Users(nodes: set<RelNode>, n: RelNode): set<RelNode> {
    set p | p in nodes && n in p.children
  }

  lemma {:induction false} ReachAllStep(nodes: set<RelNode>, n: RelNode, i: nat)
    requires IsDag(nodes) && n in nodes && i < |n.children|
    ensures ReachAll(nodes, n, n.children[..i + 1]) == ReachAll(nodes, n, n.children[..i]) + Reach(nodes, n.children[i])
  {
    assert n.children[..i + 1][..i] == n.children[..i];
  }

  lemma {:induction false} ReachAllIsUnion(nodes: set<RelNode>, n: RelNode, cs: seq<RelNode>)
    requires IsDag(nodes) && n in nodes && forall c :: c in cs ==> c in n.children
    ensures forall m :: m in ReachAll(nodes, n, cs) <==> exists c :: c in cs && m in Reach(nodes, c)
  {
    if cs != [] {
      var front, last := cs[..|cs| - 1], cs[|cs| - 1];
      ReachAllIsUnion(nodes, n, front);
      assert forall c :: c in cs <==> c in front || c == last;
    }
  }

  lemma {:induction false} ReachLower(nodes: set<RelNode>, n: RelNode, m: RelNode)
    requires IsDag(nodes) && n in nodes && m in Reach(nodes, n)
    ensures m == n || m.height < n.height
    decreases n.height
  {
    if m != n {
      ReachAllIsUnion(nodes, n, n.children);
      var c :| c in n.children && m in Reach(nodes, c);
      ReachLower(nodes, c, m);
    }
  }

  /** Below a node, everything but the node itself is an input of a node below it. */
  lemma {:induction false} ReachHasUser(nodes: set<RelNode>, n: RelNode, m: RelNode)
    requires IsDag(nodes) && n in nodes && m in Reach(nodes, n)
    ensures Users(Reach(nodes, n), m) == {} <==> m == n
    decreases n.height
  {
    ReachAllIsUnion(nodes, n, n.children);
    if m != n {
      var c :| c in n.children && m in Reach(nodes, c);
      ReachHasUser(nodes, c, m);
      if m == c {
        assert n in Users(Reach(nodes, n), m);
      } else {
        var p :| p in Users(Reach(nodes, c), m);
        assert p in Users(Reach(nodes, n), m);
      }
    } else {
      forall p | p in Reach(nodes, n) ensures n !in p.children {
        ReachLower(nodes, n, p);
      }
    }
  }

  lemma {:induction false} ReachIsClosed(nodes: set<RelNode>, n: RelNode, m: RelNode)
    requires IsDag(nodes) && n in nodes && m in Reach(nodes, n)
    ensures forall c :: c in m.children ==> c in Reach(nodes, n)
    decreases n.height
  {
    ReachAllIsUnion(nodes, n, n.children);
    if m != n {
      var c :| c in n.children && m in Reach(nodes, c);
      ReachIsClosed(nodes, c, m);
    } else {
      forall c | c in n.children ensures c in Reach(nodes, n) {
        assert c in Reach(nodes, c);
      }
    }
  }

  // ----- linkage -----

  /** `_clear_parent_links`: no node below `n` has a link any more. */
  method ClearParentLinks(n: RelNode, ghost nodes: set<RelNode>)
    requires IsDag(nodes) && n in nodes
    modifies nodes`parent, nodes`sidewaysPass
    ensures forall m :: m in nodes ==>
      if m in Reach(nodes, n) then m.parent == null && m.sidewaysPass == {}
      else m.parent == old(m.parent) && m.sidewaysPass == old(m.sidewaysPass)
    decreases n.height
  {
    n.parent := null;
    n.sidewaysPass := {};
    ghost var done := {n};
    for i := 0 to |n.children|
      invariant done == {n} + ReachAll(nodes, n, n.children[..i])
      invariant forall m :: m in nodes ==>
        if m in done then m.parent == null && m.sidewaysPass == {}
        else m.parent == old(m.parent) && m.sidewaysPass == old(m.sidewaysPass)
    {
      ClearParentLinks(n.children[i], nodes);
      ReachAllStep(nodes, n, i);
      done := done + Reach(nodes, n.children[i]);
    }
    assert n.children[..|n.children|] == n.children;
  }

  /** `_maintain_child_links` without recursion: `n` becomes a receiver of its inputs. */
  method LinkChildren(n: RelNode, ghost nodes: set<RelNode>)
    requires IsDag(nodes) && n in nodes && forall m :: m in nodes ==> m.Linked()
    modifies nodes`parent, nodes`sidewaysPass
    ensures forall m :: m in nodes ==>
      m.Linked() && m.Receivers() == old(m.Receivers()) + (if m in n.children then {n} else {})
  {
    assert forall c :: c in n.children ==> c in nodes;
    hide IsDag;
    for i := 0 to |n.children|
      invariant forall m :: m in nodes ==>
        m.Linked() && m.Receivers() == old(m.Receivers()) + (if m in n.children[..i] then {n} else {})
    {
      var child := n.children[i];
      assert n.children[..i + 1] == n.children[..i] + [child];
      if child.parent == null {
        child.parent := n;
      } else {
        child.sidewaysPass := child.sidewaysPass + {n};
      }
    }
    assert n.children[..|n.children|] == n.children;
  }

  /** `_maintain_child_links` with recursion: every node below `n` becomes a receiver of its inputs, and
      links are only added. */
  method MaintainChildLinks(n: RelNode, ghost nodes: set<RelNode>)
    requires IsDag(nodes) && n in nodes && forall m :: m in nodes ==> m.Linked()
    modifies nodes`parent, nodes`sidewaysPass
    ensures forall m :: m in nodes ==>
      m.Linked() && m.Receivers() == old(m.Receivers()) + Users(Reach(nodes, n), m)
    decreases n.height
  {
    LinkChildren(n, nodes);
    ghost var done := {n};
    for i := 0 to |n.children|
      invariant done == {n} + ReachAll(nodes, n, n.children[..i])
      invariant forall m :: m in nodes ==>
        m.Linked() && m.Receivers() == old(m.Receivers()) + Users(done, m)
    {
      MaintainChildLinks(n.children[i], nodes);
      ReachAllStep(nodes, n, i);
      forall m: RelNode ensures Users(done + Reach(nodes, n.children[i]), m)
                             == Users(done, m) + Users(Reach(nodes, n.children[i]), m) {}
      done := done + Reach(nodes, n.children[i]);
    }
    assert n.children[..|n.children|] == n.children;
  }

  /** `_rebuild_linkage`: below `n`, the links say exactly which nodes below `n` use a node's output, whatever
      stale links there were; only `n` itself has no parent. */
  method RebuildLinkage(n: RelNode, ghost nodes: set<RelNode>)
    requires IsDag(nodes) && n in nodes && nodes == Reach(nodes, n)
    modifies nodes`parent, nodes`sidewaysPass
    ensures forall m :: m in nodes ==> m.Receivers() == Users(nodes, m) && (m.parent == null <==> m == n)
  {
    ClearParentLinks(n, nodes);
    MaintainChildLinks(n, nodes);
    forall m | m in nodes ensures m.Receivers() == Users(nodes, m) && (m.parent == null <==> m == n) {
      ReachHasUser(nodes, n, m);
    }
  }
}
