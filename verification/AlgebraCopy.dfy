/** Copying a linked algebra graph with one changed node, by a worklist that moves from the leaves
    upwards along the links. */
module AlgebraCopy {
  import opened Sql
  import opened AlgebraDag

  // ----- paths along the links -----

  /** The links stay within the nodes and lead upwards. */
  ghost predicate Upward(nodes: set<RelNode>, top: nat)
    reads nodes
  {
    forall n :: n in nodes ==>
      n.height <= top && forall p :: p in n.Receivers() ==> p in nodes && n.height < p.height
  }

  /** How often the worklist will pop nodes once `n` is on it: the number of paths upwards from `n`. */
  ghost function PathCount(nodes: set<RelNode>, top: nat, n: RelNode): nat
    requires Upward(nodes, top) && n in nodes
    reads nodes
    decreases top - n.height, 1, 0
  {
    1 + (if n.parent == null then 0 else PathCount(nodes, top, n.parent))
      + PathSum(nodes, top, n.height, n.sidewaysPass)
  }

  ghost function PathSum(nodes: set<RelNode>, top: nat, floor: nat, ns: set<RelNode>): nat
    requires Upward(nodes, top) && ns <= nodes && floor <= top && forall n :: n in ns ==> floor < n.height
    reads nodes
    decreases top - floor, 0, |ns|
  {
    if ns == {} then 0
    else
      var n :| n in ns;
      PathCount(nodes, top, n) + PathSum(nodes, top, floor, ns - {n})
  }

  ghost function PathTotal(nodes: set<RelNode>, top: nat, ns: seq<RelNode>): nat
    requires Upward(nodes, top) && forall n :: n in ns ==> n in nodes
    reads nodes
  {
    if ns == [] then 0 else PathCount(nodes, top, ns[0]) + PathTotal(nodes, top, ns[1..])
  }

  lemma {:induction false} PathSumRemove(nodes: set<RelNode>, top: nat, floor: nat, ns: set<RelNode>, n: RelNode)
    requires Upward(nodes, top) && ns <= nodes && floor <= top && forall m :: m in ns ==> floor < m.height
    requires n in ns
    ensures PathSum(nodes, top, floor, ns)
         == PathCount(nodes, top, n) + PathSum(nodes, top, floor, ns - {n})
    decreases |ns|
  {
    var m :| m in ns &&
      PathSum(nodes, top, floor, ns) == PathCount(nodes, top, m) + PathSum(nodes, top, floor, ns - {m});
    if m != n {
      PathSumRemove(nodes, top, floor, ns - {m}, n);
      PathSumRemove(nodes, top, floor, ns - {n}, m);
      assert ns - {m} - {n} == ns - {n} - {m};
    }
  }

  lemma {:induction false} PathTotalAppend(nodes: set<RelNode>, top: nat, a: seq<RelNode>, b: seq<RelNode>)
    requires Upward(nodes, top) && (forall n :: n in a ==> n in nodes) && forall n :: n in b ==> n in nodes
    ensures PathTotal(nodes, top, a + b) == PathTotal(nodes, top, a) + PathTotal(nodes, top, b)
  {
    if a == [] {
      assert a + b == b;
    } else {
      assert (a + b)[1..] == a[1..] + b;
      PathTotalAppend(nodes, top, a[1..], b);
    }
  }

  lemma {:induction false} PathTotalPop(nodes: set<RelNode>, top: nat, ns: seq<RelNode>)
    requires Upward(nodes, top) && (forall n :: n in ns ==> n in nodes) && ns != []
    ensures PathTotal(nodes, top, ns) == PathCount(nodes, top, ns[0]) + PathTotal(nodes, top, ns[1..])
  {}

  ghost predicate Enumerates(list: seq<RelNode>, ns: set<RelNode>) {
    && (forall n :: n in list ==> n in ns)
    && (forall n :: n in ns ==> n in list)
    && forall i, j :: 0 <= i < j < |list| ==> list[i] != list[j]
  }

  lemma {:induction false} PathTotalOfSet(nodes: set<RelNode>, top: nat, floor: nat, list: seq<RelNode>,
      ns: set<RelNode>)
    requires Upward(nodes, top) && ns <= nodes && floor <= top && forall n :: n in ns ==> floor < n.height
    requires Enumerates(list, ns)
    ensures PathTotal(nodes, top, list) == PathSum(nodes, top, floor, ns)
  {
    if list == [] {
      assert ns == {};
    } else {
      assert list[0] in ns;
      var rest := ns - {list[0]};
      assert Enumerates(list[1..], rest) by {
        forall n ensures n in list[1..] <==> n in rest {
          if n in rest {
            var i :| 0 <= i < |list| && list[i] == n;
            assert list[1..][i - 1] == n;
          }
        }
      }
      PathTotalOfSet(nodes, top, floor, list[1..], rest);
      PathSumRemove(nodes, top, floor, ns, list[0]);
    }
  }

  /** Any order of the elements of a set. */
  method ListOf(ns: set<RelNode>) returns (list: seq<RelNode>)
    ensures Enumerates(list, ns)
  {
    list := [];
    var todo := ns;
    while todo != {}
      invariant todo <= ns && Enumerates(list, ns - todo)
    {
      var n :| n in todo;
      todo := todo - {n};
      list := list + [n];
    }
  }

  lemma {:induction false} Enumerated(list: seq<RelNode>, ns: set<RelNode>)
    requires Enumerates(list, ns)
    ensures forall n :: n in list <==> n in ns
  {}

  lemma {:induction false} LinksAreHigher(nodes: set<RelNode>, top: nat, n: RelNode)
    requires Upward(nodes, top) && n in nodes
    ensures n.height <= top && n.sidewaysPass <= nodes && (n.parent != null ==> n.parent in nodes)
    ensures forall p :: p in n.sidewaysPass ==> n.height < p.height
    ensures forall p :: p in n.Receivers() <==> (n.parent != null && p == n.parent) || p in n.sidewaysPass
  {
    assert n.sidewaysPass <= n.Receivers();
  }

  lemma {:induction false} PathCountSplits(nodes: set<RelNode>, top: nat, n: RelNode, parent: seq<RelNode>)
    requires Upward(nodes, top) && n in nodes && parent == (if n.parent == null then [] else [n.parent])
    ensures PathCount(nodes, top, n)
         == 1 + PathTotal(nodes, top, parent) + PathSum(nodes, top, n.height, n.sidewaysPass)
  {}

  // ----- the worklist -----

  /** The links of all nodes are the inverse of their inputs, and only the root has no parent. */
  ghost predicate WellLinked(nodes: set<RelNode>, root: RelNode)
    reads nodes
  {
    forall n :: n in nodes ==> n.Receivers() == Users(nodes, n) && (n.parent == null <==> n == root)
  }

  lemma {:induction false} WellLinkedIsUpward(nodes: set<RelNode>, root: RelNode)
    requires IsDag(nodes) && root in nodes && nodes == Reach(nodes, root) && WellLinked(nodes, root)
    ensures Upward(nodes, root.height)
  {
    forall n | n in nodes ensures n.height <= root.height {
      ReachLower(nodes, root, n);
    }
  }

  function CollectLeafNodes(n: RelNode, ghost nodes: set<RelNode>): (leaves: set<RelNode>)
    requires IsDag(nodes) && n in nodes
    ensures forall m :: m in leaves ==> m in Reach(nodes, n) && m.children == []
    ensures forall m :: m in Reach(nodes, n) && m.children == [] ==> m in leaves
    decreases n.height, 1
  {
    if n.children == [] then {n} else LeavesOfAll(n, n.children, nodes)
  }

  function LeavesOfAll(n: RelNode, cs: seq<RelNode>, ghost nodes: set<RelNode>): (leaves: set<RelNode>)
    requires IsDag(nodes) && n in nodes && forall c :: c in cs ==> c in n.children
    ensures forall m :: m in leaves ==> m in ReachAll(nodes, n, cs) && m.children == []
    ensures forall m :: m in ReachAll(nodes, n, cs) && m.children == [] ==> m in leaves
    decreases n.height, 0, |cs|
  {
    if cs == [] then {}
    else LeavesOfAll(n, cs[..|cs| - 1], nodes) + CollectLeafNodes(cs[|cs| - 1], nodes)
  }

  /** The operator of the copy of a node: the initiator may get a new one. */
  ghost function CopiedOperator(n: RelNode, initiator: RelNode, newOperator: Option<Operator>): Operator
    reads n
  {
    if n == initiator && newOperator.Some? then newOperator.value else n.operator
  }

  /** `copies` maps nodes to distinct nodes of the same shape. */
  ghost predicate IsCopyMap(copies: map<RelNode, RelNode>) {
    && (forall n, c :: n in copies && c in n.children ==> c in copies)
    && (forall m, n :: m in copies && n in copies && copies[m] == copies[n] ==> m == n)
    && forall n :: n in copies ==> IsCopy(copies, n, copies[n])
  }

  ghost predicate IsCopy(copies: map<RelNode, RelNode>, n: RelNode, copy: RelNode) {
    && copy.height == n.height
    && |copy.children| == |n.children|
    && forall i :: 0 <= i < |n.children| ==> n.children[i] in copies && copy.children[i] == copies[n.children[i]]
  }

  /** Every node in `order` comes once, and after all its inputs. */
  ghost predicate InputsFirst(order: seq<RelNode>) {
    && (forall i, j :: 0 <= i < j < |order| ==> order[i] != order[j])
    && forall i, c :: 0 <= i < |order| && c in order[i].children ==> c in order[..i]
  }

  ghost predicate Ready(copies: map<RelNode, RelNode>, n: RelNode) {
    n !in copies && forall c :: c in n.children ==> c in copies
  }

  lemma {:induction false} CopyHasInputs(copies: map<RelNode, RelNode>, n: RelNode, copy: RelNode)
    requires IsCopy(copies, n, copy)
    ensures forall c :: c in n.children ==> c in copies
  {}

  lemma {:induction false} CopyMapGrows(copies: map<RelNode, RelNode>, n: RelNode, copy: RelNode)
    requires IsCopyMap(copies) && n !in copies && IsCopy(copies, n, copy)
    requires forall m :: m in copies ==> copies[m] != copy
    ensures IsCopyMap(copies[n := copy])
  {
    var grown := copies[n := copy];
    forall m | m in grown ensures IsCopy(grown, m, grown[m]) {
      assert IsCopy(copies, m, grown[m]);
    }
    forall m, c | m in grown && c in m.children ensures c in grown {
      assert IsCopy(copies, m, grown[m]);
    }
  }

  lemma {:induction false} OrderGrows(order: seq<RelNode>, n: RelNode)
    requires InputsFirst(order) && n !in order && forall c :: c in n.children ==> c in order
    ensures InputsFirst(order + [n])
  {
    var grown := order + [n];
    forall i, c | 0 <= i < |grown| && c in grown[i].children ensures c in grown[..i] {
      assert grown[..i] == order[..i];
      assert order[..|order|] == order;
    }
  }

  lemma SomeElement(ns: seq<RelNode>)
    ensures ns == [] || exists n :: n in ns
  {
    if ns != [] {
      assert ns[0] in ns;
    }
  }

  /** A copy can make ready only nodes that its original's links lead to. */
  lemma {:induction false} ReadyShrinks(nodes: set<RelNode>, root: RelNode, copies: map<RelNode, RelNode>,
      n: RelNode, copy: RelNode, m: RelNode)
    requires WellLinked(nodes, root) && n in nodes && m in nodes && Ready(copies[n := copy], m)
    ensures (m != n && Ready(copies, m)) || m in n.Receivers()
  {
    assert n in m.children ==> m in Users(nodes, n);
  }

  /** Every node that is not copied yet lies above, or is, one that could be copied next. */
  lemma {:induction false} SomeReady(nodes: set<RelNode>, copies: map<RelNode, RelNode>, n: RelNode)
    requires IsDag(nodes) && n in nodes && n !in copies
    ensures exists m :: m in nodes && Ready(copies, m)
    decreases n.height
  {
    if !Ready(copies, n) {
      var c :| c in n.children && c !in copies;
      SomeReady(nodes, copies, c);
    }
  }

  ghost function Image(copies: map<RelNode, RelNode>, ns: set<RelNode>): set<RelNode>
    requires ns <= copies.Keys
  {
    set n | n in ns :: copies[n]
  }

  /** The copies have the operators they should have, and no links. */
  ghost predicate Unlinked(copies: map<RelNode, RelNode>, initiator: RelNode, newOperator: Option<Operator>)
    reads copies.Keys, copies.Values
  {
    forall n :: n in copies ==>
      && copies[n].parent == null && copies[n].sidewaysPass == {}
      && copies[n].operator == CopiedOperator(n, initiator, newOperator)
  }

  lemma {:induction false} UnlinkedGrows(copies: map<RelNode, RelNode>, initiator: RelNode,
      newOperator: Option<Operator>,
      n: RelNode, copy: RelNode)
    requires Unlinked(copies, initiator, newOperator) && n !in copies
    requires copy.parent == null && copy.sidewaysPass == {}
    requires copy.operator == CopiedOperator(n, initiator, newOperator)
    ensures Unlinked(copies[n := copy], initiator, newOperator)
    ensures copies[n := copy].Values == copies.Values + {copy}
  {
    var grown := copies[n := copy];
    assert grown[n] == copy;
    forall m | m in copies ensures copies[m] in grown.Values {
      assert grown[m] == copies[m];
    }
  }

  lemma {:induction false} OperatorsOf(copies: map<RelNode, RelNode>, initiator: RelNode, newOperator: Option<Operator>)
    requires Unlinked(copies, initiator, newOperator)
    ensures forall n :: n in copies ==> copies[n].operator == CopiedOperator(n, initiator, newOperator)
  {}

  lemma {:induction false} UnlinkedBelow(copies: map<RelNode, RelNode>, below: map<RelNode, RelNode>,
      initiator: RelNode, newOperator: Option<Operator>)
    requires Unlinked(copies, initiator, newOperator)
    requires forall n :: n in below ==> n in copies && below[n] == copies[n]
    ensures Unlinked(below, initiator, newOperator)
    ensures below.Values <= copies.Values && Image(below, below.Keys) == below.Values
  {}

  lemma {:induction false} ImageOfUsers(copies: map<RelNode, RelNode>, n: RelNode)
    requires IsCopyMap(copies) && n in copies
    ensures Users(Image(copies, copies.Keys), copies[n]) == Image(copies, Users(copies.Keys, n))
  {
    var image := Image(copies, copies.Keys);
    forall q | q in Users(image, copies[n]) ensures q in Image(copies, Users(copies.Keys, n)) {
      var p :| p in copies && copies[p] == q;
      assert IsCopy(copies, p, q);
      var i :| 0 <= i < |q.children| && q.children[i] == copies[n];
      assert p.children[i] == n;
    }
    forall q | q in Image(copies, Users(copies.Keys, n)) ensures q in Users(image, copies[n]) {
      var p :| p in Users(copies.Keys, n) && copies[p] == q;
      assert IsCopy(copies, p, q);
      var i :| 0 <= i < |p.children| && p.children[i] == n;
      assert q.children[i] == copies[n];
    }
  }

  lemma {:induction false} ImageIsDag(copies: map<RelNode, RelNode>, nodes: set<RelNode>)
    requires IsCopyMap(copies) && IsDag(nodes) && copies.Keys <= nodes
    ensures IsDag(Image(copies, copies.Keys))
  {
    var image := Image(copies, copies.Keys);
    forall q, d | q in image && d in q.children ensures d in image && d.height < q.height {
      var p :| p in copies && copies[p] == q;
      assert IsCopy(copies, p, q);
      var i :| 0 <= i < |q.children| && q.children[i] == d;
      var c := p.children[i];
      assert IsCopy(copies, c, copies[c]);
    }
  }

  /** The copy of a node reaches the copies of the nodes it reaches. */
  lemma {:induction false} CopyReaches(copies: map<RelNode, RelNode>, nodes: set<RelNode>, n: RelNode, m: RelNode)
    requires IsCopyMap(copies) && IsDag(nodes) && copies.Keys <= nodes && n in copies && m in Reach(nodes, n)
    requires IsDag(Image(copies, copies.Keys))
    ensures m in copies && copies[m] in Reach(Image(copies, copies.Keys), copies[n])
    decreases n.height
  {
    var image := Image(copies, copies.Keys);
    if m != n {
      ReachAllIsUnion(nodes, n, n.children);
      var c :| c in n.children && m in Reach(nodes, c);
      CopyReaches(copies, nodes, c, m);
      assert IsCopy(copies, n, copies[n]);
      var i :| 0 <= i < |n.children| && n.children[i] == c;
      assert copies[n].children[i] == copies[c];
      assert copies[n] in image;
      ReachAllIsUnion(image, copies[n], copies[n].children);
    }
  }

  lemma {:induction false} CopiesBelow(copies: map<RelNode, RelNode>, nodes: set<RelNode>, n: RelNode, m: RelNode)
    requires IsCopyMap(copies) && IsDag(nodes) && copies.Keys <= nodes && n in copies && m in Reach(nodes, n)
    ensures m in copies
    decreases n.height
  {
    if m != n {
      ReachAllIsUnion(nodes, n, n.children);
      var c :| c in n.children && m in Reach(nodes, c);
      CopiesBelow(copies, nodes, c, m);
    }
  }

  /** The copies of everything below `n` form a graph of their own, with the copy of `n` on top. */
  lemma {:induction false} CopiedGraph(copies: map<RelNode, RelNode>, nodes: set<RelNode>, n: RelNode)
    returns (below: map<RelNode, RelNode>)
    requires IsCopyMap(copies) && IsDag(nodes) && copies.Keys <= nodes && n in copies
    ensures below.Keys == Reach(nodes, n) && IsCopyMap(below)
    ensures forall m :: m in below ==> m in copies && below[m] == copies[m]
    ensures IsDag(Image(below, below.Keys))
    ensures below[n] in Image(below, below.Keys)
    ensures Reach(Image(below, below.Keys), below[n]) == Image(below, below.Keys)
  {
    forall m | m in Reach(nodes, n) ensures m in copies {
      CopiesBelow(copies, nodes, n, m);
    }
    below := map m | m in Reach(nodes, n) :: copies[m];
    forall m | m in below ensures (forall c :: c in m.children ==> c in below) && IsCopy(below, m, below[m]) {
      ReachIsClosed(nodes, n, m);
      assert IsCopy(copies, m, copies[m]);
    }
    ImageIsDag(below, nodes);
    var image := Image(below, below.Keys);
    forall q | q in image ensures q in Reach(image, below[n]) {
      var m :| m in below && below[m] == q;
      CopyReaches(below, nodes, n, m);
    }
  }

  /** The last steps of `make_relalg_copy`: both graphs get their links anew. */
  method RelinkBoth(root: RelNode, updatedRoot: RelNode, ghost nodes: set<RelNode>, ghost copies: map<RelNode, RelNode>)
    requires IsDag(nodes) && root in nodes && nodes == Reach(nodes, root)
    requires IsCopyMap(copies) && IsDag(Image(copies, copies.Keys)) && updatedRoot in Image(copies, copies.Keys)
    requires Reach(Image(copies, copies.Keys), updatedRoot) == Image(copies, copies.Keys)
    requires Image(copies, copies.Keys) !! nodes
    modifies Image(copies, copies.Keys)`parent, Image(copies, copies.Keys)`sidewaysPass
    modifies nodes`parent, nodes`sidewaysPass
    ensures forall n :: n in copies ==>
      && copies[n].Receivers() == Image(copies, Users(copies.Keys, n))
      && (copies[n].parent == null <==> copies[n] == updatedRoot)
    ensures WellLinked(nodes, root)
  {
    hide IsCopyMap;
    hide IsDag;
    hide Reach;
    ghost var image := Image(copies, copies.Keys);
    RebuildLinkage(updatedRoot, image);
    RebuildLinkage(root, nodes);
    forall n | n in copies
      ensures copies[n] in image && Users(image, copies[n]) == Image(copies, Users(copies.Keys, n))
    {
      ImageOfUsers(copies, n);
    }
  }

  class RelNodeUpdateManager {
    const root: RelNode
    const initiator: RelNode
    var updatedNodes: map<RelNode, RelNode>
    var nodeWorkingSet: seq<RelNode>

    constructor (root: RelNode, initiator: RelNode, ghost nodes: set<RelNode>)
      requires IsDag(nodes) && root in nodes && nodes == Reach(nodes, root)
      ensures this.root == root && this.initiator == initiator && updatedNodes == map[]
      ensures Enumerates(nodeWorkingSet, set n | n in nodes && n.children == [])
    {
      this.root := root;
      this.initiator := initiator;
      updatedNodes := map[];
      nodeWorkingSet := [];
      new;
      var leaves := CollectLeafNodes(root, nodes);
      nodeWorkingSet := ListOf(leaves);
      assert leaves == set n | n in nodes && n.children == [];
    }

    /** `_update_node_working_set`: the nodes that receive the output of `n` join the worklist. */
    method UpdateNodeWorkingSet(n: RelNode, ghost nodes: set<RelNode>, ghost top: nat)
      requires Upward(nodes, top) && n in nodes && forall m :: m in nodeWorkingSet ==> m in nodes
      modifies this`nodeWorkingSet
      ensures forall m :: m in nodeWorkingSet ==> m in nodes
      ensures forall m :: m in old(nodeWorkingSet) || m in n.Receivers() ==> m in nodeWorkingSet
      ensures PathTotal(nodes, top, nodeWorkingSet) + 1
           == PathTotal(nodes, top, old(nodeWorkingSet)) + PathCount(nodes, top, n)
    {
      hide *;
      LinksAreHigher(nodes, top, n);
      var start := nodeWorkingSet;
      ghost var parent: seq<RelNode> := if n.parent == null then [] else [n.parent];
      if n.parent != null {
        nodeWorkingSet := nodeWorkingSet + [n.parent];
      }
      var sideways := ListOf(n.sidewaysPass);
      Enumerated(sideways, n.sidewaysPass);
      nodeWorkingSet := nodeWorkingSet + sideways;
      assert nodeWorkingSet == start + (parent + sideways);
      LinksAreHigher(nodes, top, n);
      PathTotalAppend(nodes, top, start, parent + sideways);
      PathTotalAppend(nodes, top, parent, sideways);
      PathTotalOfSet(nodes, top, n.height, sideways, n.sidewaysPass);
      PathCountSplits(nodes, top, n, parent);
    }

    /** A copy of `n` over the copies of its inputs; the initiator gets its new operator. */
    method CloneNode(n: RelNode, newOperator: Option<Operator>) returns (copy: RelNode)
      requires forall c :: c in n.children ==> c in updatedNodes
      ensures fresh(copy) && copy.parent == null && copy.sidewaysPass == {}
      ensures copy.operator == CopiedOperator(n, initiator, newOperator)
      ensures IsCopy(updatedNodes, n, copy)
    {
      var copies := updatedNodes;
      var inputs := seq(|n.children|, i requires 0 <= i < |n.children| => copies[n.children[i]]);
      copy := new RelNode(n.operator, inputs, n.height);
      if n == initiator && newOperator.Some? {
        copy.operator := newOperator.value;
      }
    }

    /** What holds during the loop of `make_relalg_copy`: the copies so far are complete below, and every node
        that could be copied next is on the worklist or in `pending`. */
    ghost predicate Progress(nodes: set<RelNode>, newOperator: Option<Operator>, order: seq<RelNode>,
        pending: set<RelNode>)
      reads this, nodes, updatedNodes.Keys, updatedNodes.Values
    {
      && Upward(nodes, root.height) && WellLinked(nodes, root)
      && (forall n :: n in nodeWorkingSet ==> n in nodes)
      && updatedNodes.Keys <= nodes && IsCopyMap(updatedNodes) && Unlinked(updatedNodes, initiator, newOperator)
      && (forall n :: n in nodes && Ready(updatedNodes, n) ==> n in nodeWorkingSet || n in pending)
      && InputsFirst(order)
      && (forall n :: n in order ==> n in updatedNodes)
      && forall n :: n in updatedNodes ==> n in order
    }

    /** How many turns of the loop are left. */
    ghost function TurnsLeft(nodes: set<RelNode>): nat
      requires Upward(nodes, root.height) && forall n :: n in nodeWorkingSet ==> n in nodes
      reads this, nodes
    {
      PathTotal(nodes, root.height, nodeWorkingSet)
    }

    /** The start of a turn: the first node leaves the worklist and the nodes it feeds join it. */
    method PopNode(ghost nodes: set<RelNode>, newOperator: Option<Operator>, ghost order: seq<RelNode>)
      returns (currentNode: RelNode)
      requires nodeWorkingSet != [] && Progress(nodes, newOperator, order, {})
      modifies this`nodeWorkingSet
      ensures currentNode in nodes && Progress(nodes, newOperator, order, {currentNode})
      ensures forall n :: n in currentNode.Receivers() ==> n in nodeWorkingSet
      ensures TurnsLeft(nodes) + 1 == old(TurnsLeft(nodes))
    {
      hide PathCount;
      hide PathTotal;
      hide IsCopyMap;
      hide Unlinked;
      hide InputsFirst;
      hide WellLinked;
      hide Ready;
      hide Upward;
      hide PathSum;
      hide IsDag;
      hide Reach;
      currentNode := nodeWorkingSet[0];
      PathTotalPop(nodes, root.height, nodeWorkingSet);
      assert forall n :: n in nodeWorkingSet ==> n == currentNode || n in nodeWorkingSet[1..];
      nodeWorkingSet := nodeWorkingSet[1..];
      UpdateNodeWorkingSet(currentNode, nodes, root.height);
    }

    /** The end of a turn: the copy of `n` enters the map. */
    method Record(n: RelNode, copy: RelNode, ghost nodes: set<RelNode>, newOperator: Option<Operator>,
        ghost order: seq<RelNode>)
      requires n in nodes && Progress(nodes, newOperator, order, {n}) && n !in updatedNodes
      requires forall m :: m in n.Receivers() ==> m in nodeWorkingSet
      requires IsCopy(updatedNodes, n, copy) && copy !in updatedNodes.Values
      requires copy.parent == null && copy.sidewaysPass == {}
      requires copy.operator == CopiedOperator(n, initiator, newOperator)
      modifies this`updatedNodes
      ensures updatedNodes == old(updatedNodes)[n := copy]
      ensures updatedNodes.Values == old(updatedNodes.Values) + {copy}
      ensures Progress(nodes, newOperator, order + [n], {})
    {
      hide IsCopyMap;
      hide IsCopy;
      hide Unlinked;
      hide InputsFirst;
      hide WellLinked;
      hide Upward;
      hide Ready;
      CopyHasInputs(updatedNodes, n, copy);
      CopyMapGrows(updatedNodes, n, copy);
      OrderGrows(order, n);
      UnlinkedGrows(updatedNodes, initiator, newOperator, n, copy);
      forall m | m in nodes && Ready(updatedNodes[n := copy], m) ensures m in nodeWorkingSet {
        ReadyShrinks(nodes, root, updatedNodes, n, copy, m);
      }
      updatedNodes := updatedNodes[n := copy];
    }

    /** The loop of `make_relalg_copy`. Without `asRoot` it ends after exactly as many pops as there are upward
        paths from the leaves, with one copy per node, each made after the copies of its inputs. With `asRoot`
        it stops at the copy of the initiator. */
    method CopyNodes(asRoot: bool, newOperator: Option<Operator>, ghost nodes: set<RelNode>)
      returns (updatedRoot: RelNode, updatedInitiator: RelNode, ghost order: seq<RelNode>, ghost pops: nat)
      requires IsDag(nodes) && root in nodes && initiator in nodes && updatedNodes == map[]
      requires Progress(nodes, newOperator, [], {})
      modifies this
      ensures fresh(updatedNodes.Values)
      ensures Progress(nodes, newOperator, order, if asRoot then {initiator} else {})
      ensures !asRoot ==>
        && updatedNodes.Keys == nodes && pops == old(TurnsLeft(nodes))
        && updatedRoot == updatedNodes[root] && updatedInitiator == updatedNodes[initiator]
      ensures asRoot ==>
        && initiator !in updatedNodes && updatedRoot == updatedInitiator && updatedRoot !in updatedNodes.Values
        && fresh(updatedRoot) && updatedRoot.parent == null && updatedRoot.sidewaysPass == {}
        && updatedRoot.operator == CopiedOperator(initiator, initiator, newOperator)
        && IsCopy(updatedNodes, initiator, updatedRoot)
    {
      hide PathCount;
      hide PathSum;
      hide Reach;
      hide IsCopyMap;
      hide IsCopy;
      hide Unlinked;
      hide InputsFirst;
      hide WellLinked;
      hide Upward;
      hide IsDag;
      updatedRoot, updatedInitiator := root, initiator;
      order, pops := [], 0;
      while nodeWorkingSet != []
        invariant Progress(nodes, newOperator, order, {}) && fresh(updatedNodes.Values)
        invariant pops + TurnsLeft(nodes) == old(TurnsLeft(nodes))
        invariant asRoot ==> initiator !in updatedNodes
        invariant !asRoot && root in updatedNodes ==> updatedRoot == updatedNodes[root]
        invariant !asRoot && initiator in updatedNodes ==> updatedInitiator == updatedNodes[initiator]
        decreases TurnsLeft(nodes)
      {
        var currentNode := PopNode(nodes, newOperator, order);
        pops := pops + 1;
        var alreadyUpdated := currentNode in updatedNodes;
        var pendingChildUpdate := exists child :: child in currentNode.children && child !in updatedNodes;
        if alreadyUpdated || pendingChildUpdate {
          continue;
        }
        var updatedNode := CloneNode(currentNode, newOperator);
        if currentNode == initiator {
          updatedInitiator := updatedNode;
          if asRoot {
            updatedRoot := updatedNode;
            return;
          }
        }
        Record(currentNode, updatedNode, nodes, newOperator, order);
        order := order + [currentNode];
        if !asRoot && currentNode == root {
          updatedRoot := updatedNode;
        }
      }
      if n :| n in nodes && n !in updatedNodes {
        SomeReady(nodes, updatedNodes, n);
      }
    }

    lemma {:induction false} StartOfCopying(nodes: set<RelNode>, newOperator: Option<Operator>)
      requires IsDag(nodes) && root in nodes && nodes == Reach(nodes, root) && WellLinked(nodes, root)
      requires updatedNodes == map[] && Enumerates(nodeWorkingSet, set n | n in nodes && n.children == [])
      ensures Progress(nodes, newOperator, [], {})
    {
      WellLinkedIsUpward(nodes, root);
      forall n | n in nodes && Ready(updatedNodes, n) ensures n in nodeWorkingSet {
        SomeElement(n.children);
      }
    }

    /** The copies that make up the new graph, before it gets its links. */
    method CopyGraph(asRoot: bool, newOperator: Option<Operator>, ghost nodes: set<RelNode>)
      returns (updatedRoot: RelNode, updatedInitiator: RelNode, ghost copies: map<RelNode, RelNode>)
      requires IsDag(nodes) && root in nodes && nodes == Reach(nodes, root) && initiator in nodes
      requires Progress(nodes, newOperator, [], {}) && updatedNodes == map[]
      modifies this
      ensures copies.Keys == Reach(nodes, if asRoot then initiator else root)
      ensures initiator in copies && updatedInitiator == copies[initiator]
      ensures updatedRoot == if asRoot then updatedInitiator else copies[root]
      ensures IsCopyMap(copies) && fresh(Image(copies, copies.Keys)) && Unlinked(copies, initiator, newOperator)
      ensures IsDag(Image(copies, copies.Keys)) && updatedRoot in Image(copies, copies.Keys)
      ensures Reach(Image(copies, copies.Keys), updatedRoot) == Image(copies, copies.Keys)
    {
      hide IsCopyMap;
      hide IsCopy;
      hide InputsFirst;
      hide IsDag;
      hide Unlinked;
      hide Upward;
      hide WellLinked;
      ghost var order, pops;
      updatedRoot, updatedInitiator, order, pops := CopyNodes(asRoot, newOperator, nodes);
      ghost var all := updatedNodes;
      if asRoot {
        CopyMapGrows(updatedNodes, initiator, updatedRoot);
        UnlinkedGrows(updatedNodes, initiator, newOperator, initiator, updatedRoot);
        all := all[initiator := updatedRoot];
      }
      copies := CopiedGraph(all, nodes, if asRoot then initiator else root);
      UnlinkedBelow(all, copies, initiator, newOperator);
    }

    /** `make_relalg_copy`: a new graph of the same shape, shared inputs included, in which only the initiator
        may have another operator. The links of both graphs are the inverse of their inputs. */
    method MakeRelalgCopy(asRoot: bool, newOperator: Option<Operator>, ghost nodes: set<RelNode>)
      returns (updatedRoot: RelNode, updatedInitiator: RelNode, ghost copies: map<RelNode, RelNode>)
      requires IsDag(nodes) && root in nodes && nodes == Reach(nodes, root) && initiator in nodes
      requires WellLinked(nodes, root) && updatedNodes == map[]
      requires Enumerates(nodeWorkingSet, set n | n in nodes && n.children == [])
      modifies this, nodes`parent, nodes`sidewaysPass
      ensures copies.Keys == Reach(nodes, if asRoot then initiator else root)
      ensures initiator in copies && updatedInitiator == copies[initiator]
      ensures updatedRoot == if asRoot then updatedInitiator else copies[root]
      ensures IsCopyMap(copies) && fresh(Image(copies, copies.Keys))
      ensures forall n :: n in copies && n != initiator ==> copies[n].operator == old(n.operator)
      ensures newOperator.Some? ==> updatedInitiator.operator == newOperator.value
      ensures newOperator.None? ==> updatedInitiator.operator == old(initiator.operator)
      ensures forall n :: n in copies ==>
        && copies[n].Receivers() == Image(copies, Users(copies.Keys, n))
        && (copies[n].parent == null <==> copies[n] == updatedRoot)
      ensures WellLinked(nodes, root)
    {
      hide IsCopyMap;
      hide IsDag;
      hide Reach;
      hide Unlinked;
      hide WellLinked;
      hide Progress;
      StartOfCopying(nodes, newOperator);
      updatedRoot, updatedInitiator, copies := CopyGraph(asRoot, newOperator, nodes);
      OperatorsOf(copies, initiator, newOperator);
      RelinkBoth(root, updatedRoot, nodes, copies);
    }
  }
}
