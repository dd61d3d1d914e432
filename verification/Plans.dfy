/** Query plans, join trees and the cardinalities that are read off them. */
module Plans {
  import opened Sql

  datatype Kind = ScanOperator | JoinOperator | Auxiliary

  /** A cardinality can be unknown or prohibitively large. */
  datatype Cardinality = Unknown | Infinite | Rows(n: nat)

  /** `mentioned` are the tables of the filter predicate and of the lookup key. */
  datatype PlanParams = PlanParams(baseTable: Option<Table>, mentioned: set<Table>, workers: nat)

  datatype QueryPlan = QueryPlan(
    nodeType: string, kind: Kind, children: seq<QueryPlan>, params: PlanParams,
    estimated: Cardinality, actual: Cardinality, subplan: Option<Subplan>)

  datatype Subplan = Subplan(root: QueryPlan, target: Option<Table>)

  /** Where cardinalities come from: estimates, measurements, or measurements backed by estimates. */
  datatype Source = Estimates | Measured | MeasuredOrEstimated

  datatype JoinTree =
    | Empty
    | Scan(table: Table, annotation: Cardinality)
    | Join(outer: JoinTree, inner: JoinTree, annotation: Cardinality)

  function OptionTable(t: Option<Table>): set<Table> { if t.None? then {} else {t.value} }

  // ----- plans -----

  function OwnTables(p: QueryPlan): set<Table> { OptionTable(p.params.baseTable) + p.params.mentioned }

  function PlanTables(p: QueryPlan): set<Table> {
    OwnTables(p)
    + (set c, t | c in p.children && t in PlanTables(c) :: t)
    + (if p.subplan.None? then {} else PlanTables(p.subplan.value.root) + OptionTable(p.subplan.value.target))
  }

  /** `QueryPlan.lookup`: the needle is searched below a node only if the node has all its tables. */
  function PlanLookup(p: QueryPlan, needle: set<Table>): Option<QueryPlan>
    decreases p, |p.children| + 1
  {
    if needle == PlanTables(p) then Some(p)
    else if !(needle <= PlanTables(p)) then None
    else LookupFrom(p, 0, needle)
  }

  /** The search in the children from the `i`-th on; the first one with a result ends it. */
  function LookupFrom(p: QueryPlan, i: nat, needle: set<Table>): Option<QueryPlan>
    requires i <= |p.children|
    decreases p, |p.children| - i
  {
    if i == |p.children| then None
    else
      var result := PlanLookup(p.children[i], needle);
      if result.Some? then result else LookupFrom(p, i + 1, needle)
  }

  /** The node, then the nodes below its children, from left to right. */
  function PreOrder(p: QueryPlan): seq<QueryPlan>
    decreases p, |p.children| + 1
  {
    [p] + PreOrderFrom(p, 0)
  }

  function PreOrderFrom(p: QueryPlan, i: nat): seq<QueryPlan>
    requires i <= |p.children|
    decreases p, |p.children| - i
  {
    if i == |p.children| then [] else PreOrder(p.children[i]) + PreOrderFrom(p, i + 1)
  }

  /** `QueryPlan.__iter__`, which goes through subplans, too. */
  function Nodes(p: QueryPlan): seq<QueryPlan>
    decreases p, |p.children| + 1
  {
    [p] + NodesFrom(p, 0) + (if p.subplan.None? then [] else Nodes(p.subplan.value.root))
  }

  function NodesFrom(p: QueryPlan, i: nat): seq<QueryPlan>
    requires i <= |p.children|
    decreases p, |p.children| - i
  {
    if i == |p.children| then [] else Nodes(p.children[i]) + NodesFrom(p, i + 1)
  }

  /** Whether a node itself names a table, in its parameters or as the target of its subplan. */
  ghost predicate NamesTable(n: QueryPlan, t: Table) {
    n.params.baseTable == Some(t) || t in n.params.mentioned || (n.subplan.Some? && n.subplan.value.target == Some(t))
  }

  /** The tables of a plan are those that its nodes name, including the nodes of subplans. */
  lemma {:induction false} PlanTablesAreNamed(p: QueryPlan, t: Table)
    ensures t in PlanTables(p) <==> exists n :: n in Nodes(p) && NamesTable(n, t)
    decreases p, |p.children| + 1
  {
    ChildTablesAreNamed(p, 0, t);
    if p.subplan.Some? {
      PlanTablesAreNamed(p.subplan.value.root, t);
    }
    assert Nodes(p) == [p] + NodesFrom(p, 0) + (if p.subplan.None? then [] else Nodes(p.subplan.value.root));
    hide Nodes;
    hide NodesFrom;
    var below := exists c :: c in p.children && t in PlanTables(c);
    var inSubplan := p.subplan.Some? && t in PlanTables(p.subplan.value.root);
    assert t in PlanTables(p) <==> NamesTable(p, t) || below || inSubplan;
    hide PlanTables;
    assert p in Nodes(p);
    var others := if p.subplan.None? then [] else Nodes(p.subplan.value.root);
    assert forall n :: n in Nodes(p) <==> n == p || n in NodesFrom(p, 0) || n in others;
  }

  lemma {:induction false} ChildTablesAreNamed(p: QueryPlan, i: nat, t: Table)
    requires i <= |p.children|
    ensures (exists c :: c in p.children[i..] && t in PlanTables(c)) <==>
      exists n :: n in NodesFrom(p, i) && NamesTable(n, t)
    decreases p, |p.children| - i
  {
    if i < |p.children| {
      PlanTablesAreNamed(p.children[i], t);
      ChildTablesAreNamed(p, i + 1, t);
      assert p.children[i..] == [p.children[i]] + p.children[i + 1..];
      hide PlanTables;
      hide NamesTable;
      assert NodesFrom(p, i) == Nodes(p.children[i]) + NodesFrom(p, i + 1);
      hide Nodes;
      hide NodesFrom;
    }
  }

  predicate NoSubplans(p: QueryPlan) {
    p.subplan.None? && forall c :: c in p.children ==> NoSubplans(c)
  }

  function FirstWith(ps: seq<QueryPlan>, needle: set<Table>): Option<QueryPlan> {
    if ps == [] then None
    else if PlanTables(ps[0]) == needle then Some(ps[0])
    else FirstWith(ps[1..], needle)
  }

  lemma {:induction false} FirstWithAppend(ps: seq<QueryPlan>, qs: seq<QueryPlan>, needle: set<Table>)
    ensures FirstWith(ps + qs, needle) ==
      if FirstWith(ps, needle).Some? then FirstWith(ps, needle) else FirstWith(qs, needle)
  {
    hide PlanTables;
    if ps == [] {
      assert ps + qs == qs;
    } else {
      assert (ps + qs)[1..] == ps[1..] + qs;
      FirstWithAppend(ps[1..], qs, needle);
    }
  }

  lemma {:induction false} TablesGrow(p: QueryPlan, i: nat)
    requires i < |p.children|
    ensures PlanTables(p.children[i]) <= PlanTables(p)
  {
    assert p.children[i] in p.children;
  }

  lemma {:induction false} NothingBelow(p: QueryPlan, needle: set<Table>)
    requires !(needle <= PlanTables(p))
    ensures FirstWith(PreOrder(p), needle).None?
    decreases p, |p.children| + 1
  {
    NothingFrom(p, 0, needle);
    hide PlanTables;
    FirstWithAppend([p], PreOrderFrom(p, 0), needle);
    assert [p][1..] == [];
    hide PreOrderFrom;
  }

  lemma {:induction false} NothingFrom(p: QueryPlan, i: nat, needle: set<Table>)
    requires i <= |p.children| && !(needle <= PlanTables(p))
    ensures FirstWith(PreOrderFrom(p, i), needle).None?
    decreases p, |p.children| - i
  {
    if i < |p.children| {
      TablesGrow(p, i);
      hide PlanTables;
      NothingBelow(p.children[i], needle);
      NothingFrom(p, i + 1, needle);
      FirstWithAppend(PreOrder(p.children[i]), PreOrderFrom(p, i + 1), needle);
      hide PreOrder;
    }
  }

  /** The pruned search finds the first node in pre-order with exactly the given tables. */
  lemma {:induction false} PlanLookupIsFirst(p: QueryPlan, needle: set<Table>)
    ensures PlanLookup(p, needle) == FirstWith(PreOrder(p), needle)
    decreases p, |p.children| + 1
  {
    hide PlanTables;
    if needle == PlanTables(p) {
    } else if !(needle <= PlanTables(p)) {
      NothingBelow(p, needle);
    } else {
      LookupFromIsFirst(p, 0, needle);
      FirstWithAppend([p], PreOrderFrom(p, 0), needle);
      assert [p][1..] == [];
      hide PreOrderFrom;
      hide LookupFrom;
    }
  }

  lemma {:induction false} LookupFromIsFirst(p: QueryPlan, i: nat, needle: set<Table>)
    requires i <= |p.children|
    ensures LookupFrom(p, i, needle) == FirstWith(PreOrderFrom(p, i), needle)
    decreases p, |p.children| - i
  {
    hide PlanTables;
    if i < |p.children| {
      PlanLookupIsFirst(p.children[i], needle);
      LookupFromIsFirst(p, i + 1, needle);
      FirstWithAppend(PreOrder(p.children[i]), PreOrderFrom(p, i + 1), needle);
      hide PreOrder;
      hide PlanLookup;
    }
  }

  lemma {:induction false} IterationIsPreOrder(p: QueryPlan)
    requires NoSubplans(p)
    ensures Nodes(p) == PreOrder(p)
    decreases p, |p.children| + 1
  {
    IterationFrom(p, 0);
  }

  lemma {:induction false} IterationFrom(p: QueryPlan, i: nat)
    requires NoSubplans(p) && i <= |p.children|
    ensures NodesFrom(p, i) == PreOrderFrom(p, i)
    decreases p, |p.children| - i
  {
    if i < |p.children| {
      assert p.children[i] in p.children;
      IterationIsPreOrder(p.children[i]);
      IterationFrom(p, i + 1);
    }
  }

  /** Without subplans this is the order in which a plan iterates over its nodes. */
  lemma {:induction false} PlanLookupIsFirstIterated(p: QueryPlan, needle: set<Table>)
    requires NoSubplans(p)
    ensures PlanLookup(p, needle) == FirstWith(Nodes(p), needle)
  {
    hide *;
    PlanLookupIsFirst(p, needle);
    IterationIsPreOrder(p);
  }

  // ----- canonical plans -----

  /** `QueryPlan.canonical`; Failure stands for the failed assertion that an auxiliary node has one input. */
  function Canonical(p: QueryPlan): Result<QueryPlan>
    decreases p, |p.children| + 1
  {
    var subplan: Option<Subplan> :-
      (match p.subplan
       case None => Success(None)
       case Some(s) =>
         var root :- Canonical(s.root);
         Success(Some(Subplan(root, s.target))));
    if p.kind == ScanOperator then Success(p.(children := [], subplan := subplan))
    else if p.kind == Auxiliary then
      if |p.children| != 1 then Failure else Canonical(p.children[0])
    else
      var children :- CanonicalFirst(p, |p.children|);
      Success(p.(children := children, subplan := subplan))
  }

  /** The first `n` children in canonical form. */
  function CanonicalFirst(p: QueryPlan, n: nat): Result<seq<QueryPlan>>
    requires n <= |p.children|
    decreases p, n
  {
    if n == 0 then Success([])
    else
      var front :- CanonicalFirst(p, n - 1);
      var last :- Canonical(p.children[n - 1]);
      Success(front + [last])
  }

  lemma {:induction false} CanonicalFirstIs(p: QueryPlan, n: nat)
    requires n <= |p.children| && CanonicalFirst(p, n).Success?
    ensures |CanonicalFirst(p, n).value| == n
    ensures forall i :: 0 <= i < n ==> Canonical(p.children[i]) == Success(CanonicalFirst(p, n).value[i])
  {
    if n > 0 {
      CanonicalFirstIs(p, n - 1);
      hide Canonical;
    }
  }

  /** The nodes that canonicalization visits: everything but what is below a scan. */
  ghost function Visited(p: QueryPlan): set<QueryPlan> {
    {p}
    + (if p.kind == ScanOperator then {} else set c, n | c in p.children && n in Visited(c) :: n)
    + (if p.subplan.None? then {} else Visited(p.subplan.value.root))
  }

  ghost predicate SingleInputs(p: QueryPlan) {
    forall n :: n in Visited(p) && n.kind == Auxiliary ==> |n.children| == 1
  }

  lemma {:induction false} SingleInputsBelow(p: QueryPlan)
    ensures SingleInputs(p) <==>
      && (p.kind == Auxiliary ==> |p.children| == 1)
      && (p.kind != ScanOperator ==> forall c :: c in p.children ==> SingleInputs(c))
      && (p.subplan.Some? ==> SingleInputs(p.subplan.value.root))
  {
    assert p in Visited(p);
    if p.kind != ScanOperator {
      assert forall c, n :: c in p.children && n in Visited(c) ==> n in Visited(p);
    }
    if p.subplan.Some? {
      assert forall n :: n in Visited(p.subplan.value.root) ==> n in Visited(p);
    }
  }

  /** A plan has a canonical form iff all auxiliary nodes that are visited have a single input. */
  lemma {:induction false} CanonicalExactly(p: QueryPlan)
    ensures Canonical(p).Success? <==> SingleInputs(p)
    decreases p, |p.children| + 1
  {
    SingleInputsBelow(p);
    hide SingleInputs;
    if p.subplan.Some? {
      CanonicalExactly(p.subplan.value.root);
    }
    if p.kind != ScanOperator {
      forall c | c in p.children ensures Canonical(c).Success? <==> SingleInputs(c) {
        CanonicalExactly(c);
      }
      CanonicalFirstExists(p, |p.children|);
      hide CanonicalFirst;
      assert p.children[..|p.children|] == p.children;
      assert p.kind == Auxiliary && |p.children| == 1 ==> p.children == [p.children[0]];
    }
  }

  ghost predicate AllCanonical(ps: seq<QueryPlan>) { forall c :: c in ps ==> Canonical(c).Success? }

  lemma {:induction false} AllCanonicalAppend(ps: seq<QueryPlan>, p: QueryPlan)
    ensures AllCanonical(ps + [p]) <==> AllCanonical(ps) && Canonical(p).Success?
  {
    hide Canonical;
    assert p in ps + [p] && forall c :: c in ps ==> c in ps + [p];
  }

  lemma {:induction false} CanonicalFirstExists(p: QueryPlan, n: nat)
    requires n <= |p.children|
    ensures CanonicalFirst(p, n).Success? <==> AllCanonical(p.children[..n])
  {
    if n > 0 {
      CanonicalFirstExists(p, n - 1);
      AllCanonicalAppend(p.children[..n - 1], p.children[n - 1]);
      assert p.children[..n] == p.children[..n - 1] + [p.children[n - 1]];
      hide Canonical;
    }
  }

  /** Canonical plans hold scans and joins only, and are canonical already. */
  lemma {:induction false} CanonicalTwice(p: QueryPlan)
    requires Canonical(p).Success?
    ensures Canonical(p).value.kind != Auxiliary
    ensures Canonical(Canonical(p).value) == Canonical(p)
    decreases p, |p.children| + 1
  {
    var c := Canonical(p).value;
    if p.kind == Auxiliary {
      CanonicalTwice(p.children[0]);
    } else {
      if p.subplan.Some? {
        CanonicalTwice(p.subplan.value.root);
      }
      if p.kind == JoinOperator {
        CanonicalFirstIs(p, |p.children|);
        forall i | 0 <= i < |c.children| ensures Canonical(c.children[i]) == Success(c.children[i]) {
          CanonicalTwice(p.children[i]);
        }
        CanonicalChildren(c, |c.children|);
        assert c.children[..|c.children|] == c.children;
      }
    }
  }

  lemma {:induction false} CanonicalChildren(c: QueryPlan, n: nat)
    requires n <= |c.children| && forall i :: 0 <= i < n ==> Canonical(c.children[i]) == Success(c.children[i])
    ensures CanonicalFirst(c, n) == Success(c.children[..n])
  {
    hide Canonical;
    if n > 0 {
      CanonicalChildren(c, n - 1);
      assert c.children[..n] == c.children[..n - 1] + [c.children[n - 1]];
    }
  }

  /** The scans and joins of a plan, from the root down and from left to right; nothing below a scan counts. */
  ghost function CoreNodes(p: QueryPlan): seq<QueryPlan>
    decreases p, |p.children| + 1
  {
    if p.kind == ScanOperator then [p] else (if p.kind == JoinOperator then [p] else []) + CoreFrom(p, 0)
  }

  ghost function CoreFrom(p: QueryPlan, i: nat): seq<QueryPlan>
    requires i <= |p.children|
    decreases p, |p.children| - i
  {
    if i == |p.children| then [] else CoreNodes(p.children[i]) + CoreFrom(p, i + 1)
  }

  /** A node of a canonical plan keeps everything of its original but what is below it. */
  ghost predicate Keeps(c: QueryPlan, n: QueryPlan) {
    && c.nodeType == n.nodeType && c.kind == n.kind && c.params == n.params
    && c.estimated == n.estimated && c.actual == n.actual
    && |c.children| == (if n.kind == ScanOperator then 0 else |n.children|)
    && (n.subplan.None? <==> c.subplan.None?)
    && (n.subplan.Some? ==>
          && c.subplan.value.target == n.subplan.value.target
          && Canonical(n.subplan.value.root) == Success(c.subplan.value.root))
  }

  ghost predicate AllKeep(cs: seq<QueryPlan>, ns: seq<QueryPlan>) {
    |cs| == |ns| && forall i :: 0 <= i < |ns| ==> Keeps(cs[i], ns[i])
  }

  /** The canonical plan has exactly the scans and joins of a plan, in their order and with all they hold. */
  lemma {:induction false} CanonicalKeepsNodes(p: QueryPlan)
    requires Canonical(p).Success?
    ensures AllKeep(CoreNodes(Canonical(p).value), CoreNodes(p))
    decreases p, |p.children| + 1
  {
    var c := Canonical(p).value;
    if p.kind == Auxiliary {
      CanonicalKeepsNodes(p.children[0]);
      assert CoreFrom(p, 1) == [];
      assert CoreFrom(p, 0) == CoreNodes(p.children[0]) + [];
      CanonicalTwice(p);
    } else if p.kind == JoinOperator {
      JoinKeeps(p, c);
      hide Canonical;
      hide Keeps;
      ChildrenKeepNodes(p, c, 0);
      assert CoreNodes(c) == [c] + CoreFrom(c, 0) && CoreNodes(p) == [p] + CoreFrom(p, 0);
      hide CoreNodes;
      hide CoreFrom;
      AllKeepAppend([c], CoreFrom(c, 0), [p], CoreFrom(p, 0));
    }
  }

  lemma {:induction false} JoinKeeps(p: QueryPlan, c: QueryPlan)
    requires p.kind == JoinOperator && Canonical(p) == Success(c)
    ensures Keeps(c, p)
    ensures forall j :: 0 <= j < |p.children| ==> Canonical(p.children[j]) == Success(c.children[j])
  {
    CanonicalFirstIs(p, |p.children|);
  }

  lemma {:induction false} AllKeepAppend(a: seq<QueryPlan>, b: seq<QueryPlan>, x: seq<QueryPlan>, y: seq<QueryPlan>)
    requires AllKeep(a, x) && AllKeep(b, y)
    ensures AllKeep(a + b, x + y)
  {
    hide Keeps;
  }

  lemma {:induction false} ChildrenKeepNodes(p: QueryPlan, c: QueryPlan, i: nat)
    requires i <= |p.children| == |c.children|
    requires forall j :: 0 <= j < |p.children| ==> Canonical(p.children[j]) == Success(c.children[j])
    ensures AllKeep(CoreFrom(c, i), CoreFrom(p, i))
    decreases p, |p.children| - i
  {
    if i < |p.children| {
      CanonicalKeepsNodes(p.children[i]);
      ChildrenKeepNodes(p, c, i + 1);
      hide Canonical;
      hide CoreNodes;
      AllKeepAppend(CoreNodes(c.children[i]), CoreFrom(c, i + 1), CoreNodes(p.children[i]), CoreFrom(p, i + 1));
    }
  }

  // ----- join trees -----

  function CardinalityOf(p: QueryPlan, source: Source): Cardinality {
    match source
    case Estimates => p.estimated
    case Measured => p.actual
    case MeasuredOrEstimated => if p.actual.Rows? then p.actual else p.estimated
  }

  /** `jointree_from_plan`; Failure stands for its failed assertions. */
  function JoinTreeOf(p: QueryPlan, source: Source): Result<JoinTree> {
    if p.kind == ScanOperator then
      if p.params.baseTable.None? then Failure
      else Success(Scan(p.params.baseTable.value, CardinalityOf(p, source)))
    else if p.kind == JoinOperator then
      if |p.children| != 2 then Failure
      else
        var outer :- JoinTreeOf(p.children[0], source);
        var inner :- JoinTreeOf(p.children[1], source);
        Success(Join(outer, inner, CardinalityOf(p, source)))
    else if |p.children| != 1 then Failure
    else JoinTreeOf(p.children[0], source)
  }

  /** `c` is the cardinality of a node that the source asks for. */
  ghost predicate IsReading(n: QueryPlan, source: Source, c: Cardinality) {
    && (source == Estimates ==> c == n.estimated)
    && (source == Measured ==> c == n.actual)
    && (source == MeasuredOrEstimated && n.actual.Rows? ==> c == n.actual)
    && (source == MeasuredOrEstimated && (n.actual.Unknown? || n.actual.Infinite?) ==> c == n.estimated)
  }

  ghost predicate Mirrors(t: JoinTree, n: QueryPlan, source: Source) {
    && !t.Empty? && IsReading(n, source, t.annotation)
    && (n.kind == ScanOperator <==> t.Scan?)
    && (t.Scan? ==> n.params.baseTable == Some(t.table))
  }

  ghost predicate AllMirror(ts: seq<JoinTree>, ns: seq<QueryPlan>, source: Source) {
    |ts| == |ns| && forall i :: 0 <= i < |ns| ==> Mirrors(ts[i], ns[i], source)
  }

  /** The nodes of the join tree are the scans and joins of the plan, in their order and with the cardinalities that
      the source asks for. */
  lemma {:induction false} JoinTreeFollowsPlan(p: QueryPlan, source: Source)
    requires JoinTreeOf(p, source).Success?
    ensures AllMirror(TreeNodes(JoinTreeOf(p, source).value), CoreNodes(p), source)
  {
    var t := JoinTreeOf(p, source).value;
    if p.kind == JoinOperator {
      JoinTreeFollowsPlan(p.children[0], source);
      JoinTreeFollowsPlan(p.children[1], source);
      CoreOfTwo(p);
      assert Mirrors(t, p, source);
      JoinMirrors(t, p, source);
    } else if p.kind == Auxiliary {
      JoinTreeFollowsPlan(p.children[0], source);
      assert CoreFrom(p, 1) == [];
      assert CoreFrom(p, 0) == CoreNodes(p.children[0]) + [];
    }
  }

  lemma {:induction false} JoinMirrors(t: JoinTree, p: QueryPlan, source: Source)
    requires t.Join? && p.kind == JoinOperator && |p.children| == 2 && Mirrors(t, p, source)
    requires AllMirror(TreeNodes(t.outer), CoreNodes(p.children[0]), source)
    requires AllMirror(TreeNodes(t.inner), CoreNodes(p.children[1]), source)
    ensures AllMirror(TreeNodes(t), CoreNodes(p), source)
  {
    CoreOfTwo(p);
    assert TreeNodes(t) == [t] + TreeNodes(t.outer) + TreeNodes(t.inner);
    hide TreeNodes;
    hide Mirrors;
    hide CoreNodes;
  }

  lemma {:induction false} CoreOfTwo(p: QueryPlan)
    requires p.kind == JoinOperator && |p.children| == 2
    ensures CoreNodes(p) == [p] + CoreNodes(p.children[0]) + CoreNodes(p.children[1])
  {
    assert CoreFrom(p, 2) == [];
    assert CoreFrom(p, 1) == CoreNodes(p.children[1]) + [];
    assert CoreFrom(p, 0) == CoreNodes(p.children[0]) + CoreFrom(p, 1);
  }

  /** The nodes that the extraction of a join tree visits. */
  ghost function Above(p: QueryPlan): set<QueryPlan> {
    {p} + if p.kind == ScanOperator then {} else set c, n | c in p.children && n in Above(c) :: n
  }

  /** A node has as many inputs as its kind asks for; scans have a table instead. */
  ghost predicate HasInputs(n: QueryPlan) {
    match n.kind
    case ScanOperator => n.params.baseTable.Some?
    case JoinOperator => |n.children| == 2
    case Auxiliary => |n.children| == 1
  }

  ghost predicate AllHaveInputs(p: QueryPlan) { forall n :: n in Above(p) ==> HasInputs(n) }

  lemma {:induction false} InputsAbove(p: QueryPlan)
    ensures AllHaveInputs(p) <==>
      HasInputs(p) && (p.kind != ScanOperator ==> forall c :: c in p.children ==> AllHaveInputs(c))
  {
    assert p in Above(p);
    if p.kind != ScanOperator {
      assert forall c, n :: c in p.children && n in Above(c) ==> n in Above(p);
    }
  }

  /** A plan has a join tree iff all nodes that are visited have their inputs. */
  lemma {:induction false} JoinTreeExactly(p: QueryPlan, source: Source)
    ensures JoinTreeOf(p, source).Success? <==> AllHaveInputs(p)
  {
    InputsAbove(p);
    hide AllHaveInputs;
    if p.kind != ScanOperator {
      forall c | c in p.children ensures JoinTreeOf(c, source).Success? <==> AllHaveInputs(c) {
        JoinTreeExactly(c, source);
      }
      assert |p.children| == 1 ==> p.children == [p.children[0]];
      assert |p.children| == 2 ==> p.children == [p.children[0], p.children[1]];
    }
  }

  /** Bringing a plan into canonical form does not change its join tree. */
  lemma {:induction false} JoinTreeOfCanonical(p: QueryPlan, source: Source)
    requires Canonical(p).Success?
    ensures JoinTreeOf(Canonical(p).value, source) == JoinTreeOf(p, source)
  {
    if p.kind == Auxiliary {
      JoinTreeOfCanonical(p.children[0], source);
    } else if p.kind == JoinOperator {
      CanonicalFirstIs(p, |p.children|);
      if |p.children| == 2 {
        JoinTreeOfCanonical(p.children[0], source);
        JoinTreeOfCanonical(p.children[1], source);
      }
    }
  }

  /** Without subplans, a plan that has a join tree has a canonical form. */
  lemma {:induction false} JoinTreeMeansCanonical(p: QueryPlan, source: Source)
    requires NoSubplans(p) && JoinTreeOf(p, source).Success?
    ensures Canonical(p).Success?
  {
    if p.kind == Auxiliary {
      JoinTreeMeansCanonical(p.children[0], source);
    } else if p.kind == JoinOperator {
      JoinTreeMeansCanonical(p.children[0], source);
      JoinTreeMeansCanonical(p.children[1], source);
      assert CanonicalFirst(p, 0) == Success([]);
      assert CanonicalFirst(p, 1).Success?;
      assert CanonicalFirst(p, 2).Success?;
    }
  }

  function TreeTables(t: JoinTree): set<Table> {
    match t
    case Empty => {}
    case Scan(table, _) => {table}
    case Join(outer, inner, _) => TreeTables(outer) + TreeTables(inner)
  }

  predicate HasEmpty(t: JoinTree) {
    t.Empty? || (t.Join? && (HasEmpty(t.outer) || HasEmpty(t.inner)))
  }

  /** `JoinTree.iternodes` */
  function TreeNodes(t: JoinTree): seq<JoinTree> {
    match t
    case Empty => []
    case Scan(_, _) => [t]
    case Join(outer, inner, _) => [t] + TreeNodes(outer) + TreeNodes(inner)
  }

  /** `JoinTree.lookup` */
  function TreeLookup(t: JoinTree, needle: set<Table>): Option<JoinTree> {
    if needle == TreeTables(t) then Some(t)
    else if !(needle <= TreeTables(t)) || !t.Join? then None
    else
      var result := TreeLookup(t.outer, needle);
      if result.Some? then result else TreeLookup(t.inner, needle)
  }

  function FirstTree(ts: seq<JoinTree>, needle: set<Table>): Option<JoinTree> {
    if ts == [] then None
    else if TreeTables(ts[0]) == needle then Some(ts[0])
    else FirstTree(ts[1..], needle)
  }

  lemma {:induction false} FirstTreeAppend(ts: seq<JoinTree>, us: seq<JoinTree>, needle: set<Table>)
    ensures FirstTree(ts + us, needle) ==
      if FirstTree(ts, needle).Some? then FirstTree(ts, needle) else FirstTree(us, needle)
  {
    if ts == [] {
      assert ts + us == us;
    } else {
      assert (ts + us)[1..] == ts[1..] + us;
      FirstTreeAppend(ts[1..], us, needle);
    }
  }

  lemma {:induction false} FirstOfJoin(t: JoinTree, needle: set<Table>)
    requires t.Join?
    ensures FirstTree(TreeNodes(t), needle) ==
      if TreeTables(t) == needle then Some(t)
      else if FirstTree(TreeNodes(t.outer), needle).Some? then FirstTree(TreeNodes(t.outer), needle)
      else FirstTree(TreeNodes(t.inner), needle)
  {
    FirstTreeAppend([t] + TreeNodes(t.outer), TreeNodes(t.inner), needle);
    FirstTreeAppend([t], TreeNodes(t.outer), needle);
    assert [t][1..] == [];
  }

  lemma {:induction false} NoTreeBelow(t: JoinTree, needle: set<Table>)
    requires !(needle <= TreeTables(t))
    ensures FirstTree(TreeNodes(t), needle).None?
  {
    if t.Join? {
      NoTreeBelow(t.outer, needle);
      NoTreeBelow(t.inner, needle);
      FirstOfJoin(t, needle);
    } else if t.Scan? {
      assert [t][1..] == [];
    }
  }

  lemma {:induction false} NoEmptyNeedle(t: JoinTree)
    requires !HasEmpty(t)
    ensures TreeTables(t) != {} && FirstTree(TreeNodes(t), {}).None?
  {
    if t.Join? {
      NoEmptyNeedle(t.outer);
      NoEmptyNeedle(t.inner);
      FirstOfJoin(t, {});
    } else {
      assert t.table in TreeTables(t);
      assert [t][1..] == [];
    }
  }

  /** The pruned search finds the first node with the given tables. */
  lemma {:induction false} TreeLookupIsFirst(t: JoinTree, needle: set<Table>)
    requires needle != {} || !HasEmpty(t)
    ensures TreeLookup(t, needle) == FirstTree(TreeNodes(t), needle)
  {
    if needle == {} {
      NoEmptyNeedle(t);
    }
    if t.Join? {
      FirstOfJoin(t, needle);
      TreeLookupIsFirst(t.outer, needle);
      TreeLookupIsFirst(t.inner, needle);
      if !(needle <= TreeTables(t)) {
        NoTreeBelow(t, needle);
      }
    } else if t.Scan? {
      assert [t][1..] == [];
    }
  }

  /** The search for no tables finds an empty part of a join tree, if there is one; iteration skips those. */
  lemma {:induction false} EmptyNeedleFindsEmpty(t: JoinTree)
    ensures TreeLookup(t, {}).Some? <==> HasEmpty(t)
    ensures TreeTables(t) == {} ==> HasEmpty(t)
  {
    if t.Join? {
      EmptyNeedleFindsEmpty(t.outer);
      EmptyNeedleFindsEmpty(t.inner);
    } else if t.Scan? {
      assert t.table in TreeTables(t);
    }
  }

  // ----- parameters -----

  /** What is recorded for some tables, if anything is known. */
  datatype Entry<V> = Entry(tables: set<Table>, value: Option<V>)

  /** Later entries override earlier ones. */
  function Recorded<V>(es: seq<Entry<V>>): map<set<Table>, V> {
    if es == [] then map[]
    else Recorded(es[..|es| - 1]) + Own(es[|es| - 1])
  }

  function Own<V>(e: Entry<V>): map<set<Table>, V> {
    if e.value.None? then map[] else map[e.tables := e.value.value]
  }

  lemma {:induction false} RecordedAppend<V>(es: seq<Entry<V>>, fs: seq<Entry<V>>)
    ensures Recorded(es + fs) == Recorded(es) + Recorded(fs)
  {
    if fs == [] {
      assert es + fs == es;
    } else {
      assert (es + fs)[..|es + fs| - 1] == es + fs[..|fs| - 1];
      RecordedAppend(es, fs[..|fs| - 1]);
      var last := fs[|fs| - 1];
      RecordedLast(es + fs);
      RecordedLast(fs);
      assert (es + fs)[|es + fs| - 1] == last;
      hide Recorded;
      MapsAssociate(Recorded(es), Recorded(fs[..|fs| - 1]), Own(last));
    }
  }

  ghost predicate LastFor<V>(es: seq<Entry<V>>, key: set<Table>, i: nat) {
    && i < |es| && es[i].tables == key && es[i].value.Some?
    && forall j :: i < j < |es| ==> es[j].tables != key || es[j].value.None?
  }

  /** What is recorded for some tables is the value of the last entry for them that has one. */
  lemma {:induction false} RecordedIsLast<V>(es: seq<Entry<V>>, key: set<Table>)
    ensures key in Recorded(es) <==> exists i: nat :: LastFor(es, key, i)
    ensures forall i: nat :: LastFor(es, key, i) ==> key in Recorded(es) && Some(Recorded(es)[key]) == es[i].value
  {
    if es != [] {
      var n := |es| - 1;
      var front := es[..n];
      RecordedIsLast(front, key);
      RecordedLast(es);
      hide Recorded;
      if es[n].tables == key && es[n].value.Some? {
        assert LastFor(es, key, n);
      } else {
        forall i: nat ensures LastFor(front, key, i) <==> LastFor(es, key, i) {
          assert i < n ==> front[i] == es[i];
        }
      }
    }
  }

  lemma {:induction false} RecordedLast<V>(es: seq<Entry<V>>)
    requires es != []
    ensures Recorded(es) == Recorded(es[..|es| - 1]) + Own(es[|es| - 1])
  {}

  lemma {:induction false} MapsAssociate<V>(a: map<set<Table>, V>, b: map<set<Table>, V>, c: map<set<Table>, V>)
    ensures a + b + c == a + (b + c)
  {}

  lemma {:induction false} OneRecorded<V>(e: Entry<V>)
    ensures Recorded([e]) == if e.value.None? then map[] else map[e.tables := e.value.value]
  {
    assert [e][..0] == [];
    assert Recorded<V>([]) == map[];
  }

  datatype Parameters = Parameters(cardinalities: map<set<Table>, Cardinality>, workers: map<set<Table>, nat>)

  function CardinalityEntries(ps: seq<QueryPlan>, source: Source): seq<Entry<Cardinality>> {
    seq(|ps|, i requires 0 <= i < |ps| =>
      var card := CardinalityOf(ps[i], source);
      Entry(PlanTables(ps[i]), if card.Unknown? then None else Some(card)))
  }

  function WorkerEntries(ps: seq<QueryPlan>): seq<Entry<nat>> {
    seq(|ps|, i requires 0 <= i < |ps| =>
      Entry(PlanTables(ps[i]), if ps[i].params.workers == 0 then None else Some(ps[i].params.workers)))
  }

  function TreeEntries(ts: seq<JoinTree>): seq<Entry<Cardinality>>
    requires forall t :: t in ts ==> !t.Empty?
  {
    seq(|ts|, i requires 0 <= i < |ts| =>
      Entry(TreeTables(ts[i]), if ts[i].annotation.Unknown? then None else Some(ts[i].annotation)))
  }

  /** What the nodes of a plan record, in their order. */
  function ParametersOf(ps: seq<QueryPlan>, source: Source): Parameters {
    Parameters(Recorded(CardinalityEntries(ps, source)), Recorded(WorkerEntries(ps)))
  }

  /** `PlanParameterization.merge_with`: the other parameters take precedence. */
  function MergeWith(a: Parameters, b: Parameters): Parameters {
    Parameters(a.cardinalities + b.cardinalities, a.workers + b.workers)
  }

  lemma {:induction false} ParametersAppend(ps: seq<QueryPlan>, qs: seq<QueryPlan>, source: Source)
    ensures ParametersOf(ps + qs, source) == MergeWith(ParametersOf(ps, source), ParametersOf(qs, source))
  {
    hide PlanTables;
    EntriesOfTwo(ps, qs, source);
    assert WorkerEntries(ps + qs) == WorkerEntries(ps) + WorkerEntries(qs);
    RecordedAppend(CardinalityEntries(ps, source), CardinalityEntries(qs, source));
    RecordedAppend(WorkerEntries(ps), WorkerEntries(qs));
  }

  lemma {:induction false} OwnParameters(p: QueryPlan, source: Source)
    ensures ParametersOf([p], source) == Parameters(
      if CardinalityOf(p, source).Unknown? then map[] else map[PlanTables(p) := CardinalityOf(p, source)],
      if p.params.workers == 0 then map[] else map[PlanTables(p) := p.params.workers])
  {
    hide PlanTables;
    hide Recorded;
    var known := if CardinalityOf(p, source).Unknown? then None else Some(CardinalityOf(p, source));
    var card := Entry(PlanTables(p), known);
    var workers := Entry(PlanTables(p), if p.params.workers == 0 then None else Some(p.params.workers));
    assert CardinalityEntries([p], source) == [card] && WorkerEntries([p]) == [workers];
    OneRecorded(card);
    OneRecorded(workers);
  }

  ghost function EstimateEntries(ps: seq<QueryPlan>): seq<Entry<Cardinality>> {
    seq(|ps|, i requires 0 <= i < |ps| =>
      Entry(PlanTables(ps[i]), if ps[i].estimated.Unknown? then None else Some(ps[i].estimated)))
  }

  ghost function MeasurementEntries(ps: seq<QueryPlan>): seq<Entry<Cardinality>> {
    seq(|ps|, i requires 0 <= i < |ps| =>
      Entry(PlanTables(ps[i]), if ps[i].actual.Unknown? then None else Some(ps[i].actual)))
  }

  /** Estimates stand in for measurements that are unknown or infinite. */
  ghost function BackedEntries(ps: seq<QueryPlan>): seq<Entry<Cardinality>> {
    seq(|ps|, i requires 0 <= i < |ps| =>
      Entry(PlanTables(ps[i]),
        if ps[i].actual.Rows? then Some(ps[i].actual)
        else if ps[i].estimated.Unknown? then None else Some(ps[i].estimated)))
  }

  lemma {:induction false} EntriesAreRead(ps: seq<QueryPlan>, source: Source)
    ensures source == Estimates ==> CardinalityEntries(ps, source) == EstimateEntries(ps)
    ensures source == Measured ==> CardinalityEntries(ps, source) == MeasurementEntries(ps)
    ensures source == MeasuredOrEstimated ==> CardinalityEntries(ps, source) == BackedEntries(ps)
  {
    hide PlanTables;
  }

  /** Node `i` is the last one over the tables `key` that runs in parallel. */
  ghost predicate LastParallel(ps: seq<QueryPlan>, key: set<Table>, i: nat) {
    && i < |ps| && PlanTables(ps[i]) == key && ps[i].params.workers > 0
    && forall j :: i < j < |ps| ==> PlanTables(ps[j]) != key || ps[j].params.workers == 0
  }

  /** The recorded workers of some tables are those of the last parallel node over them. */
  lemma {:induction false} WorkersAreLast(ps: seq<QueryPlan>, key: set<Table>)
    ensures key in Recorded(WorkerEntries(ps)) <==> exists i: nat :: LastParallel(ps, key, i)
    ensures forall i: nat :: LastParallel(ps, key, i) ==>
      key in Recorded(WorkerEntries(ps)) && Recorded(WorkerEntries(ps))[key] == ps[i].params.workers
  {
    hide PlanTables;
    hide Recorded;
    var es := WorkerEntries(ps);
    RecordedIsLast(es, key);
    forall i: nat ensures LastParallel(ps, key, i) <==> LastFor(es, key, i) {
      assert forall j :: 0 <= j < |ps| ==> (es[j].value.None? <==> ps[j].params.workers == 0);
    }
  }

  /** `parameters_from_plan` for query plans: estimates, measurements, or measurements where there are proper ones and
      estimates elsewhere. */
  method ParametersFromPlan(p: QueryPlan, source: Source) returns (params: Parameters)
    ensures source == Estimates ==> params.cardinalities == Recorded(EstimateEntries(PreOrder(p)))
    ensures source == Measured ==> params.cardinalities == Recorded(MeasurementEntries(PreOrder(p)))
    ensures source == MeasuredOrEstimated ==> params.cardinalities == Recorded(BackedEntries(PreOrder(p)))
    ensures params.workers == Recorded(WorkerEntries(PreOrder(p)))
  {
    params := CollectParameters(p, source);
    EntriesAreRead(PreOrder(p), source);
  }

  method CollectParameters(p: QueryPlan, source: Source) returns (params: Parameters)
    ensures params == ParametersOf(PreOrder(p), source)
    decreases p
  {
    hide PlanTables;
    hide ParametersOf;
    hide CardinalityOf;
    params := Parameters(map[], map[]);
    var card := CardinalityOf(p, source);
    if !card.Unknown? {
      params := params.(cardinalities := params.cardinalities[PlanTables(p) := card]);
    }
    if p.params.workers != 0 {
      params := params.(workers := params.workers[PlanTables(p) := p.params.workers]);
    }
    OwnParameters(p, source);
    ParametersAppend([p], PreOrderFrom(p, 0), source);
    assert params == ParametersOf([p], source);
    for i := 0 to |p.children|
      invariant MergeWith(params, ParametersOf(PreOrderFrom(p, i), source)) == ParametersOf(PreOrder(p), source)
    {
      var childParams := CollectParameters(p.children[i], source);
      ParametersAppend(PreOrder(p.children[i]), PreOrderFrom(p, i + 1), source);
      MergeAssociates(params, childParams, ParametersOf(PreOrderFrom(p, i + 1), source));
      params := MergeWith(params, childParams);
    }
    NoParameters(source);
  }

  lemma {:induction false} MergeAssociates(a: Parameters, b: Parameters, c: Parameters)
    ensures MergeWith(MergeWith(a, b), c) == MergeWith(a, MergeWith(b, c))
  {
    UnionAssociates(a.cardinalities, b.cardinalities, c.cardinalities);
    UnionAssociates(a.workers, b.workers, c.workers);
  }

  lemma {:induction false} UnionAssociates<K, V>(a: map<K, V>, b: map<K, V>, c: map<K, V>)
    ensures a + b + c == a + (b + c)
  {}

  lemma {:induction false} NoParameters(source: Source)
    ensures ParametersOf([], source) == Parameters(map[], map[])
    ensures forall a :: MergeWith(a, ParametersOf([], source)) == a
  {
    assert ParametersOf([], source) == Parameters(map[], map[]);
    forall a ensures MergeWith(a, Parameters(map[], map[])) == a {
      assert a.cardinalities + map[] == a.cardinalities && a.workers + map[] == a.workers;
    }
  }

  lemma {:induction false} TreeNodesAreProper(t: JoinTree)
    ensures forall n :: n in TreeNodes(t) ==> !n.Empty?
  {
    if t.Join? {
      TreeNodesAreProper(t.outer);
      TreeNodesAreProper(t.inner);
    }
  }

  /** What the nodes of a join tree record. */
  ghost function TreeCardinalities(t: JoinTree): map<set<Table>, Cardinality> {
    TreeNodesAreProper(t);
    Recorded(TreeEntries(TreeNodes(t)))
  }

  lemma {:induction false} JoinCardinalities(t: JoinTree)
    requires t.Join?
    ensures TreeCardinalities(t) ==
      (if t.annotation.Unknown? then map[] else map[TreeTables(t) := t.annotation])
      + TreeCardinalities(t.outer) + TreeCardinalities(t.inner)
  {
    TreeNodesAreProper(t);
    TreeNodesAreProper(t.outer);
    TreeNodesAreProper(t.inner);
    TreeEntriesAppend([t] + TreeNodes(t.outer), TreeNodes(t.inner));
    TreeEntriesAppend([t], TreeNodes(t.outer));
    assert TreeNodes(t) == [t] + TreeNodes(t.outer) + TreeNodes(t.inner);
    OneTreeEntry(t);
    hide TreeNodes;
    hide TreeTables;
    hide TreeEntries;
    hide Recorded;
  }

  lemma {:induction false} TreeEntriesAppend(ts: seq<JoinTree>, us: seq<JoinTree>)
    requires forall t :: t in ts ==> !t.Empty?
    requires forall t :: t in us ==> !t.Empty?
    ensures Recorded(TreeEntries(ts + us)) == Recorded(TreeEntries(ts)) + Recorded(TreeEntries(us))
  {
    hide TreeTables;
    TreeEntriesOfTwo(ts, us);
    RecordedAppend(TreeEntries(ts), TreeEntries(us));
  }

  lemma {:induction false} OneTreeEntry(t: JoinTree)
    requires !t.Empty?
    ensures Recorded(TreeEntries([t])) == if t.annotation.Unknown? then map[] else map[TreeTables(t) := t.annotation]
  {
    hide TreeTables;
    hide Recorded;
    var e := Entry(TreeTables(t), if t.annotation.Unknown? then None else Some(t.annotation));
    assert TreeEntries([t]) == [e];
    OneRecorded(e);
  }

  lemma {:induction false} ScanCardinalities(t: JoinTree)
    requires t.Scan?
    ensures TreeCardinalities(t) == if t.annotation.Unknown? then map[] else map[{t.table} := t.annotation]
  {
    TreeNodesAreProper(t);
    OneTreeEntry(t);
  }

  /** `parameters_from_plan` for join trees; Failure stands for the error that empty join trees raise. */
  method ParametersFromTree(t: JoinTree) returns (params: Result<Parameters>)
    ensures params.Failure? <==> HasEmpty(t)
    ensures params.Success? ==> params.value == Parameters(TreeCardinalities(t), map[])
    decreases t
  {
    if t.Empty? {
      return Failure;
    }
    var own := Parameters(map[], map[]);
    if !t.annotation.Unknown? {
      own := own.(cardinalities := own.cardinalities[TreeTables(t) := t.annotation]);
    }
    if t.Scan? {
      ScanCardinalities(t);
      return Success(own);
    }
    JoinCardinalities(t);
    var outer :- ParametersFromTree(t.outer);
    own := MergeWith(own, outer);
    var inner :- ParametersFromTree(t.inner);
    own := MergeWith(own, inner);
    params := Success(own);
  }

  // ----- plans and join trees agree -----

  /** Scans read one table; joins mention only tables that are scanned below them; there are no subplans. */
  predicate TablesFit(p: QueryPlan) {
    match p.kind
    case ScanOperator =>
      p.subplan.None? && p.params.baseTable.Some? && p.params.mentioned <= {p.params.baseTable.value}
    case Auxiliary => p.subplan.None? && |p.children| == 1 && TablesFit(p.children[0])
    case JoinOperator =>
      && p.subplan.None? && |p.children| == 2 && TablesFit(p.children[0]) && TablesFit(p.children[1])
      && OwnTables(p) <= ScannedTables(p)
  }

  function ScannedTables(p: QueryPlan): set<Table> {
    if p.kind == ScanOperator then OptionTable(p.params.baseTable)
    else set c, t | c in p.children && t in ScannedTables(c) :: t
  }

  /** The nodes of a plan and of a join tree record the same cardinalities in the same order. */
  ghost predicate SameEntries(c: QueryPlan, t: JoinTree, source: Source) {
    && (forall n :: n in TreeNodes(t) ==> !n.Empty?)
    && CardinalityEntries(PreOrder(c), source) == TreeEntries(TreeNodes(t))
  }

  /** The canonical plan and the join tree of `p` have the same tables and the same entries. */
  ghost predicate Agree(p: QueryPlan, c: QueryPlan, t: JoinTree, source: Source) {
    && Canonical(p) == Success(c) && JoinTreeOf(p, source) == Success(t)
    && TreeTables(t) == ScannedTables(p) == PlanTables(c)
    && SameEntries(c, t, source)
  }

  lemma {:induction false} FittingPlan(p: QueryPlan, source: Source) returns (c: QueryPlan, t: JoinTree)
    requires TablesFit(p)
    ensures Agree(p, c, t, source)
  {
    match p.kind {
      case ScanOperator =>
        c, t := FittingScan(p, source);
      case Auxiliary =>
        c, t := FittingPlan(p.children[0], source);
        SkipAuxiliary(p, source);
        hide *;
        AgreeAbove(p, c, t, source);
      case JoinOperator =>
        var a, ta := FittingPlan(p.children[0], source);
        var b, tb := FittingPlan(p.children[1], source);
        c, t := FittingJoin(p, a, b, ta, tb, source);
    }
  }

  lemma {:induction false} SkipAuxiliary(p: QueryPlan, source: Source)
    requires p.kind == Auxiliary && |p.children| == 1 && p.subplan.None?
    ensures Canonical(p) == Canonical(p.children[0]) && JoinTreeOf(p, source) == JoinTreeOf(p.children[0], source)
    ensures ScannedTables(p) == ScannedTables(p.children[0])
  {
    assert p.children == [p.children[0]];
  }

  lemma {:induction false} AgreeAbove(p: QueryPlan, c: QueryPlan, t: JoinTree, source: Source)
    requires |p.children| == 1 && Agree(p.children[0], c, t, source)
    requires Canonical(p) == Canonical(p.children[0]) && JoinTreeOf(p, source) == JoinTreeOf(p.children[0], source)
    requires ScannedTables(p) == ScannedTables(p.children[0])
    ensures Agree(p, c, t, source)
  {
    hide Canonical;
    hide JoinTreeOf;
    hide ScannedTables;
    hide SameEntries;
    hide TreeTables;
    hide PlanTables;
  }

  lemma {:induction false} FittingScan(p: QueryPlan, source: Source) returns (c: QueryPlan, t: JoinTree)
    requires TablesFit(p) && p.kind == ScanOperator
    ensures Agree(p, c, t, source)
  {
    c, t := Canonical(p).value, JoinTreeOf(p, source).value;
    assert PlanTables(c) == OwnTables(p) == {p.params.baseTable.value};
    assert PreOrder(c) == [c];
  }

  lemma {:induction false} FittingJoin(p: QueryPlan, a: QueryPlan, b: QueryPlan, ta: JoinTree, tb: JoinTree,
      source: Source)
    returns (c: QueryPlan, t: JoinTree)
    requires p.kind == JoinOperator && |p.children| == 2 && p.subplan.None? && OwnTables(p) <= ScannedTables(p)
    requires Agree(p.children[0], a, ta, source) && Agree(p.children[1], b, tb, source)
    ensures Agree(p, c, t, source)
  {
    hide Canonical;
    hide JoinTreeOf;
    hide ScannedTables;
    hide SameEntries;
    hide PlanTables;
    hide CardinalityOf;
    c, t := p.(children := [a, b]), Join(ta, tb, CardinalityOf(p, source));
    CanonicalJoin(p, a, b);
    TreeOfJoin(p, ta, tb, source);
    ScannedBelow(p);
    TablesOfJoin(c, a, b);
    NodesOfJoin(c, a, b);
    SameCardinality(p, c, source);
    JoinEntries(c, a, b, t, ta, tb, source);
  }

  lemma {:induction false} SameCardinality(p: QueryPlan, c: QueryPlan, source: Source)
    requires c == p.(children := c.children)
    ensures CardinalityOf(c, source) == CardinalityOf(p, source) && OwnTables(c) == OwnTables(p)
  {}

  lemma {:induction false} CanonicalJoin(p: QueryPlan, a: QueryPlan, b: QueryPlan)
    requires p.kind == JoinOperator && |p.children| == 2 && p.subplan.None?
    requires Canonical(p.children[0]) == Success(a) && Canonical(p.children[1]) == Success(b)
    ensures Canonical(p) == Success(p.(children := [a, b]))
  {
    assert CanonicalFirst(p, 1).Success?;
    assert CanonicalFirst(p, 2).Success?;
    CanonicalFirstIs(p, 2);
    assert CanonicalFirst(p, 2).value == [a, b];
  }

  lemma {:induction false} TreeOfJoin(p: QueryPlan, ta: JoinTree, tb: JoinTree, source: Source)
    requires p.kind == JoinOperator && |p.children| == 2
    requires JoinTreeOf(p.children[0], source) == Success(ta) && JoinTreeOf(p.children[1], source) == Success(tb)
    ensures JoinTreeOf(p, source) == Success(Join(ta, tb, CardinalityOf(p, source)))
  {}

  lemma {:induction false} ScannedBelow(p: QueryPlan)
    requires p.kind == JoinOperator && |p.children| == 2
    ensures ScannedTables(p) == ScannedTables(p.children[0]) + ScannedTables(p.children[1])
  {
    assert p.children == [p.children[0], p.children[1]];
  }

  lemma {:induction false} TablesOfJoin(c: QueryPlan, a: QueryPlan, b: QueryPlan)
    requires c.children == [a, b] && c.subplan.None?
    ensures PlanTables(c) == OwnTables(c) + PlanTables(a) + PlanTables(b)
  {
    assert a in c.children && b in c.children;
  }

  lemma {:induction false} NodesOfJoin(c: QueryPlan, a: QueryPlan, b: QueryPlan)
    requires c.children == [a, b]
    ensures PreOrder(c) == [c] + PreOrder(a) + PreOrder(b)
  {
    assert PreOrderFrom(c, 2) == [];
    assert PreOrderFrom(c, 1) == PreOrder(b) + PreOrderFrom(c, 2);
    assert PreOrderFrom(c, 0) == PreOrder(a) + PreOrderFrom(c, 1);
  }

  lemma {:induction false} JoinEntries(c: QueryPlan, a: QueryPlan, b: QueryPlan,
      t: JoinTree, ta: JoinTree, tb: JoinTree, source: Source)
    requires PreOrder(c) == [c] + PreOrder(a) + PreOrder(b)
    requires t == Join(ta, tb, CardinalityOf(c, source)) && PlanTables(c) == TreeTables(t)
    requires SameEntries(a, ta, source) && SameEntries(b, tb, source)
    ensures SameEntries(c, t, source)
  {
    assert TreeNodes(t) == [t] + TreeNodes(ta) + TreeNodes(tb);
    TreeNodesAreProper(t);
    SameFirst(c, t, source);
    EntriesOfTwo([c], PreOrder(a), source);
    EntriesOfTwo([c] + PreOrder(a), PreOrder(b), source);
    TreeEntriesOfTwo([t], TreeNodes(ta));
    TreeEntriesOfTwo([t] + TreeNodes(ta), TreeNodes(tb));
    hide PreOrder;
    hide TreeNodes;
    hide CardinalityEntries;
    hide TreeEntries;
  }

  lemma {:induction false} SameFirst(c: QueryPlan, t: JoinTree, source: Source)
    requires !t.Empty? && t.annotation == CardinalityOf(c, source) && PlanTables(c) == TreeTables(t)
    ensures CardinalityEntries([c], source) == TreeEntries([t])
  {
    hide PlanTables;
    hide TreeTables;
  }

  lemma {:induction false} EntriesOfTwo(ps: seq<QueryPlan>, qs: seq<QueryPlan>, source: Source)
    ensures CardinalityEntries(ps + qs, source) == CardinalityEntries(ps, source) + CardinalityEntries(qs, source)
  {
    hide PlanTables;
    hide CardinalityOf;
  }

  lemma {:induction false} TreeEntriesOfTwo(ts: seq<JoinTree>, us: seq<JoinTree>)
    requires forall t :: t in ts ==> !t.Empty?
    requires forall t :: t in us ==> !t.Empty?
    ensures TreeEntries(ts + us) == TreeEntries(ts) + TreeEntries(us)
  {
    hide TreeTables;
  }

  /** The cardinalities of the canonical plan are those of the join tree. */
  lemma {:induction false} CanonicalCardinalities(p: QueryPlan, source: Source)
    requires TablesFit(p)
    ensures Canonical(p).Success? && JoinTreeOf(p, source).Success?
    ensures ParametersOf(PreOrder(Canonical(p).value), source).cardinalities
         == TreeCardinalities(JoinTreeOf(p, source).value)
  {
    var c, t := FittingPlan(p, source);
    hide PreOrder;
    hide TreeNodes;
    hide Canonical;
    hide JoinTreeOf;
  }

  // ----- what lookup finds is what is recorded -----

  predicate DistinctTables(t: JoinTree) {
    t.Join? ==> DistinctTables(t.outer) && DistinctTables(t.inner) && TreeTables(t.outer) !! TreeTables(t.inner)
  }

  /** The annotation of the node that lookup finds. */
  function FoundAnnotation(t: JoinTree, needle: set<Table>): Cardinality {
    match TreeLookup(t, needle)
    case None => Cardinality.Unknown
    case Some(n) => if n.Empty? then Cardinality.Unknown else n.annotation
  }

  /** In a join tree over different tables, the cardinality recorded for some tables is the annotation of the node
      that lookup finds for them. */
  lemma {:induction false} RecordedIsFound(t: JoinTree, needle: set<Table>)
    requires !HasEmpty(t) && DistinctTables(t)
    ensures needle in TreeCardinalities(t) <==> !FoundAnnotation(t, needle).Unknown?
    ensures needle in TreeCardinalities(t) ==> TreeCardinalities(t)[needle] == FoundAnnotation(t, needle)
  {
    if t.Scan? {
      ScanCardinalities(t);
    } else {
      DistinctParts(t);
      hide *;
      JoinCardinalities(t);
      RecordedIsFound(t.outer, needle);
      RecordedIsFound(t.inner, needle);
      NoEmptyNeedle(t.outer);
      NoEmptyNeedle(t.inner);
      FoundInJoin(t, needle);
      SomeTable(TreeTables(t.outer), TreeTables(t.inner), needle);
    }
  }

  lemma {:induction false} DistinctParts(t: JoinTree)
    requires !HasEmpty(t) && DistinctTables(t) && !t.Scan?
    ensures t.Join? && !HasEmpty(t.outer) && !HasEmpty(t.inner) && DistinctTables(t.outer) && DistinctTables(t.inner)
    ensures TreeTables(t) == TreeTables(t.outer) + TreeTables(t.inner) && TreeTables(t.outer) !! TreeTables(t.inner)
  {}

  lemma {:induction false} FoundInJoin(t: JoinTree, needle: set<Table>)
    requires t.Join? && !HasEmpty(t.outer) && !HasEmpty(t.inner)
    ensures FoundAnnotation(t, needle) ==
      if needle == TreeTables(t) then t.annotation
      else if TreeLookup(t.outer, needle).Some? then FoundAnnotation(t.outer, needle)
      else FoundAnnotation(t.inner, needle)
    ensures !FoundAnnotation(t.outer, needle).Unknown? ==> needle <= TreeTables(t.outer) && needle != {}
    ensures !FoundAnnotation(t.inner, needle).Unknown? ==> needle <= TreeTables(t.inner) && needle != {}
    ensures TreeLookup(t.outer, needle).Some? ==> needle <= TreeTables(t.outer) && needle != {}
  {
    FoundTables(t.outer, needle);
    FoundTables(t.inner, needle);
    hide HasEmpty;
  }

  lemma {:induction false} FoundTables(t: JoinTree, needle: set<Table>)
    ensures TreeLookup(t, needle).Some? ==> needle <= TreeTables(t)
    ensures !HasEmpty(t) && TreeLookup(t, needle).Some? ==> needle != {}
  {
    EmptyNeedleFindsEmpty(t);
  }

  lemma {:induction false} SomeTable(a: set<Table>, b: set<Table>, needle: set<Table>)
    requires a != {} && b != {} && a !! b
    ensures needle == a + b ==> !(needle <= a) && !(needle <= b)
    ensures needle != {} ==> !(needle <= a && needle <= b)
  {
    var x, y :| x in a && y in b;
    assert x !in b && y !in a;
    if needle != {} {
      var z :| z in needle;
    }
  }
}
