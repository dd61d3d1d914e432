/** The translation of a select-project-join query into a relational algebra plan. */
module Translator {
  import opened Sql
  import opened Query
  import opened Algebra
  import opened Phases
  import opened Supply
  import opened Filters
  import opened WhereClause
  import opened JoinGraph
  import opened Fragments

  /** All columns of a predicate belong to tables whose fragments are in the map, and the query mentions them. */
  ghost predicate InScope(q: SelectQuery, fs: map<Table, Node>, p: Expr) {
    Columns(p) <= QueryColumns(q) && Tables(p) <= fs.Keys
  }

  /** A fragment provides the query's columns of all its tables. */
  lemma {:induction false} FragmentProvides(q: SelectQuery, fs: map<Table, Node>, t: Table, e: Expr)
    requires FragmentsOk(q, fs) && t in fs
    requires Columns(e) <= QueryColumns(q) && Tables(e) <= NodeTables(fs[t])
    ensures HasColumns(fs[t], Columns(e))
  {
    assert FragmentOk(q, fs, t);
    forall c | c in Columns(e) ensures Col(c) in Provided(fs[t]) {
      assert c.table in Tables(e);
      assert FragmentOk(q, fs, c.table);
      assert c in RequiredColumns(q, c.table);
    }
  }

  /** The plan fragment that joins the fragments a join predicate touches. */
  ghost predicate IsJoinOf(fs: map<Table, Node>, p: Expr, n: Node)
    requires Tables(p) <= fs.Keys
  {
    && Tables(p) != {}
    && Supplied(n)
    && NodeTables(n) == Partners(fs, p)
    && Conditions(n) == {p} + AppliedTo(fs, Tables(p))
    && (forall t :: t in Tables(p) ==> Provided(fs[t]) <= Provided(n))
    && ((forall t :: t in Tables(p) ==> CrossProducts(fs[t]) == 0) ==> CrossProducts(n) == 0)
  }

  class RelalgParser {
    const query: SelectQuery
    var fragments: map<Table, Node>

    constructor (query: SelectQuery)
      ensures this.query == query && fragments == map[]
    {
      this.query := query;
      fragments := map[];
    }

    /** `_convert_join_predicate` for binary predicates. */
    method ConvertJoinPredicate(p: Expr) returns (r: Result<Node>)
      requires FragmentsOk(query, fragments) && InScope(query, fragments, p) && p.Cmp?
      ensures r.Success? ==> IsJoinOf(fragments, p, r.value)
      ensures TwoSided(p) ==> r.Success?
    {
      hide Supplied;
      hide FragmentsOk;
      hide NodeTables;
      hide Tables;
      hide IsJoinOf;
      hide Inputs;
      hide TwoSided;
      var inputs := Inputs(fragments, p);
      if TwoSided(p) {
        TwoSidedCount(query, fragments, p);
      }
      if |inputs| == 1 {
        var input :| input in inputs;
        OneInput(inputs, input);
        var n := SelectOnInput(p, input);
        return Success(n);
      }
      if |inputs| != 2 {
        return Failure;
      }
      var first :| first in inputs;
      assert |inputs - {first}| == 1;
      var second :| second in inputs - {first};
      TwoInputs(inputs, first, second);
      if TwoSided(p) {
        TwoSidedFits(query, fragments, p, first, second);
      }
      TwoSidedIsPlain(p);
      if Tables(p.lhs) <= NodeTables(first) && Tables(p.rhs) <= NodeTables(second) {
        r := JoinInputs(p, first, second);
      } else if Tables(p.lhs) <= NodeTables(second) && Tables(p.rhs) <= NodeTables(first) {
        r := JoinInputs(p, second, first);
      } else {
        return Failure;
      }
    }

    /** A join predicate within a single fragment becomes a selection. */
    method SelectOnInput(p: Expr, input: Node) returns (n: Node)
      requires FragmentsOk(query, fragments) && InScope(query, fragments, p) && p.Cmp?
      requires Inputs(fragments, p) == {input}
      ensures IsJoinOf(fragments, p, n)
    {
      hide Supplied;
      hide HasColumns;
      hide Tables;
      hide CollectKids;
      hide Inputs;
      hide Partners;
      hide AppliedTo;
      hide FragmentsOk;
      SingleInput(query, fragments, p, input);
      var prepared := EnsureApplicability(p, input);
      n := Selection(prepared, p);
      SelectionSupplied(prepared, p);
    }

    /** Joins two fragments on a binary predicate with one side in each of them. */
    method JoinInputs(p: Expr, left0: Node, right0: Node) returns (r: Result<Node>)
      requires FragmentsOk(query, fragments) && InScope(query, fragments, p) && p.Cmp?
      requires left0 != right0 && Inputs(fragments, p) == {left0, right0}
      requires Tables(p.lhs) <= NodeTables(left0) && Tables(p.rhs) <= NodeTables(right0)
      ensures r.Success? ==> IsJoinOf(fragments, p, r.value)
      ensures PlainSide(p.lhs) && PlainSide(p.rhs) ==> r.Success?
    {
      hide FragmentsOk;
      hide Supplied;
      hide HasColumns;
      hide Tables;
      hide NodeTables;
      hide Provided;
      hide Conditions;
      hide CrossProducts;
      hide CollectKids;
      hide CollectAll;
      hide Inputs;
      hide Partners;
      hide AppliedTo;
      hide IsJoinOf;
      hide PlainSide;
      hide Applicable;
      SidesOfJoin(query, fragments, p, left0, right0);
      var left :- AddSide(p, p.lhs, left0);
      var right :- AddSide(p, p.rhs, right0);
      var prepared := AddMissingToSides(p, left, right);
      var sides := prepared.value;
      var join := ThetaJoin(sides.0, sides.1, p);
      CmpTables(p);
      ThetaJoinSupplied(sides.0, sides.1, p);
      JoinedInputs(fragments, p, left0, right0, sides.0, sides.1);
      return Success(join);
    }

    /** Adds what a join predicate needs and its sides do not provide, each on the side that holds its tables. */
    static method AddMissingToSides(p: Expr, left: Node, right: Node) returns (r: Result<(Node, Node)>)
      requires p.Cmp? && NodeTables(left) !! NodeTables(right) && Supplied(left) && Supplied(right)
      requires Tables(p.lhs) <= NodeTables(left) && Tables(p.rhs) <= NodeTables(right) && Tables(p.rhs) != {}
      requires CollectKids(p.lhs) <= Provided(left) && CollectKids(p.rhs) <= Provided(right)
      requires HasColumns(left, Columns(p.lhs)) && HasColumns(right, Columns(p.rhs))
      ensures r.Success?
      ensures var l, n := r.value.0, r.value.1;
        && Supplied(l) && NodeTables(l) == NodeTables(left) && Provided(left) <= Provided(l)
        && Conditions(l) == Conditions(left) && CrossProducts(l) == CrossProducts(left)
        && Supplied(n) && NodeTables(n) == NodeTables(right) && Provided(right) <= Provided(n)
        && Conditions(n) == Conditions(right) && CrossProducts(n) == CrossProducts(right)
        && Applicable(p, NodeTables(l) + NodeTables(n), Provided(l) + Provided(n))
    {
      hide *;
      var missing: set<Expr> := CollectKids(p) - (Provided(left) + Provided(right));
      var leftMappings := Within(missing, NodeTables(left));
      var rightMappings := Within(missing - leftMappings, NodeTables(right));
      MissingFits(p, left, right, missing);
      if leftMappings + rightMappings != missing {
        return Failure;
      }
      MissingSides(p, left, right, missing);
      var l := AddMissing(leftMappings, left);
      var n := AddMissing(rightMappings, right);
      forall e | e in CollectKids(p) ensures e in Provided(l) + Provided(n) {
        assert e in missing ==> e in leftMappings + rightMappings;
      }
      CmpTables(p);
      CmpApplicable(p, NodeTables(l) + NodeTables(n), Provided(l) + Provided(n));
      return Success((l, n));
    }

    /** Provides everything below one side of a join predicate on the fragment that holds its tables. */
    method AddSide(p: Expr, side: Expr, input: Node) returns (r: Result<Node>)
      requires FragmentsOk(query, fragments) && InScope(query, fragments, p)
      requires side in Kids(p) && Tables(side) <= NodeTables(input) && input in fragments.Values
      ensures r.Success? ==> Supplied(r.value) && Provided(r.value) == Provided(input) + CollectKids(side)
      ensures r.Success? ==> NodeTables(r.value) == NodeTables(input) && Conditions(r.value) == Conditions(input)
      ensures r.Success? ==> CrossProducts(r.value) == CrossProducts(input)
      ensures r.Success? ==> HasColumns(r.value, Columns(side))
      ensures PlainSide(side) ==> r.Success?
    {
      var t :| t in fragments && fragments[t] == input;
      assert FragmentOk(query, fragments, t);
      KidColumns(p, side);
      FragmentProvides(query, fragments, t, side);
      r := AddExpression(side, input);
    }

    /** `_add_predicate` in the base table phase: filters go to the fragments of their tables. */
    method AddBasePredicates(p: Expr) returns (r: Result<()>)
      requires FragmentsOk(query, fragments) && Unjoined(fragments)
      requires IsPredicate(p) && InScope(query, fragments, p)
      modifies this
      ensures r.Success? ==>
        && FilterEvalPhase(p, BaseTable).Success?
        && fragments.Keys == old(fragments.Keys) && FragmentsOk(query, fragments) && Unjoined(fragments)
        && AllConjuncts(Applied(fragments))
        == AllConjuncts(old(Applied(fragments))) + AllConjuncts(SeqSet(Taken(p, BaseTable)))
      ensures r.Success? <==> (forall c :: c in TopConjuncts(p) ==> Analysable(c)) && FiltersMentionTables(p)
    {
      hide FilterEvalPhase;
      hide DeterminePredicatePhase;
      hide Taken;
      hide IsPredicate;
      hide Conjuncts;
      hide AllConjuncts;
      hide Tables;
      hide Columns;
      hide QueryColumns;
      hide FragmentsOk;
      hide Unjoined;
      hide Applied;
      hide PartsOk;
      hide Analysable;
      hide FiltersMentionTables;
      hide MentionTables;
      hide TopConjuncts;
      SplitsExactly(p);
      NoConjunctsAtAll();
      ScopeParts(query, fragments, p);
      var part :- FilterEvalPhase(p, BaseTable);
      FilterEvalPhaseTakes(p, BaseTable);
      if part.None? {
        NoFilters(p);
        return Success(());
      }
      BaseFiltersMention(p);
      TakenPart(p, BaseTable);
      BaseFilters(part.value, Taken(p, BaseTable));
      var parts :- SplitFilterPredicate(part.value);
      PartsInScope(part.value, parts);
      AddFilters(parts);
      AllConjunctsUnion(old(Applied(fragments)), parts.Values);
      return Success(());
    }

    method AddFilters(parts: map<Table, Expr>)
      requires FragmentsOk(query, fragments) && Unjoined(fragments)
      requires PartsOk(parts) && parts.Keys <= fragments.Keys
      requires forall t :: t in parts ==> Columns(parts[t]) <= QueryColumns(query)
      modifies this
      ensures fragments.Keys == old(fragments.Keys) && FragmentsOk(query, fragments) && Unjoined(fragments)
      ensures Applied(fragments) == old(Applied(fragments)) + parts.Values
    {
      hide FragmentsOk;
      hide Unjoined;
      hide Applied;
      hide Tables;
      var todo := parts.Keys;
      while todo != {}
        invariant todo <= parts.Keys && fragments.Keys == old(fragments.Keys)
        invariant FragmentsOk(query, fragments) && Unjoined(fragments)
        invariant Applied(fragments) == old(Applied(fragments)) + set t | t in parts && t !in todo :: parts[t]
      {
        var t :| t in todo;
        todo := todo - {t};
        AddFilter(t, parts[t]);
      }
      assert parts.Values == set t | t in parts && t !in todo :: parts[t];
    }

    method AddFilter(t: Table, filter: Expr)
      requires FragmentsOk(query, fragments) && Unjoined(fragments)
      requires t in fragments && FiltersTable(t, filter) && Columns(filter) <= QueryColumns(query)
      modifies this
      ensures fragments.Keys == old(fragments.Keys) && FragmentsOk(query, fragments) && Unjoined(fragments)
      ensures Applied(fragments) == old(Applied(fragments)) + {filter}
    {
      hide CollectAll;
      hide CollectKids;
      FilterTables(t, filter);
      assert FragmentOk(query, fragments, t);
      FragmentProvides(query, fragments, t, filter);
      var n := ConvertPredicate(filter, fragments[t]);
      FilterStored(query, fragments, t, filter, n);
      fragments := fragments[t := n];
    }

    /** Makes a fragment the fragment of all its tables. */
    method StoreFragment(n: Node)
      requires NodeTables(n) <= fragments.Keys
      modifies this
      ensures fragments == Store(old(fragments), n)
    {
      var todo := NodeTables(n);
      while todo != {}
        invariant todo <= NodeTables(n) && fragments.Keys == old(fragments.Keys)
        invariant forall t :: t in fragments ==>
          fragments[t] == if t in NodeTables(n) - todo then n else old(fragments)[t]
      {
        var t :| t in todo;
        todo := todo - {t};
        fragments := fragments[t := n];
      }
    }

    /** `_add_predicate` in the join phase: every join predicate, in any order, joins the fragments it touches. */
    method AddJoinPredicates(p: Expr) returns (r: Result<()>)
      requires FragmentsOk(query, fragments) && Unjoined(fragments)
      requires IsPredicate(p) && InScope(query, fragments, p)
      modifies this
      ensures r.Success? ==>
        && FilterEvalPhase(p, Join).Success?
        && fragments.Keys == old(fragments.Keys) && FragmentsOk(query, fragments)
        && NoCrossProducts(fragments) && Joined(fragments, SeqSet(Taken(p, Join)))
        && Applied(fragments) == old(Applied(fragments)) + SeqSet(Taken(p, Join))
        && forall j :: j in Taken(p, Join) ==> j.Cmp?
      ensures FilterEvalPhase(p, Join).Success? && (forall j :: j in Taken(p, Join) ==> TwoSided(j)) ==> r.Success?
    {
      hide FragmentsOk;
      hide Joined;
      hide Applied;
      hide Tables;
      hide Columns;
      hide FilterEvalPhase;
      hide Taken;
      hide Conjuncts;
      hide IsJoin;
      UnjoinedIsJoined(fragments);
      var part :- FilterEvalPhase(p, Join);
      FilterEvalPhaseTakes(p, Join);
      if part.None? {
        assert SeqSet(Taken(p, Join)) == {};
        return Success(());
      }
      JoinsInScope(query, fragments, p);
      if forall j :: j in Taken(p, Join) ==> TwoSided(j) {
        TwoSidedAreJoins(Taken(p, Join));
      }
      if !IsJoin(part.value) {
        return Failure;
      }
      var joins := SplitJoinPredicate(part.value);
      PartsOfAnd(Taken(p, Join));
      r := AddJoins(joins);
    }

    method AddJoins(joins: set<Expr>) returns (r: Result<()>)
      requires FragmentsOk(query, fragments) && NoCrossProducts(fragments) && Joined(fragments, {})
      requires forall j :: j in joins ==> j.Cmp? && InScope(query, fragments, j)
      modifies this
      ensures r.Success? ==>
        && fragments.Keys == old(fragments.Keys) && FragmentsOk(query, fragments)
        && NoCrossProducts(fragments) && Joined(fragments, joins)
        && Applied(fragments) == old(Applied(fragments)) + joins
      ensures (forall j :: j in joins ==> TwoSided(j)) ==> r.Success?
    {
      hide FragmentsOk;
      hide NoCrossProducts;
      hide Joined;
      hide Applied;
      hide Tables;
      hide IsJoinOf;
      var todo := joins;
      assert joins - todo == {};
      while todo != {}
        invariant todo <= joins && fragments.Keys == old(fragments.Keys)
        invariant FragmentsOk(query, fragments) && NoCrossProducts(fragments) && Joined(fragments, joins - todo)
        invariant Applied(fragments) == old(Applied(fragments)) + (joins - todo)
      {
        var j :| j in todo;
        var n :- ConvertJoinPredicate(j);
        JoinStored(query, fragments, joins - todo, j, n);
        StoreFragment(n);
        assert joins - todo + {j} == joins - (todo - {j});
        todo := todo - {j};
      }
      assert joins - todo == joins;
      return Success(());
    }

    /** `_generate_initial_join_order`: the join phase, then cross products of what is left, in any order. */
    method GenerateInitialJoinOrder() returns (r: Result<Node>)
      requires FragmentsOk(query, fragments) && Unjoined(fragments)
      requires query.where.Some? ==> IsPredicate(query.where.value) && InScope(query, fragments, query.where.value)
      modifies this
      ensures r.Success? ==> old(fragments) != map[] && JoinsAll(query, old(fragments), r.value)
      ensures old(fragments) != map[] && (query.where.Some? ==> JoinsAreTwoSided(query.where.value)) ==> r.Success?
    {
      hide FragmentsOk;
      hide Joined;
      hide Tables;
      hide Columns;
      hide FilterEvalPhase;
      hide Combines;
      hide JoinsAll;
      UnjoinedIsJoined(fragments);
      if query.where.Some? {
        var _ :- AddJoinPredicates(query.where.value);
      }
      var heads := fragments.Values;
      if heads == {} {
        return Failure;
      }
      var current := CombineHeads(heads);
      HeadsAreComponents(query, fragments, JoinsOf(query));
      CombinedJoinsAll(query, old(fragments), fragments, current);
      return Success(current);
    }

    method CombineHeads(heads: set<Node>) returns (current: Node)
      requires FragmentsOk(query, fragments) && NoCrossProducts(fragments)
      requires heads == fragments.Values && heads != {}
      ensures Combines(fragments, fragments.Values, current)
      ensures CrossProducts(current) == |heads| - 1
    {
      hide FragmentsOk;
      hide Combines;
      current :| current in heads;
      SingleHead(query, fragments, current);
      var remaining := heads - {current};
      assert heads - remaining == {current};
      while remaining != {}
        invariant remaining <= heads && Combines(fragments, heads - remaining, current)
        invariant CrossProducts(current) == |heads| - |remaining| - 1
      {
        var h :| h in remaining;
        CombineHead(query, fragments, heads - remaining, current, h);
        assert heads - remaining + {h} == heads - (remaining - {h});
        assert CrossProducts(h) == 0;
        remaining := remaining - {h};
        current := CrossProduct(current, h);
      }
      assert heads - remaining == heads;
    }

    /** `_add_predicate` after the joins: what is left becomes a selection on the joined fragment. */
    method AddPostJoinPredicate(p: Expr, input: Node) returns (r: Result<Node>)
      requires Supplied(input) && HasColumns(input, Columns(p)) && Tables(p) <= NodeTables(input) && IsPredicate(p)
      ensures r.Success? ==>
        && FilterEvalPhase(p, PostJoin).Success?
        && Supplied(r.value) && NodeTables(r.value) == NodeTables(input) && Provided(input) <= Provided(r.value)
        && AllConjuncts(Conditions(r.value))
        == AllConjuncts(Conditions(input)) + AllConjuncts(SeqSet(Taken(p, PostJoin)))
        && CrossProducts(r.value) == CrossProducts(input)
      ensures r.Success? <==> FilterEvalPhase(p, PostJoin).Success?
    {
      hide Supplied;
      hide HasColumns;
      hide FilterEvalPhase;
      hide Conjuncts;
      hide Taken;
      hide CollectKids;
      var part :- FilterEvalPhase(p, PostJoin);
      FilterEvalPhaseTakes(p, PostJoin);
      if part.None? {
        assert AllConjuncts(SeqSet(Taken(p, PostJoin))) == {};
        return Success(input);
      }
      TakenPart(p, PostJoin);
      assert HasColumns(input, Columns(part.value)) by { FewerColumns(input, Columns(part.value), Columns(p)); }
      var n := ConvertPredicate(part.value, input);
      AllConjunctsUnion(Conditions(input), {part.value});
      assert AllConjuncts({part.value}) == Conjuncts(part.value);
      return Success(n);
    }

    /** `_add_final_projection`: provides and projects the SELECT targets. */
    method AddFinalProjection(input: Node) returns (n: Node)
      requires Supplied(input) && HasColumns(input, QueryColumns(query))
      requires forall e :: e in query.targets ==> Tables(e) <= NodeTables(input)
      ensures if query.star then n == input else
        n.Projection? && n.targets == query.targets && WellFormedRoot(n) &&
        NodeTables(n) == NodeTables(input) && Conditions(n) == Conditions(input) &&
        CrossProducts(n) == CrossProducts(input)
    {
      if query.star {
        return input;
      }
      var required := set e, x | e in query.targets && x in CollectAll(e) :: x;
      forall e, x | e in query.targets && x in CollectAll(e)
        ensures !x.Lit? && Tables(x) <= NodeTables(input) && HasColumns(input, Columns(x)) && CollectAll(x) <= required
      {
        CollectBelow(e, x);
        assert Columns(e) <= QueryColumns(query);
      }
      var prepared := AddMissing(required, input);
      n := Projection(prepared, query.targets);
    }

    /** `_add_table_source`: a table scan for a plain table; joins and other sources are rejected. */
    method AddTableSource(src: TableSource) returns (r: Result<()>)
      requires !(src.Leaf? && src.kind.SubqueryTable?)
      modifies this
      ensures r.Success? <==> src.Leaf? && src.kind.DirectTable?
      ensures fragments == if r.Success? then old(fragments)[src.table := Scan(query, src.table)] else old(fragments)
    {
      match src
      case Leaf(DirectTable, table) =>
        fragments := fragments[table := Scan(query, table)];
        return Success(());
      case _ => return Failure;
    }

    method AddTableSources() returns (r: Result<()>)
      requires fragments == map[] && forall src :: src in query.from ==> !(src.Leaf? && src.kind.SubqueryTable?)
      modifies this
      ensures r.Success? <==> forall src :: src in query.from ==> src.Leaf? && src.kind.DirectTable?
      ensures r.Success? ==> fragments == map t | t in FromTables(query.from) :: Scan(query, t)
    {
      for i := 0 to |query.from|
        invariant forall src :: src in query.from[..i] ==> src.Leaf? && src.kind.DirectTable?
        invariant fragments == map t | t in FromTables(query.from[..i]) :: Scan(query, t)
      {
        assert query.from[..i + 1] == query.from[..i] + [query.from[i]];
        FromTablesAppend(query.from[..i], query.from[i]);
        r := AddTableSource(query.from[i]);
        if r.Failure? {
          return;
        }
      }
      assert query.from[..|query.from|] == query.from;
      return Success(());
    }

    /** `generate_relnode` for a query without subqueries, grouping and ordering. */
    method GenerateRelnode() returns (r: Result<Node>)
      requires fragments == map[] && WellScoped(query)
      modifies this
      ensures r.Success? ==> IsTranslation(query, r.value)
      ensures r.Success? ==> Filterable(query)
      ensures Filterable(query) && JoinsBetweenTwo(query) ==> r.Success?
    {
      hide FragmentsOk;
      hide Unjoined;
      hide Applied;
      hide FilterEvalPhase;
      hide Taken;
      hide Supplied;
      hide JoinsAll;
      hide IsTranslation;
      hide Columns;
      hide Tables;
      hide Conjuncts;
      hide Analysable;
      hide FiltersMentionTables;
      hide JoinsBetweenTwo;
      hide JoinsAreTwoSided;
      hide IsPredicate;
      hide Conditions;
      hide Provided;
      hide NodeTables;
      hide CrossProducts;
      hide QueryColumns;
      var _ :- AddTableSources();
      ScansAreFragments(query, fragments);
      QueryInScope(query, fragments);
      if query.where.Some? {
        var _ :- AddBasePredicates(query.where.value);
      }
      if query.from != [] {
        assert query.from[0] in query.from;
        if query.from[0].Leaf? {
          SomeTable(query.from);
          assert query.from[0].table in fragments;
        }
      }
      ghost var base := fragments;
      assert AllConjuncts({}) == {};
      assert AllConjuncts(Applied(base)) == BaseConjuncts(query);
      if query.from != [] && query.where.Some? && JoinsBetweenTwo(query) {
        BetweenTwoAreTwoSided(query);
      }
      var joined :- GenerateInitialJoinOrder();
      JoinedProvides(query, base, joined);
      var filtered := joined;
      if query.where.Some? {
        filtered :- AddPostJoinPredicate(query.where.value, joined);
      }
      FilteredTranslates(query, base, joined, filtered);
      var n := AddFinalProjection(filtered);
      assert IsTranslation(query, n) by { TranslationDone(query, filtered, n); }
      return Success(n);
    }
  }

  function Scan(q: SelectQuery, t: Table): Node { Relation(t, RequiredColumns(q, t)) }

  /** Names are resolved: every column of the query belongs to a table of its FROM clause. */
  ghost predicate WellScoped(q: SelectQuery) {
    && (forall c :: c in QueryColumns(q) ==> c.table in FromTables(q.from))
    && (q.where.Some? ==> IsPredicate(q.where.value))
    && (forall src :: src in q.from ==> !(src.Leaf? && src.kind.SubqueryTable?))
  }

  /** A side of a join predicate that can be computed on any fragment with its tables. */
  predicate PlainSide(e: Expr) { e.Col? || e.Lit? || (e.App? && (e.fn.Cast? || e.fn.Function? || e.fn.Math?)) }

  /** A comparison of two tables, with one of them on each side. */
  predicate TwoSided(p: Expr) {
    p.Cmp? && PlainSide(p.lhs) && PlainSide(p.rhs)
    && |Tables(p.lhs)| == 1 && |Tables(p.rhs)| == 1 && Tables(p.lhs) != Tables(p.rhs)
  }

  lemma {:induction false} NoConjunctsAtAll()
    ensures AllConjuncts(SeqSet([])) == {}
  {}

  lemma {:induction false} NoFilters(p: Expr)
    requires FilterEvalPhase(p, BaseTable).Success? && Taken(p, BaseTable) == []
    ensures FiltersMentionTables(p)
  {
    BaseTakes(p);
    hide Tables;
    hide Conjuncts;
    hide FilterEvalPhase;
    hide Taken;
  }

  lemma {:induction false} ScopeParts(q: SelectQuery, fs: map<Table, Node>, p: Expr)
    requires InScope(q, fs, p)
    ensures Columns(p) <= QueryColumns(q) && Tables(p) <= fs.Keys
  {
    hide Columns;
    hide Tables;
  }

  ghost predicate JoinsAreTwoSided(p: Expr) {
    FilterEvalPhase(p, Join).Success? && forall j :: j in Taken(p, Join) ==> TwoSided(j)
  }

  /** Queries over plain tables whose conditions can be analysed, and whose filters mention tables. */
  ghost predicate Filterable(q: SelectQuery) {
    && q.from != [] && (forall src :: src in q.from ==> src.Leaf? && src.kind.DirectTable?)
    && (q.where.Some? ==>
          (forall c :: c in TopConjuncts(q.where.value) ==> Analysable(c)) && FiltersMentionTables(q.where.value))
  }

  /** All comparisons are between two tables or filters; in a conjunction over one table there are filters only. */
  ghost predicate JoinsBetweenTwo(q: SelectQuery) {
    q.where.Some? && !(q.where.value.And? && |Tables(q.where.value)| == 1) ==>
      forall c :: c in TopConjuncts(q.where.value) && c.Cmp? && |Tables(c)| != 1 ==> TwoSided(c)
  }

  lemma {:induction false} BetweenTwoAreTwoSided(q: SelectQuery)
    requires WellScoped(q) && Filterable(q) && JoinsBetweenTwo(q) && q.where.Some?
    ensures Splits(q.where.value) && JoinsAreTwoSided(q.where.value)
  {
    SplitsExactly(q.where.value);
    JoinTakes(q.where.value);
    hide FilterEvalPhase;
    hide Taken;
    hide TwoSided;
    hide Analysable;
    hide Tables;
  }

  lemma {:induction false} SomeTable(from: seq<TableSource>)
    requires from != [] && from[0].Leaf?
    ensures from[0].table in FromTables(from)
  {
    assert from[0] in from && from[0].table in SourceTables(from[0]);
  }

  lemma {:induction false} TwoSidedAreJoins(ps: seq<Expr>)
    requires ps != [] && forall p :: p in ps ==> TwoSided(p)
    ensures IsJoin(CreateAnd(ps).value)
  {
    hide Tables;
    assert ps[0] in ps && TwoSided(ps[0]);
    assert IsJoin(ps[0]);
    if |ps| > 1 {
      assert CreateAnd(ps).value == And(ps);
    }
  }

  /** Its fragments are one, or two with one side each. */
  lemma {:induction false} TwoSidedInputs(q: SelectQuery, fs: map<Table, Node>, p: Expr) returns (a: Node, b: Node)
    requires FragmentsOk(q, fs) && InScope(q, fs, p) && TwoSided(p)
    ensures p.Cmp? && Tables(p) <= fs.Keys
    ensures Inputs(fs, p) == {a, b} && Tables(p.lhs) <= NodeTables(a) && Tables(p.rhs) <= NodeTables(b)
  {
    hide *;
    var s, t := TwoSidedTables(p);
    ScopeHasTables(q, fs, p);
    a, b := fs[s], fs[t];
    TwoFragments(fs, p, s, t);
    HeldByFragment(q, fs, s);
    HeldByFragment(q, fs, t);
    assert {s} <= NodeTables(fs[s]) && {t} <= NodeTables(fs[t]);
  }

  lemma {:induction false} TwoSidedIsPlain(p: Expr)
    requires p.Cmp?
    ensures TwoSided(p) ==> PlainSide(p.lhs) && PlainSide(p.rhs)
  {
    hide Tables;
  }

  lemma {:induction false} TwoSidedCount(q: SelectQuery, fs: map<Table, Node>, p: Expr)
    requires FragmentsOk(q, fs) && InScope(q, fs, p) && TwoSided(p)
    ensures |Inputs(fs, p)| == 1 || |Inputs(fs, p)| == 2
  {
    hide *;
    var a, b := TwoSidedInputs(q, fs, p);
    if a == b {
      assert {a, b} == {a} && |{a}| == 1;
    } else {
      assert |{a, b}| == 2;
    }
  }

  lemma {:induction false} TwoSidedFits(q: SelectQuery, fs: map<Table, Node>, p: Expr, first: Node, second: Node)
    requires FragmentsOk(q, fs) && InScope(q, fs, p) && TwoSided(p)
    requires first != second && Inputs(fs, p) == {first, second}
    ensures (Tables(p.lhs) <= NodeTables(first) && Tables(p.rhs) <= NodeTables(second)) ||
            (Tables(p.lhs) <= NodeTables(second) && Tables(p.rhs) <= NodeTables(first))
  {
    hide *;
    var a, b := TwoSidedInputs(q, fs, p);
    SamePair(a, b, first, second);
  }

  lemma {:induction false} SamePair(a: Node, b: Node, first: Node, second: Node)
    requires {a, b} == {first, second} && first != second
    ensures (a == first && b == second) || (a == second && b == first)
  {
    assert a in {first, second} && b in {first, second};
    assert first in {a, b} && second in {a, b};
  }

  lemma {:induction false} TwoSidedTables(p: Expr) returns (s: Table, t: Table)
    requires TwoSided(p)
    ensures p.Cmp? && Tables(p.lhs) == {s} && Tables(p.rhs) == {t} && Tables(p) == {s, t}
  {
    CmpTables(p);
    hide Tables;
    s, t := TheOne(Tables(p.lhs)), TheOne(Tables(p.rhs));
  }

  lemma {:induction false} ScopeHasTables(q: SelectQuery, fs: map<Table, Node>, p: Expr)
    requires InScope(q, fs, p)
    ensures Tables(p) <= fs.Keys
  {
    hide Tables;
  }

  lemma {:induction false} TwoFragments(fs: map<Table, Node>, p: Expr, s: Table, t: Table)
    requires Tables(p) == {s, t} && s in fs && t in fs
    ensures Inputs(fs, p) == {fs[s], fs[t]}
  {
    hide Tables;
  }

  lemma {:induction false} HeldByFragment(q: SelectQuery, fs: map<Table, Node>, t: Table)
    requires FragmentsOk(q, fs) && t in fs
    ensures t in NodeTables(fs[t])
  {
    assert FragmentOk(q, fs, t);
  }

  /** The conjuncts of the WHERE clause that the three passes take. */
  function Kept(q: SelectQuery): set<Expr> {
    match q.where
    case None => {}
    case Some(p) =>
      AllConjuncts(SeqSet(Taken(p, BaseTable)) + SeqSet(Taken(p, Join)) + SeqSet(Taken(p, PostJoin)))
  }

  /** What translation promises of a plan. */
  ghost predicate IsTranslation(q: SelectQuery, n: Node) {
    && WellFormedRoot(n)
    && NodeTables(n) == FromTables(q.from)
    && AllConjuncts(Conditions(n)) == Kept(q)
    && (q.where.Some? ==> Splits(q.where.value))
    && CrossProducts(n) == |Components(JoinsOf(q), FromTables(q.from))| - 1
    && (if q.star then !n.Projection? && HasColumns(n, QueryColumns(q)) else n.Projection? && n.targets == q.targets)
  }

  /** The conjuncts that the base table pass takes. */
  function BaseConjuncts(q: SelectQuery): set<Expr> {
    if q.where.Some? then AllConjuncts(SeqSet(Taken(q.where.value, BaseTable))) else {}
  }

  function PostConjuncts(q: SelectQuery): set<Expr> {
    if q.where.Some? then AllConjuncts(SeqSet(Taken(q.where.value, PostJoin))) else {}
  }

  lemma {:induction false} QueryInScope(q: SelectQuery, fs: map<Table, Node>)
    requires WellScoped(q) && fs.Keys == FromTables(q.from)
    ensures q.where.Some? ==> InScope(q, fs, q.where.value)
    ensures forall e :: e in q.targets ==> Tables(e) <= fs.Keys && Columns(e) <= QueryColumns(q)
  {
    hide Columns;
    forall e | e in q.targets ensures Tables(e) <= fs.Keys && Columns(e) <= QueryColumns(q) {
      assert Columns(e) <= QueryColumns(q);
    }
  }

  lemma {:induction false} FewerColumns(n: Node, few: set<Column>, many: set<Column>)
    requires HasColumns(n, many) && few <= many
    ensures HasColumns(n, few)
  {
  }

  lemma {:induction false} JoinedProvides(q: SelectQuery, base: map<Table, Node>, n: Node)
    requires JoinsAll(q, base, n) && WellScoped(q) && base.Keys == FromTables(q.from)
    ensures Supplied(n) && NodeTables(n) == base.Keys && HasColumns(n, QueryColumns(q))
    ensures q.where.Some? ==> HasColumns(n, Columns(q.where.value))
  {
    hide Supplied;
    hide Columns;
    forall c | c in QueryColumns(q) ensures Col(c) in Provided(n) {
      assert c in RequiredColumns(q, c.table);
      assert HasColumns(n, RequiredColumns(q, c.table));
    }
  }

  /** The plan before the projection, once all three passes are done. */
  ghost predicate Filtered(q: SelectQuery, n: Node) {
    && Supplied(n)
    && NodeTables(n) == FromTables(q.from)
    && AllConjuncts(Conditions(n)) == Kept(q)
    && (q.where.Some? ==> Splits(q.where.value))
    && CrossProducts(n) == |Components(JoinsOf(q), FromTables(q.from))| - 1
    && HasColumns(n, QueryColumns(q))
  }

  lemma {:induction false} FilteredTranslates(q: SelectQuery, base: map<Table, Node>, joined: Node, n: Node)
    requires JoinsAll(q, base, joined) && base.Keys == FromTables(q.from)
    requires AllConjuncts(Applied(base)) == BaseConjuncts(q) && HasColumns(joined, QueryColumns(q))
    requires q.where.Some? ==>
      FilterEvalPhase(q.where.value, BaseTable).Success? && FilterEvalPhase(q.where.value, PostJoin).Success?
    requires Supplied(n) && NodeTables(n) == NodeTables(joined) && Provided(joined) <= Provided(n)
    requires AllConjuncts(Conditions(n)) == AllConjuncts(Conditions(joined)) + PostConjuncts(q)
    requires CrossProducts(n) == CrossProducts(joined)
    ensures Filtered(q, n)
  {
    hide Supplied;
    hide Taken;
    hide FilterEvalPhase;
    hide Conjuncts;
    hide AllConjuncts;
    AllConjunctsUnion(Applied(base), JoinsOf(q));
    KeptByPhase(q);
  }

  lemma {:induction false} KeptByPhase(q: SelectQuery)
    ensures Kept(q) == BaseConjuncts(q) + AllConjuncts(JoinsOf(q)) + PostConjuncts(q)
  {
    if q.where.Some? {
      var p := q.where.value;
      var base, join, post := SeqSet(Taken(p, BaseTable)), SeqSet(Taken(p, Join)), SeqSet(Taken(p, PostJoin));
      AllConjunctsUnion(base, join);
      AllConjunctsUnion(base + join, post);
    }
  }

  lemma {:induction false} TranslationDone(q: SelectQuery, filtered: Node, n: Node)
    requires Filtered(q, filtered)
    requires if q.star then n == filtered else
      n.Projection? && n.targets == q.targets && WellFormedRoot(n) &&
      NodeTables(n) == NodeTables(filtered) && Conditions(n) == Conditions(filtered) &&
      CrossProducts(n) == CrossProducts(filtered)
    ensures IsTranslation(q, n)
  {
  }

  lemma {:induction false} ScansAreFragments(q: SelectQuery, fs: map<Table, Node>)
    requires fs == map t | t in FromTables(q.from) :: Scan(q, t)
    ensures FragmentsOk(q, fs) && Unjoined(fs) && Applied(fs) == {}
  {
    forall t | t in fs ensures Supplied(fs[t]) {
      forall c: Column ensures CollectAll(Col(c)) == {Col(c)} {
        assert Kids(Col(c)) == [];
      }
    }
  }

  /** `_split_join_predicate`: the children of a conjunction, or the predicate itself. */
  function SplitJoinPredicate(p: Expr): set<Expr> {
    if p.And? then SeqSet(p.children) else {p}
  }

  lemma {:induction false} PartsOfAnd(ps: seq<Expr>)
    requires ps != [] && forall p :: p in ps ==> p.Cmp?
    ensures SplitJoinPredicate(CreateAnd(ps).value) == SeqSet(ps)
  {
    if |ps| == 1 {
      assert ps[0] in ps && SeqSet(ps) == {ps[0]};
    }
  }

  function JoinsOf(q: SelectQuery): set<Expr> {
    if q.where.Some? then SeqSet(Taken(q.where.value, Join)) else {}
  }

  /** A plan over all tables that applies the conditions of the base fragments and all join predicates, with
      one cross product less than the join predicates leave components. */
  ghost predicate JoinsAll(q: SelectQuery, base: map<Table, Node>, n: Node) {
    && Supplied(n)
    && NodeTables(n) == base.Keys
    && Conditions(n) == Applied(base) + JoinsOf(q)
    && (forall t :: t in base ==> HasColumns(n, RequiredColumns(q, t)))
    && (q.where.Some? ==> FilterEvalPhase(q.where.value, Join).Success?)
    && (forall j :: j in JoinsOf(q) ==> j.Cmp?)
    && CrossProducts(n) == |Components(JoinsOf(q), base.Keys)| - 1
  }

  lemma {:induction false} JoinsInScope(q: SelectQuery, fs: map<Table, Node>, p: Expr)
    requires IsPredicate(p) && InScope(q, fs, p)
    ensures forall j :: j in Taken(p, Join) ==> j.Cmp? && InScope(q, fs, j)
  {
    forall j | j in Taken(p, Join) ensures j.Cmp? && InScope(q, fs, j) {
      TakenPart(p, Join);
      PredicatePhaseByTables(j);
      assert Columns(j) <= Columns(p);
    }
  }

  lemma {:induction false} CombinedJoinsAll(q: SelectQuery, base: map<Table, Node>, fs: map<Table, Node>, n: Node)
    requires FragmentsOk(q, fs) && Combines(fs, fs.Values, n) && fs.Keys == base.Keys
    requires Applied(fs) == Applied(base) + JoinsOf(q)
    requires q.where.Some? ==> FilterEvalPhase(q.where.value, Join).Success?
    requires forall j :: j in JoinsOf(q) ==> j.Cmp?
    requires CrossProducts(n) == |Components(JoinsOf(q), fs.Keys)| - 1
    ensures JoinsAll(q, base, n)
  {
    hide Supplied;
    hide FilterEvalPhase;
    hide JoinsOf;
    hide Conditions;
    hide CrossProducts;
    hide Components;
    hide AppliedTo;
    hide RequiredColumns;
    hide NodeTables;
    assert HeadTables(fs, fs.Values) == fs.Keys;
    forall t | t in base ensures HasColumns(n, RequiredColumns(q, t)) {
      assert FragmentOk(q, fs, t);
      assert fs[t] in fs.Values;
    }
  }

  lemma {:induction false} JoinStored(q: SelectQuery, fs: map<Table, Node>, done: set<Expr>, j: Expr, n: Node)
    requires FragmentsOk(q, fs) && NoCrossProducts(fs) && Joined(fs, done)
    requires InScope(q, fs, j) && IsJoinOf(fs, j, n)
    requires forall x :: x in done ==> Tables(x) <= fs.Keys
    ensures NodeTables(n) <= fs.Keys
    ensures FragmentsOk(q, Store(fs, n)) && NoCrossProducts(Store(fs, n)) && Joined(Store(fs, n), done + {j})
    ensures Applied(Store(fs, n)) == Applied(fs) + {j}
  {
    hide FragmentsOk;
    hide Joined;
    hide Tables;
    hide Supplied;
    hide Partners;
    hide AppliedTo;
    JoinCovers(q, fs, j, n);
    StoreKeepsFragments(q, fs, n);
    StoreConnects(q, fs, done, j, n);
    StoreApplies(fs, n, {j});
  }

  lemma {:induction false} JoinCovers(q: SelectQuery, fs: map<Table, Node>, j: Expr, n: Node)
    requires FragmentsOk(q, fs) && InScope(q, fs, j) && IsJoinOf(fs, j, n)
    ensures Covers(fs, n) && NodeTables(n) != {}
    ensures AppliedTo(fs, Tables(j)) == AppliedTo(fs, NodeTables(n))
  {
    hide Supplied;
    hide Tables;
    hide HasColumns;
    hide Partners;
    forall u | u in NodeTables(n)
      ensures u in fs && NodeTables(fs[u]) <= NodeTables(n) && Provided(fs[u]) <= Provided(n)
      ensures Conditions(fs[u]) <= AppliedTo(fs, Tables(j))
    {
      var t := PartnerOrigin(q, fs, j, u);
      PartnersAreWhole(q, fs, j, u);
    }
    var t :| t in Tables(j);
    TouchedIsPartner(q, fs, j, t);
    forall c | c in AppliedTo(fs, Tables(j)) ensures c in AppliedTo(fs, NodeTables(n)) {
      var u :| u in Tables(j) && c in Conditions(fs[u]);
      TouchedIsPartner(q, fs, j, u);
    }
  }

  lemma {:induction false} PartnerOrigin(q: SelectQuery, fs: map<Table, Node>, j: Expr, u: Table) returns (t: Table)
    requires FragmentsOk(q, fs) && Tables(j) <= fs.Keys && u in Partners(fs, j)
    ensures t in Tables(j) && u in fs && fs[u] == fs[t]
  {
    hide Supplied;
    hide Tables;
    t :| t in Tables(j) && u in NodeTables(fs[t]);
    assert FragmentOk(q, fs, t);
  }

  lemma {:induction false} TouchedIsPartner(q: SelectQuery, fs: map<Table, Node>, j: Expr, t: Table)
    requires FragmentsOk(q, fs) && Tables(j) <= fs.Keys && t in Tables(j)
    ensures t in Partners(fs, j)
  {
    hide Supplied;
    hide Tables;
    assert FragmentOk(q, fs, t);
  }

  lemma {:induction false} FilterTables(t: Table, filter: Expr)
    requires FiltersTable(t, filter)
    ensures Tables(filter) == {t}
  {
    hide *;
    PartTable(t, filter);
    var a := SomeConjunct(filter);
    ConjunctIsFlat(filter, a);
    forall u | u in Tables(filter) ensures u == t {
      var c :| c in Columns(filter) && c.table == u;
      var b := ConjunctOfColumn(filter, c);
      assert u in Tables(b);
    }
  }

  lemma {:induction false} PartTable(t: Table, filter: Expr)
    requires FiltersTable(t, filter)
    ensures IsPredicate(filter) && forall a :: a in Conjuncts(filter) ==> Tables(a) == {t}
  {
    hide Tables;
    hide Conjuncts;
    hide IsPredicate;
  }

  lemma {:induction false} PartsInScope(p: Expr, parts: map<Table, Expr>)
    requires PartsOk(parts) && AllConjuncts(parts.Values) == Conjuncts(p)
    ensures forall t :: t in parts ==> t in Tables(p) && Columns(parts[t]) <= Columns(p)
  {
    forall t | t in parts ensures t in Tables(p) && Columns(parts[t]) <= Columns(p) {
      assert parts[t] in parts.Values;
      PartInScope(p, t, parts[t]);
    }
  }

  lemma {:induction false} PartInScope(p: Expr, t: Table, part: Expr)
    requires FiltersTable(t, part) && Conjuncts(part) <= Conjuncts(p)
    ensures t in Tables(p) && Columns(part) <= Columns(p)
  {
    var a := SomeConjunct(part);
    ConjunctIsFlat(p, a);
    assert Tables(a) == {t};
    forall c | c in Columns(part) ensures c in Columns(p) {
      var b := ConjunctOfColumn(part, c);
      ConjunctIsFlat(p, b);
    }
  }

  /** A filtered fragment takes the place of the fragment of its only table. */
  lemma {:induction false} FilterStored(q: SelectQuery, fs: map<Table, Node>, t: Table, filter: Expr, n: Node)
    requires FragmentsOk(q, fs) && Unjoined(fs) && t in fs
    requires Supplied(n) && Provided(fs[t]) <= Provided(n)
    requires NodeTables(n) == NodeTables(fs[t]) && Conditions(n) == Conditions(fs[t]) + {filter}
    requires CrossProducts(n) == CrossProducts(fs[t])
    ensures FragmentsOk(q, fs[t := n]) && Unjoined(fs[t := n])
    ensures Applied(fs[t := n]) == Applied(fs) + {filter}
  {
    hide Supplied;
    hide HasColumns;
    hide RequiredColumns;
    assert NodeTables(n) == {t};
    assert Store(fs, n) == fs[t := n];
    StoreKeepsFragments(q, fs, n);
    StoreApplies(fs, n, {filter});
  }

  lemma {:induction false} BaseFilters(part: Expr, taken: seq<Expr>)
    requires Conjuncts(part) == AllConjuncts(SeqSet(taken))
    requires forall c :: c in taken ==> DeterminePredicatePhase(c) == Some(BaseTable)
    ensures forall a :: a in Conjuncts(part) ==> |Tables(a)| <= 1
  {
    forall a | a in Conjuncts(part) ensures |Tables(a)| <= 1 {
      var c :| c in taken && a in Conjuncts(c);
      PredicatePhaseByTables(c);
      ConjunctIsFlat(c, a);
      SubsetSize(Tables(a), Tables(c));
    }
  }

  ghost predicate IsSingleInput(fs: map<Table, Node>, p: Expr, input: Node)
    requires Tables(p) <= fs.Keys
  {
    Tables(p) != {} && forall t :: t in Tables(p) ==> fs[t] == input
  }

  function Inputs(fs: map<Table, Node>, p: Expr): set<Node>
    requires Tables(p) <= fs.Keys
  {
    set t | t in Tables(p) :: fs[t]
  }

  lemma {:induction false} OneInput(inputs: set<Node>, a: Node)
    requires |inputs| == 1 && a in inputs
    ensures inputs == {a}
  {
    assert |inputs - {a}| == 0;
  }

  lemma {:induction false} TwoInputs(inputs: set<Node>, a: Node, b: Node)
    requires |inputs| == 2 && a in inputs && b in inputs && a != b
    ensures inputs == {a, b}
  {
    assert |inputs - {a, b}| == 0;
  }

  lemma {:induction false} SingleInput(q: SelectQuery, fs: map<Table, Node>, p: Expr, input: Node)
    requires FragmentsOk(q, fs) && InScope(q, fs, p) && Inputs(fs, p) == {input}
    ensures IsSingleInput(fs, p, input)
    ensures Partners(fs, p) == NodeTables(input) && AppliedTo(fs, Tables(p)) == Conditions(input)
    ensures Supplied(input) && Tables(p) <= NodeTables(input) && HasColumns(input, Columns(p))
  {
    hide Supplied;
    hide HasColumns;
    hide Tables;
    hide NodeTables;
    hide Conditions;
    hide Partners;
    hide AppliedTo;
    hide Columns;
    hide RequiredColumns;
    hide QueryColumns;
    var t := SomeInput(fs, p, input);
    forall u | u in Tables(p) ensures fs[u] == input && u in NodeTables(input) {
      assert fs[u] in Inputs(fs, p);
      assert FragmentOk(q, fs, u);
    }
    hide FragmentsOk;
    FragmentProvides(q, fs, t, p);
    InputsOfJoin(fs, p, input, input, t, t);
    FragmentIsSupplied(q, fs, t);
  }

  lemma {:induction false} SomeInput(fs: map<Table, Node>, p: Expr, input: Node) returns (t: Table)
    requires Tables(p) <= fs.Keys && input in Inputs(fs, p)
    ensures t in Tables(p) && fs[t] == input
  {
    hide Tables;
    t :| t in Tables(p) && fs[t] == input;
  }

  lemma {:induction false} FragmentIsSupplied(q: SelectQuery, fs: map<Table, Node>, t: Table)
    requires FragmentsOk(q, fs) && t in fs
    ensures Supplied(fs[t])
  {
    hide Supplied;
    assert FragmentOk(q, fs, t);
  }

  lemma {:induction false} CmpApplicable(p: Expr, ts: set<Table>, provided: set<Expr>)
    requires p.Cmp? && Tables(p) <= ts && CollectKids(p) <= provided
    ensures Applicable(p, ts, provided)
  {
    hide Tables;
    hide CollectKids;
  }

  lemma {:induction false} CmpTables(p: Expr)
    requires p.Cmp?
    ensures Tables(p) == Tables(p.lhs) + Tables(p.rhs)
  {
    assert Columns(p) == Columns(p.lhs) + Columns(p.rhs);
  }

  /** The two fragments are disjoint, and each side of the predicate mentions tables of its own fragment. */
  lemma {:induction false} SidesOfJoin(q: SelectQuery, fs: map<Table, Node>, p: Expr, left: Node, right: Node)
    requires FragmentsOk(q, fs) && InScope(q, fs, p) && p.Cmp?
    requires left != right && Inputs(fs, p) == {left, right}
    requires Tables(p.lhs) <= NodeTables(left) && Tables(p.rhs) <= NodeTables(right)
    ensures left in fs.Values && right in fs.Values
    ensures NodeTables(left) !! NodeTables(right)
    ensures Supplied(left) && Supplied(right)
    ensures Tables(p) != {} && Tables(p.rhs) != {}
    ensures forall t :: t in Tables(p) ==> fs[t] == left || fs[t] == right
    ensures exists l, r :: l in Tables(p) && r in Tables(p) && fs[l] == left && fs[r] == right
    ensures Partners(fs, p) == NodeTables(left) + NodeTables(right)
    ensures AppliedTo(fs, Tables(p)) == Conditions(left) + Conditions(right)
  {
    hide Supplied;
    hide HasColumns;
    hide Tables;
    hide AppliedTo;
    hide Partners;
    assert left in Inputs(fs, p) && right in Inputs(fs, p);
    var l :| l in Tables(p) && fs[l] == left;
    var r :| r in Tables(p) && fs[r] == right;
    assert FragmentOk(q, fs, l) && FragmentOk(q, fs, r);
    CmpTables(p);
    assert l in Tables(p.lhs) && r in Tables(p.rhs);
    InputsOfJoin(fs, p, left, right, l, r);
  }

  lemma {:induction false} InputsOfJoin(fs: map<Table, Node>, p: Expr, left: Node, right: Node, l: Table, r: Table)
    requires Tables(p) <= fs.Keys && Inputs(fs, p) == {left, right}
    requires l in Tables(p) && fs[l] == left && r in Tables(p) && fs[r] == right
    ensures forall t :: t in Tables(p) ==> fs[t] == left || fs[t] == right
    ensures Partners(fs, p) == NodeTables(left) + NodeTables(right)
    ensures AppliedTo(fs, Tables(p)) == Conditions(left) + Conditions(right)
  {
    forall t | t in Tables(p) ensures fs[t] == left || fs[t] == right {
      assert fs[t] in Inputs(fs, p);
    }
  }

  lemma {:induction false} CollectSides(p: Expr)
    requires p.Cmp?
    ensures CollectKids(p) == CollectAll(p.lhs) + CollectAll(p.rhs)
    ensures CollectAll(p.lhs) == (if p.lhs.Lit? then {} else {p.lhs}) + CollectKids(p.lhs)
    ensures CollectAll(p.rhs) == (if p.rhs.Lit? then {} else {p.rhs}) + CollectKids(p.rhs)
  {
    assert Kids(p) == [p.lhs, p.rhs];
    assert p.lhs.Lit? ==> Kids(p.lhs) == [];
    assert p.rhs.Lit? ==> Kids(p.rhs) == [];
  }

  function Within(es: set<Expr>, ts: set<Table>): set<Expr> { set e | e in es && Tables(e) <= ts }

  /** Once everything below the two sides is there, at most the sides themselves are missing. */
  lemma {:induction false} MissingSides(p: Expr, left: Node, right: Node, missing: set<Expr>)
    requires p.Cmp? && NodeTables(left) !! NodeTables(right)
    requires Tables(p.lhs) <= NodeTables(left) && Tables(p.rhs) <= NodeTables(right) && Tables(p.rhs) != {}
    requires CollectKids(p.lhs) <= Provided(left) && CollectKids(p.rhs) <= Provided(right)
    requires HasColumns(left, Columns(p.lhs)) && HasColumns(right, Columns(p.rhs))
    requires missing == CollectKids(p) - (Provided(left) + Provided(right))
    ensures Suppliable(Within(missing, NodeTables(left)), left)
    ensures Suppliable(Within(missing - Within(missing, NodeTables(left)), NodeTables(right)), right)
  {
    hide NodeTables;
    hide Provided;
    hide Tables;
    hide Columns;
    hide CollectAll;
    hide CollectKids;
    hide HasColumns;
    hide Suppliable;
    CollectSides(p);
    var leftMappings := Within(missing, NodeTables(left));
    var rightMappings := Within(missing - leftMappings, NodeTables(right));
    assert p.rhs != p.lhs ==> p.rhs !in leftMappings;
    assert p.lhs in missing ==> p.lhs in leftMappings;
    assert leftMappings <= {p.lhs} && rightMappings <= {p.rhs};
    SideIsSuppliable(p.lhs, left, leftMappings);
    SideIsSuppliable(p.rhs, right, rightMappings);
  }

  lemma {:induction false} SideIsSuppliable(side: Expr, input: Node, mappings: set<Expr>)
    requires mappings <= {side} && (side in mappings ==> !side.Lit?)
    requires Tables(side) <= NodeTables(input) && HasColumns(input, Columns(side))
    requires CollectKids(side) <= Provided(input)
    requires CollectAll(side) == (if side.Lit? then {} else {side}) + CollectKids(side)
    ensures Suppliable(mappings, input)
  {
    hide NodeTables;
    hide Provided;
    hide Tables;
    hide Columns;
    hide CollectAll;
    hide CollectKids;
    hide HasColumns;
  }

  lemma {:induction false} MissingFits(p: Expr, left: Node, right: Node, missing: set<Expr>)
    requires p.Cmp? && Tables(p.lhs) <= NodeTables(left) && Tables(p.rhs) <= NodeTables(right)
    requires CollectKids(p.lhs) <= Provided(left) && CollectKids(p.rhs) <= Provided(right)
    requires missing == CollectKids(p) - (Provided(left) + Provided(right))
    ensures var atLeft := Within(missing, NodeTables(left));
      atLeft + Within(missing - atLeft, NodeTables(right)) == missing
  {
    CollectSides(p);
    hide NodeTables;
    hide Provided;
    hide Tables;
    hide CollectAll;
    hide CollectKids;
    assert missing <= {p.lhs, p.rhs};
  }

  lemma {:induction false} JoinedInputs(fs: map<Table, Node>, p: Expr, left0: Node, right0: Node, left: Node,
      right: Node)
    requires p.Cmp? && Tables(p) <= fs.Keys && Tables(p) != {}
    requires forall t :: t in Tables(p) ==> fs[t] == left0 || fs[t] == right0
    requires exists l, r :: l in Tables(p) && r in Tables(p) && fs[l] == left0 && fs[r] == right0
    requires Supplied(left) && Supplied(right)
    requires Provided(left0) <= Provided(left) && Provided(right0) <= Provided(right)
    requires NodeTables(left) == NodeTables(left0) && NodeTables(right) == NodeTables(right0)
    requires CrossProducts(left) == CrossProducts(left0) && CrossProducts(right) == CrossProducts(right0)
    requires Conditions(left) == Conditions(left0) && Conditions(right) == Conditions(right0)
    requires Partners(fs, p) == NodeTables(left0) + NodeTables(right0)
    requires AppliedTo(fs, Tables(p)) == Conditions(left0) + Conditions(right0)
    requires Supplied(ThetaJoin(left, right, p))
    ensures IsJoinOf(fs, p, ThetaJoin(left, right, p))
  {
    hide Supplied;
    hide Tables;
    hide Partners;
    hide AppliedTo;
    var n := ThetaJoin(left, right, p);
    assert Provided(n) == Provided(left) + Provided(right);
    assert Conditions(n) == {p} + (Conditions(left) + Conditions(right));
  }
}
