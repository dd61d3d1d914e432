# PostBOUND query rewriting and query compiling: a verified model

This project models the parts of PostBOUND that rewrite and compile SQL queries, and the bookkeeping around
them, and proves what those parts promise. SQL predicates have their three-valued truth values (ISO/IEC 9075:1992,
section 8.12 for AND, OR and NOT, section 8.3 for BETWEEN, sections 7.4 to 7.6 for FROM, joined tables and WHERE).
The operators of expressions are uninterpreted: a `World` gives every operator and the order of values any meaning,
and every statement about rows holds for all worlds.

## Parts

1. **SQL to relational algebra** (`Sql`, `Query`, `Algebra`, `Phases`, `Supply`, `JoinPredicates`, `Filters`,
   `WhereClause`, `JoinGraph`, `Fragments`, `Translator`, `Translation`). The translator is the class `RelalgParser`
   with its map from tables to fragments. Plans get a set-of-tuples meaning (`Produce`), queries another (`Answers`),
   and the two are proved equal for every database and every order in which joins and cross products are built. The
   code falls short of this in one case: a conjunction over exactly one table that has a conjunct without any table
   (`r.a = 5 AND 1 + 1 = 3`) loses that conjunct. The model keeps the code as it is, shows the loss on a concrete
   query, and states exactly when a successful translation is correct. Which queries are translated is told by their
   text: `WhereClause` and `JoinPredicates` say what the phase analysis and the join tests amount to.
2. **Copying and linking algebra graphs** (`AlgebraDag`, `AlgebraCopy`). Nodes are objects with parent and sideways
   links that are updated in place; the FIFO worklist is a field of `RelNodeUpdateManager`.
3. **Predicate and FROM rewrites** (`Flatten`, `FromClause`, `FromRewrite`, `BetweenInference`, `Graph`,
   `EquivalenceClasses`, `Normalize`, `QueryFragment`, `FragmentTruth`, `QueryExtraction`, `ColumnRenaming`). FROM
   clauses have a meaning as row sequences, so that the rewrites are proved to keep order and duplicates. Two rewrites
   do not keep their promise on all inputs. An edge of an equivalence class implies the equality taken from it exactly
   if it compares bare columns or can never be True (a join like `r.a + 1 = s.b` makes an edge, too); for edges
   between columns, literals and operators this is proved in both directions, edge by edge. A whole WHERE clause keeps
   its rows also if such a join only connects columns that bare joins connect anyway. Extracting the part of a query
   about some tables keeps the rows if the fragment of every conjunct follows from it. That is the case if no
   disjunction (or conjunction below a negation) loses some of its children but not all; for predicates of different
   base predicates it is the case exactly then. Both findings come with a concrete input.
4. **Plans and join trees** (`Plans`): canonical plans, extracted join trees, extracted parameters and pruned lookup.
5. **Stateful bookkeeping** (`Namespace`, `NamespaceProtocol`, `NamespaceReference`, `Bench`): the parser's caches
   over runs of nested query scopes, proved to answer as scopes without caches (plain values) do, and the rows of a
   benchmark run. Two findings. A scope that reads itself can get an outdated answer from its cache once its own
   columns are known: exactly if one of its new columns was found before, is no name that its SELECT clause makes up,
   and a table that stands for the scope comes before the table that it was found in (or, when columns are determined
   again, if the scope loses the column that it was found to provide itself). A benchmark run that ignores errors
   raises one at its end if some query fails in some of its repetitions but not in all, because the time stamps then
   outnumber the other columns.

Sets that the code iterates over are taken apart in an arbitrary order, so every result holds for every order.

## Model

| member | source | states |
|---|---|---|
| Sql.EvalLocal | postbound/qal/_qal.py:2268-2284 | the value of an expression depends only on the columns it mentions |
| Sql.HoldsByConjuncts | postbound/transform.py:107-126 | a predicate has the three-valued truth value of the conjunction of its maximal non-AND parts |
| Sql.CreateAndParts | postbound/qal/_qal.py:3207-3240 | combining predicates gives a predicate with exactly their conjuncts and no other columns |
| Algebra.TupleHasRow | postbound/relalg.py:444-462 | every tuple of a well-formed plan is the restriction of a row of the product of its tables that satisfies all its conditions |
| Algebra.RowIsProduced | postbound/relalg.py:1109-1130 | every such row is produced: with the previous row, a plan means exactly the selected rows |
| Phases.ExpressionPhaseByTables | postbound/relalg.py:2968-2996 | an expression is due at the join phase iff it mentions several tables |
| Phases.PredicatePhaseByTables | postbound/relalg.py:2999-3027 | the phase of a predicate follows from its number of tables and from whether it is a comparison |
| Phases.PredicatePhaseExists | postbound/relalg.py:2999-3027 | exactly when the phase of a predicate can be determined |
| Phases.PassYields | postbound/relalg.py:3030-3067 | a pass yields the conjunction of exactly the conjuncts that are due in its phase, and nothing if there are none; without tables, a conjunct is never due in a conjunction over one table |
| Phases.PassesPartition | postbound/relalg.py:3030-3067 | the three passes take every top-level conjunct exactly once iff no conjunct without tables stands in a conjunction over one table; else exactly those conjuncts are lost |
| Phases.ConjunctionIsLast | postbound/relalg.py:2999-3027 | a conjunction is never due before one of its conjuncts, under exactly the same condition |
| WhereClause.SplitsExactly | postbound/relalg.py:3030-3067 | all passes can split a WHERE clause iff no operator of its top-level conjuncts lacks arguments and none of them compares literals only |
| WhereClause.BaseTakes | postbound/relalg.py:3030-3067 | the base table pass takes exactly the top-level conjuncts over one table |
| WhereClause.JoinTakes | postbound/relalg.py:3030-3067 | the join pass takes exactly the top-level comparisons over several tables or none; those without tables not from a conjunction over one table |
| JoinPredicates.ComparisonJoins | postbound/qal/_qal.py:2567-2588 | a comparison is a join iff it mentions several tables |
| JoinPredicates.BaseIsJoin | postbound/qal/_qal.py:2729-2739 | a base predicate is a join iff it mentions several tables; BETWEEN and IN without a table in the tested operand need one operand with several |
| JoinPredicates.IsJoinExactly | postbound/qal/_qal.py:3328-3329 | a predicate is a join iff one of its base predicates, below any AND, OR and NOT, joins tables |
| Supply.GenerateExpressionMapping | postbound/relalg.py:2642-2674 | the mapping partitions the expressions by their sets of arguments |
| Supply.MissingIsComputable | postbound/relalg.py:3838-3863 | missing expressions can be computed in one step, each from arguments that are there or constant |
| Supply.EnsureApplicability | postbound/relalg.py:3838-3863 | afterwards everything below the predicate is provided; nothing else about the plan changes |
| Supply.AddExpression | postbound/relalg.py:3713-3779 | fails exactly for other kinds of expressions that are not there yet; else provides everything below the expression |
| Supply.ConvertPredicate | postbound/relalg.py:3481-3616 | adds exactly one condition and provides all its subexpressions |
| Filters.LookupFindsTable | postbound/relalg.py:2806-2941 | a filter over at most one table that finds its base table mentions exactly that table |
| Filters.OneTableIsFound | postbound/relalg.py:2932-2941 | every filter that mentions exactly one table is no join and finds that table |
| Filters.SplitFilterPredicate | postbound/relalg.py:3791-3824 | a filter can be split iff all its maximal non-AND parts mention a table; the parts have exactly its conjuncts, each under its own table |
| Fragments.StoreKeepsFragments | postbound/relalg.py:3455-3460 | storing a join keeps every table in its own fragment, and all tables of a fragment mapped to it |
| Fragments.StoreConnects | postbound/relalg.py:3455-3460 | after storing a join, two tables share a fragment iff they are connected through the predicates handled so far |
| Fragments.StoreApplies | postbound/relalg.py:3455-3460 | storing a join applies its predicate and keeps all applied before |
| Fragments.HeadsAreComponents | postbound/relalg.py:3312-3319 | the remaining heads are the connected components of the join graph |
| Translator.RelalgParser.ConvertJoinPredicate | postbound/relalg.py:3618-3684 | the join covers exactly the fragments the predicate touches and applies it; it succeeds whenever each side mentions one table and the two differ |
| Translator.RelalgParser.JoinInputs | postbound/relalg.py:3648-3684 | both sides are computed on their own fragments, so that the join finds all it needs |
| Translator.RelalgParser.AddBasePredicates | postbound/relalg.py:3444-3454 | the base table pass applies exactly the conjuncts it takes, each to the fragment of its table; it succeeds iff all top-level conjuncts can be analysed and those over one table mention it in every part |
| Translator.RelalgParser.AddJoinPredicates | postbound/relalg.py:3455-3460 | in any order, all join predicates are applied and the fragments are the connected components |
| Translator.RelalgParser.GenerateInitialJoinOrder | postbound/relalg.py:3291-3319 | one plan over all tables with exactly (components - 1) cross products, whatever order the heads come in |
| Translator.RelalgParser.AddPostJoinPredicate | postbound/relalg.py:3461-3477 | adds exactly the conjuncts left for after the joins |
| Translator.RelalgParser.AddFinalProjection | postbound/relalg.py:3370-3400 | all targets can be computed; conditions and tables stay |
| Translator.RelalgParser.AddTableSources | postbound/relalg.py:3268-3289 | one scan per table; fails exactly for sources that are no plain tables |
| Translator.RelalgParser.GenerateRelnode | postbound/relalg.py:3132-3184 | a successful translation has all tables, exactly the kept conjuncts, (components - 1) cross products and a well-formed plan; only plain tables in FROM, conditions with arguments and something to compare, and filters that mention tables are translated, and they always are if all comparisons of several tables or none have one table and a plain operand on each side |
| Translation.PlanSelectsKept | postbound/relalg.py:3132-3184 | the plan produces exactly the results of the FROM rows that satisfy the kept conjuncts |
| Translation.TranslationIsCorrect | postbound/relalg.py:3132-3184 | without a lost conjunct, the plan produces exactly the answer of the query on every database |
| Translation.CorrectExactlyIf | postbound/relalg.py:3030-3067 | a successful translation is correct on a database iff the lost conjuncts are True or no row satisfies the kept ones |
| Translation.KeptAndLost | postbound/relalg.py:3030-3067 | kept and lost conjuncts together are all conjuncts; exactly when some are lost |
| Translation.ConditionsAreSupplied | postbound/relalg.py:3838-3863 | every selection and join of a translated plan finds all subexpressions of its condition among its inputs' expressions |
| Translation.LosingPlanTranslates | postbound/relalg.py:3030-3067 | the plan without the condition `1 + 1 = 3` is a translation of `r.a = 5 AND 1 + 1 = 3` |
| Translation.LosesTableFreeConjunct | postbound/relalg.py:3030-3067 | on a concrete database that plan returns a row although the query has no answer |
| AlgebraDag.ClearParentLinks | postbound/relalg.py:367-381 | exactly the nodes below lose their links |
| AlgebraDag.MaintainChildLinks | postbound/relalg.py:315-332 | every node below gains exactly its users as receivers |
| AlgebraDag.RebuildLinkage | postbound/relalg.py:383-386 | the links of a node are exactly the nodes that use it, only the root has no parent, whatever stale links there were |
| AlgebraDag.ReachHasUser | postbound/relalg.py:315-332 | below a node, everything but the node itself has a user |
| AlgebraCopy.PathTotalOfSet | postbound/relalg.py:2573-2586 | adding the sideways links in any order adds their number of upward paths |
| AlgebraCopy.CollectLeafNodes | postbound/relalg.py:2406-2425 | exactly the nodes below that have no inputs |
| AlgebraCopy.SomeReady | postbound/relalg.py:2470-2483 | as long as a node is not copied, some node could be copied next |
| AlgebraCopy.RelNodeUpdateManager.PopNode | postbound/relalg.py:2470-2473 | a pop lowers the sum of upward path counts over the worklist by exactly one |
| AlgebraCopy.RelNodeUpdateManager.Record | postbound/relalg.py:2475-2493 | a copy made after its inputs keeps every node that could be copied next on the worklist |
| AlgebraCopy.RelNodeUpdateManager.CopyNodes | postbound/relalg.py:2470-2496 | the worklist ends after exactly as many pops as there are upward paths, with one copy per node, each after its inputs' copies; with `as_root` it stops at the initiator's copy |
| AlgebraCopy.CopiedGraph | postbound/relalg.py:2453-2504 | the copies below a node form a graph of their own with the copy on top |
| AlgebraCopy.ImageOfUsers | postbound/relalg.py:2453-2504 | the users of a copy are the copies of the users |
| AlgebraCopy.RelNodeUpdateManager.MakeRelalgCopy | postbound/relalg.py:2453-2504 | the copy is isomorphic, sharing included; all copies keep their operators, except that of the initiator, which has the requested one; the links of both graphs are the inverse of their inputs |
| Flatten.FlattenAndPredicate | postbound/transform.py:127-145 | the result is the conjunction of the distinct maximal non-AND parts, in any order; a single one stands alone |
| Flatten.FlatteningKeeps | postbound/transform.py:127-145 | flattening keeps the conjuncts, the columns and the truth value on every row, and leaves no AND inside an AND |
| Flatten.FlattenTwice | postbound/transform.py:127-145 | flattening is idempotent up to the order of the parts |
| FromClause.SourceRowsAre | postbound/transform.py:173-194 | the rows of nested joins are, in order, the rows of the product of their leaves on which all ON conditions are True |
| FromClause.ProductKeep | postbound/transform.py:173-194 | restricting both sides of a product is restricting the product |
| FromRewrite.RewriteSourceIs | postbound/transform.py:173-206 | the visitor fails exactly on outer and natural joins; else it keeps the leaves in order and hands up exactly the ON conditions |
| FromClause.OnlyInnerExactly | postbound/transform.py:173-206 | the visitor accepts exactly inner and cross joins, at any depth |
| FromRewrite.ExplicitToImplicit | postbound/transform.py:221-269 | fails exactly if an outer or natural join occurs; else the leaves stand side by side and WHERE has exactly all conjuncts; queries over plain tables stay as they are, all others get a flat WHERE clause |
| FromRewrite.ImplicitKeepsRows | postbound/transform.py:221-269 | the implicit query selects the same sequence of rows, for all nestings of inner and cross joins with conditions in scope |
| BetweenInference.CollectBounds | postbound/transform.py:747-806 | the first loop finds the first bound of each direction per column and blocks columns with several |
| BetweenInference.EmitBounds | postbound/transform.py:808-821 | the other loops emit every column's first bounds, merged or alone |
| BetweenInference.VisitAndPredicate | postbound/transform.py:738-823 | the loops compute the merged conjuncts |
| BetweenInference.PartHasConjuncts | postbound/transform.py:738-823 | nothing is made up: every part of the result is a conjunct, a mirrored one, or merged from two |
| BetweenInference.ConjunctHasPart | postbound/transform.py:738-823 | nothing is lost: every conjunct has such a part |
| BetweenInference.MergedCount | postbound/transform.py:738-823 | merging saves exactly one part per merged column |
| BetweenInference.BetweenIffMerges | postbound/transform.py:808-818 | a column gets one more BETWEEN iff exactly one conjunct bounds it from above and exactly one from below, mirrored comparisons included |
| BetweenInference.ValuesExactly | postbound/transform.py:747-806 | exactly the conjuncts over one column that compare it by `<=` or `>=`, on either side, are taken for bounds, each for the right direction |
| BetweenInference.PlacesMerged | postbound/transform.py:738-823 | exactly the columns with one bound of each direction lose their bounds |
| BetweenInference.InferIsSettled | postbound/transform.py:721-828 | afterwards no conjunction has exactly one bound of each direction on a column |
| BetweenInference.MergedHolds | postbound/transform.py:738-823 | merging keeps the truth value of the conjunction on every row |
| BetweenInference.Visit | postbound/transform.py:721-828 | the visitor computes the rewritten predicate through NOT and OR |
| BetweenInference.InferBetweenHolds | postbound/transform.py:721-828 | inferring BETWEEN keeps the three-valued truth value of every predicate on every row |
| BetweenInference.InferBetweenPredicates | postbound/transform.py:830-843 | the WHERE clause is flattened and rewritten; a column gets one more BETWEEN on the top level iff it has one bound of each direction there, and no conjunction is left with such a pair outside of base predicates |
| EquivalenceClasses.DetermineJoinEquivalenceClasses | postbound/qal/_qal.py:3719-3740 | the classes are the connected components of the columns on edges |
| EquivalenceClasses.GeneratePredicates | postbound/qal/_qal.py:3743-3770 | one equality per pair of different columns of a class |
| EquivalenceClasses.WrappedIsEdge | postbound/qal/_qal.py:4183-4204 | a join that can be wrapped is an edge between the columns below its casts |
| EquivalenceClasses.CanWrapExactly | postbound/qal/_qal.py:4183-4204 | a join can be wrapped iff it equates columns of two tables, each below any number of casts |
| EquivalenceClasses.IsEdgeExactly | postbound/qal/_qal.py:3725-3735 | an edge is an equality over exactly two columns of two tables |
| EquivalenceClasses.AddEcPredicates | postbound/transform.py:697-718 | fails exactly if a conjunct that is no comparison has a base predicate that joins tables, below any OR and NOT; else the implied equalities replace the simple joins and everything else stays |
| EquivalenceClasses.ExpansionIsTrue | postbound/transform.py:697-718 | the expansion is True on the same rows if every edge compares bare columns or stays and connects only what bare joins connect, or if an edge compares with NULL |
| EquivalenceClasses.EdgeIsSoundIff | postbound/qal/_qal.py:3725-3735 | an edge implies the equality that the expansion takes from it, for all meanings of its operators, iff it compares bare columns or is never True |
| EquivalenceClasses.SingleEdgeIff | postbound/transform.py:697-718 | for a WHERE clause that is one edge, the expansion keeps the rows iff the same condition holds |
| EquivalenceClasses.ComputedJoinLosesRows | postbound/transform.py:697-718 | the expansion of `r.a + 1 = s.b` loses rows |
| EquivalenceClasses.ExpandTwice | postbound/transform.py:697-718 | repeating the expansion adds and loses nothing, up to the order of the two sides |
| Normalize.MergedJoins | postbound/transform.py:738-823 | merging bounds neither adds nor removes a join |
| Normalize.NormalizePredicates | postbound/transform.py:2950-2970 | the chain fails exactly on outer and natural joins and if a conjunct that is no comparison has a base predicate that joins tables; its WHERE clause is flat |
| Normalize.NormalFormKeepsRows | postbound/transform.py:2950-2970 | the chain keeps the sequence of rows under the same condition |
| QueryFragment.FragmentsCompose | postbound/transform.py:306-317 | extracting for T2 and then for T1 is extracting for the tables in both |
| QueryFragment.FragmentKeepsFitting | postbound/transform.py:306-317 | the surviving base predicates are exactly those whose tables fit, in order |
| QueryFragment.FragmentConjuncts | postbound/transform.py:306-317 | the conjuncts of a fragment are exactly those of the fragments of the conjuncts |
| QueryFragment.FittingIsKept | postbound/transform.py:306-317 | a predicate whose tables all fit is its own fragment |
| QueryFragment.FragmentTables | postbound/transform.py:306-317 | a fragment mentions the given tables only |
| FragmentTruth.FragmentFollows | postbound/transform.py:306-317 | the fragment is True wherever the predicate is, unless a disjunction (or a negated conjunction) loses some of its children but not all |
| FragmentTruth.FragmentCombines | postbound/transform.py:306-317 | the truth value of a fragment is that of the fragments its children have, combined as in the predicate |
| FragmentTruth.KeepsExactly | postbound/transform.py:306-317 | for predicates of different base predicates, that is exactly when the fragment follows for all truth values of the base predicates |
| QueryExtraction.ExtractSubquery | postbound/transform.py:525-528 | fails exactly for tables that the query does not have, for no tables although the query has some, and for joins that have no implicit form; else the part of the query about the tables |
| QueryExtraction.SubqueryHasRows | postbound/transform.py:525-528 | every row of the query, restricted to the tables, is a row of the extracted query, if all conjuncts keep the condition of `FragmentFollows` |
| QueryExtraction.DisjunctionLosesRows | postbound/transform.py:306-317 | the fragment of `r.a = 1 OR s.b = 1` for `r` violates the condition and is not True on all rows of the query |
| ColumnRenaming.RenamedEval | postbound/transform.py:1695-1810 | the renamed expression has the value that the original has on the row seen through the renaming |
| ColumnRenaming.SomeRowSeenThrough | postbound/transform.py:1695-1810 | for every row and renaming there is a row that is the original seen through the renaming |
| ColumnRenaming.RenamedHolds | postbound/transform.py:1864-1901 | the same for the truth value of predicates |
| ColumnRenaming.RenamedColumns | postbound/transform.py:1695-1810 | the columns of the result are exactly the renamed ones |
| ColumnRenaming.RenamingUndone | postbound/transform.py:1695-1810 | a second renaming undoes the first iff it does so on the columns that occur |
| ColumnRenaming.InverseUndoes | postbound/transform.py:1864-1901 | an injective renaming to fresh columns is undone by its inverse |
| Plans.PlanLookupIsFirst | postbound/_qep.py:1441-1473 | the pruned search finds the first node in pre-order with exactly the given tables, for every plan and needle |
| Plans.PlanLookupIsFirstIterated | postbound/_qep.py:2003-2008 | without subplans that is the order in which a plan iterates |
| Plans.CanonicalTwice | postbound/_qep.py:1855-1902 | canonical plans hold scans and joins only and are canonical already |
| Plans.CanonicalExactly | postbound/_qep.py:1855-1902 | a plan has a canonical form iff all auxiliary nodes outside of scans, subplans included, have a single input |
| Plans.CanonicalKeepsNodes | postbound/_qep.py:1855-1902 | the canonical plan has exactly the scans and joins of a plan in their order, with their types, parameters, estimates, measurements and subplans |
| Plans.JoinTreeExactly | postbound/_hints.py:1637-1657 | a plan has a join tree iff all scans have a table, all joins two inputs and all other nodes one |
| Plans.JoinTreeFollowsPlan | postbound/_hints.py:1637-1657 | the nodes of the join tree are the scans and joins of the plan in their order, annotated with the estimates, the measurements, or the measurements backed by estimates |
| Plans.JoinTreeOfCanonical | postbound/_hints.py:1637-1657 | the canonical plan has the same join tree, or lacks one for the same reason |
| Plans.JoinTreeMeansCanonical | postbound/_qep.py:1855-1902 | without subplans, a plan with a join tree has a canonical form |
| Plans.TreeLookupIsFirst | postbound/_hints.py:1432-1461 | the pruned search in a join tree finds the first node in iteration order, for non-empty needles or trees without empty parts |
| Plans.EmptyNeedleFindsEmpty | postbound/_hints.py:1432-1461 | the search for no tables succeeds exactly if the tree has an empty part |
| Plans.ParametersFromPlan | postbound/_hints.py:1660-1705 | the loop records in pre-order the estimates, the measurements, or the measurements with the estimates where these are unknown or infinite, and the workers; later nodes override earlier ones |
| Plans.ParametersFromTree | postbound/_hints.py:1660-1705 | the same for join trees; fails exactly on empty parts |
| Plans.RecordedAppend | postbound/_hints.py:759-779 | merging is right-biased and associative |
| Plans.RecordedIsLast | postbound/_hints.py:759-779 | what is recorded for some tables is the value of the last entry for them that has one |
| Plans.WorkersAreLast | postbound/_hints.py:1660-1705 | the recorded workers of some tables are those of the last parallel node over them |
| Plans.PlanTablesAreNamed | postbound/_qep.py:1421-1427 | the tables of a plan are exactly those that one of its nodes names, subplans included |
| Plans.CanonicalCardinalities | postbound/_hints.py:1692-1705 | the cardinalities of the canonical plan are those of the extracted join tree |
| Plans.RecordedIsFound | postbound/_hints.py:1660-1705 | over distinct tables, the recorded cardinality of any tables is the annotation of the node that lookup finds |
| Namespace.SchemaCache.InitializeWith | postbound/parser.py:133-142 | every cached entry agrees with the new schema; the same schema keeps the entries |
| Namespace.SchemaCache.InflateCache | postbound/parser.py:181-202 | the columns of the current schema, cached or not |
| Namespace.QueryNamespace.RegisterTable | postbound/parser.py:390-401 | the table joins the scope under its names and nothing stays cached |
| Namespace.QueryNamespace.Search | postbound/parser.py:424-446 | the loop finds the first table that provides the column |
| Namespace.QueryNamespace.LookupColumn | postbound/parser.py:407-450 | with a cache that agrees with the search, the answer is that of the search and the cache still agrees |
| Namespace.QueryNamespace.OpenNested | postbound/parser.py:494-513 | only temporary scopes leave the cache alone; the new scope is registered by its kind |
| Namespace.QueryNamespace.DetermineOutputShape | postbound/parser.py:317-388 | the columns that the SELECT clause names, in order, or those of the first query of a set operation; a virtual table without an alias stands for the scope of the virtual table before it, and the scope itself for the columns found so far |
| Namespace.QueryNamespace.SearchSame | postbound/parser.py:424-446 | a search does not depend on scopes that it does not ask |
| NamespaceProtocol.ParserRun.Lookup | postbound/parser.py:407-450 | in every state of a run the cached answer is that of the search |
| NamespaceProtocol.ParserRun.Open | postbound/parser.py:494-513 | opening a nested scope keeps all caches right; only the scope around it changes, by its kind |
| NamespaceProtocol.ParserRun.Determine | postbound/parser.py:317-388 | fixing the columns of the innermost scope keeps the caches of all other scopes right; they are those of the SELECT clause or of the first query of a set operation |
| NamespaceProtocol.ParserRun.TopIsUnseen | postbound/parser.py:515-525 | no outer scope sees the innermost one, unless it is its parent and names it |
| NamespaceProtocol.AskRecursiveScope | postbound/parser.py:407-450 | a scope that reads itself keeps the table that it found before its own columns were known |
| NamespaceReference.RecursiveScopeMoves | postbound/parser.py:407-450 | although the search then finds the scope itself: such a scope has an outdated cache |
| NamespaceReference.OvertakesExactly | postbound/parser.py:424-446 | new columns of a scope change its answer for a column iff a table that stands for the scope gets the column and comes before the table found first, or loses it and was that table |
| NamespaceReference.OthersDoNotDisturb | postbound/parser.py:407-450 | a scope that does not read itself never gives an outdated answer |
| NamespaceReference.Determine | postbound/parser.py:317-388 | columns are determined as without caches; afterwards all caches are right iff the new columns overtake no column that the cache may be asked for |
| NamespaceReference.FirstOfferingIsFirst | postbound/parser.py:424-446 | the search without caches finds the first table of FROM that offers a column, if there is one |
| NamespaceReference.FindSame | postbound/parser.py:515-525 | a name leads to the same scope in the objects and in the values that represent them |
| NamespaceReference.ColumnsOfSelectSame | postbound/parser.py:317-388 | a SELECT clause names the same columns in both |
| NamespaceReference.Take | postbound/parser.py:227-241 | every step of a parser with caches that disturbs no answer is the step of the scopes without caches, with the same answer |
| NamespaceReference.Run | postbound/parser.py:227-241 | in every run over nested scopes the cached answers are exactly those of the scopes without caches, until columns are determined that disturb an answer |
| Bench.ExecCtlLoop | postbound/bench.py:941-963 | what an execution adds to a sample under each error action, its status included |
| Bench.WorkloadCtlLoop | postbound/bench.py:980-1017 | one even sample per query without gaps in the numbers, unless errors are ignored; aborts exactly on a failing query |
| Bench.ExecutionResults.NextQuery | postbound/bench.py:901-915 | the new sample starts after all executions so far, and right after them if nothing was dropped |
| Bench.JobRowsAreNumbered | postbound/bench.py:730-766 | as many rows as repetitions of all queries, numbered from 1 in order |
| Bench.RunRowsAreNumbered | postbound/bench.py:1251-1262 | a whole run has repetitions times queries times per-query repetitions rows, numbered from 1 |
| Bench.RunRowsReport | postbound/bench.py:730-766 | where the row of every execution stands in a whole run, and that it tells its query, repetitions, status, result, time and error |
| Bench.PiecesIncrease | postbound/bench.py:901-921 | the numbers are strictly increasing, also after dropped samples |
| Bench.ExecuteWorkload | postbound/bench.py:1251-1272 | with `log` the rows are exactly those of all queries; with `raise` the run succeeds exactly if nothing fails; with `ignore` exactly if each remaining query fails in all its executions or in none, and the rows are those of the queries without failures, each starting after the executions counted so far; numbers always increase |
| Bench.GapsExactly | postbound/bench.py:901-921 | with `ignore` the numbers have a gap iff a dropped query comes right after a query with rows, and some query with rows comes later |
| Bench.DroppedQueryLeavesGap | postbound/bench.py:901-921 | a dropped query leaves a gap in the numbers |

## Left out

- Subqueries, HAVING, grouping, set operations, CTEs, ORDER BY and LIMIT: their branches need further side conditions.
- Supply.AddExpression: CASE, window and star expressions; CASE reports its children one level too deep, so its parts take no part in the phases.
- Aggregates: without grouping they do not occur in the modelled queries.
- Explicit joins in the translator: the code rejects them; virtual tables in FROM: they only come from CTEs.
- Join predicates that are no comparisons: `_convert_join_predicate` is modelled for comparisons, because only comparisons reach the join phase.
- Translator.RelalgParser.GenerateRelnode: promises success for joins between two tables with plain operands; for joins of more tables success depends on the order in which they are taken, so only the result of successful runs is stated there.
- AlgebraCopy.RelNodeUpdateManager.MakeRelalgCopy: arguments of `mutate` that are nodes themselves (`_merge_new_child`); the model changes the initiator's operator only. Cached hash values of nodes are left out, too.
- AlgebraDag and AlgebraCopy take node identity for the structural equality of the code's dictionaries: nodes of one graph are pairwise different there.
- Dictionaries that the code iterates over in insertion order have that order as a separate sequence in `BetweenInference`.
- Natural and outer joins in the rewrites: the code rejects them, or needs a catalog for them.
- `rename_table`, `merge_tables`, `move_into_subquery`: long visitors over the whole query abstraction.
- Plans.CanonicalCardinalities: asks that scans and joins mention only tables that are scanned below them, and that there are no subplans; other tables would change the keys.
- Subplans in `QueryPlan.lookup`: the code does not search them, so iteration over them is only compared without subplans.
- Schema changes in a running database: undefined behavior according to the cache's documentation; schemas are values.
- NamespaceReference.Run: ends where the columns of a scope disturb one of its answers, because the cache is outdated from there on.
- `resolve_table`: a lookup by name that no cache takes part in.
- EquivalenceClasses.EdgeIsSoundIff: operands that are predicates themselves, as in `(r.a = s.b) = TRUE`, whose soundness depends on which truth values the predicate can have at all.
- EquivalenceClasses.SingleEdgeIff: the same operands, for the same reason.
- EquivalenceClasses.ExpansionIsTrue: the condition for a whole WHERE clause suffices; whether it is necessary depends on which conjuncts can be True together.
- Normalize.NormalizePredicates: no subqueries in FROM. Their predicates are handed up by `predicates()` against its documentation (postbound/qal/_qal.py:8487-8492, 6651-6652), and `add_ec_predicates` would move them into the outer WHERE clause.
- QueryExtraction.SubqueryHasRows: takes the rows of a table from the database, although extraction turns subqueries in FROM into plain table references.
- Progressive output, callbacks, online training and logging in the benchmark: input and output of other systems.
- String rendering, JSON, equality hashes, deep copies, hints, database access.
