/** Query scopes as plain values without caches: what every run of the parser has to answer. */
module NamespaceReference {
  import opened Sql
  import opened Namespace
  import opened NamespaceProtocol

  /** Scopes are numbered in the order in which they are opened. `asked` are the columns that were found since the
      tables of the scope have last changed; no answer depends on them. */
  datatype Scope = Scope(parent: Option<nat>, ctes: map<string, nat>, subqueries: map<string, nat>, setops: seq<nat>,
                         ctx: seq<TableRef>, shape: seq<string>, produced: set<string>, asked: set<string>) {
    /** All scopes that it names are among the first `count`; scopes are opened after their parents. */
    predicate Fits(number: nat, count: nat) {
      && (parent.Some? ==> parent.value < number)
      && (forall k :: k in ctes ==> ctes[k] < count)
      && (forall k :: k in subqueries ==> subqueries[k] < count)
      && (forall c :: c in setops ==> c < count)
    }
  }

  datatype State = State(scopes: seq<Scope>, stack: seq<nat>) {
    predicate Fits() {
      && stack != [] && (forall n :: n in stack ==> n < |scopes|)
      && forall i :: 0 <= i < |scopes| ==> scopes[i].Fits(i, |scopes|)
    }

    function Top(): (n: nat)
      requires Fits()
      ensures n < |scopes| && n in stack
    {
      assert stack[|stack| - 1] in stack;
      stack[|stack| - 1]
    }

    /** The innermost scope becomes `scope`. */
    function WithTop(scope: Scope): (r: State)
      requires Fits() && scope.Fits(Top(), |scopes|)
      ensures r.Fits() && r.stack == stack
    {
      this.(scopes := scopes[Top() := scope])
    }

    function Innermost(): (scope: Scope)
      requires Fits()
      ensures scope.Fits(Top(), |scopes|)
    {
      scopes[Top()]
    }
  }

  function NewScope(parent: Option<nat>): Scope { Scope(parent, map[], map[], [], [], [], {}, {}) }

  const INITIAL := State([NewScope(None)], [0])

  datatype Step =
    | Registering(table: TableRef)
    | LookingUp(key: string)
    | Opening(alias: string, source: Source)
    | Closing
    | Determining(ps: seq<Projection>)

  // ----- searching -----

  /** A table goes by its alias, if it has one. */
  function NameOf(t: TableRef): string { if t.alias == "" then t.fullName else t.alias }

  function CatalogColumns(schema: Option<Schema>, name: string): seq<string> {
    match schema
    case Some(tables) => if name in tables then tables[name] else []
    case None => []
  }

  /** Whether a table of the catalog has a column. */
  predicate InCatalog(schema: Option<Schema>, t: TableRef, key: string) {
    !t.virtual && key in CatalogColumns(schema, t.fullName)
  }

  /** The nearest scope of a name. */
  function Find(scopes: seq<Scope>, n: nat, key: string): Option<nat>
    requires n < |scopes|
    decreases n
  {
    var s := scopes[n];
    if key in s.ctes then Some(s.ctes[key])
    else if key in s.subqueries then Some(s.subqueries[key])
    else if s.parent.None? || s.parent.value >= n then None
    else Find(scopes, s.parent.value, key)
  }

  predicate Offers(scopes: seq<Scope>, n: Option<nat>, key: string) {
    n.Some? && n.value < |scopes| && key in scopes[n.value].shape
  }

  predicate TableOffers(schema: Option<Schema>, scopes: seq<Scope>, n: nat, t: TableRef, key: string)
    requires n < |scopes|
  {
    var id, subqueries := NameOf(t), scopes[n].subqueries;
    || InCatalog(schema, t, key)
    || Offers(scopes, Find(scopes, n, id), key)
    || (id in subqueries && Offers(scopes, Some(subqueries[id]), key))
  }

  function FirstOffering(schema: Option<Schema>, scopes: seq<Scope>, n: nat, ts: seq<TableRef>, key: string)
    : Option<TableRef>
    requires n < |scopes|
  {
    if ts == [] then None
    else if TableOffers(schema, scopes, n, ts[0], key) then Some(ts[0])
    else FirstOffering(schema, scopes, n, ts[1..], key)
  }

  /** The first table of the innermost scope that has a column, unless the SELECT clause makes up the name. */
  function Answer(schema: Option<Schema>, s: State, key: string): Option<TableRef>
    requires s.Fits()
  {
    var n := s.Top();
    if key in s.scopes[n].produced then None else FirstOffering(schema, s.scopes, n, s.scopes[n].ctx, key)
  }

  /** The search answers with the table at `i` iff that table offers the column and no table before it does. */
  lemma {:induction false} FirstOfferingIsFirst(schema: Option<Schema>, scopes: seq<Scope>, n: nat, ts: seq<TableRef>,
      key: string)
    requires n < |scopes|
    ensures FirstOffering(schema, scopes, n, ts, key).None? <==>
      forall i :: 0 <= i < |ts| ==> !TableOffers(schema, scopes, n, ts[i], key)
    ensures forall i | 0 <= i < |ts| && TableOffers(schema, scopes, n, ts[i], key) ::
      (forall j :: 0 <= j < i ==> !TableOffers(schema, scopes, n, ts[j], key))
      ==> FirstOffering(schema, scopes, n, ts, key) == Some(ts[i])
  {
    hide TableOffers;
    if ts != [] && !TableOffers(schema, scopes, n, ts[0], key) {
      FirstOfferingIsFirst(schema, scopes, n, ts[1..], key);
      assert forall i :: 0 < i < |ts| ==> ts[i] == ts[1..][i - 1];
    }
  }

  // ----- output columns -----

  /** Columns found so far, and the scope of the last virtual table among those that they stem from. */
  datatype Found = Found(names: seq<string>, last: Option<nat>)

  function ScopeOf(scopes: seq<Scope>, n: nat, t: TableRef): Option<nat>
    requires n < |scopes|
  {
    var m := Find(scopes, n, t.alias);
    if m.None? && t.fullName != "" then Find(scopes, n, t.fullName) else m
  }

  function AddTable(schema: Option<Schema>, scopes: seq<Scope>, n: nat, f: Found, t: TableRef): Option<Found>
    requires n < |scopes|
  {
    if !t.virtual then Some(f.(names := f.names + CatalogColumns(schema, t.fullName)))
    else
      var m := if t.alias == "" then f.last else ScopeOf(scopes, n, t);
      if m.None? || m.value >= |scopes| then None
      else Some(Found(f.names + (if m.value == n then f.names else scopes[m.value].shape), m))
  }

  function AddTables(schema: Option<Schema>, scopes: seq<Scope>, n: nat, f: Found, ts: seq<TableRef>): Option<Found>
    requires n < |scopes|
    decreases |ts|
  {
    if ts == [] then Some(f)
    else
      var next := AddTable(schema, scopes, n, f, ts[0]);
      if next.None? then None else AddTables(schema, scopes, n, next.value, ts[1..])
  }

  function AddProjection(schema: Option<Schema>, scopes: seq<Scope>, n: nat, f: Found, p: Projection): Option<Found>
    requires n < |scopes|
  {
    match p
    case Named(name) => Some(f.(names := f.names + [name]))
    case ColumnOf(name) => Some(f.(names := f.names + [name]))
    case Star(t) => AddTables(schema, scopes, n, f, if t.Some? then [t.value] else scopes[n].ctx)
    case Unnamed => Some(f)
  }

  function AddAll(schema: Option<Schema>, scopes: seq<Scope>, n: nat, f: Found, ps: seq<Projection>): Option<Found>
    requires n < |scopes|
    decreases |ps|
  {
    if ps == [] then Some(f)
    else
      var next := AddProjection(schema, scopes, n, f, ps[0]);
      if next.None? then None else AddAll(schema, scopes, n, next.value, ps[1..])
  }

  function ColumnsOfSelect(schema: Option<Schema>, scopes: seq<Scope>, n: nat, ps: seq<Projection>): Option<seq<string>>
    requires n < |scopes|
  {
    var all := AddAll(schema, scopes, n, Found([], None), ps);
    if all.None? then None else Some(all.value.names)
  }

  // ----- scopes that provide columns to themselves -----

  /** Whether a table stands for the scope `n` itself. */
  predicate StandsFor(scopes: seq<Scope>, n: nat, t: TableRef)
    requires n < |scopes|
  {
    var id, subqueries := NameOf(t), scopes[n].subqueries;
    Find(scopes, n, id) == Some(n) || (id in subqueries && subqueries[id] == n)
  }

  predicate OffersFromOther(scopes: seq<Scope>, n: nat, m: Option<nat>, key: string) {
    m != Some(n) && Offers(scopes, m, key)
  }

  /** Whether a table has a column that does not stem from the scope `n` itself. */
  predicate OffersOtherwise(schema: Option<Schema>, scopes: seq<Scope>, n: nat, t: TableRef, key: string)
    requires n < |scopes|
  {
    var id, subqueries := NameOf(t), scopes[n].subqueries;
    || InCatalog(schema, t, key)
    || OffersFromOther(scopes, n, Find(scopes, n, id), key)
    || (id in subqueries && OffersFromOther(scopes, n, Some(subqueries[id]), key))
  }

  /** The first table of a list that has a column. */
  function FirstPlace(schema: Option<Schema>, scopes: seq<Scope>, n: nat, ts: seq<TableRef>, key: string): (i: nat)
    requires n < |scopes|
    ensures i <= |ts| && (i < |ts| ==> TableOffers(schema, scopes, n, ts[i], key))
    ensures forall j :: 0 <= j < i ==> !TableOffers(schema, scopes, n, ts[j], key)
  {
    if ts == [] || TableOffers(schema, scopes, n, ts[0], key) then 0
    else 1 + FirstPlace(schema, scopes, n, ts[1..], key)
  }

  /** Whether the new columns `shape` of the scope `n` change its answer for a column: a table that stands for the scope
      gets the column and comes before the table that had it first; or that table stands for the scope, loses the column
      and has it from nowhere else. */
  predicate Overtakes(schema: Option<Schema>, scopes: seq<Scope>, n: nat, shape: seq<string>, key: string)
    requires n < |scopes|
  {
    var ts, was := scopes[n].ctx, scopes[n].shape;
    var i := FirstPlace(schema, scopes, n, ts, key);
    || (key !in was && key in shape && exists j :: 0 <= j < i && StandsFor(scopes, n, ts[j]))
    || (key in was && key !in shape && i < |ts| && !OffersOtherwise(schema, scopes, n, ts[i], key))
  }

  /** Whether the columns of the innermost scope change an answer that it may have to give again. */
  predicate Disturbs(schema: Option<Schema>, s: State, after: Scope)
    requires s.Fits()
  {
    exists key :: key in s.Innermost().asked && key !in after.produced &&
      Overtakes(schema, s.scopes, s.Top(), after.shape, key)
  }

  /** Only the columns of the scope `n` differ. */
  ghost predicate OnlyShape(scopes: seq<Scope>, other: seq<Scope>, n: nat) {
    && |scopes| == |other| && n < |scopes| && other == scopes[n := other[n]]
    && other[n].parent == scopes[n].parent && other[n].ctes == scopes[n].ctes
    && other[n].subqueries == scopes[n].subqueries && other[n].ctx == scopes[n].ctx
  }

  lemma {:induction false} FindUnchanged(scopes: seq<Scope>, other: seq<Scope>, n: nat, m: nat, key: string)
    requires OnlyShape(scopes, other, n) && m < |scopes|
    ensures Find(scopes, m, key) == Find(other, m, key)
    decreases m
  {
    if scopes[m].parent.Some? && scopes[m].parent.value < m {
      FindUnchanged(scopes, other, n, scopes[m].parent.value, key);
    }
  }

  lemma {:induction false} OffersAfter(schema: Option<Schema>, scopes: seq<Scope>, other: seq<Scope>, n: nat,
      t: TableRef, key: string)
    requires OnlyShape(scopes, other, n)
    ensures TableOffers(schema, other, n, t, key) <==>
      OffersOtherwise(schema, scopes, n, t, key) || (StandsFor(scopes, n, t) && key in other[n].shape)
  {
    FindUnchanged(scopes, other, n, n, NameOf(t));
    hide Find;
  }

  lemma {:induction false} FirstIsAtPlace(schema: Option<Schema>, scopes: seq<Scope>, n: nat, ts: seq<TableRef>,
      key: string)
    requires n < |scopes|
    ensures var i := FirstPlace(schema, scopes, n, ts, key);
      FirstOffering(schema, scopes, n, ts, key) == if i < |ts| then Some(ts[i]) else None
  {
    hide TableOffers;
    if ts != [] {
      FirstIsAtPlace(schema, scopes, n, ts[1..], key);
    }
  }

  /** New columns change the answer for a column that was found iff they overtake it. */
  lemma {:induction false} OvertakesExactly(schema: Option<Schema>, scopes: seq<Scope>, other: seq<Scope>, n: nat,
      key: string)
    requires OnlyShape(scopes, other, n) && FirstOffering(schema, scopes, n, scopes[n].ctx, key).Some?
    ensures FirstOffering(schema, other, n, scopes[n].ctx, key) != FirstOffering(schema, scopes, n, scopes[n].ctx, key)
       <==> Overtakes(schema, scopes, n, other[n].shape, key)
  {
    var ts := scopes[n].ctx;
    FirstIsAtPlace(schema, scopes, n, ts, key);
    FirstIsAtPlace(schema, other, n, ts, key);
    var i, after := FirstPlace(schema, scopes, n, ts, key), FirstPlace(schema, other, n, ts, key);
    forall t: TableRef
      ensures TableOffers(schema, other, n, t, key) <==>
        OffersOtherwise(schema, scopes, n, t, key) || (StandsFor(scopes, n, t) && key in other[n].shape)
      ensures TableOffers(schema, scopes, n, t, key) <==>
        OffersOtherwise(schema, scopes, n, t, key) || (StandsFor(scopes, n, t) && key in scopes[n].shape)
    {
      OffersAfter(schema, scopes, other, n, t, key);
      OffersAfter(schema, scopes, scopes, n, t, key);
    }
    hide FirstPlace;
    hide FirstOffering;
    hide TableOffers;
    hide OffersOtherwise;
    hide StandsFor;
    assert after < |ts| && ts[after] == ts[i] ==> TableOffers(schema, scopes, n, ts[after], key);
    assert i < after ==> !TableOffers(schema, other, n, ts[i], key);
  }

  /** A scope that no table of its FROM clause stands for is never disturbed. */
  lemma {:induction false} OthersDoNotDisturb(schema: Option<Schema>, s: State, after: Scope)
    requires s.Fits() && forall t :: t in s.Innermost().ctx ==> !StandsFor(s.scopes, s.Top(), t)
    ensures !Disturbs(schema, s, after)
  {
    var n, ts := s.Top(), s.Innermost().ctx;
    forall key | key in s.Innermost().asked ensures !Overtakes(schema, s.scopes, n, after.shape, key) {
      var i := FirstPlace(schema, s.scopes, n, ts, key);
      assert forall j :: 0 <= j < |ts| ==> ts[j] in ts;
      if i < |ts| {
        OffersAfter(schema, s.scopes, s.scopes, n, ts[i], key);
      }
      hide TableOffers;
      hide OffersOtherwise;
      hide StandsFor;
      hide FirstPlace;
    }
  }

  // ----- steps and runs -----

  function Registered(s: State, t: TableRef): (r: State)
    requires s.Fits()
    ensures r.Fits()
  {
    var scope := s.Innermost();
    s.WithTop(scope.(ctx := scope.ctx + [t], asked := {}))
  }

  function LookedUp(schema: Option<Schema>, s: State, key: string): (r: State)
    requires s.Fits()
    ensures r.Fits()
  {
    var scope := s.Innermost();
    s.WithTop(scope.(asked := scope.asked + if Answer(schema, s, key).Some? then {key} else {}))
  }

  /** A scope after opening scope `c` in it. */
  function Opener(s: Scope, alias: string, source: Source, c: nat): Scope {
    match source
    case Cte => s.(ctes := s.ctes[alias := c], asked := {})
    case Subquery => s.(subqueries := s.subqueries[alias := c], ctx := s.ctx + [TableRef("", alias, true)], asked := {})
    case Values => s.(subqueries := s.subqueries[alias := c], ctx := s.ctx + [TableRef("", alias, true)], asked := {})
    case SetOp => s.(setops := s.setops + [c], asked := {})
    case Temporary => s
  }

  function Opened(s: State, alias: string, source: Source): (r: State)
    requires s.Fits()
    ensures r.Fits()
  {
    var n, c := s.Top(), |s.scopes|;
    var opener := Opener(s.Innermost(), alias, source, c);
    assert opener.Fits(n, c + 1);
    State(s.scopes[n := opener] + [NewScope(Some(n))], s.stack + [c])
  }

  /** The innermost scope with its columns; None stands for a table of an unknown scope. */
  function Determined(schema: Option<Schema>, s: State, ps: seq<Projection>): (r: Option<Scope>)
    requires s.Fits()
    ensures r.Some? ==> r.value.Fits(s.Top(), |s.scopes|)
  {
    var n, scope := s.Top(), s.Innermost();
    if scope.setops != [] then
      assert scope.setops[0] in scope.setops;
      Some(scope.(shape := if scope.setops[0] == n then [] else s.scopes[scope.setops[0]].shape))
    else
      var columns := ColumnsOfSelect(schema, s.scopes, n, ps);
      if columns.None? then None
      else Some(scope.(shape := columns.value, produced := scope.produced + set p | p in ps && p.Named? :: p.name))
  }

  function Closed(s: State): (r: State)
    requires s.Fits() && |s.stack| > 1
    ensures r.Fits()
  {
    var rest := s.stack[..|s.stack| - 1];
    assert forall n :: n in rest ==> n in s.stack;
    s.(stack := rest)
  }

  /** One step; None stands for the end of the run. */
  function Next(schema: Option<Schema>, s: State, step: Step): (r: Option<State>)
    requires s.Fits()
    ensures r.Some? ==> r.value.Fits()
  {
    match step
    case Registering(t) => Some(Registered(s, t))
    case LookingUp(key) => Some(LookedUp(schema, s, key))
    case Opening(alias, source) => Some(Opened(s, alias, source))
    case Closing => if |s.stack| == 1 then None else Some(Closed(s))
    case Determining(ps) =>
      var after := Determined(schema, s, ps);
      if after.None? || Disturbs(schema, s, after.value) then None else Some(s.WithTop(after.value))
  }

  /** The answers to all lookups of a run. */
  function Answers(schema: Option<Schema>, s: State, steps: seq<Step>): seq<Option<TableRef>>
    requires s.Fits()
    decreases |steps|
  {
    if steps == [] then []
    else
      var now := if steps[0].LookingUp? then [Answer(schema, s, steps[0].key)] else [];
      var next := Next(schema, s, steps[0]);
      if next.None? then now else now + Answers(schema, next.value, steps[1..])
  }

  // ----- objects stand for values -----

  ghost predicate SameNames(ids: seq<QueryNamespace>, numbers: map<string, nat>, scopes: map<string, QueryNamespace>) {
    numbers.Keys == scopes.Keys && forall k :: k in numbers ==> numbers[k] < |ids| && scopes[k] == ids[numbers[k]]
  }

  ghost predicate Matches(ids: seq<QueryNamespace>, s: Scope, n: QueryNamespace)
    reads n
  {
    && (if s.parent.None? then n.parent == null else s.parent.value < |ids| && n.parent == ids[s.parent.value])
    && SameNames(ids, s.ctes, n.cteSources) && SameNames(ids, s.subqueries, n.subqueryChildren)
    && |s.setops| == |n.setopChildren|
    && (forall k :: 0 <= k < |s.setops| ==> s.setops[k] < |ids| && n.setopChildren[k] == ids[s.setops[k]])
    && n.currentCtx == s.ctx && n.outputShape == s.shape && n.producedColumns == s.produced
    && n.columnCache.Keys == s.asked
  }

  ghost predicate Represents(world: set<QueryNamespace>, ids: seq<QueryNamespace>, scopes: seq<Scope>)
    reads world
  {
    && |ids| == |scopes|
    && (forall i :: 0 <= i < |ids| ==> ids[i] in world && ids[i].Placed() && Matches(ids, scopes[i], ids[i]))
    && (forall i, j :: 0 <= i < |ids| && 0 <= j < |ids| && ids[i] == ids[j] ==> i == j)
    && (forall i :: 0 <= i < |scopes| ==> scopes[i].Fits(i, |scopes|))
  }

  function IdOf(ids: seq<QueryNamespace>, n: Option<nat>): Option<QueryNamespace> {
    if n.Some? && n.value < |ids| then Some(ids[n.value]) else None
  }

  lemma {:induction false} FindSame(world: set<QueryNamespace>, ids: seq<QueryNamespace>, scopes: seq<Scope>, n: nat,
      key: string)
    requires Represents(world, ids, scopes) && n < |ids|
    ensures Find(scopes, n, key).Some? ==> Find(scopes, n, key).value < |ids|
    ensures ids[n].LookupNamespace(key) == IdOf(ids, Find(scopes, n, key))
    decreases n
  {
    assert Matches(ids, scopes[n], ids[n]) && scopes[n].Fits(n, |scopes|);
    if key !in scopes[n].ctes && key !in scopes[n].subqueries && scopes[n].parent.Some? {
      FindSame(world, ids, scopes, scopes[n].parent.value, key);
    }
  }

  lemma {:induction false} OffersSame(world: set<QueryNamespace>, ids: seq<QueryNamespace>, scopes: seq<Scope>,
      f: Option<nat>, key: string, n: QueryNamespace)
    requires Represents(world, ids, scopes) && (f.Some? ==> f.value < |ids|)
    ensures n.ScopeProvides(IdOf(ids, f), ShapesOf(world), key) <==> Offers(scopes, f, key)
  {
    if f.Some? {
      assert Matches(ids, scopes[f.value], ids[f.value]);
    }
  }

  lemma {:induction false} TableOffersSame(world: set<QueryNamespace>, ids: seq<QueryNamespace>, scopes: seq<Scope>,
      n: nat, schema: Option<Schema>, t: TableRef, key: string)
    requires Represents(world, ids, scopes) && n < |ids|
    ensures ids[n].Provides(schema, ShapesOf(world), t, key) <==> TableOffers(schema, scopes, n, t, key)
  {
    var id := t.Identifier();
    var s, f := scopes[n], Find(scopes, n, id);
    FindSame(world, ids, scopes, n, id);
    OffersSame(world, ids, scopes, f, key, ids[n]);
    assert Matches(ids, s, ids[n]);
    if id in s.subqueries {
      OffersSame(world, ids, scopes, Some(s.subqueries[id]), key, ids[n]);
    }
    assert id in s.ctes ==> f == Some(s.ctes[id]);
    hide QueryNamespace.LookupNamespace;
    hide QueryNamespace.ScopeProvides;
    hide Offers;
    hide ShapesOf;
    hide QueryNamespace.Placed;
  }

  lemma {:induction false} FirstSame(world: set<QueryNamespace>, ids: seq<QueryNamespace>, scopes: seq<Scope>, n: nat,
      schema: Option<Schema>, ts: seq<TableRef>, key: string)
    requires Represents(world, ids, scopes) && n < |ids|
    ensures ids[n].FirstProviding(schema, ShapesOf(world), ts, key) == FirstOffering(schema, scopes, n, ts, key)
  {
    assert ids[n].Placed();
    if ts != [] {
      TableOffersSame(world, ids, scopes, n, schema, ts[0], key);
      FirstSame(world, ids, scopes, n, schema, ts[1..], key);
    }
    hide Represents;
    hide TableOffers;
    hide QueryNamespace.Provides;
    hide QueryNamespace.Placed;
  }

  ghost predicate SameFound(ids: seq<QueryNamespace>, f: Found, c: Collected) {
    f.names == c.names && (f.last.Some? ==> f.last.value < |ids|) && c.last == IdOf(ids, f.last)
  }

  lemma {:induction false} AddTableSame(world: set<QueryNamespace>, ids: seq<QueryNamespace>, scopes: seq<Scope>,
      n: nat, schema: Option<Schema>, f: Found, c: Collected, t: TableRef)
    requires Represents(world, ids, scopes) && n < |ids| && SameFound(ids, f, c)
    ensures var a, b := AddTable(schema, scopes, n, f, t), ids[n].TakeTable(schema, ShapesOf(world), c, t);
      (a.None? <==> b.None?) && (a.Some? ==> SameFound(ids, a.value, b.value))
  {
    FindSame(world, ids, scopes, n, t.alias);
    FindSame(world, ids, scopes, n, t.fullName);
    hide QueryNamespace.LookupNamespace;
    hide Find;
    assert ids[n].Resolve(t) == IdOf(ids, ScopeOf(scopes, n, t));
    var m := if t.alias == "" then f.last else ScopeOf(scopes, n, t);
    if m.Some? {
      assert Matches(ids, scopes[m.value], ids[m.value]);
    }
  }

  lemma {:induction false} AddTablesSame(world: set<QueryNamespace>, ids: seq<QueryNamespace>, scopes: seq<Scope>,
      n: nat, schema: Option<Schema>, f: Found, c: Collected, ts: seq<TableRef>)
    requires Represents(world, ids, scopes) && n < |ids| && SameFound(ids, f, c)
    ensures var a, b := AddTables(schema, scopes, n, f, ts), ids[n].TakeTables(schema, ShapesOf(world), c, ts);
      (a.None? <==> b.None?) && (a.Some? ==> SameFound(ids, a.value, b.value))
    decreases |ts|
  {
    assert ids[n].Placed();
    if ts != [] {
      AddTableSame(world, ids, scopes, n, schema, f, c, ts[0]);
      var a, b := AddTable(schema, scopes, n, f, ts[0]), ids[n].TakeTable(schema, ShapesOf(world), c, ts[0]);
      if a.Some? {
        AddTablesSame(world, ids, scopes, n, schema, a.value, b.value, ts[1..]);
      }
    }
    hide Represents;
    hide AddTable;
    hide SameFound;
    hide QueryNamespace.TakeTable;
    hide QueryNamespace.Placed;
  }

  lemma {:induction false} AddProjectionSame(world: set<QueryNamespace>, ids: seq<QueryNamespace>, scopes: seq<Scope>,
      n: nat, schema: Option<Schema>, f: Found, c: Collected, p: Projection)
    requires Represents(world, ids, scopes) && n < |ids| && SameFound(ids, f, c)
    ensures var a, b := AddProjection(schema, scopes, n, f, p), ids[n].TakeProjection(schema, ShapesOf(world), c, p);
      (a.None? <==> b.None?) && (a.Some? ==> SameFound(ids, a.value, b.value))
  {
    assert ids[n].Placed() && Matches(ids, scopes[n], ids[n]);
    if p.Star? {
      AddTablesSame(world, ids, scopes, n, schema, f, c, if p.table.Some? then [p.table.value] else scopes[n].ctx);
    }
    hide Represents;
    hide AddTables;
    hide QueryNamespace.TakeTables;
    hide QueryNamespace.Placed;
  }

  lemma {:induction false} AddAllSame(world: set<QueryNamespace>, ids: seq<QueryNamespace>, scopes: seq<Scope>,
      n: nat, schema: Option<Schema>, f: Found, c: Collected, ps: seq<Projection>)
    requires Represents(world, ids, scopes) && n < |ids| && SameFound(ids, f, c)
    ensures var a, b := AddAll(schema, scopes, n, f, ps), ids[n].TakeAll(schema, ShapesOf(world), c, ps);
      (a.None? <==> b.None?) && (a.Some? ==> SameFound(ids, a.value, b.value))
    decreases |ps|
  {
    assert ids[n].Placed();
    if ps != [] {
      AddProjectionSame(world, ids, scopes, n, schema, f, c, ps[0]);
      var a, b := AddProjection(schema, scopes, n, f, ps[0]), ids[n].TakeProjection(schema, ShapesOf(world), c, ps[0]);
      if a.Some? {
        AddAllSame(world, ids, scopes, n, schema, a.value, b.value, ps[1..]);
      }
    }
    hide Represents;
    hide AddProjection;
    hide SameFound;
    hide QueryNamespace.TakeProjection;
    hide QueryNamespace.Placed;
  }

  lemma {:induction false} ColumnsOfSelectSame(world: set<QueryNamespace>, ids: seq<QueryNamespace>,
      scopes: seq<Scope>, n: nat, schema: Option<Schema>, ps: seq<Projection>)
    requires Represents(world, ids, scopes) && n < |ids|
    ensures ids[n].SelectColumns(schema, ShapesOf(world), ps) == ColumnsOfSelect(schema, scopes, n, ps)
  {
    assert ids[n].Placed();
    AddAllSame(world, ids, scopes, n, schema, Found([], None), Collected([], None), ps);
    hide Represents;
    hide AddAll;
    hide QueryNamespace.TakeAll;
    hide QueryNamespace.Placed;
  }

  /** The scopes of a run are those of a state, and so is its stack. */
  ghost predicate Refines(run: ParserRun, ids: seq<QueryNamespace>, s: State)
    reads run, run.world, run.cache
  {
    run.Valid() && s.Fits() && Represents(run.world, ids, s.scopes) && StackIs(run.stack, ids, s.stack)
  }

  ghost predicate StackIs(stack: seq<QueryNamespace>, ids: seq<QueryNamespace>, numbers: seq<nat>) {
    |stack| == |numbers| && forall k :: 0 <= k < |numbers| ==> numbers[k] < |ids| && stack[k] == ids[numbers[k]]
  }

  /** Only the innermost scope has changed. */
  lemma {:induction false} RepresentsWith(world: set<QueryNamespace>, ids: seq<QueryNamespace>, s: State, scope: Scope)
    requires s.Fits() && scope.Fits(s.Top(), |s.scopes|) && |ids| == |s.scopes|
    requires forall i :: 0 <= i < |ids| ==> ids[i] in world && ids[i].Placed()
    requires forall i, j :: 0 <= i < |ids| && 0 <= j < |ids| && ids[i] == ids[j] ==> i == j
    requires forall i :: 0 <= i < |ids| && i != s.Top() ==> Matches(ids, s.scopes[i], ids[i])
    requires Matches(ids, scope, ids[s.Top()])
    ensures Represents(world, ids, s.WithTop(scope).scopes)
  {
    hide Matches;
    hide QueryNamespace.Placed;
    hide Scope.Fits;
  }

  /** More scopes do not matter to those that are there. */
  lemma {:induction false} MatchesMore(ids: seq<QueryNamespace>, child: QueryNamespace, scope: Scope, n: QueryNamespace)
    requires Matches(ids, scope, n)
    ensures Matches(ids + [child], scope, n)
  {}

  lemma {:induction false} OpenerMatches(ids: seq<QueryNamespace>, child: QueryNamespace, s: Scope, n: QueryNamespace,
      alias: string, source: Source, ctes: map<string, QueryNamespace>, subqueries: map<string, QueryNamespace>,
      setops: seq<QueryNamespace>)
    requires if s.parent.None? then n.parent == null else s.parent.value < |ids| && n.parent == ids[s.parent.value]
    requires SameNames(ids, s.ctes, ctes) && SameNames(ids, s.subqueries, subqueries) && |s.setops| == |setops|
    requires forall k :: 0 <= k < |s.setops| ==> s.setops[k] < |ids| && setops[k] == ids[s.setops[k]]
    requires n.cteSources == if source == Cte then ctes[alias := child] else ctes
    requires n.subqueryChildren == if source in {Subquery, Values} then subqueries[alias := child] else subqueries
    requires n.currentCtx == s.ctx + if source in {Subquery, Values} then [VirtualTable(alias)] else []
    requires n.setopChildren == setops + if source == SetOp then [child] else []
    requires n.outputShape == s.shape && n.producedColumns == s.produced
    requires n.columnCache.Keys == if source == Temporary then s.asked else {}
    ensures Matches(ids + [child], Opener(s, alias, source, |ids|), n)
  {}

  /** A scope has joined. */
  lemma {:induction false} RepresentsChild(world: set<QueryNamespace>, ids: seq<QueryNamespace>, child: QueryNamespace,
      scopes: seq<Scope>, opener: Scope, n: nat, last: Scope)
    requires |ids| == |scopes| && n < |ids| && child !in ids && child in world && child.Placed()
    requires forall i :: 0 <= i < |ids| ==> ids[i] in world && ids[i].Placed()
    requires forall i, j :: 0 <= i < |ids| && 0 <= j < |ids| && ids[i] == ids[j] ==> i == j
    requires forall i :: 0 <= i < |ids| && i != n ==> Matches(ids, scopes[i], ids[i])
    requires Matches(ids + [child], opener, ids[n]) && Matches(ids + [child], last, child)
    requires var all := scopes[n := opener] + [last]; forall i :: 0 <= i < |all| ==> all[i].Fits(i, |all|)
    ensures Represents(world, ids + [child], scopes[n := opener] + [last])
  {
    hide Scope.Fits;
    hide QueryNamespace.Placed;
    forall i | 0 <= i < |ids| && i != n ensures Matches(ids + [child], scopes[i], ids[i]) {
      MatchesMore(ids, child, scopes[i], ids[i]);
    }
    hide Matches;
  }

  /** What a step needs to know about the scopes. */
  lemma {:induction false} Unfold(run: ParserRun, ids: seq<QueryNamespace>, s: State)
    requires Refines(run, ids, s)
    ensures run.Valid() && s.Fits() && |ids| == |s.scopes| && run.stack != [] && run.Top() == ids[s.Top()]
    ensures forall i :: 0 <= i < |ids| ==> ids[i] in run.world && ids[i].Placed() && Matches(ids, s.scopes[i], ids[i])
    ensures forall i, j :: 0 <= i < |ids| && 0 <= j < |ids| && ids[i] == ids[j] ==> i == j
    ensures StackIs(run.stack, ids, s.stack) && Represents(run.world, ids, s.scopes)
  {
    hide ParserRun.Valid;
    hide Matches;
    hide QueryNamespace.Placed;
  }

  method Register(run: ParserRun, table: TableRef, ghost ids: seq<QueryNamespace>, ghost s: State)
    requires Refines(run, ids, s)
    modifies run.Top()`columnCache, run.Top()`currentCtx, run.Top()`tableSources
    ensures run.stack == old(run.stack) && run.world == old(run.world) && Refines(run, ids, Registered(s, table))
  {
    Unfold(run, ids, s);
    ghost var scope := s.Innermost();
    run.Register(table);
    hide ParserRun.Valid;
    hide QueryNamespace.Placed;
    RepresentsWith(run.world, ids, s, scope.(ctx := scope.ctx + [table], asked := {}));
  }

  method LookUp(run: ParserRun, key: string, ghost ids: seq<QueryNamespace>, ghost s: State)
    returns (table: Option<TableRef>)
    requires Refines(run, ids, s)
    modifies run.Top()`columnCache, run.cache`lookupCache
    ensures run.stack == old(run.stack) && run.world == old(run.world)
    ensures table == Answer(run.cache.schema, s, key) && Refines(run, ids, LookedUp(run.cache.schema, s, key))
  {
    hide *;
    Unfold(run, ids, s);
    ghost var n, scope := s.Top(), s.Innermost();
    InnermostIs(s);
    MatchesParts(ids, scope, run.Top());
    SearchIs(run, ids, s, key);
    table := run.Lookup(key);
    LookedUpIs(run.cache.schema, s, key);
    ghost var after := scope.(asked := scope.asked + if table.Some? then {key} else {});
    MatchesBy(ids, after, run.Top());
    RepresentsWith(run.world, ids, s, after);
    RefinesBy(run, ids, LookedUp(run.cache.schema, s, key));
  }

  method Close(run: ParserRun, ghost ids: seq<QueryNamespace>, ghost s: State)
    requires Refines(run, ids, s) && |run.stack| > 1
    modifies run`stack
    ensures run.world == old(run.world) && Refines(run, ids, Closed(s))
  {
    run.Close();
    hide ParserRun.Valid;
    hide QueryNamespace.Placed;
    hide Matches;
  }

  method Open(run: ParserRun, alias: string, source: Source, ghost ids: seq<QueryNamespace>, ghost s: State)
    requires Refines(run, ids, s)
    modifies run, run.Top()`columnCache, run.Top()`cteSources, run.Top()`subqueryChildren, run.Top()`currentCtx
    modifies run.Top()`tableSources, run.Top()`setopChildren
    ensures run.Valid() && run.stack == old(run.stack) + [run.Top()] && fresh(run.Top())
    ensures run.world == old(run.world) + {run.Top()}
    ensures Refines(run, ids + [run.Top()], Opened(s, alias, source))
  {
    hide *;
    Unfold(run, ids, s);
    ghost var n, r, scope := s.Top(), Opened(s, alias, source), s.Innermost();
    OpenedIs(s, alias, source);
    MatchesParts(ids, scope, run.Top());
    ghost var known := run.stack;
    run.Open(alias, source);
    ghost var child, opener := run.Top(), Opener(scope, alias, source, |ids|);
    NewIsPlaced(run);
    OpenerMatches(ids, child, scope, ids[n], alias, source, old(run.Top().cteSources), old(run.Top().subqueryChildren),
                  old(run.Top().setopChildren));
    NewMatches(ids, child, n);
    RepresentsChild(run.world, ids, child, s.scopes, opener, n, NewScope(Some(n)));
    PushedStack(run, known, ids, child, s, r);
    RefinesBy(run, ids + [child], r);
  }

  lemma {:induction false} OpenedIs(s: State, alias: string, source: Source)
    requires s.Fits()
    ensures var n, r := s.Top(), Opened(s, alias, source);
      && r.Fits() && s.scopes[n] == s.Innermost() && r.stack == s.stack + [|s.scopes|]
      && r.scopes == s.scopes[n := Opener(s.Innermost(), alias, source, |s.scopes|)] + [NewScope(Some(n))]
      && forall i :: 0 <= i < |r.scopes| ==> r.scopes[i].Fits(i, |r.scopes|)
  {
    hide Opener;
    hide Scope.Fits;
  }

  lemma {:induction false} MatchesParts(ids: seq<QueryNamespace>, s: Scope, n: QueryNamespace)
    requires Matches(ids, s, n)
    ensures if s.parent.None? then n.parent == null else s.parent.value < |ids| && n.parent == ids[s.parent.value]
    ensures SameNames(ids, s.ctes, n.cteSources) && SameNames(ids, s.subqueries, n.subqueryChildren)
    ensures |s.setops| == |n.setopChildren|
    ensures forall k :: 0 <= k < |s.setops| ==> s.setops[k] < |ids| && n.setopChildren[k] == ids[s.setops[k]]
    ensures n.currentCtx == s.ctx && n.outputShape == s.shape && n.producedColumns == s.produced
    ensures n.columnCache.Keys == s.asked
  {
    hide SameNames;
  }

  lemma {:induction false} MatchesBy(ids: seq<QueryNamespace>, s: Scope, n: QueryNamespace)
    requires if s.parent.None? then n.parent == null else s.parent.value < |ids| && n.parent == ids[s.parent.value]
    requires SameNames(ids, s.ctes, n.cteSources) && SameNames(ids, s.subqueries, n.subqueryChildren)
    requires |s.setops| == |n.setopChildren|
    requires forall k :: 0 <= k < |s.setops| ==> s.setops[k] < |ids| && n.setopChildren[k] == ids[s.setops[k]]
    requires n.currentCtx == s.ctx && n.outputShape == s.shape && n.producedColumns == s.produced
    requires n.columnCache.Keys == s.asked
    ensures Matches(ids, s, n)
  {
    hide SameNames;
  }

  lemma {:induction false} InnermostIs(s: State)
    requires s.Fits()
    ensures s.Innermost() == s.scopes[s.Top()] && s.Innermost().Fits(s.Top(), |s.scopes|)
  {
    hide Scope.Fits;
  }

  lemma {:induction false} LookedUpIs(schema: Option<Schema>, s: State, key: string)
    requires s.Fits()
    ensures var scope := s.Innermost();
      var after := scope.(asked := scope.asked + if Answer(schema, s, key).Some? then {key} else {});
      && after.Fits(s.Top(), |s.scopes|)
      && LookedUp(schema, s, key) == s.WithTop(after) && s.WithTop(after).stack == s.stack
  {
    hide Answer;
  }

  /** The search through the objects answers as that through the values. */
  lemma {:induction false} SearchIs(run: ParserRun, ids: seq<QueryNamespace>, s: State, key: string)
    requires Refines(run, ids, s)
    ensures run.stack != [] && run.Top().Placed()
    ensures Answer(run.cache.schema, s, key) == if key in run.Top().producedColumns then None
      else run.Top().Scan(run.cache.schema, ShapesOf(run.world), key)
  {
    Unfold(run, ids, s);
    MatchesParts(ids, s.scopes[s.Top()], run.Top());
    FirstSame(run.world, ids, s.scopes, s.Top(), run.cache.schema, s.scopes[s.Top()].ctx, key);
    hide Refines;
    hide Matches;
    hide Represents;
    hide ParserRun.Valid;
    hide FirstOffering;
    hide QueryNamespace.FirstProviding;
  }

  lemma {:induction false} NewMatches(ids: seq<QueryNamespace>, child: QueryNamespace, n: nat)
    requires n < |ids| && child.parent == ids[n]
    requires child.currentCtx == [] && child.columnCache == map[] && child.outputShape == []
    requires child.cteSources == map[] && child.subqueryChildren == map[] && child.setopChildren == []
    requires child.producedColumns == {}
    ensures Matches(ids + [child], NewScope(Some(n)), child)
  {}

  lemma {:induction false} PushedStack(run: ParserRun, known: seq<QueryNamespace>, ids: seq<QueryNamespace>,
      child: QueryNamespace, s: State, r: State)
    requires StackIs(known, ids, s.stack)
    requires run.stack == known + [child] && r.stack == s.stack + [|ids|]
    ensures StackIs(run.stack, ids + [child], r.stack)
  {}

  lemma {:induction false} RefinesBy(run: ParserRun, ids: seq<QueryNamespace>, s: State)
    requires run.Valid() && s.Fits() && Represents(run.world, ids, s.scopes) && StackIs(run.stack, ids, s.stack)
    ensures Refines(run, ids, s)
  {
    hide ParserRun.Valid;
    hide Represents;
    hide State.Fits;
  }

  lemma {:induction false} NewIsPlaced(run: ParserRun)
    requires run.Valid()
    ensures run.Top().Placed() && run.Top() in run.world
  {
    assert run.Top() in run.stack && run.WellPlaced(run.Top());
  }

  /** The scope's cache stays right iff its new columns overtake none of the columns that it may be asked for. */
  lemma {:induction false} CacheStaysExactly(world: set<QueryNamespace>, ids: seq<QueryNamespace>,
      schema: Option<Schema>,
      s: State, after: Scope)
    requires s.Fits() && after.Fits(s.Top(), |s.scopes|) && Represents(world, ids, s.WithTop(after).scopes)
    requires OnlyShape(s.scopes, s.WithTop(after).scopes, s.Top()) && after.asked == s.Innermost().asked
    requires var cache := ids[s.Top()].columnCache;
      forall k :: k in cache && k !in after.produced ==>
        FirstOffering(schema, s.scopes, s.Top(), after.ctx, k) == Some(cache[k])
    ensures ids[s.Top()].Placed()
    ensures ids[s.Top()].CacheOk(schema, ShapesOf(world)) <==> !Disturbs(schema, s, after)
  {
    var n, other := s.Top(), s.WithTop(after).scopes;
    var top := ids[n];
    assert Matches(ids, other[n], top);
    hide FirstOffering;
    hide Overtakes;
    hide QueryNamespace.FirstProviding;
    hide QueryNamespace.Placed;
    forall k | k in top.columnCache && k !in after.produced
      ensures top.Scan(schema, ShapesOf(world), k) != Some(top.columnCache[k]) <==>
        Overtakes(schema, s.scopes, n, after.shape, k)
    {
      FirstSame(world, ids, other, n, schema, after.ctx, k);
      OvertakesExactly(schema, s.scopes, other, n, k);
    }
    assert top.producedColumns == after.produced && top.columnCache.Keys == s.Innermost().asked;
    hide Represents;
    hide Matches;
  }

  /** The columns of the innermost scope are determined as in the scopes without caches. All caches are right afterwards
      iff the new columns disturb no answer. */
  method Determine(run: ParserRun, ps: seq<Projection>, ghost ids: seq<QueryNamespace>, ghost s: State)
    returns (ok: bool)
    requires Refines(run, ids, s)
    modifies run.Top()`outputShape, run.Top()`producedColumns, run.cache`lookupCache
    ensures run.stack == old(run.stack) && run.world == old(run.world)
    ensures ok <==> Determined(run.cache.schema, s, ps).Some?
    ensures ok ==> (run.Valid() <==> !Disturbs(run.cache.schema, s, Determined(run.cache.schema, s, ps).value))
    ensures ok && run.Valid() ==> Refines(run, ids, s.WithTop(Determined(run.cache.schema, s, ps).value))
  {
    hide *;
    Unfold(run, ids, s);
    ghost var schema := run.cache.schema;
    ghost var n, scope, r := s.Top(), s.Innermost(), Determined(schema, s, ps);
    InnermostIs(s);
    DeterminedIs(schema, s, ps);
    MatchesParts(ids, scope, run.Top());
    ColumnsOfSelectSame(run.world, ids, s.scopes, n, schema, ps);
    CachedIsFound(run, ids, s);
    SetopDiffers(run, ids, s);
    if scope.setops != [] {
      MatchesParts(ids, s.scopes[scope.setops[0]], ids[scope.setops[0]]);
    }
    ok := run.Determine(ps);
    if ok {
      MatchesBy(ids, r.value, run.Top());
      RepresentsWith(run.world, ids, s, r.value);
      WithTopIs(s, r.value);
      CacheStaysExactly(run.world, ids, schema, s, r.value);
      if run.Valid() {
        RefinesBy(run, ids, s.WithTop(r.value));
      }
    }
  }

  lemma {:induction false} DeterminedIs(schema: Option<Schema>, s: State, ps: seq<Projection>)
    requires s.Fits()
    ensures var n, scope, r := s.Top(), s.Innermost(), Determined(schema, s, ps);
      && (r.Some? ==> r.value.Fits(n, |s.scopes|))
      && (r.Some? ==> r.value == scope.(shape := r.value.shape, produced := r.value.produced))
      && (scope.setops == [] ==>
            var columns := ColumnsOfSelect(schema, s.scopes, n, ps);
            && (r.Some? <==> columns.Some?)
            && (r.Some? ==> r.value.shape == columns.value && r.value.produced == scope.produced + NamesIn(ps)))
      && (scope.setops != [] ==>
            && scope.setops[0] < |s.scopes| && r.Some? && r.value.produced == scope.produced
            && (scope.setops[0] != n ==> r.value.shape == s.scopes[scope.setops[0]].shape))
  {
    hide ColumnsOfSelect;
    var scope := s.Innermost();
    if scope.setops != [] {
      assert scope.setops[0] in scope.setops;
    }
  }

  lemma {:induction false} WithTopIs(s: State, scope: Scope)
    requires s.Fits() && scope.Fits(s.Top(), |s.scopes|)
    requires scope == s.Innermost().(shape := scope.shape, produced := scope.produced)
    ensures s.WithTop(scope).stack == s.stack && s.WithTop(scope).Fits()
    ensures OnlyShape(s.scopes, s.WithTop(scope).scopes, s.Top())
  {
    hide Scope.Fits;
  }

  lemma {:induction false} SetopDiffers(run: ParserRun, ids: seq<QueryNamespace>, s: State)
    requires Refines(run, ids, s)
    ensures s.Innermost().setops != [] ==> s.Innermost().setops[0] != s.Top()
  {
    Unfold(run, ids, s);
    assert Matches(ids, s.Innermost(), run.Top());
    run.SetopIsAnother();
    hide Represents;
  }

  /** What is cached is what the search without caches finds. */
  lemma {:induction false} CachedIsFound(run: ParserRun, ids: seq<QueryNamespace>, s: State)
    requires Refines(run, ids, s)
    ensures run.stack != []
    ensures var cache := run.Top().columnCache;
      forall k :: k in cache && k !in s.Innermost().produced ==>
        FirstOffering(run.cache.schema, s.scopes, s.Top(), s.Innermost().ctx, k) == Some(cache[k])
  {
    Unfold(run, ids, s);
    var n, top := s.Top(), run.Top();
    assert top in run.stack && top.CacheOk(run.cache.schema, ShapesOf(run.world));
    assert Matches(ids, s.scopes[n], top);
    hide FirstOffering;
    hide QueryNamespace.FirstProviding;
    forall k | k in top.columnCache && k !in s.Innermost().produced
      ensures FirstOffering(run.cache.schema, s.scopes, n, s.Innermost().ctx, k) == Some(top.columnCache[k])
    {
      FirstSame(run.world, ids, s.scopes, n, run.cache.schema, top.currentCtx, k);
    }
  }

  /** One step of a run. */
  method Take(run: ParserRun, step: Step, ghost ids: seq<QueryNamespace>, ghost s: State)
    returns (now: seq<Option<TableRef>>, ghost more: seq<QueryNamespace>)
    requires Refines(run, ids, s) && Next(run.cache.schema, s, step).Some?
    modifies run, run.world, run.cache`lookupCache
    ensures fresh(run.world - old(run.world))
    ensures now == if step.LookingUp? then [Answer(run.cache.schema, s, step.key)] else []
    ensures Refines(run, more, Next(run.cache.schema, s, step).value)
  {
    now, more := [], ids;
    Unfold(run, ids, s);
    hide ParserRun.Valid;
    hide Represents;
    hide Matches;
    hide QueryNamespace.Placed;
    hide Disturbs;
    match step {
      case Registering(table) =>
        Register(run, table, ids, s);
      case LookingUp(key) =>
        var table := LookUp(run, key, ids, s);
        now := [table];
      case Opening(alias, source) =>
        Open(run, alias, source, ids, s);
        more := ids + [run.Top()];
      case Closing =>
        Close(run, ids, s);
      case Determining(ps) =>
        var ok := Determine(run, ps, ids, s);
    }
  }

  /** Every run of the parser answers all lookups as the scopes without caches do. It ends where it would leave the
      outermost scope, cannot determine columns, or disturbs an answer. */
  method Run(schema: Option<Schema>, steps: seq<Step>) returns (answers: seq<Option<TableRef>>)
    ensures answers == Answers(schema, INITIAL, steps)
  {
    hide *;
    var cache := new SchemaCache(schema);
    var run := new ParserRun(cache);
    InitialFits();
    StartRefines(run);
    var s := INITIAL;
    ghost var ids := [run.Top()];
    answers := [];
    assert steps[0..] == steps;
    for i := 0 to |steps|
      invariant fresh(run) && fresh(run.world) && fresh(run.cache) && run.cache.schema == schema
      invariant s.Fits() && Refines(run, ids, s)
      invariant Answers(schema, INITIAL, steps) == answers + Answers(schema, s, steps[i..])
    {
      AnswersStep(schema, s, steps, i);
      var next := Next(schema, s, steps[i]);
      if next.None? {
        LastAnswer(schema, s, steps[i]);
        return;
      }
      ghost var before := answers;
      var now, more := Take(run, steps[i], ids, s);
      answers := answers + now;
      ids, s := more, next.value;
      assert answers + Answers(schema, s, steps[i + 1..]) == before + (now + Answers(schema, s, steps[i + 1..]));
    }
    assert steps[|steps|..] == [];
    NoAnswers(schema, s);
  }

  lemma {:induction false} InitialFits()
    ensures INITIAL.Fits()
  {}

  lemma {:induction false} LastAnswer(schema: Option<Schema>, s: State, step: Step)
    requires s.Fits() && Next(schema, s, step).None?
    ensures !step.LookingUp?
  {}

  lemma {:induction false} AnswersStep(schema: Option<Schema>, s: State, steps: seq<Step>, i: nat)
    requires s.Fits() && i < |steps|
    ensures var now := if steps[i].LookingUp? then [Answer(schema, s, steps[i].key)] else [];
      var next := Next(schema, s, steps[i]);
      Answers(schema, s, steps[i..]) == now + if next.None? then [] else Answers(schema, next.value, steps[i + 1..])
  {
    assert steps[i..][0] == steps[i] && steps[i..][1..] == steps[i + 1..];
    hide Next;
    hide Answer;
    hide State.Fits;
  }

  lemma {:induction false} NoAnswers(schema: Option<Schema>, s: State)
    requires s.Fits()
    ensures Answers(schema, s, []) == []
  {}

  lemma {:induction false} StartRefines(run: ParserRun)
    requires run.Valid() && |run.stack| == 1 && run.Top().parent == null
    requires run.Top().currentCtx == [] && run.Top().cteSources == map[] && run.Top().subqueryChildren == map[]
    requires run.Top().outputShape == [] && run.Top().producedColumns == {} && run.Top().setopChildren == []
    requires run.Top().columnCache == map[]
    ensures Refines(run, [run.Top()], INITIAL)
  {
    NewIsPlaced(run);
    assert Matches([run.Top()], INITIAL.scopes[0], run.Top());
    hide ParserRun.Valid;
  }

  // ----- a scope that refers to itself -----

  /** A recursive scope has been asked for a column. */
  function RecursiveState(): (s: State)
    ensures s.Fits()
  {
    LookedUp(CATALOG, Registered(Registered(Opened(INITIAL, "c", Cte), RECURSIVE), PHYSICAL), "x")
  }

  /** Once the columns of a recursive scope are known, the scope itself is the first to provide them. */
  lemma {:induction false} RecursiveScopeMoves()
    ensures var s, ps := RecursiveState(), [ColumnOf("x")];
      && Answer(CATALOG, s, "x") == Some(PHYSICAL)
      && Determined(CATALOG, s, ps).Some?
      && Disturbs(CATALOG, s, Determined(CATALOG, s, ps).value)
      && Answer(CATALOG, s.WithTop(Determined(CATALOG, s, ps).value), "x") == Some(RECURSIVE)
  {
    var s, ps := RecursiveState(), [ColumnOf("x")];
    var inner := RecursiveStateIs();
    RecursiveAnswer(s.scopes);
    RecursiveColumns(s, inner);
    var after := Determined(CATALOG, s, ps).value;
    RecursiveAnswer(s.WithTop(after).scopes);
    hide FirstOffering;
    hide Find;
    hide Overtakes;
    OvertakesExactly(CATALOG, s.scopes, s.WithTop(after).scopes, 1, "x");
  }

  lemma {:induction false} RecursiveStateIs() returns (inner: Scope)
    ensures inner == NewScope(Some(0)).(ctx := [RECURSIVE, PHYSICAL], asked := {"x"})
    ensures RecursiveState() == State([NewScope(None).(ctes := map["c" := 1]), inner], [0, 1])
  {
    var asking := AskingStateIs();
    inner := asking.scopes[1];
    RecursiveAnswer(asking.scopes);
    hide FirstOffering;
    assert Answer(CATALOG, asking, "x") == Some(PHYSICAL);
    assert inner.asked + {"x"} == {"x"};
    inner := inner.(asked := {"x"});
    assert LookedUp(CATALOG, asking, "x").scopes == [asking.scopes[0], inner];
  }

  lemma {:induction false} AskingStateIs() returns (asking: State)
    ensures asking.Fits() && asking == Registered(Registered(Opened(INITIAL, "c", Cte), RECURSIVE), PHYSICAL)
    ensures asking.stack == [0, 1] && asking.scopes ==
      [NewScope(None).(ctes := map["c" := 1]), NewScope(Some(0)).(ctx := [RECURSIVE, PHYSICAL])]
  {
    var nested := Opened(INITIAL, "c", Cte);
    assert nested.scopes == [NewScope(None).(ctes := map["c" := 1]), NewScope(Some(0))] && nested.stack == [0, 1];
    asking := Registered(Registered(nested, RECURSIVE), PHYSICAL);
    assert asking.scopes[1].ctx == [] + [RECURSIVE] + [PHYSICAL] == [RECURSIVE, PHYSICAL];
  }

  lemma {:induction false} RecursiveColumns(s: State, inner: Scope)
    requires s.Fits() && s.stack == [0, 1] && |s.scopes| == 2 && s.scopes[1] == inner
    requires inner.setops == [] && inner.produced == {}
    ensures Determined(CATALOG, s, [ColumnOf("x")]) == Some(inner.(shape := ["x"]))
  {
    var ps := [ColumnOf("x")];
    assert ps[1..] == [] && [] + ["x"] == ["x"];
    assert AddAll(CATALOG, s.scopes, 1, Found(["x"], None), []) == Some(Found(["x"], None));
    assert NamesIn(ps) == {} && inner.produced + {} == inner.produced;
    hide State.Fits;
    hide Scope.Fits;
  }

  lemma {:induction false} RecursiveAnswer(scopes: seq<Scope>)
    requires |scopes| == 2 && scopes[0].ctes == map["c" := 1] && scopes[1].parent == Some(0)
    requires scopes[1].ctes == map[] && scopes[1].subqueries == map[] && scopes[1].ctx == [RECURSIVE, PHYSICAL]
    ensures Find(scopes, 1, "c") == Some(1)
    ensures FirstOffering(CATALOG, scopes, 1, scopes[1].ctx, "x")
         == Some(if "x" in scopes[1].shape then RECURSIVE else PHYSICAL)
  {
    assert Find(scopes, 0, "c") == Some(1);
    assert Defines(CATALOG, "x", PHYSICAL);
    assert TableOffers(CATALOG, scopes, 1, PHYSICAL, "x");
    assert TableOffers(CATALOG, scopes, 1, RECURSIVE, "x") <==> "x" in scopes[1].shape;
    hide TableOffers;
    assert scopes[1].ctx[1..] == [PHYSICAL];
  }
}
