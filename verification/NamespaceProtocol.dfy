/** Runs of the parser over nested query scopes. */
module NamespaceProtocol {
  import opened Sql
  import opened Namespace

  /** The scopes that are being parsed, from the outermost to the innermost: a nested scope is opened, parsed and
      left again before the parser goes on with the scope around it. */
  class ParserRun {
    const cache: SchemaCache
    var stack: seq<QueryNamespace>
    ghost var world: set<QueryNamespace>

    /** Scopes are named by the scope they are opened in; the stack leads from a scope to its parents. */
    ghost predicate Structured()
      reads this, world`cteSources, world`subqueryChildren, world`setopChildren
    {
      && stack != []
      && (forall n :: n in stack ==> n in world)
      && (forall i :: 0 < i < |stack| ==> stack[i].parent == stack[i - 1])
      && forall n :: n in world ==> WellPlaced(n)
    }

    ghost predicate WellPlaced(n: QueryNamespace)
      requires n in world
      reads this`world, n`cteSources, n`subqueryChildren, n`setopChildren
    {
      && n.Placed() && n.cache == cache && n.ancestors <= world
      && (forall c :: c in n.cteSources.Values ==> c in world && c.parent == n)
      && (forall c :: c in n.subqueryChildren.Values ==> c in world && c.parent == n)
      && (forall c :: c in n.setopChildren ==> c in world && c.parent == n)
    }

    ghost predicate Names(n: QueryNamespace, c: QueryNamespace)
      reads n`cteSources, n`subqueryChildren
    {
      c in n.cteSources.Values || c in n.subqueryChildren.Values
    }

    /** Every cache on the stack answers as the search does; a scope around an unfinished scope that it names has
        nothing cached. */
    ghost predicate CachesOk()
      requires Structured()
      reads this, world, cache
    {
      && cache.Valid()
      && (forall n :: n in stack ==> n.CacheOk(cache.schema, ShapesOf(world)))
      && forall i :: 0 < i < |stack| && Names(stack[i - 1], stack[i]) ==> stack[i - 1].columnCache == map[]
    }

    ghost predicate Valid()
      reads this, world, cache
    {
      Structured() && CachesOk()
    }

    function Top(): QueryNamespace
      requires stack != []
      reads this`stack
    {
      stack[|stack| - 1]
    }

    constructor (cache: SchemaCache)
      requires cache.Valid()
      ensures Valid() && this.cache == cache && |stack| == 1 && fresh(world)
      ensures Top().currentCtx == [] && Top().cteSources == map[] && Top().subqueryChildren == map[]
      ensures Top().columnCache == map[] && Top().outputShape == [] && Top().producedColumns == {}
      ensures Top().setopChildren == [] && Top().parent == null
    {
      this.cache := cache;
      new;
      var root := new QueryNamespace(cache, null);
      stack := [root];
      world := {root};
    }

    lemma {:induction false} LowerIsAncestor(i: nat, j: nat)
      requires Structured() && i < j < |stack|
      ensures stack[i] in stack[j].ancestors && stack[i].depth < stack[j].depth
      decreases j
    {
      assert stack[j] in stack && stack[j - 1] in stack;
      assert WellPlaced(stack[j]) && stack[j].Placed();
      if i < j - 1 {
        LowerIsAncestor(i, j - 1);
      }
    }

    lemma {:induction false} ScopesSeeTheWorld(n: QueryNamespace)
      requires Structured() && n in world
      ensures n.Placed() && n.SeesOnly(world)
    {
      assert WellPlaced(n);
      forall m | m in n.ancestors + {n} ensures m.cteSources.Values <= world && m.subqueryChildren.Values <= world {
        assert WellPlaced(m);
      }
    }

    /** A scope below the top of the stack does not see the top, unless it is its parent and names it. */
    lemma {:induction false} TopIsUnseen(i: nat)
      requires Structured() && i < |stack| - 1
      requires i < |stack| - 2 || !Names(stack[i], Top())
      ensures stack[i].DoesNotSee(Top())
    {
      var n, top, above := stack[i], Top(), stack[|stack| - 2];
      assert n in stack && top in stack && above in stack;
      assert WellPlaced(n) && top.parent == above;
      forall m | m in n.ancestors + {n} ensures top !in m.cteSources.Values && top !in m.subqueryChildren.Values {
        assert WellPlaced(m);
        if m in n.ancestors {
          n.AncestorsAreHigher(m);
        }
        if i < |stack| - 2 {
          LowerIsAncestor(i, |stack| - 2);
        }
        assert m == above ==> m == n && i == |stack| - 2;
      }
    }

    lemma {:induction false} StackIsDistinct(i: nat, j: nat)
      requires Structured() && i < |stack| && j < |stack| && stack[i] == stack[j]
      ensures i == j
    {
      if i < j {
        LowerIsAncestor(i, j);
      } else if j < i {
        LowerIsAncestor(j, i);
      }
    }

    /** What a valid run consists of. */
    lemma {:induction false} Parts()
      requires Valid()
      ensures stack != [] && Top() == stack[|stack| - 1] && Top() in stack && cache.Valid() && Structured()
      ensures forall n :: n in stack ==> n in world && n.Placed() && n.SeesOnly(world) && WellPlaced(n)
      ensures forall n :: n in stack ==> n.CacheOk(cache.schema, ShapesOf(world))
      ensures forall n :: n in world ==> WellPlaced(n)
      ensures forall i :: 0 < i < |stack| ==> stack[i].parent == stack[i - 1]
      ensures forall i :: 0 < i < |stack| && Names(stack[i - 1], stack[i]) ==> stack[i - 1].columnCache == map[]
    {
      hide QueryNamespace.Placed;
      hide QueryNamespace.CacheOk;
      hide QueryNamespace.SeesOnly;
      hide WellPlaced;
      hide Names;
      hide ShapesOf;
      forall n | n in stack ensures n.Placed() && n.SeesOnly(world) {
        ScopesSeeTheWorld(n);
      }
    }

    lemma {:induction false} ValidBy()
      requires stack != [] && cache.Valid()
      requires forall n :: n in stack ==> n in world && n.Placed() && n.CacheOk(cache.schema, ShapesOf(world))
      requires forall n :: n in world ==> WellPlaced(n)
      requires forall i :: 0 < i < |stack| ==> stack[i].parent == stack[i - 1]
      requires forall i :: 0 < i < |stack| && Names(stack[i - 1], stack[i]) ==> stack[i - 1].columnCache == map[]
      ensures Valid()
    {
      hide QueryNamespace.Placed;
      hide QueryNamespace.CacheOk;
      hide WellPlaced;
      hide Names;
      hide ShapesOf;
    }

    // ----- operations on the innermost scope -----

    method Register(table: TableRef)
      requires Valid()
      modifies Top()`columnCache, Top()`currentCtx, Top()`tableSources
      ensures Valid() && stack == old(stack) && world == old(world)
      ensures Top().currentCtx == old(Top().currentCtx) + [table] && Top().columnCache == map[]
    {
      hide *;
      Parts();
      var top := Top();
      top.RegisterTable(table);
      NothingCached(top);
      ValidBy();
      Parts();
    }

    /** The answer of the cache is the answer of the search, in every reachable state. */
    method Lookup(key: string) returns (table: Option<TableRef>)
      requires Valid()
      modifies Top()`columnCache, cache`lookupCache
      ensures Valid() && stack == old(stack) && world == old(world) && Top().Placed()
      ensures table == if key in Top().producedColumns then None else Top().Scan(cache.schema, ShapesOf(world), key)
      ensures Top().columnCache.Keys == old(Top().columnCache).Keys + if table.Some? then {key} else {}
    {
      hide *;
      Parts();
      var top := Top();
      PlacedInCache(top);
      table := top.LookupColumn(key, world);
      forall i | 0 < i < |stack| && Names(stack[i - 1], stack[i]) ensures stack[i - 1].columnCache == map[] {
        if stack[i - 1] == top {
          StackIsDistinct(i - 1, |stack| - 1);
        }
      }
      ValidBy();
      Parts();
    }

    lemma {:induction false} PlacedInCache(n: QueryNamespace)
      requires n in world && WellPlaced(n)
      ensures n.cache == cache
    {
      hide QueryNamespace.Placed;
    }

    lemma {:induction false} TopIsNoAncestor(i: nat)
      requires Structured() && i < |stack| - 1
      ensures Top() !in stack[i].ancestors + {stack[i]}
    {
      hide *;
      LowerIsAncestor(i, |stack| - 1);
      StackIsPlaced(i);
      TopIsLast();
      if Top() in stack[i].ancestors {
        stack[i].AncestorsAreHigher(Top());
      }
    }

    lemma {:induction false} StackIsPlaced(i: nat)
      requires Structured() && i < |stack|
      ensures stack[i] in world && stack[i].Placed()
    {
      assert stack[i] in stack && WellPlaced(stack[i]);
      hide QueryNamespace.Placed;
    }

    lemma {:induction false} TopIsLast()
      requires stack != []
      ensures Top() == stack[|stack| - 1]
    {}

    /** A cache answers as before if only the shape of a scope has changed that it does not see. */
    lemma {:induction false} CacheStays(n: QueryNamespace, c: QueryNamespace, seen: set<QueryNamespace>, shapes: Shapes)
      requires n.Placed() && n.SeesOnly(seen) && n.CacheOk(cache.schema, shapes) && seen <= world
      requires n.columnCache == map[] || forall t :: t in n.currentCtx ==> n.Avoids(t, c)
      requires forall m :: m in seen && m != c ==> m in shapes && shapes[m] == m.outputShape
      ensures n.CacheOk(cache.schema, ShapesOf(world))
    {
      if n.columnCache != map[] {
        n.CacheStaysOk(seen, c, cache.schema, shapes, ShapesOf(world));
      }
    }

    lemma {:induction false} UnseenIsAvoided(n: QueryNamespace, c: QueryNamespace)
      requires n.Placed() && n.DoesNotSee(c)
      ensures forall t :: n.Avoids(t, c)
    {
      assert n in n.ancestors + {n};
      forall t: TableRef ensures n.Avoids(t, c) {
        n.UnseenIsNotFound(c, t.Identifier());
      }
    }

    /** A nested scope is opened and becomes the innermost one. */
    method Open(alias: string, source: Source)
      requires Valid()
      modifies this, Top()`columnCache, Top()`cteSources, Top()`subqueryChildren, Top()`currentCtx
      modifies Top()`tableSources, Top()`setopChildren
      ensures Valid() && stack == old(stack) + [Top()] && fresh(Top()) && world == old(world) + {Top()}
      ensures Top().currentCtx == [] && Top().columnCache == map[] && Top().outputShape == []
      ensures Top().cteSources == map[] && Top().subqueryChildren == map[] && Top().setopChildren == []
      ensures Top().producedColumns == {} && Top().parent == old(Top())
      ensures var outer := old(Top());
        && outer.cteSources == (if source == Cte then old(Top().cteSources)[alias := Top()] else old(Top().cteSources))
        && outer.subqueryChildren == (if source in {Subquery, Values} then old(Top().subqueryChildren)[alias := Top()]
                                      else old(Top().subqueryChildren))
        && outer.currentCtx ==
           old(Top().currentCtx) + (if source in {Subquery, Values} then [VirtualTable(alias)] else [])
        && outer.setopChildren == old(Top().setopChildren) + (if source == SetOp then [Top()] else [])
        && outer.columnCache == (if source == Temporary then old(Top().columnCache) else map[])
    {
      hide *;
      Parts();
      var top := Top();
      ghost var shapes, lower := ShapesOf(world), stack[..|stack| - 1];
      forall n | n in lower ensures top !in n.ancestors + {n} && n in stack {
        var i :| 0 <= i < |lower| && lower[i] == n;
        TopIsNoAncestor(i);
        assert stack[i] == n;
      }
      PlacedInCache(top);
      ghost var ctes, subqueries, setops := top.cteSources, top.subqueryChildren, top.setopChildren;
      ChildrenOf(top);
      var child := top.OpenNested(alias, source);
      NestedIsPlaced(top, child, alias, source, ctes, subqueries, setops);
      assert forall n :: n in lower ==> n.CacheOk(cache.schema, shapes) && n.SeesOnly(world);
      assert source == Temporary ==> top.currentCtx == old(top.currentCtx) + [] == old(top.currentCtx);
      assert source == Temporary ==> top.CacheOk(cache.schema, shapes) && top.SeesOnly(world);
      forall i | 0 < i < |stack| && Names(stack[i - 1], stack[i]) ensures stack[i - 1].columnCache == map[] {
        assert stack[i - 1] == lower[i - 1] && stack[i - 1] in lower;
      }
      Push(child, shapes, lower);
      Parts();
    }

    lemma {:induction false} ChildrenOf(n: QueryNamespace)
      requires n in world && WellPlaced(n)
      ensures n.ancestors <= world && (forall c :: c in n.cteSources.Values ==> c in world && c.parent == n)
      ensures forall c :: c in n.subqueryChildren.Values ==> c in world && c.parent == n
      ensures forall c :: c in n.setopChildren ==> c in world && c.parent == n
    {
      hide QueryNamespace.Placed;
    }

    /** The scope that a nested scope is opened in is well placed with it; it names no temporary one. */
    lemma {:induction false} NestedIsPlaced(n: QueryNamespace, child: QueryNamespace, alias: string, source: Source,
        ctes: map<string, QueryNamespace>, subqueries: map<string, QueryNamespace>, setops: seq<QueryNamespace>)
      requires n in world && n.Placed() && n.cache == cache && n.ancestors <= world && child !in world
      requires child.parent == n
      requires forall c :: c in ctes.Values ==> c in world && c.parent == n
      requires forall c :: c in subqueries.Values ==> c in world && c.parent == n
      requires forall c :: c in setops ==> c in world && c.parent == n
      requires n.cteSources == if source == Cte then ctes[alias := child] else ctes
      requires n.subqueryChildren == if source in {Subquery, Values} then subqueries[alias := child] else subqueries
      requires n.setopChildren == setops + if source == SetOp then [child] else []
      ensures WellPlacedWith(n, child) && (source == Temporary ==> !Names(n, child))
    {
      hide QueryNamespace.Placed;
    }

    /** `child` joins the scopes; the scope it was opened in may name it if that scope has nothing cached. */
    method Push(child: QueryNamespace, ghost shapes: Shapes, ghost lower: seq<QueryNamespace>)
      requires stack != [] && lower == stack[..|stack| - 1]
      requires (forall n :: n in stack ==> n in world) && child !in world
      requires forall i :: 0 < i < |stack| ==> stack[i].parent == stack[i - 1]
      requires forall n :: n in world && n != Top() ==> WellPlaced(n)
      requires WellPlacedWith(Top(), child)
      requires child.Placed() && child.cache == cache && child.parent == Top() && child.columnCache == map[]
      requires child.cteSources == map[] && child.subqueryChildren == map[] && child.setopChildren == []
      requires shapes == ShapesOf(world) && cache.Valid()
      requires forall n :: n in lower ==> n.Placed() && n.CacheOk(cache.schema, shapes) && n.SeesOnly(world)
      requires Top().columnCache == map[] ||
        (Top().CacheOk(cache.schema, shapes) && Top().SeesOnly(world) && !Names(Top(), child))
      requires forall i :: 0 < i < |stack| && Names(stack[i - 1], stack[i]) ==> stack[i - 1].columnCache == map[]
      modifies this`stack, this`world
      ensures Valid() && stack == old(stack) + [child] && world == old(world) + {child}
    {
      hide QueryNamespace.Scan;
      hide QueryNamespace.LookupNamespace;
      hide QueryNamespace.SeesOnly;
      hide QueryNamespace.CacheOk;
      hide QueryNamespace.Placed;
      hide ShapesOf;
      ghost var known, before := world, stack;
      stack := stack + [child];
      world := world + {child};
      PushedIsStructured(before, known, child);
      forall n | n in stack ensures n.Placed() && n.CacheOk(cache.schema, ShapesOf(world)) {
        assert n in lower || n == before[|before| - 1] || n == child;
        if n.columnCache == map[] {
          NothingCached(n);
        } else {
          NewIsUnseen(n, child, known);
          UnseenIsAvoided(n, child);
          ShapesBefore(known);
          CacheStays(n, child, known, shapes);
        }
      }
    }

    lemma {:induction false} ShapesBefore(known: set<QueryNamespace>)
      ensures forall m :: m in known ==> m in ShapesOf(known) && ShapesOf(known)[m] == m.outputShape
    {}

    lemma {:induction false} NothingCached(n: QueryNamespace)
      requires n.columnCache == map[] && n.Placed()
      ensures n.CacheOk(cache.schema, ShapesOf(world))
    {}

    lemma {:induction false} PushedIsStructured(before: seq<QueryNamespace>, known: set<QueryNamespace>,
        child: QueryNamespace)
      requires before != [] && stack == before + [child] && world == known + {child}
      requires forall n :: n in before ==> n in known
      requires forall i :: 0 < i < |before| ==> before[i].parent == before[i - 1]
      requires forall n :: n in world && n != child ==> WellPlaced(n)
      requires child.Placed() && child.cache == cache && child.parent == before[|before| - 1]
      requires child.cteSources == map[] && child.subqueryChildren == map[] && child.setopChildren == []
      ensures Structured()
    {
      var top := before[|before| - 1];
      assert top in before && WellPlaced(top);
      assert child.ancestors == top.ancestors + {top};
      hide QueryNamespace.Placed;
      assert WellPlaced(child);
    }

    ghost predicate WellPlacedWith(n: QueryNamespace, child: QueryNamespace)
      requires n in world
      reads this, n`cteSources, n`subqueryChildren, n`setopChildren
    {
      && n.Placed() && n.cache == cache && n.ancestors <= world
      && (forall c :: c in n.cteSources.Values ==> c in world + {child} && c.parent == n)
      && (forall c :: c in n.subqueryChildren.Values ==> c in world + {child} && c.parent == n)
      && (forall c :: c in n.setopChildren ==> c in world + {child} && c.parent == n)
    }

    lemma {:induction false} NewIsUnseen(n: QueryNamespace, child: QueryNamespace, known: set<QueryNamespace>)
      requires n.SeesOnly(known) && child !in known
      ensures n.DoesNotSee(child)
    {}

    /** The innermost scope is left. */
    method Close()
      requires Valid() && |stack| > 1
      modifies this`stack
      ensures Valid() && stack == old(stack)[..|old(stack)| - 1] && world == old(world)
    {
      hide *;
      Parts();
      stack := stack[..|stack| - 1];
      ValidBy();
    }

    lemma {:induction false} TopIsAvoided(i: nat)
      requires Structured() && i < |stack| - 1 && stack[i].Placed()
      requires i == |stack| - 2 ==> !Names(stack[i], Top())
      ensures forall t :: t in stack[i].currentCtx ==> stack[i].Avoids(t, Top())
    {
      assert stack[i] in stack && WellPlaced(stack[i]);
      TopIsUnseen(i);
      UnseenIsAvoided(stack[i], Top());
    }

    lemma {:induction false} SetopIsAnother()
      requires Structured()
      ensures Top().setopChildren != [] ==> Top().setopChildren[0] != Top()
    {
      assert Top() in stack && WellPlaced(Top());
      if Top().setopChildren != [] {
        assert Top().setopChildren[0] in Top().setopChildren;
      }
    }

    /** The output columns of the innermost scope are determined. All caches stay right, except for that of a scope that
        provides its new columns to itself. */
    method Determine(ps: seq<Projection>) returns (ok: bool)
      requires Valid()
      modifies Top()`outputShape, Top()`producedColumns, cache`lookupCache
      ensures Structured() && stack == old(stack) && world == old(world) && Top().Placed()
      ensures Valid() <==> Top().CacheOk(cache.schema, ShapesOf(world))
      ensures Top().setopChildren == [] ==>
        var columns := old(Top().SelectColumns(cache.schema, ShapesOf(world), ps));
        && ok == columns.Some?
        && (ok ==> Top().outputShape == columns.value)
        && (ok ==> Top().producedColumns == old(Top().producedColumns) + NamesIn(ps))
      ensures Top().setopChildren != [] ==>
        && ok && Top().outputShape == old(Top().setopChildren[0].outputShape)
        && Top().producedColumns == old(Top().producedColumns)
    {
      hide *;
      Parts();
      SetopIsAnother();
      var top := Top();
      ghost var shapes := ShapesOf(world);
      PlacedInCache(top);
      ShapesBefore(world);
      ok := top.DetermineOutputShape(ps, world);
      StillStructured();
      forall n | n in stack && n != top ensures n.CacheOk(cache.schema, ShapesOf(world)) {
        var i :| 0 <= i < |stack| && stack[i] == n;
        if n.columnCache != map[] {
          TopIsAvoided(i);
        }
        CacheStays(n, top, world, shapes);
      }
      if top.CacheOk(cache.schema, ShapesOf(world)) {
        ValidBy();
      } else if Valid() {
        Parts();
      }
    }

    lemma {:induction false} StillStructured()
      requires stack != [] && forall n :: n in stack ==> n in world
      requires forall n :: n in world ==> WellPlaced(n)
      requires forall i :: 0 < i < |stack| ==> stack[i].parent == stack[i - 1]
      ensures Structured() && Top() == stack[|stack| - 1]
    {
      hide WellPlaced;
    }
  }

  const RECURSIVE := VirtualTable("c")
  const PHYSICAL := TableRef("t", "", false)
  const CATALOG: Option<Schema> := Some(map["t" := ["x"]])

  /** What the search finds in a scope named `c` that reads itself and a table. */
  lemma {:induction false} RecursiveSearch(outer: QueryNamespace, inner: QueryNamespace, shapes: Shapes)
    requires outer.Placed() && inner.Placed() && inner.parent == outer && inner.ancestors == outer.ancestors + {outer}
    requires outer.cteSources == map["c" := inner] && inner.cteSources == map[] && inner.subqueryChildren == map[]
    requires inner.currentCtx == [RECURSIVE, PHYSICAL] && inner in shapes
    ensures inner.Scan(CATALOG, shapes, "x") == Some(if "x" in shapes[inner] then RECURSIVE else PHYSICAL)
  {
    assert outer.LookupNamespace("c") == Some(inner);
    assert inner.LookupNamespace("c") == Some(inner);
    assert Defines(CATALOG, "x", PHYSICAL);
    assert inner.Provides(CATALOG, shapes, RECURSIVE, "x") <==> "x" in shapes[inner];
    assert inner.Provides(CATALOG, shapes, PHYSICAL, "x");
    hide QueryNamespace.Provides;
    assert [RECURSIVE, PHYSICAL][1..] == [PHYSICAL];
    assert inner.FirstProviding(CATALOG, shapes, [PHYSICAL], "x") == Some(PHYSICAL);
  }

  ghost predicate IsRecursive(outer: QueryNamespace, inner: QueryNamespace)
    reads outer, inner, inner.cache
  {
    && outer.Placed() && inner.Placed() && inner.parent == outer && inner.ancestors == {outer} && outer.ancestors == {}
    && outer.cteSources == map["c" := inner] && outer.subqueryChildren == map[]
    && inner.cteSources == map[] && inner.subqueryChildren == map[] && inner.setopChildren == []
    && inner.currentCtx == [RECURSIVE, PHYSICAL] && inner.producedColumns == {}
    && inner.cache.Valid() && inner.cache.schema == CATALOG
  }

  method OpenRecursive() returns (outer: QueryNamespace, inner: QueryNamespace)
    ensures IsRecursive(outer, inner) && fresh(outer) && fresh(inner) && fresh(inner.cache) && outer != inner
    ensures inner.columnCache == map[] && inner.outputShape == []
  {
    var cache := new SchemaCache(CATALOG);
    outer := new QueryNamespace(cache, null);
    inner := outer.OpenNested("c", Cte);
    inner.RegisterTable(RECURSIVE);
    inner.RegisterTable(PHYSICAL);
    assert inner.currentCtx == [RECURSIVE, PHYSICAL];
    assert inner.ancestors == outer.ancestors + {outer};
  }

  lemma {:induction false} RecursiveSees(outer: QueryNamespace, inner: QueryNamespace)
    requires IsRecursive(outer, inner)
    ensures inner.SeesOnly({outer, inner})
    ensures ShapesOf({outer, inner}) == map[outer := outer.outputShape, inner := inner.outputShape]
    ensures inner.Scan(CATALOG, ShapesOf({outer, inner}), "x")
         == Some(if "x" in inner.outputShape then RECURSIVE else PHYSICAL)
  {
    RecursiveSearch(outer, inner, ShapesOf({outer, inner}));
  }

  /** A recursive scope is asked for a column before and after its own columns are known. */
  method AskRecursiveScope() returns (before: Option<TableRef>, after: Option<TableRef>)
    ensures before == after == Some(PHYSICAL)
  {
    hide QueryNamespace.Scan;
    hide QueryNamespace.LookupNamespace;
    hide QueryNamespace.CacheOk;
    hide QueryNamespace.Placed;
    hide QueryNamespace.SeesOnly;
    hide ShapesOf;
    hide SchemaCache.Valid;
    var outer, inner := OpenRecursive();
    ghost var world := {outer, inner};
    RecursiveSees(outer, inner);
    before := inner.LookupColumn("x", world);
    NameColumn(outer, inner, world);
    RecursiveSees(outer, inner);
    after := inner.LookupColumn("x", world);
  }

  /** `SELECT x` in the recursive scope. */
  method NameColumn(outer: QueryNamespace, inner: QueryNamespace, ghost world: set<QueryNamespace>)
    requires inner.Placed() && inner.cache.Valid() && inner.SeesOnly(world) && inner in world
    requires inner.setopChildren == []
    modifies inner`outputShape, inner`producedColumns, inner.cache`lookupCache
    ensures inner.cache.Valid() && inner.outputShape == ["x"] && inner.producedColumns == old(inner.producedColumns)
  {
    var ps := [ColumnOf("x")];
    assert NamesIn(ps) == {} && ps[1..] == [] && [] + ["x"] == ["x"];
    assert inner.TakeAll(inner.cache.schema, ShapesOf(world), Collected(["x"], None), []).Some?;
    var ok := inner.DetermineOutputShape(ps, world);
  }
}
