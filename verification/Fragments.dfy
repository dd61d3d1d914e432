/** The map from base tables to plan fragments, and what joining fragments does to it. */
module Fragments {
  import opened Sql
  import opened Query
  import opened Algebra
  import opened Supply
  import opened Filters
  import opened JoinGraph
  import Graph

  // ----- the fragment map -----

  /** The columns of a table that the query mentions (`_required_columns`). */
  function RequiredColumns(q: SelectQuery, t: Table): set<Column> {
    set c | c in QueryColumns(q) && c.table == t
  }

  /** A table lies in its own fragment, which is the fragment of all its tables and provides their columns. */
  ghost predicate FragmentOk(q: SelectQuery, fs: map<Table, Node>, t: Table)
    requires t in fs
  {
    && Supplied(fs[t])
    && t in NodeTables(fs[t])
    && (forall u :: u in NodeTables(fs[t]) ==> u in fs && fs[u] == fs[t])
    && HasColumns(fs[t], RequiredColumns(q, t))
  }

  ghost predicate FragmentsOk(q: SelectQuery, fs: map<Table, Node>) {
    forall t :: t in fs ==> FragmentOk(q, fs, t)
  }

  /** The conditions applied so far in the fragments of some tables. */
  ghost function AppliedTo(fs: map<Table, Node>, ts: set<Table>): set<Expr>
    requires ts <= fs.Keys
  {
    set t, p | t in ts && p in Conditions(fs[t]) :: p
  }

  ghost function Applied(fs: map<Table, Node>): set<Expr> { AppliedTo(fs, fs.Keys) }

  ghost predicate Unjoined(fs: map<Table, Node>) {
    forall t :: t in fs ==> NodeTables(fs[t]) == {t} && CrossProducts(fs[t]) == 0
  }

  ghost predicate NoCrossProducts(fs: map<Table, Node>) {
    forall t :: t in fs ==> CrossProducts(fs[t]) == 0
  }

  /** Two tables share a fragment exactly if the join predicates connect them. */
  ghost predicate Joined(fs: map<Table, Node>, ps: set<Expr>) {
    forall a, b :: a in fs && b in fs ==> (b in NodeTables(fs[a]) <==> Connected(ps, a, b))
  }

  /** The map after the fragment `n` has replaced the fragments of all its tables. */
  function Store(fs: map<Table, Node>, n: Node): map<Table, Node> {
    map t | t in fs :: if t in NodeTables(n) then n else fs[t]
  }

  /** All tables of the fragments that a predicate touches. */
  ghost function Partners(fs: map<Table, Node>, p: Expr): set<Table>
    requires Tables(p) <= fs.Keys
  {
    set t, u | t in Tables(p) && u in NodeTables(fs[t]) :: u
  }

  /** A fragment that may take the place of the fragments of its tables. */
  ghost predicate Covers(fs: map<Table, Node>, n: Node) {
    && Supplied(n)
    && NodeTables(n) <= fs.Keys
    && forall t :: t in NodeTables(n) ==>
         && NodeTables(fs[t]) <= NodeTables(n)
         && Provided(fs[t]) <= Provided(n)
  }

  lemma {:induction false} StoreKeepsFragments(q: SelectQuery, fs: map<Table, Node>, n: Node)
    requires FragmentsOk(q, fs) && Covers(fs, n)
    ensures FragmentsOk(q, Store(fs, n))
  {
    var fs' := Store(fs, n);
    forall t | t in fs' ensures FragmentOk(q, fs', t) {
      assert FragmentOk(q, fs, t);
      if t !in NodeTables(n) {
        forall u | u in NodeTables(fs[t]) ensures u in fs' && fs'[u] == fs'[t] {
          assert FragmentOk(q, fs, u);
          assert t in NodeTables(fs[u]);
        }
      }
    }
  }

  /** Conditions are neither lost nor invented when a fragment is stored. */
  lemma {:induction false} StoreApplies(fs: map<Table, Node>, n: Node, added: set<Expr>)
    requires NodeTables(n) <= fs.Keys && NodeTables(n) != {}
    requires Conditions(n) == added + AppliedTo(fs, NodeTables(n))
    ensures Applied(Store(fs, n)) == Applied(fs) + added
  {
    var fs' := Store(fs, n);
    var u :| u in NodeTables(n);
    forall p | p in Applied(fs) ensures p in Applied(fs') {
      var t :| t in fs && p in Conditions(fs[t]);
      if t in NodeTables(n) {
        assert p in AppliedTo(fs, NodeTables(n));
        assert fs'[t] == n;
      } else {
        assert fs'[t] == fs[t];
      }
    }
    forall p | p in added ensures p in Applied(fs') {
      assert u in fs' && fs'[u] == n;
    }
    forall p | p in Applied(fs') ensures p in Applied(fs) + added {
      var t :| t in fs' && p in Conditions(fs'[t]);
    }
  }

  /** Storing the join of the fragments that a predicate touches connects exactly the tables it connects. */
  lemma {:induction false} StoreConnects(q: SelectQuery, fs: map<Table, Node>, ps: set<Expr>, p: Expr, n: Node)
    requires FragmentsOk(q, fs) && Joined(fs, ps) && forall x :: x in ps ==> Tables(x) <= fs.Keys
    requires Tables(p) <= fs.Keys && NodeTables(n) == Partners(fs, p)
    ensures Joined(Store(fs, n), ps + {p})
  {
    forall a, b | a in fs && b in fs
      ensures b in NodeTables(Store(fs, n)[a]) <==> Connected(ps + {p}, a, b)
    {
      if b in NodeTables(Store(fs, n)[a]) {
        SharedIsConnected(q, fs, ps, p, n, a, b);
      }
      if Connected(ps + {p}, a, b) {
        ConnectedIsShared(q, fs, ps, p, n, a, b);
      }
    }
  }

  lemma {:induction false} ConnectedIsShared(q: SelectQuery, fs: map<Table, Node>, ps: set<Expr>, p: Expr, n: Node,
      a: Table, b: Table)
    requires FragmentsOk(q, fs) && Joined(fs, ps) && forall x :: x in ps ==> Tables(x) <= fs.Keys
    requires Tables(p) <= fs.Keys && NodeTables(n) == Partners(fs, p)
    requires a in fs && Connected(ps + {p}, a, b)
    ensures b in NodeTables(Store(fs, n)[a])
  {
    FragmentIsClosed(q, fs, ps, p, n, a);
    assert FragmentOk(q, fs, a);
    ConnectedStays(ps + {p}, NodeTables(Store(fs, n)[a]), a, b);
  }

  lemma {:induction false} PartnersAreWhole(q: SelectQuery, fs: map<Table, Node>, p: Expr, s: Table)
    requires FragmentsOk(q, fs) && Tables(p) <= fs.Keys && s in Partners(fs, p)
    ensures s in fs && NodeTables(fs[s]) <= Partners(fs, p)
  {
    var t :| t in Tables(p) && s in NodeTables(fs[t]);
    assert FragmentOk(q, fs, t);
  }

  lemma {:induction false} SharedIsConnected(q: SelectQuery, fs: map<Table, Node>, ps: set<Expr>, p: Expr, n: Node,
      a: Table, b: Table)
    requires FragmentsOk(q, fs) && Joined(fs, ps)
    requires Tables(p) <= fs.Keys && NodeTables(n) == Partners(fs, p)
    requires a in fs && b in fs && b in NodeTables(Store(fs, n)[a])
    ensures Connected(ps + {p}, a, b)
  {
    if a in NodeTables(n) {
      var t :| t in Tables(p) && a in NodeTables(fs[t]);
      var u :| u in Tables(p) && b in NodeTables(fs[u]);
      assert FragmentOk(q, fs, t) && FragmentOk(q, fs, a);
      assert Connected(ps, a, t) && Connected(ps, u, b);
      ConnectedGrows(ps, ps + {p}, a, t);
      ConnectedStep(ps + {p}, p, t, u);
      ConnectedGrows(ps, ps + {p}, u, b);
      Graph.Join(TableEdges(ps + {p}), a, t, u);
      Graph.Join(TableEdges(ps + {p}), a, u, b);
    } else {
      ConnectedGrows(ps, ps + {p}, a, b);
    }
  }

  lemma {:induction false} FragmentIsClosed(q: SelectQuery, fs: map<Table, Node>, ps: set<Expr>, p: Expr, n: Node,
      a: Table)
    requires FragmentsOk(q, fs) && Joined(fs, ps) && forall x :: x in ps ==> Tables(x) <= fs.Keys
    requires Tables(p) <= fs.Keys && NodeTables(n) == Partners(fs, p)
    requires a in fs
    ensures ClosedUnder(ps + {p}, NodeTables(Store(fs, n)[a]))
  {
    hide Tables;
    hide Supplied;
    hide HasColumns;
    hide RequiredColumns;
    hide NodeTables;
    var mine := NodeTables(Store(fs, n)[a]);
    forall x, s, t | x in ps + {p} && s in Tables(x) && t in Tables(x) && s in mine ensures t in mine {
      MineIsWhole(q, fs, p, n, a, s);
      if x == p {
        assert FragmentOk(q, fs, s);
        assert t in NodeTables(n);
        assert a in NodeTables(n);
      } else {
        ConnectedStep(ps, x, s, t);
        assert t in NodeTables(fs[s]);
      }
    }
  }

  /** With a table, the stored fragment of `a` holds all tables that shared a fragment with it. */
  lemma {:induction false} MineIsWhole(q: SelectQuery, fs: map<Table, Node>, p: Expr, n: Node, a: Table, s: Table)
    requires FragmentsOk(q, fs)
    requires Tables(p) <= fs.Keys && NodeTables(n) == Partners(fs, p)
    requires a in fs && s in NodeTables(Store(fs, n)[a])
    ensures s in fs && NodeTables(fs[s]) <= NodeTables(Store(fs, n)[a])
    ensures s in Tables(p) ==> a in NodeTables(n) && Tables(p) <= NodeTables(n)
  {
    assert FragmentOk(q, fs, a);
    if a in NodeTables(n) {
      PartnersAreWhole(q, fs, p, s);
    }
    forall t | t in Tables(p) ensures t in NodeTables(n) {
      assert FragmentOk(q, fs, t);
    }
    if s in Tables(p) {
      assert s in NodeTables(n);
      PartnersAreWhole(q, fs, p, s);
      assert a in NodeTables(n);
    }
  }

  /** Before any join, every table is connected to itself only. */
  lemma {:induction false} UnjoinedIsJoined(fs: map<Table, Node>)
    requires Unjoined(fs)
    ensures Joined(fs, {})
  {
    forall a, b | a in fs && b in fs ensures b in NodeTables(fs[a]) <==> Connected({}, a, b) {
      Graph.Self(TableEdges({}), a);
      if Connected({}, a, b) {
        ConnectedStays({}, {a}, a, b);
      }
    }
  }

  // ----- the heads of the fragments -----

  ghost function TableSets(ns: set<Node>): set<set<Table>> {
    set n | n in ns :: NodeTables(n)
  }

  /** The fragments that are left are the connected components of the tables. */
  lemma {:induction false} HeadsAreComponents(q: SelectQuery, fs: map<Table, Node>, ps: set<Expr>)
    requires FragmentsOk(q, fs) && Joined(fs, ps)
    ensures TableSets(fs.Values) == Components(ps, fs.Keys)
    ensures |fs.Values| == |Components(ps, fs.Keys)|
  {
    hide NodeTables;
    hide Connected;
    hide Supplied;
    hide HasColumns;
    forall a | a in fs ensures Component(ps, fs.Keys, a) == NodeTables(fs[a]) {
      assert FragmentOk(q, fs, a);
    }
    forall a | a in fs ensures Component(ps, fs.Keys, a) in TableSets(fs.Values) {
      assert fs[a] in fs.Values;
    }
    forall n | n in fs.Values ensures NodeTables(n) in Components(ps, fs.Keys) {
      var a :| a in fs && fs[a] == n;
      assert Component(ps, fs.Keys, a) in Components(ps, fs.Keys);
    }
    HeadsDiffer(q, fs);
    ImageSize(fs.Values);
  }

  lemma {:induction false} HeadsDiffer(q: SelectQuery, fs: map<Table, Node>)
    requires FragmentsOk(q, fs)
    ensures forall m, n :: m in fs.Values && n in fs.Values && NodeTables(m) == NodeTables(n) ==> m == n
  {
    forall m, n | m in fs.Values && n in fs.Values && NodeTables(m) == NodeTables(n) ensures m == n {
      var a :| a in fs && fs[a] == m;
      var b :| b in fs && fs[b] == n;
      assert FragmentOk(q, fs, a) && FragmentOk(q, fs, b);
    }
  }

  lemma {:induction false} ImageSize(ns: set<Node>)
    requires forall m, n :: m in ns && n in ns && NodeTables(m) == NodeTables(n) ==> m == n
    ensures |TableSets(ns)| == |ns|
  {
    hide NodeTables;
    if ns != {} {
      var m :| m in ns;
      var rest := ns - {m};
      ImageSize(rest);
      assert NodeTables(m) !in TableSets(rest);
      assert ns == rest + {m};
      assert TableSets(ns) == TableSets(rest) + {NodeTables(m)};
    }
  }

  ghost function HeadTables(fs: map<Table, Node>, heads: set<Node>): set<Table> {
    set t | t in fs && fs[t] in heads
  }

  /** A plan that combines some of the fragments. */
  ghost predicate Combines(fs: map<Table, Node>, heads: set<Node>, n: Node) {
    && Supplied(n)
    && NodeTables(n) == HeadTables(fs, heads)
    && Conditions(n) == AppliedTo(fs, HeadTables(fs, heads))
    && (forall h :: h in heads ==> Provided(h) <= Provided(n))
  }

  lemma {:induction false} CrossParts(l: Node, r: Node)
    ensures var n := CrossProduct(l, r);
      && NodeTables(n) == NodeTables(l) + NodeTables(r) && Provided(n) == Provided(l) + Provided(r)
      && Conditions(n) == Conditions(l) + Conditions(r)
  {}

  lemma {:induction false} CombineHead(q: SelectQuery, fs: map<Table, Node>, heads: set<Node>, n: Node, h: Node)
    requires FragmentsOk(q, fs) && Combines(fs, heads, n) && h in fs.Values && h !in heads
    ensures Combines(fs, heads + {h}, CrossProduct(n, h))
  {
    hide Supplied;
    hide FragmentsOk;
    CrossParts(n, h);
    hide NodeTables;
    hide Provided;
    hide Conditions;
    SingleHead(q, fs, h);
    assert HeadTables(fs, heads + {h}) == HeadTables(fs, heads) + HeadTables(fs, {h});
    assert AppliedTo(fs, HeadTables(fs, heads + {h}))
        == AppliedTo(fs, HeadTables(fs, heads)) + AppliedTo(fs, HeadTables(fs, {h}));
    CrossProductSupplied(n, h);
  }

  lemma {:induction false} SingleHead(q: SelectQuery, fs: map<Table, Node>, h: Node)
    requires FragmentsOk(q, fs) && h in fs.Values
    ensures Combines(fs, {h}, h)
  {
    var a :| a in fs && fs[a] == h;
    assert FragmentOk(q, fs, a);
    assert NodeTables(h) == HeadTables(fs, {h}) by {
      forall t | t in fs && fs[t] == h ensures t in NodeTables(h) {
        assert FragmentOk(q, fs, t);
      }
    }
  }
}
