/** Filters on base tables: finding the table of a filter and splitting a filter by table. */
module Filters {
  import opened Sql
  import opened JoinPredicates

  // ----- base table lookup -----

  /** The single table among the candidates, if there is exactly one. */
  function FetchValidBaseTable(candidates: seq<Result<Option<Table>>>): Result<Option<Table>> {
    match SingleTable(candidates)
    case Success(Some(t)) => Success(Some(t))
    case _ => Failure
  }

  function SingleTable(candidates: seq<Result<Option<Table>>>): Result<Option<Table>> {
    if candidates == [] then Success(None)
    else
      match (candidates[0], SingleTable(candidates[1..]))
      case (Success(a), Success(b)) =>
        if a.None? then Success(b) else if b.None? || a == b then Success(a) else Failure
      case _ => Failure
  }

  /** The traversal of `_BaseTableLookup`. */
  function VisitBaseTable(e: Expr): Result<Option<Table>> {
    match e
    case Col(c) => Success(Some(c.table))
    case Lit(_) => Success(None)
    case Unary(x, _) => VisitBaseTable(x)
    case Not(c) => VisitBaseTable(c)
    case App(Cast(_), args) => if args == [] then Failure else VisitBaseTable(args[0])
    case App(Quantifier(_), args) => if args == [] then Failure else VisitBaseTable(args[0])
    case _ => FetchValidBaseTable(seq(|Kids(e)|, i requires 0 <= i < |Kids(e)| => VisitBaseTable(Kids(e)[i])))
  }

  /** The base table of a filter (`_BaseTableLookup.__call__`). */
  function LookupBaseTable(p: Expr): Option<Table> {
    if IsJoin(p) then None
    else if |Tables(p)| == 1 then Some(TheOne(Tables(p)))
    else match VisitBaseTable(p)
         case Success(t) => t
         case Failure => None
  }

  function TheOne(ts: set<Table>): (t: Table)
    requires |ts| == 1
    ensures ts == {t}
  {
    IsSingleton(ts);
    var t :| ts == {t};
    t
  }

  lemma {:induction false} IsSingleton(ts: set<Table>)
    requires |ts| == 1
    ensures exists t :: ts == {t}
  {
    var t :| t in ts;
    assert |ts - {t}| == 0;
    assert ts == {t};
  }

  lemma {:induction false} NoTableNoBase(e: Expr)
    ensures Tables(e) == {} ==> VisitBaseTable(e) in {Failure, Success(None)}
  {
    if e.Col? {
      OwnColumn(e.column);
    } else if Tables(e) == {} {
      var vs := seq(|Kids(e)|, i requires 0 <= i < |Kids(e)| => VisitBaseTable(Kids(e)[i]));
      forall i | 0 <= i < |vs| ensures vs[i] in {Failure, Success(None)} {
        KidColumns(e, Kids(e)[i]);
        NoTableNoBase(Kids(e)[i]);
      }
      SingleOfNone(vs);
    }
  }

  lemma SingleOfNone(vs: seq<Result<Option<Table>>>)
    requires forall i :: 0 <= i < |vs| ==> vs[i] in {Failure, Success(None)}
    ensures SingleTable(vs) in {Failure, Success(None)}
  {
  }

  /** A filter over at most one table that finds its base table mentions exactly that table. */
  lemma {:induction false} LookupFindsTable(p: Expr)
    requires |Tables(p)| <= 1 && LookupBaseTable(p).Some?
    ensures Tables(p) == {LookupBaseTable(p).value}
  {
    if |Tables(p)| == 0 {
      NoTableNoBase(p);
    }
  }

  method CollectAnd(parts: set<Expr>) returns (p: Expr)
    requires parts != {} && forall e :: e in parts ==> IsPredicate(e)
    ensures IsPredicate(p) && Conjuncts(p) == AllConjuncts(parts)
  {
    var list: seq<Expr> := [];
    var todo := parts;
    while todo != {}
      invariant todo <= parts && SeqSet(list) == parts - todo
      invariant todo == parts ==> list == []
    {
      var e :| e in todo;
      todo := todo - {e};
      assert SeqSet(list + [e]) == SeqSet(list) + {e};
      list := list + [e];
    }
    assert SeqSet(list) == parts;
    p := CreateAnd(list).value;
  }

  /** A predicate all of whose conjuncts mention the table `t` and no other. */
  ghost predicate FiltersTable(t: Table, p: Expr) {
    IsPredicate(p) && forall a :: a in Conjuncts(p) ==> Tables(a) == {t}
  }

  ghost predicate RawOk(raw: map<Table, set<Expr>>) {
    && (forall t :: t in raw ==> raw[t] != {})
    && (forall t, x :: t in raw && x in raw[t] ==> FiltersTable(t, x))
  }

  ghost predicate PartsOk(parts: map<Table, Expr>) {
    forall t :: t in parts ==> FiltersTable(t, parts[t])
  }

  ghost function RawParts(raw: map<Table, set<Expr>>): set<Expr> {
    set t, x | t in raw && x in raw[t] :: x
  }

  lemma {:induction false} AllConjunctsUnion(ps: set<Expr>, qs: set<Expr>)
    ensures AllConjuncts(ps + qs) == AllConjuncts(ps) + AllConjuncts(qs)
  {
  }

  function AddTo(raw: map<Table, set<Expr>>, t: Table, p: Expr): map<Table, set<Expr>> {
    raw[t := (if t in raw then raw[t] else {}) + {p}]
  }

  lemma {:induction false} AddRaw(raw: map<Table, set<Expr>>, t: Table, p: Expr)
    requires RawOk(raw) && FiltersTable(t, p)
    ensures RawOk(AddTo(raw, t, p))
    ensures RawParts(AddTo(raw, t, p)) == RawParts(raw) + {p}
  {
    var raw' := AddTo(raw, t, p);
    forall x | x in RawParts(raw) + {p} ensures x in RawParts(raw') {
      if x == p {
        assert t in raw' && p in raw'[t];
      } else {
        var u :| u in raw && x in raw[u];
        assert u in raw' && x in raw'[u];
      }
    }
  }

  method MergeSplit(raw0: map<Table, set<Expr>>, parts: map<Table, Expr>) returns (raw: map<Table, set<Expr>>)
    requires RawOk(raw0) && PartsOk(parts)
    ensures RawOk(raw) && RawParts(raw) == RawParts(raw0) + parts.Values
  {
    raw := raw0;
    var todo := parts.Keys;
    while todo != {}
      invariant todo <= parts.Keys && RawOk(raw)
      invariant RawParts(raw) == RawParts(raw0) + set t | t in parts && t !in todo :: parts[t]
    {
      var t :| t in todo;
      todo := todo - {t};
      AddRaw(raw, t, parts[t]);
      raw := AddTo(raw, t, parts[t]);
    }
    assert parts.Values == set t | t in parts && t !in todo :: parts[t];
  }

  /** One conjunction per table. */
  method CombineRaw(raw: map<Table, set<Expr>>) returns (parts: map<Table, Expr>)
    requires RawOk(raw)
    ensures PartsOk(parts) && AllConjuncts(parts.Values) == AllConjuncts(RawParts(raw))
  {
    parts := map[];
    var todo := raw.Keys;
    while todo != {}
      invariant todo <= raw.Keys && parts.Keys == raw.Keys - todo
      invariant forall t :: t in parts ==> Conjuncts(parts[t]) == AllConjuncts(raw[t]) && FiltersTable(t, parts[t])
    {
      var t :| t in todo;
      todo := todo - {t};
      assert forall x :: x in raw[t] ==> FiltersTable(t, x);
      var p := CollectAnd(raw[t]);
      parts := parts[t := p];
    }
    CombinedConjuncts(raw, parts);
  }

  lemma {:induction false} CombinedConjuncts(raw: map<Table, set<Expr>>, parts: map<Table, Expr>)
    requires parts.Keys == raw.Keys
    requires forall t :: t in parts ==> Conjuncts(parts[t]) == AllConjuncts(raw[t])
    ensures AllConjuncts(parts.Values) == AllConjuncts(RawParts(raw))
  {
    forall a | a in AllConjuncts(RawParts(raw)) ensures a in AllConjuncts(parts.Values) {
      var x :| x in RawParts(raw) && a in Conjuncts(x);
      var t :| t in raw && x in raw[t];
      assert a in AllConjuncts(raw[t]) && parts[t] in parts.Values;
    }
    forall a | a in AllConjuncts(parts.Values) ensures a in AllConjuncts(RawParts(raw)) {
      var p :| p in parts.Values && a in Conjuncts(p);
      var t :| t in parts && parts[t] == p;
      var x :| x in raw[t] && a in Conjuncts(x);
      assert x in RawParts(raw);
    }
  }

  lemma {:induction false} ConjunctsOfOne(p: Expr)
    ensures AllConjuncts({p}) == Conjuncts(p)
  {
    hide Conjuncts;
  }

  lemma {:induction false} FiltersItsTable(p: Expr, t: Table)
    requires IsPredicate(p) && !p.And? && Tables(p) == {t}
    ensures FiltersTable(t, p)
  {
    hide Tables;
    hide IsPredicate;
    assert Conjuncts(p) == {p};
  }

  lemma {:induction false} OnePartOk(p: Expr, t: Table, parts: map<Table, Expr>)
    requires FiltersTable(t, p) && t in parts && parts[t] == p && forall u :: u in parts ==> u == t
    ensures PartsOk(parts)
  {
    hide FiltersTable;
  }

  lemma {:induction false} SinglePart(p: Expr, t: Table, parts: map<Table, Expr>)
    requires IsPredicate(p) && !p.And? && |Tables(p)| <= 1 && LookupBaseTable(p) == Some(t)
    requires t in parts && parts[t] == p && forall u :: u in parts ==> u == t
    ensures PartsOk(parts) && parts.Values == {p}
  {
    hide *;
    LookupFindsTable(p);
    FiltersItsTable(p, t);
    assert forall x :: x in parts.Values ==> x == p;
    assert PartsOk(parts) by {
      OnePartOk(p, t, parts);
    }
  }

  lemma {:induction false} RawStart()
    ensures RawOk(map[]) && AllConjuncts(RawParts(map[])) == {} == AllConjuncts(SeqSet([]))
  {}

  /** A predicate whose parts mention one table each finds it. */
  lemma {:induction false} OneTableIsFound(p: Expr)
    requires IsPredicate(p) && |Tables(p)| == 1
    ensures !IsJoin(p) && LookupBaseTable(p) == Some(TheOne(Tables(p)))
  {
    OneTableNoJoin(p);
    hide IsJoin;
    hide Tables;
  }

  /** A filter whose conjuncts mention one table each is no join. */
  lemma {:induction false} FilterNoJoin(p: Expr)
    requires IsPredicate(p) && forall a :: a in Conjuncts(p) ==> |Tables(a)| <= 1
    ensures !IsJoin(p)
  {
    hide Tables;
    if p.And? {
      forall c | c in p.children ensures !IsJoin(c) {
        assert Conjuncts(c) <= Conjuncts(p);
        FilterNoJoin(c);
      }
    } else {
      assert p in Conjuncts(p);
      OneTableNoJoin(p);
    }
  }

  /** Every conjunct mentions a table. */
  ghost predicate MentionTables(cs: set<Expr>) { forall a :: a in cs ==> Tables(a) != {} }

  lemma {:induction false} AllMentioned(cs: seq<Expr>)
    ensures MentionTables(Conjuncts(And(cs))) <==> forall i :: 0 <= i < |cs| ==> MentionTables(Conjuncts(cs[i]))
  {
    hide Tables;
    var p := And(cs);
    assert forall a :: a in Conjuncts(p) <==> exists i :: 0 <= i < |cs| && a in Conjuncts(cs[i]);
    hide Conjuncts;
    if MentionTables(Conjuncts(p)) {
      forall i, a | 0 <= i < |cs| && a in Conjuncts(cs[i]) ensures Tables(a) != {} {
        assert a in Conjuncts(p);
      }
    }
  }

  lemma {:induction false} FoundIffMentioned(p: Expr)
    requires IsPredicate(p) && !p.And? && |Tables(p)| <= 1
    ensures LookupBaseTable(p).Some? <==> MentionTables(Conjuncts(p))
  {
    assert Conjuncts(p) == {p};
    if |Tables(p)| == 1 {
      OneTableIsFound(p);
    } else {
      assert Tables(p) == {};
      NoTableNoBase(p);
    }
    hide VisitBaseTable;
    hide IsJoin;
    hide Tables;
  }

  /** `_split_filter_predicate`: the parts of a filter, one conjunction per base table. */
  method SplitFilterPredicate(p: Expr) returns (r: Result<map<Table, Expr>>)
    requires IsPredicate(p) && forall a :: a in Conjuncts(p) ==> |Tables(a)| <= 1
    ensures r.Success? <==> MentionTables(Conjuncts(p))
    ensures r.Success? ==> PartsOk(r.value) && AllConjuncts(r.value.Values) == Conjuncts(p)
  {
    hide AllConjuncts;
    hide PartsOk;
    hide LookupBaseTable;
    hide IsJoin;
    hide MentionTables;
    FilterNoJoin(p);
    if IsJoin(p) {
      return Failure;
    }
    if p.And? {
      RawStart();
      var raw: map<Table, set<Expr>> := map[];
      var cs := p.children;
      AllMentioned(cs);
      assert cs[..0] == [];
      for i := 0 to |cs|
        invariant RawOk(raw) && AllConjuncts(RawParts(raw)) == AllConjuncts(SeqSet(cs[..i]))
        invariant forall j :: 0 <= j < i ==> MentionTables(Conjuncts(cs[j]))
      {
        ChildConjuncts(cs, i);
        var split :- SplitFilterPredicate(cs[i]);
        AllConjunctsUnion(RawParts(raw), split.Values);
        raw := MergeSplit(raw, split);
      }
      AllChildConjuncts(cs);
      var parts := CombineRaw(raw);
      return Success(parts);
    } else {
      FoundIffMentioned(p);
      var table := LookupBaseTable(p);
      if table.None? {
        return Failure;
      }
      var parts := map[table.value := p];
      SinglePart(p, table.value, parts);
      ConjunctsOfOne(p);
      return Success(parts);
    }
  }

  lemma {:induction false} ChildConjuncts(cs: seq<Expr>, i: nat)
    requires i < |cs|
    ensures AllConjuncts(SeqSet(cs[..i + 1])) == AllConjuncts(SeqSet(cs[..i])) + Conjuncts(cs[i])
    ensures Conjuncts(cs[i]) <= Conjuncts(And(cs))
  {
    assert SeqSet(cs[..i + 1]) == SeqSet(cs[..i]) + {cs[i]};
  }

  lemma {:induction false} AllChildConjuncts(cs: seq<Expr>)
    ensures AllConjuncts(SeqSet(cs[..|cs|])) == Conjuncts(And(cs))
  {
    assert cs[..|cs|] == cs;
  }
}
