/** The part of a query that mentions some of its tables only. */
module QueryFragment {
  import opened Sql

  predicate IsCompound(p: Expr) { p.And? || p.Or? || p.Not? }

  /** `CompoundPredicate.create` with the operation of `p`; None stands for no parts at all. */
  function Rebuild(p: Expr, parts: seq<Expr>): Option<Expr>
    requires IsCompound(p)
  {
    if parts == [] then None
    else if p.Not? then Some(Not(parts[0]))
    else if |parts| == 1 then Some(parts[0])
    else Some(if p.And? then And(parts) else Or(parts))
  }

  /** `_get_predicate_fragment` */
  function Fragment(p: Expr, ts: set<Table>): Option<Expr>
    requires IsPredicate(p)
    decreases p, |Kids(p)| + 1
  {
    if !IsCompound(p) then (if Tables(p) <= ts then Some(p) else None)
    else Rebuild(p, KidFragments(p, |Kids(p)|, ts))
  }

  /** The fragments of the first `n` children that have one. */
  function KidFragments(p: Expr, n: nat, ts: set<Table>): seq<Expr>
    requires IsPredicate(p) && IsCompound(p) && n <= |Kids(p)|
    decreases p, n
  {
    if n == 0 then []
    else KidFragments(p, n - 1, ts) + OptionSeq(Fragment(Kids(p)[n - 1], ts))
  }

  function OptionSeq(p: Option<Expr>): seq<Expr> { if p.None? then [] else [p.value] }

  /** The base predicates of a predicate hierarchy, from left to right. */
  function BaseParts(p: Expr): seq<Expr>
    decreases p, |Kids(p)| + 1
  {
    if IsCompound(p) then KidParts(p, |Kids(p)|) else [p]
  }

  function KidParts(p: Expr, n: nat): seq<Expr>
    requires n <= |Kids(p)|
    decreases p, n
  {
    if n == 0 then [] else KidParts(p, n - 1) + BaseParts(Kids(p)[n - 1])
  }

  /** The predicates of a list whose tables are among `ts`. */
  function Fitting(ps: seq<Expr>, ts: set<Table>): seq<Expr> {
    if ps == [] then []
    else
      var last := ps[|ps| - 1];
      Fitting(ps[..|ps| - 1], ts) + (if Tables(last) <= ts then [last] else [])
  }

  // ----- lists of fragments -----

  /** The fragments of all predicates of a list that have one. */
  ghost function Fragments(ps: seq<Expr>, ts: set<Table>): seq<Expr>
    requires forall p :: p in ps ==> IsPredicate(p)
  {
    if ps == [] then [] else Fragments(ps[..|ps| - 1], ts) + OptionSeq(Fragment(ps[|ps| - 1], ts))
  }

  lemma {:induction false} FragmentsLast(front: seq<Expr>, k: Expr, ts: set<Table>)
    requires (forall p :: p in front ==> IsPredicate(p)) && IsPredicate(k)
    ensures Fragments(front + [k], ts) == Fragments(front, ts) + OptionSeq(Fragment(k, ts))
  {
    assert (front + [k])[..|front|] == front;
  }

  lemma {:induction false} NothingKept()
    ensures forall ts :: Fragments([], ts) == [] && Fitting([], ts) == []
    ensures AllBaseParts([]) == []
  {}

  lemma {:induction false} KidsUpTo(p: Expr, n: nat)
    requires n < |Kids(p)|
    ensures Kids(p)[..n + 1] == Kids(p)[..n] + [Kids(p)[n]]
    ensures IsPredicate(p) && IsCompound(p) ==> IsPredicate(Kids(p)[n])
  {}

  lemma {:induction false} KidFragmentsAre(p: Expr, n: nat, ts: set<Table>)
    requires IsPredicate(p) && IsCompound(p) && n <= |Kids(p)|
    ensures forall k :: k in Kids(p)[..n] ==> IsPredicate(k)
    ensures KidFragments(p, n, ts) == Fragments(Kids(p)[..n], ts)
  {
    hide *;
    KidFragmentsStep(p, n, ts);
    NothingKept();
    if n > 0 {
      KidsUpTo(p, n - 1);
      KidFragmentsAre(p, n - 1, ts);
      FragmentsLast(Kids(p)[..n - 1], Kids(p)[n - 1], ts);
    } else {
      assert Kids(p)[..0] == [];
    }
  }

  lemma {:induction false} KidFragmentsStep(p: Expr, n: nat, ts: set<Table>)
    requires IsPredicate(p) && IsCompound(p) && n <= |Kids(p)|
    ensures n == 0 ==> KidFragments(p, n, ts) == []
    ensures n > 0 ==> IsPredicate(Kids(p)[n - 1])
    ensures n > 0 ==> KidFragments(p, n, ts) == KidFragments(p, n - 1, ts) + OptionSeq(Fragment(Kids(p)[n - 1], ts))
  {
    hide Fragment;
  }

  lemma {:induction false} FragmentIs(p: Expr, ts: set<Table>)
    requires IsPredicate(p) && IsCompound(p)
    ensures forall k :: k in Kids(p) ==> IsPredicate(k)
    ensures Fragment(p, ts) == Rebuild(p, Fragments(Kids(p), ts))
  {
    KidFragmentsAre(p, |Kids(p)|, ts);
    assert Kids(p)[..|Kids(p)|] == Kids(p);
    hide Fragments;
    hide KidFragments;
  }

  lemma {:induction false} FragmentsAppend(ps: seq<Expr>, qs: seq<Expr>, ts: set<Table>)
    requires forall p :: p in ps ==> IsPredicate(p)
    requires forall p :: p in qs ==> IsPredicate(p)
    ensures Fragments(ps + qs, ts) == Fragments(ps, ts) + Fragments(qs, ts)
  {
    hide Fragment;
    if qs == [] {
      assert ps + qs == ps;
    } else {
      assert (ps + qs)[..|ps + qs| - 1] == ps + qs[..|qs| - 1];
      FragmentsAppend(ps, qs[..|qs| - 1], ts);
    }
  }

  /** The fragment of a predicate is a predicate. */
  lemma {:induction false} FragmentIsPredicate(p: Expr, ts: set<Table>)
    requires IsPredicate(p)
    ensures Fragment(p, ts).Some? ==> IsPredicate(Fragment(p, ts).value)
    decreases p, 1
  {
    if IsCompound(p) {
      FragmentIs(p, ts);
      FragmentsArePredicates(p, |Kids(p)|, ts);
      assert Kids(p)[..|Kids(p)|] == Kids(p);
      var fs := Fragments(Kids(p), ts);
      hide Fragments;
      hide Fragment;
      assert forall i :: 0 <= i < |fs| ==> fs[i] in fs;
    }
  }

  lemma {:induction false} FragmentsArePredicates(p: Expr, n: nat, ts: set<Table>)
    requires IsPredicate(p) && IsCompound(p) && n <= |Kids(p)|
    ensures forall k :: k in Kids(p)[..n] ==> IsPredicate(k)
    ensures forall f :: f in Fragments(Kids(p)[..n], ts) ==> IsPredicate(f)
    decreases p, 0, n
  {
    hide *;
    if n == 0 {
      assert Kids(p)[..0] == [];
      NothingKept();
    } else {
      var front, k := Kids(p)[..n - 1], Kids(p)[n - 1];
      KidsUpTo(p, n - 1);
      FragmentsArePredicates(p, n - 1, ts);
      FragmentIsPredicate(k, ts);
      FragmentsLast(front, k, ts);
      OptionHas(Fragment(k, ts));
    }
  }

  lemma {:induction false} OptionHas(p: Option<Expr>)
    ensures forall x :: x in OptionSeq(p) ==> p == Some(x)
  {}

  // ----- fragments of fragments -----

  ghost function FragmentOf(p: Option<Expr>, ts: set<Table>): Option<Expr>
    requires p.Some? ==> IsPredicate(p.value)
  {
    if p.None? then None else Fragment(p.value, ts)
  }

  /** Extracting for `t2` and then for `t1` is extracting for the tables in both. */
  lemma {:induction false} FragmentsCompose(p: Expr, t1: set<Table>, t2: set<Table>)
    requires IsPredicate(p)
    ensures Fragment(p, t2).Some? ==> IsPredicate(Fragment(p, t2).value)
    ensures FragmentOf(Fragment(p, t2), t1) == Fragment(p, t1 * t2)
    decreases p, 1
  {
    FragmentIsPredicate(p, t2);
    if IsCompound(p) {
      KidsCompose(p, |Kids(p)|, t1, t2);
      assert Kids(p)[..|Kids(p)|] == Kids(p);
      FragmentIs(p, t2);
      FragmentIs(p, t1 * t2);
      var fs := Fragments(Kids(p), t2);
      hide *;
      RebuildCompose(p, fs, t1);
    }
  }

  lemma {:induction false} KidsCompose(p: Expr, n: nat, t1: set<Table>, t2: set<Table>)
    requires IsPredicate(p) && IsCompound(p) && n <= |Kids(p)|
    ensures forall k :: k in Kids(p)[..n] ==> IsPredicate(k)
    ensures forall f :: f in Fragments(Kids(p)[..n], t2) ==> IsPredicate(f)
    ensures Fragments(Fragments(Kids(p)[..n], t2), t1) == Fragments(Kids(p)[..n], t1 * t2)
    decreases p, 0, n
  {
    hide *;
    if n == 0 {
      assert Kids(p)[..0] == [];
      NothingKept();
    } else {
      var front, k := Kids(p)[..n - 1], Kids(p)[n - 1];
      KidsUpTo(p, n - 1);
      KidsCompose(p, n - 1, t1, t2);
      FragmentsCompose(k, t1, t2);
      var own := OptionSeq(Fragment(k, t2));
      OneFragment(Fragment(k, t2), t1);
      FragmentsLast(front, k, t2);
      FragmentsLast(front, k, t1 * t2);
      FragmentsAppend(Fragments(front, t2), own, t1);
    }
  }

  lemma {:induction false} OneFragment(p: Option<Expr>, ts: set<Table>)
    requires p.Some? ==> IsPredicate(p.value)
    ensures forall x :: x in OptionSeq(p) ==> IsPredicate(x)
    ensures Fragments(OptionSeq(p), ts) == OptionSeq(FragmentOf(p, ts))
  {
    hide Fragment;
    if p.Some? {
      assert [p.value][..0] == [];
    }
  }

  lemma {:induction false} RebuildCompose(p: Expr, fs: seq<Expr>, ts: set<Table>)
    requires IsCompound(p) && forall f :: f in fs ==> IsPredicate(f)
    requires p.Not? ==> |fs| <= 1
    requires Rebuild(p, fs).Some? ==> IsPredicate(Rebuild(p, fs).value)
    ensures FragmentOf(Rebuild(p, fs), ts) == Rebuild(p, Fragments(fs, ts))
  {
    if fs == [] {
    } else if |fs| == 1 {
      OneFragment(Some(fs[0]), ts);
      assert fs == [fs[0]];
      if p.Not? {
        FragmentIs(Not(fs[0]), ts);
      }
    } else {
      FragmentIs(Rebuild(p, fs).value, ts);
    }
  }

  // ----- surviving base predicates -----

  /** The base predicates of a list of predicates. */
  ghost function AllBaseParts(ps: seq<Expr>): seq<Expr> {
    if ps == [] then [] else AllBaseParts(ps[..|ps| - 1]) + BaseParts(ps[|ps| - 1])
  }

  lemma {:induction false} KidPartsAre(p: Expr, n: nat)
    requires n <= |Kids(p)|
    ensures KidParts(p, n) == AllBaseParts(Kids(p)[..n])
  {
    hide BaseParts;
    if n > 0 {
      KidPartsAre(p, n - 1);
      assert Kids(p)[..n][..n - 1] == Kids(p)[..n - 1];
    }
  }

  lemma {:induction false} BasePartsAre(p: Expr)
    requires IsCompound(p)
    ensures BaseParts(p) == AllBaseParts(Kids(p))
  {
    KidPartsAre(p, |Kids(p)|);
    assert Kids(p)[..|Kids(p)|] == Kids(p);
    hide AllBaseParts;
    hide KidParts;
  }

  lemma {:induction false} AllBasePartsAppend(ps: seq<Expr>, qs: seq<Expr>)
    ensures AllBaseParts(ps + qs) == AllBaseParts(ps) + AllBaseParts(qs)
  {
    hide BaseParts;
    if qs == [] {
      assert ps + qs == ps;
    } else {
      assert (ps + qs)[..|ps + qs| - 1] == ps + qs[..|qs| - 1];
      AllBasePartsAppend(ps, qs[..|qs| - 1]);
    }
  }

  lemma {:induction false} FittingAppend(ps: seq<Expr>, qs: seq<Expr>, ts: set<Table>)
    ensures Fitting(ps + qs, ts) == Fitting(ps, ts) + Fitting(qs, ts)
  {
    hide Tables;
    if qs == [] {
      assert ps + qs == ps;
    } else {
      assert (ps + qs)[..|ps + qs| - 1] == ps + qs[..|qs| - 1];
      FittingAppend(ps, qs[..|qs| - 1], ts);
    }
  }

  lemma {:induction false} OneBasePart(p: Expr)
    ensures AllBaseParts([p]) == BaseParts(p)
  {
    hide BaseParts;
    assert [p][..0] == [];
  }

  ghost function PartsOf(p: Option<Expr>): seq<Expr> { if p.None? then [] else BaseParts(p.value) }

  /** The base predicates of a fragment are exactly those that fit, in their order; without any there is no
      fragment. */
  lemma {:induction false} FragmentKeepsFitting(p: Expr, ts: set<Table>)
    requires IsPredicate(p)
    ensures PartsOf(Fragment(p, ts)) == Fitting(BaseParts(p), ts)
    ensures Fragment(p, ts).None? <==> Fitting(BaseParts(p), ts) == []
    decreases p, 1
  {
    if IsCompound(p) {
      KidsKeepFitting(p, |Kids(p)|, ts);
      assert Kids(p)[..|Kids(p)|] == Kids(p);
      FragmentIs(p, ts);
      BasePartsAre(p);
      var fs := Fragments(Kids(p), ts);
      if p.Not? {
        NotHasOne(p, ts);
      }
      hide *;
      RebuildParts(p, fs);
    } else {
      assert BaseParts(p) == [p];
      assert [p][..0] == [];
      hide Tables;
    }
  }

  lemma {:induction false} NotHasOne(p: Expr, ts: set<Table>)
    requires IsPredicate(p) && p.Not? && forall k :: k in Kids(p) ==> IsPredicate(k)
    ensures |Fragments(Kids(p), ts)| <= 1
  {
    hide Fragment;
    assert Kids(p) == [p.child];
    assert [p.child][..0] == [];
    assert Fragments([], ts) == [];
  }

  lemma {:induction false} KidsKeepFitting(p: Expr, n: nat, ts: set<Table>)
    requires IsPredicate(p) && IsCompound(p) && n <= |Kids(p)|
    ensures forall k :: k in Kids(p)[..n] ==> IsPredicate(k)
    ensures AllBaseParts(Fragments(Kids(p)[..n], ts)) == Fitting(AllBaseParts(Kids(p)[..n]), ts)
    ensures Fragments(Kids(p)[..n], ts) == [] <==> AllBaseParts(Fragments(Kids(p)[..n], ts)) == []
    decreases p, 0, n
  {
    hide *;
    if n == 0 {
      assert Kids(p)[..0] == [];
      NothingKept();
    } else {
      var front, k := Kids(p)[..n - 1], Kids(p)[n - 1];
      KidsUpTo(p, n - 1);
      KidsKeepFitting(p, n - 1, ts);
      FragmentKeepsFitting(k, ts);
      var own := OptionSeq(Fragment(k, ts));
      FragmentsLast(front, k, ts);
      AllBasePartsAppend(Fragments(front, ts), own);
      AllBasePartsAppend(front, [k]);
      OneBasePart(k);
      FittingAppend(AllBaseParts(front), BaseParts(k), ts);
      OptionParts(Fragment(k, ts));
    }
  }

  lemma {:induction false} OptionParts(p: Option<Expr>)
    ensures AllBaseParts(OptionSeq(p)) == PartsOf(p)
    ensures OptionSeq(p) == [] <==> p.None?
  {
    if p.Some? {
      OneBasePart(p.value);
    }
    hide BaseParts;
  }

  lemma {:induction false} RebuildParts(p: Expr, fs: seq<Expr>)
    requires IsCompound(p) && (p.Not? ==> |fs| <= 1)
    ensures PartsOf(Rebuild(p, fs)) == AllBaseParts(fs)
    ensures Rebuild(p, fs).None? <==> fs == []
  {
    if |fs| == 1 {
      assert fs == [fs[0]];
      OneBasePart(fs[0]);
      if p.Not? {
        BasePartsAre(Not(fs[0]));
      }
    } else if fs != [] {
      BasePartsAre(Rebuild(p, fs).value);
    }
    hide BaseParts;
  }

  // ----- conjunctions -----

  /** A predicate whose tables fit is its own fragment. */
  lemma {:induction false} FittingIsKept(p: Expr, ts: set<Table>)
    requires IsPredicate(p) && Tables(p) <= ts
    ensures Fragment(p, ts) == Some(p)
    decreases p, 1
  {
    hide Fragments;
    hide Tables;
    if IsCompound(p) {
      hide Fragment;
      KidsAreKept(p, |Kids(p)|, ts);
      assert Kids(p)[..|Kids(p)|] == Kids(p);
      FragmentIs(p, ts);
      assert p.Not? ==> Kids(p)[0] == p.child;
    }
  }

  lemma {:induction false} KidsAreKept(p: Expr, n: nat, ts: set<Table>)
    requires IsPredicate(p) && IsCompound(p) && n <= |Kids(p)| && Tables(p) <= ts
    ensures forall k :: k in Kids(p)[..n] ==> IsPredicate(k)
    ensures Fragments(Kids(p)[..n], ts) == Kids(p)[..n]
    decreases p, 0, n
  {
    hide *;
    if n == 0 {
      assert Kids(p)[..0] == [];
      NothingKept();
    } else {
      var front, k := Kids(p)[..n - 1], Kids(p)[n - 1];
      KidsUpTo(p, n - 1);
      KidsAreKept(p, n - 1, ts);
      KidColumns(p, k);
      FittingIsKept(k, ts);
      FragmentsLast(front, k, ts);
      OneOption(k);
    }
  }

  lemma {:induction false} OneOption(p: Expr)
    ensures OptionSeq(Some(p)) == [p]
  {}

  /** The fragments of a set of predicates. */
  ghost function FragmentSet(ps: set<Expr>, ts: set<Table>): set<Expr>
    requires forall p :: p in ps ==> IsPredicate(p)
  {
    set p | p in ps && Fragment(p, ts).Some? :: Fragment(p, ts).value
  }

  ghost function ConjunctsOf(p: Option<Expr>): set<Expr> { if p.None? then {} else Conjuncts(p.value) }

  /** The conjuncts of a fragment are those of the fragments of the conjuncts. */
  lemma {:induction false} FragmentConjuncts(p: Expr, ts: set<Table>)
    requires IsPredicate(p)
    ensures forall c :: c in Conjuncts(p) ==> IsPredicate(c)
    ensures ConjunctsOf(Fragment(p, ts)) == AllConjuncts(FragmentSet(Conjuncts(p), ts))
    decreases p, 1
  {
    if p.And? {
      FragmentIs(p, ts);
      KidsConjuncts(p, |Kids(p)|, ts);
      assert Kids(p)[..|Kids(p)|] == Kids(p) == p.children;
      assert Conjuncts(p) == AllConjuncts(SeqSet(p.children));
      var fs := Fragments(p.children, ts);
      hide *;
      RebuildConjuncts(p, fs);
    } else {
      FragmentSetOfOne(p, ts);
      hide *;
      assert Conjuncts(p) == {p} by {
        NoConjunction(p);
      }
      ConjunctsOfOption(Fragment(p, ts));
    }
  }

  lemma {:induction false} NoConjunction(p: Expr)
    requires !p.And?
    ensures Conjuncts(p) == {p}
  {}

  lemma {:induction false} FragmentSetOfOne(p: Expr, ts: set<Table>)
    requires IsPredicate(p)
    ensures FragmentSet({p}, ts) == SeqSet(OptionSeq(Fragment(p, ts)))
  {
    hide Fragment;
  }

  lemma {:induction false} FragmentSetUnites(a: set<Expr>, b: set<Expr>, ts: set<Table>)
    requires forall p :: p in a + b ==> IsPredicate(p)
    ensures FragmentSet(a + b, ts) == FragmentSet(a, ts) + FragmentSet(b, ts)
  {
    hide Fragment;
  }

  lemma {:induction false} RebuildConjuncts(p: Expr, fs: seq<Expr>)
    requires p.And?
    ensures ConjunctsOf(Rebuild(p, fs)) == AllConjuncts(SeqSet(fs))
  {
    if fs == [] {
      assert SeqSet(fs) == {};
    } else if |fs| == 1 {
      assert fs == [fs[0]];
      ConjunctsOfSeqOne(fs[0]);
    } else {
      assert Conjuncts(And(fs)) == AllConjuncts(SeqSet(fs));
    }
  }

  lemma {:induction false} NoConjuncts()
    ensures AllConjuncts(SeqSet([])) == {} && forall ts :: FragmentSet({}, ts) == {}
    ensures AllConjuncts({}) == {}
  {
    assert SeqSet([]) == {};
  }

  lemma {:induction false} KidsConjuncts(p: Expr, n: nat, ts: set<Table>)
    requires IsPredicate(p) && p.And? && n <= |Kids(p)|
    ensures forall k :: k in Kids(p)[..n] ==> IsPredicate(k)
    ensures forall c :: c in AllConjuncts(SeqSet(Kids(p)[..n])) ==> IsPredicate(c)
    ensures AllConjuncts(SeqSet(Fragments(Kids(p)[..n], ts)))
         == AllConjuncts(FragmentSet(AllConjuncts(SeqSet(Kids(p)[..n])), ts))
    decreases p, 0, n
  {
    hide *;
    if n == 0 {
      assert Kids(p)[..0] == [];
      NothingKept();
      NoConjuncts();
    } else {
      var front, k := Kids(p)[..n - 1], Kids(p)[n - 1];
      assert IsCompound(p) by {
        AndIsCompound(p);
      }
      KidsUpTo(p, n - 1);
      KidsConjuncts(p, n - 1, ts);
      FragmentConjuncts(k, ts);
      FragmentsLast(front, k, ts);
      ConjunctsAppend(Fragments(front, ts), OptionSeq(Fragment(k, ts)));
      ConjunctsOfOption(Fragment(k, ts));
      ConjunctsAppend(front, [k]);
      ConjunctsOfSeqOne(k);
      var cs := AllConjuncts(SeqSet(front));
      assert forall c :: c in cs + Conjuncts(k) ==> IsPredicate(c);
      FragmentSetUnites(cs, Conjuncts(k), ts);
      AllConjunctsUnite(FragmentSet(cs, ts), FragmentSet(Conjuncts(k), ts));
    }
  }

  lemma {:induction false} AndIsCompound(p: Expr)
    requires p.And?
    ensures IsCompound(p)
  {}

  lemma {:induction false} ConjunctsAppend(ps: seq<Expr>, qs: seq<Expr>)
    ensures AllConjuncts(SeqSet(ps + qs)) == AllConjuncts(SeqSet(ps)) + AllConjuncts(SeqSet(qs))
  {
    assert SeqSet(ps + qs) == SeqSet(ps) + SeqSet(qs);
    AllConjunctsUnite(SeqSet(ps), SeqSet(qs));
  }

  lemma {:induction false} ConjunctsOfSeqOne(p: Expr)
    ensures AllConjuncts(SeqSet([p])) == Conjuncts(p)
  {
    assert SeqSet([p]) == {p};
    AllConjunctsOfOne(p);
  }

  lemma {:induction false} ConjunctsOfOption(p: Option<Expr>)
    ensures AllConjuncts(SeqSet(OptionSeq(p))) == ConjunctsOf(p)
  {
    if p.Some? {
      ConjunctsOfSeqOne(p.value);
    } else {
      assert SeqSet([]) == {};
    }
    hide Conjuncts;
  }

  /** A fragment mentions the given tables only. */
  lemma {:induction false} FragmentTables(p: Expr, ts: set<Table>)
    requires IsPredicate(p) && Fragment(p, ts).Some?
    ensures Tables(Fragment(p, ts).value) <= ts
    decreases p, 1
  {
    if IsCompound(p) {
      FragmentIs(p, ts);
      KidFragmentTables(p, |Kids(p)|, ts);
      assert Kids(p)[..|Kids(p)|] == Kids(p);
      var fs := Fragments(Kids(p), ts);
      assert fs[0] in fs;
      hide *;
      RebuildTables(p, fs, ts);
    }
  }

  lemma {:induction false} RebuildTables(p: Expr, fs: seq<Expr>, ts: set<Table>)
    requires IsCompound(p) && fs != [] && forall f :: f in fs ==> Tables(f) <= ts
    ensures Tables(Rebuild(p, fs).value) <= ts
  {
    var f := Rebuild(p, fs).value;
    assert fs[0] in fs;
    if p.Not? || |fs| > 1 {
      forall c | c in Columns(f) ensures c.table in ts {
        var k :| k in Kids(f) && c in Columns(k);
        assert k in fs && c.table in Tables(k);
      }
    }
  }

  lemma {:induction false} KidFragmentTables(p: Expr, n: nat, ts: set<Table>)
    requires IsPredicate(p) && IsCompound(p) && n <= |Kids(p)|
    ensures forall k :: k in Kids(p)[..n] ==> IsPredicate(k)
    ensures forall f :: f in Fragments(Kids(p)[..n], ts) ==> Tables(f) <= ts
    decreases p, 0, n
  {
    hide *;
    if n == 0 {
      assert Kids(p)[..0] == [];
      NothingKept();
    } else {
      var front, k := Kids(p)[..n - 1], Kids(p)[n - 1];
      KidsUpTo(p, n - 1);
      KidFragmentTables(p, n - 1, ts);
      FragmentsLast(front, k, ts);
      if Fragment(k, ts).Some? {
        FragmentTables(k, ts);
      }
      OptionHas(Fragment(k, ts));
    }
  }
}
