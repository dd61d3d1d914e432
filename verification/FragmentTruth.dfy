/** When the fragment of a predicate follows from the predicate. */
module FragmentTruth {
  import opened Sql
  import opened QueryFragment

  /** The truth value of a predicate hierarchy from those of its base predicates. */
  ghost function TruthOf(v: Expr -> Truth, p: Expr): Truth {
    match p
    case And(cs) => AllOf(set i | 0 <= i < |cs| :: TruthOf(v, cs[i]))
    case Or(cs) => AnyOf(set i | 0 <= i < |cs| :: TruthOf(v, cs[i]))
    case Not(c) => Negate(TruthOf(v, c))
    case _ => v(p)
  }

  /** Whether the fragment for `ts` is True wherever the predicate is (or False wherever it is, unless `pos`). What has
      to hold in all of its children keeps this if the children do; what has to hold in one child must not lose any
      child either, unless it loses all of them. */
  predicate Keeps(p: Expr, ts: set<Table>, pos: bool)
    requires IsPredicate(p)
  {
    if p.Not? then Keeps(p.child, ts, !pos)
    else if p.And? || p.Or? then
      && (forall i :: 0 <= i < |p.children| ==> Keeps(p.children[i], ts, pos))
      && (p.And? == pos || Fragment(p, ts).None? ||
          forall i :: 0 <= i < |p.children| ==> Fragment(p.children[i], ts).Some?)
    else true
  }

  // ----- connectives -----

  /** The truth values of the children. */
  lemma {:induction false} KidTruths(v: Expr -> Truth, p: Expr) returns (ts: set<Truth>)
    requires p.And? || p.Or?
    ensures TruthOf(v, p) == if p.And? then AllOf(ts) else AnyOf(ts)
    ensures forall k :: k in p.children ==> TruthOf(v, k) in ts
    ensures forall t :: t in ts ==> exists k :: k in p.children && TruthOf(v, k) == t
  {
    ts := set i | 0 <= i < |p.children| :: TruthOf(v, p.children[i]);
    forall k | k in p.children ensures TruthOf(v, k) in ts {
      var i :| 0 <= i < |p.children| && p.children[i] == k;
    }
    forall t | t in ts ensures exists k :: k in p.children && TruthOf(v, k) == t {
      var i :| 0 <= i < |p.children| && TruthOf(v, p.children[i]) == t;
      assert p.children[i] in p.children;
    }
  }

  lemma {:induction false} NeedsAll(v: Expr -> Truth, p: Expr, pos: bool)
    requires (p.And? || p.Or?) && p.And? == pos
    ensures TruthOf(v, p) == FromBool(pos) <==> forall k :: k in p.children ==> TruthOf(v, k) == FromBool(pos)
  {
    var ts := KidTruths(v, p);
    assert FromBool(true) == True && FromBool(false) == False;
  }

  lemma {:induction false} NeedsOne(v: Expr -> Truth, p: Expr, pos: bool)
    requires (p.And? || p.Or?) && p.And? != pos
    ensures TruthOf(v, p) == FromBool(pos) <==> exists k :: k in p.children && TruthOf(v, k) == FromBool(pos)
  {
    var ts := KidTruths(v, p);
    assert FromBool(true) == True && FromBool(false) == False;
  }

  lemma {:induction false} RebuildNeedsAll(v: Expr -> Truth, p: Expr, fs: seq<Expr>, pos: bool)
    requires (p.And? || p.Or?) && p.And? == pos && fs != []
    requires forall f :: f in fs ==> TruthOf(v, f) == FromBool(pos)
    ensures TruthOf(v, Rebuild(p, fs).value) == FromBool(pos)
  {
    if |fs| > 1 {
      NeedsAll(v, Rebuild(p, fs).value, pos);
    } else {
      assert fs[0] in fs;
    }
  }

  lemma {:induction false} RebuildNeedsOne(v: Expr -> Truth, p: Expr, fs: seq<Expr>, f: Expr, pos: bool)
    requires (p.And? || p.Or?) && p.And? != pos && f in fs && TruthOf(v, f) == FromBool(pos)
    ensures TruthOf(v, Rebuild(p, fs).value) == FromBool(pos)
  {
    if |fs| > 1 {
      NeedsOne(v, Rebuild(p, fs).value, pos);
    }
  }

  /** The fragments of a list are those of its predicates. */
  lemma {:induction false} FragmentsFrom(ps: seq<Expr>, ts: set<Table>, f: Expr)
    requires forall p :: p in ps ==> IsPredicate(p)
    ensures f in Fragments(ps, ts) <==> exists p :: p in ps && Fragment(p, ts) == Some(f)
  {
    hide *;
    NothingKept();
    if ps != [] {
      var front, last := ps[..|ps| - 1], ps[|ps| - 1];
      assert ps == front + [last];
      FragmentsFrom(front, ts, f);
      FragmentsLast(front, last, ts);
      assert f in OptionSeq(Fragment(last, ts)) <==> Fragment(last, ts) == Some(f) by {
        OptionIs(Fragment(last, ts));
      }
      if f in Fragments(front, ts) {
        var p :| p in front && Fragment(p, ts) == Some(f);
        assert p in ps;
      }
      if p :| p in ps && Fragment(p, ts) == Some(f) {
        assert p in front || p == last;
      }
    }
  }

  lemma {:induction false} OptionIs(p: Option<Expr>)
    ensures OptionSeq(p) == if p.Some? then [p.value] else []
  {}

  // ----- the truth value of a fragment -----

  ghost function Truths(v: Expr -> Truth, fs: set<Expr>): set<Truth> { set f | f in fs :: TruthOf(v, f) }

  lemma {:induction false} FragmentsAreSet(ps: seq<Expr>, ts: set<Table>)
    requires forall p :: p in ps ==> IsPredicate(p)
    ensures SeqSet(Fragments(ps, ts)) == FragmentSet(SeqSet(ps), ts)
  {
    var fs := Fragments(ps, ts);
    forall f ensures f in fs <==> exists p :: p in ps && Fragment(p, ts) == Some(f) {
      FragmentsFrom(ps, ts, f);
    }
    hide Fragment;
    hide Fragments;
  }

  /** A fragment of a conjunction or disjunction combines the fragments that its children have in the same way. */
  lemma {:induction false} FragmentCombines(v: Expr -> Truth, p: Expr, ts: set<Table>)
    requires IsPredicate(p) && (p.And? || p.Or?) && Fragment(p, ts).Some?
    ensures forall k :: k in p.children ==> IsPredicate(k)
    ensures var kept := FragmentSet(SeqSet(p.children), ts);
      TruthOf(v, Fragment(p, ts).value) == if p.And? then AllOf(Truths(v, kept)) else AnyOf(Truths(v, kept))
  {
    FragmentIs(p, ts);
    assert Kids(p) == p.children;
    hide Fragment;
    hide Fragments;
    hide Truths;
    hide FragmentSet;
    FragmentsAreSet(p.children, ts);
    RebuildTruth(v, p, Fragments(p.children, ts));
  }

  lemma {:induction false} RebuildTruth(v: Expr -> Truth, p: Expr, fs: seq<Expr>)
    requires (p.And? || p.Or?) && fs != []
    ensures TruthOf(v, Rebuild(p, fs).value) ==
      if p.And? then AllOf(Truths(v, SeqSet(fs))) else AnyOf(Truths(v, SeqSet(fs)))
  {
    if |fs| == 1 {
      assert SeqSet(fs) == {fs[0]};
      assert Truths(v, SeqSet(fs)) == {TruthOf(v, fs[0])};
    } else {
      var values := KidTruths(v, Rebuild(p, fs).value);
      assert Truths(v, SeqSet(fs)) == values;
    }
  }

  // ----- the condition suffices -----

  /** The fragment follows, for every truth value of the base predicates. */
  lemma {:induction false} FragmentFollows(v: Expr -> Truth, p: Expr, ts: set<Table>, pos: bool)
    requires IsPredicate(p) && Keeps(p, ts, pos) && Fragment(p, ts).Some? && TruthOf(v, p) == FromBool(pos)
    ensures TruthOf(v, Fragment(p, ts).value) == FromBool(pos)
    decreases p
  {
    if IsCompound(p) {
      FragmentIs(p, ts);
      var fs := Fragments(Kids(p), ts);
      forall f | f in fs ensures exists k :: k in Kids(p) && Fragment(k, ts) == Some(f) {
        FragmentsFrom(Kids(p), ts, f);
      }
      if p.Not? {
        NotHasOne(p, ts);
        assert fs[0] in fs;
        FragmentFollows(v, p.child, ts, !pos);
      } else if p.And? == pos {
        AllFollow(v, p, ts, pos);
      } else {
        OneFollows(v, p, ts, pos);
      }
    }
  }

  lemma {:induction false} AllFollow(v: Expr -> Truth, p: Expr, ts: set<Table>, pos: bool)
    requires IsPredicate(p) && (p.And? || p.Or?) && p.And? == pos
    requires Keeps(p, ts, pos) && Fragment(p, ts).Some? && TruthOf(v, p) == FromBool(pos)
    ensures TruthOf(v, Fragment(p, ts).value) == FromBool(pos)
    decreases p, 0
  {
    FragmentIs(p, ts);
    var fs := Fragments(p.children, ts);
    NeedsAll(v, p, pos);
    hide Fragment;
    hide Fragments;
    hide TruthOf;
    forall f | f in fs ensures TruthOf(v, f) == FromBool(pos) {
      FragmentsFrom(p.children, ts, f);
      var i :| 0 <= i < |p.children| && Fragment(p.children[i], ts) == Some(f);
      FragmentFollows(v, p.children[i], ts, pos);
    }
    RebuildNeedsAll(v, p, fs, pos);
  }

  lemma {:induction false} OneFollows(v: Expr -> Truth, p: Expr, ts: set<Table>, pos: bool)
    requires IsPredicate(p) && (p.And? || p.Or?) && p.And? != pos
    requires Keeps(p, ts, pos) && Fragment(p, ts).Some? && TruthOf(v, p) == FromBool(pos)
    ensures TruthOf(v, Fragment(p, ts).value) == FromBool(pos)
    decreases p, 0
  {
    FragmentIs(p, ts);
    var fs := Fragments(p.children, ts);
    NeedsOne(v, p, pos);
    hide Fragment;
    hide Fragments;
    hide TruthOf;
    var i :| 0 <= i < |p.children| && TruthOf(v, p.children[i]) == FromBool(pos);
    FragmentFollows(v, p.children[i], ts, pos);
    var f := Fragment(p.children[i], ts).value;
    FragmentsFrom(p.children, ts, f);
    RebuildNeedsOne(v, p, fs, f, pos);
  }

  // ----- the condition is necessary -----

  /** The base predicates in `on` are True and all others False. */
  ghost function On(on: set<Expr>): Expr -> Truth { e => FromBool(e in on) }

  ghost function Atoms(p: Expr): set<Expr> { SeqSet(BaseParts(p)) }

  ghost function Union(ss: seq<set<Expr>>): set<Expr> { set i, e | 0 <= i < |ss| && e in ss[i] :: e }

  /** Base predicates that are no part of a predicate do not matter to it. */
  lemma {:induction false} OnIsLocal(p: Expr, on: set<Expr>, other: set<Expr>)
    requires on * Atoms(p) == other * Atoms(p)
    ensures TruthOf(On(on), p) == TruthOf(On(other), p)
  {
    if p.And? || p.Or? {
      var cs := p.children;
      forall i | 0 <= i < |cs| ensures TruthOf(On(on), cs[i]) == TruthOf(On(other), cs[i]) {
        KidAtoms(p, i);
        assert on * Atoms(cs[i]) == on * Atoms(p) * Atoms(cs[i]) == other * Atoms(cs[i]);
        OnIsLocal(cs[i], on, other);
      }
      assert (set i | 0 <= i < |cs| :: TruthOf(On(on), cs[i])) == set i | 0 <= i < |cs| :: TruthOf(On(other), cs[i]);
    } else if p.Not? {
      NotParts(p);
      OnIsLocal(p.child, on, other);
    } else {
      assert BaseParts(p) == [p];
      assert p in on <==> p in on * Atoms(p);
      assert p in other <==> p in other * Atoms(p);
    }
  }

  lemma {:induction false} KidAtoms(p: Expr, i: nat)
    requires IsCompound(p) && i < |Kids(p)|
    ensures Atoms(Kids(p)[i]) <= Atoms(p)
  {
    SomeKidParts(p, |Kids(p)|, i);
  }

  lemma {:induction false} SomeKidParts(p: Expr, n: nat, i: nat)
    requires i < n <= |Kids(p)|
    ensures SeqSet(BaseParts(Kids(p)[i])) <= SeqSet(KidParts(p, n))
  {
    hide BaseParts;
    if i < n - 1 {
      SomeKidParts(p, n - 1, i);
    }
  }

  lemma {:induction false} DistinctAppend(a: seq<Expr>, b: seq<Expr>)
    requires Distinct(a + b)
    ensures Distinct(a) && Distinct(b) && SeqSet(a) !! SeqSet(b)
  {
    forall i, j | 0 <= i < |a| && 0 <= j < |b| ensures a[i] != b[j] {
      assert (a + b)[i] == a[i] && (a + b)[|a| + j] == b[j];
    }
    forall i, j | 0 <= i < j < |b| ensures b[i] != b[j] {
      assert (a + b)[|a| + i] == b[i] && (a + b)[|a| + j] == b[j];
    }
    forall i, j | 0 <= i < j < |a| ensures a[i] != a[j] {
      assert (a + b)[i] == a[i] && (a + b)[j] == a[j];
    }
  }

  lemma {:induction false} KidsAreDistinct(p: Expr, n: nat)
    requires n <= |Kids(p)| && Distinct(KidParts(p, n))
    ensures forall i :: 0 <= i < n ==> Distinct(BaseParts(Kids(p)[i]))
    ensures forall i, j :: 0 <= i < j < n ==> Atoms(Kids(p)[i]) !! Atoms(Kids(p)[j])
  {
    hide BaseParts;
    hide Distinct;
    if n > 0 {
      DistinctAppend(KidParts(p, n - 1), BaseParts(Kids(p)[n - 1]));
      KidsAreDistinct(p, n - 1);
      forall i | 0 <= i < n - 1 ensures Atoms(Kids(p)[i]) !! Atoms(Kids(p)[n - 1]) {
        SomeKidParts(p, n - 1, i);
      }
    }
  }

  /** Sets of base predicates, one for every child, do not interfere. */
  lemma {:induction false} UnionParts(p: Expr, ss: seq<set<Expr>>)
    requires IsCompound(p) && Distinct(BaseParts(p)) && |ss| == |Kids(p)|
    requires forall i :: 0 <= i < |ss| ==> ss[i] <= Atoms(Kids(p)[i])
    ensures Union(ss) <= Atoms(p)
    ensures forall i :: 0 <= i < |ss| ==> Union(ss) * Atoms(Kids(p)[i]) == ss[i]
    ensures forall i :: 0 <= i < |ss| ==> Distinct(BaseParts(Kids(p)[i]))
  {
    assert BaseParts(p) == KidParts(p, |Kids(p)|);
    KidsAreDistinct(p, |Kids(p)|);
    hide BaseParts;
    hide Distinct;
    forall i | 0 <= i < |ss| ensures Atoms(Kids(p)[i]) <= Atoms(p) {
      KidAtoms(p, i);
    }
    hide Atoms;
  }

  /** The base predicates that have to be True for a predicate to have the value `b`. */
  ghost function Want(p: Expr, b: bool): set<Expr> {
    match p
    case And(cs) => Union(seq(|cs|, i requires 0 <= i < |cs| => Want(cs[i], b)))
    case Or(cs) => Union(seq(|cs|, i requires 0 <= i < |cs| => Want(cs[i], b)))
    case Not(c) => Want(c, !b)
    case _ => if b then {p} else {}
  }

  lemma {:induction false} WantIsOfAtoms(p: Expr, b: bool)
    ensures Want(p, b) <= Atoms(p)
  {
    if p.And? || p.Or? {
      forall i | 0 <= i < |p.children| ensures Want(p.children[i], b) <= Atoms(p) {
        WantIsOfAtoms(p.children[i], b);
        KidAtoms(p, i);
      }
    } else if p.Not? {
      WantIsOfAtoms(p.child, !b);
      KidAtoms(p, 0);
    } else {
      assert BaseParts(p) == [p];
    }
  }

  /** A predicate of different base predicates can have both values. */
  lemma {:induction false} WantMakes(p: Expr, b: bool, on: set<Expr>)
    requires IsPredicate(p) && Distinct(BaseParts(p)) && on * Atoms(p) == Want(p, b)
    ensures TruthOf(On(on), p) == FromBool(b)
  {
    if p.And? || p.Or? {
      var cs := p.children;
      var ss := seq(|cs|, i requires 0 <= i < |cs| => Want(cs[i], b));
      forall i | 0 <= i < |cs| ensures ss[i] <= Atoms(cs[i]) {
        WantIsOfAtoms(cs[i], b);
      }
      assert Union(ss) == Want(p, b);
      UnionParts(p, ss);
      forall i | 0 <= i < |cs| ensures TruthOf(On(on), cs[i]) == FromBool(b) {
        KidAtoms(p, i);
        assert on * Atoms(cs[i]) == Union(ss) * Atoms(cs[i]);
        WantMakes(cs[i], b, on);
      }
      assert cs[0] in cs;
      hide TruthOf;
      if p.And? == b {
        NeedsAll(On(on), p, b);
      } else {
        NeedsOne(On(on), p, b);
      }
    } else if p.Not? {
      NotParts(p);
      WantMakes(p.child, !b, on);
    } else {
      assert BaseParts(p) == [p];
      assert p in on <==> p in on * Atoms(p);
    }
  }

  lemma {:induction false} NotParts(p: Expr)
    requires p.Not?
    ensures BaseParts(p) == BaseParts(p.child) && Atoms(p) == Atoms(p.child)
  {
    assert Kids(p) == [p.child];
    assert KidParts(p, 0) == [];
    assert KidParts(p, 1) == KidParts(p, 0) + BaseParts(p.child);
  }

  lemma {:induction false} FittingIsDistinct(ps: seq<Expr>, ts: set<Table>)
    requires Distinct(ps)
    ensures Distinct(Fitting(ps, ts)) && SeqSet(Fitting(ps, ts)) <= SeqSet(ps)
  {
    hide Tables;
    if ps != [] {
      var front, last := ps[..|ps| - 1], ps[|ps| - 1];
      assert ps == front + [last];
      DistinctAppend(front, [last]);
      FittingIsDistinct(front, ts);
      assert last in SeqSet([last]) && last !in SeqSet(Fitting(front, ts));
      forall e | e in Fitting(ps, ts) ensures e in ps {
        assert e == last || e in SeqSet(Fitting(front, ts));
      }
    }
  }

  /** A fragment can have both values, too; it has base predicates of the predicate only. */
  lemma {:induction false} FragmentAtoms(p: Expr, ts: set<Table>)
    requires IsPredicate(p) && Distinct(BaseParts(p)) && Fragment(p, ts).Some?
    ensures IsPredicate(Fragment(p, ts).value) && Distinct(BaseParts(Fragment(p, ts).value))
    ensures Atoms(Fragment(p, ts).value) <= Atoms(p)
  {
    FragmentIsPredicate(p, ts);
    FragmentKeepsFitting(p, ts);
    FittingIsDistinct(BaseParts(p), ts);
  }

  /** What makes a predicate have the value `pos` and its fragment the other one. */
  ghost predicate Breaking(p: Expr, ts: set<Table>, pos: bool, on: set<Expr>)
    requires IsPredicate(p)
  {
    && Fragment(p, ts).Some? && TruthOf(On(on), p) == FromBool(pos)
    && TruthOf(On(on), Fragment(p, ts).value) == FromBool(!pos)
  }

  lemma {:induction false} BreakingIsLocal(p: Expr, ts: set<Table>, pos: bool, on: set<Expr>, other: set<Expr>)
    requires IsPredicate(p) && Distinct(BaseParts(p)) && on * Atoms(p) == other * Atoms(p)
    requires Breaking(p, ts, pos, on)
    ensures Breaking(p, ts, pos, other)
  {
    FragmentAtoms(p, ts);
    OnIsLocal(p, on, other);
    var f := Fragment(p, ts).value;
    assert on * Atoms(f) == on * Atoms(p) * Atoms(f) == other * Atoms(f);
    OnIsLocal(f, on, other);
  }

  /** Where the condition fails, some truth values of the base predicates show that the fragment does not follow. */
  lemma {:induction false} Breaks(p: Expr, ts: set<Table>, pos: bool) returns (on: set<Expr>)
    requires IsPredicate(p) && Distinct(BaseParts(p)) && !Keeps(p, ts, pos)
    ensures on <= Atoms(p) && Breaking(p, ts, pos, on)
    decreases p
  {
    if p.Not? {
      NotParts(p);
      on := Breaks(p.child, ts, !pos);
      NotFragment(p, ts);
    } else {
      KidsAreDistinct(p, |Kids(p)|);
      if k :| 0 <= k < |p.children| && !Keeps(p.children[k], ts, pos) {
        var own := Breaks(p.children[k], ts, pos);
        on := BreaksKid(p, ts, pos, k, own);
      } else {
        var lost :| 0 <= lost < |p.children| && Fragment(p.children[lost], ts).None?;
        on := BreaksLost(p, ts, pos, lost);
      }
    }
  }

  lemma {:induction false} NotFragment(p: Expr, ts: set<Table>)
    requires IsPredicate(p) && p.Not?
    ensures Fragment(p, ts) == if Fragment(p.child, ts).None? then None else Some(Not(Fragment(p.child, ts).value))
  {
    FragmentIs(p, ts);
    OneFragment(Some(p.child), ts);
    assert Kids(p) == OptionSeq(Some(p.child));
    hide Fragment;
    hide Fragments;
  }

  /** Base predicates for a child, so that its fragment has the value `!pos`, or else the child the value `pos`. */
  ghost function Opposed(p: Expr, ts: set<Table>, pos: bool): set<Expr>
    requires IsPredicate(p)
  {
    if Fragment(p, ts).Some? then Want(Fragment(p, ts).value, !pos) else Want(p, pos)
  }

  lemma {:induction false} OpposedMakes(p: Expr, ts: set<Table>, pos: bool, on: set<Expr>)
    requires IsPredicate(p) && Distinct(BaseParts(p)) && on * Atoms(p) == Opposed(p, ts, pos)
    ensures if Fragment(p, ts).Some? then TruthOf(On(on), Fragment(p, ts).value) == FromBool(!pos)
            else TruthOf(On(on), p) == FromBool(pos)
  {
    if Fragment(p, ts).Some? {
      var f := Fragment(p, ts).value;
      FragmentAtoms(p, ts);
      WantIsOfAtoms(f, !pos);
      assert on * Atoms(f) == on * Atoms(p) * Atoms(f) == Want(f, !pos);
      WantMakes(f, !pos, on);
    } else {
      WantMakes(p, pos, on);
    }
  }

  lemma {:induction false} OpposedIsOfAtoms(p: Expr, ts: set<Table>, pos: bool)
    requires IsPredicate(p) && Distinct(BaseParts(p))
    ensures Opposed(p, ts, pos) <= Atoms(p)
  {
    if Fragment(p, ts).Some? {
      FragmentAtoms(p, ts);
      WantIsOfAtoms(Fragment(p, ts).value, !pos);
    } else {
      WantIsOfAtoms(p, pos);
    }
  }

  lemma {:induction false} AllBreak(p: Expr, ts: set<Table>, pos: bool, k: nat, on: set<Expr>)
    requires IsPredicate(p) && (p.And? || p.Or?) && p.And? == pos && k < |p.children|
    requires forall c :: c in p.children ==> TruthOf(On(on), c) == FromBool(pos)
    requires Breaking(p.children[k], ts, pos, on)
    ensures Breaking(p, ts, pos, on)
  {
    FragmentIs(p, ts);
    NeedsAll(On(on), p, pos);
    var f := Fragment(p.children[k], ts).value;
    FragmentsFrom(p.children, ts, f);
    RebuildNeedsOne(On(on), p, Fragments(p.children, ts), f, !pos);
  }

  lemma {:induction false} OneBreaks(p: Expr, ts: set<Table>, pos: bool, k: nat, on: set<Expr>)
    requires IsPredicate(p) && (p.And? || p.Or?) && p.And? != pos && k < |p.children| && Fragment(p, ts).Some?
    requires TruthOf(On(on), p.children[k]) == FromBool(pos)
    requires forall c :: c in p.children ==> IsPredicate(c)
    requires forall c | c in p.children && Fragment(c, ts).Some? ::
      TruthOf(On(on), Fragment(c, ts).value) == FromBool(!pos)
    ensures Breaking(p, ts, pos, on)
  {
    FragmentIs(p, ts);
    NeedsOne(On(on), p, pos);
    var fs := Fragments(p.children, ts);
    hide Fragment;
    hide Fragments;
    hide TruthOf;
    forall f | f in fs ensures TruthOf(On(on), f) == FromBool(!pos) {
      FragmentsFrom(p.children, ts, f);
    }
    RebuildNeedsAll(On(on), p, fs, !pos);
  }

  lemma {:induction false} SomeFragment(p: Expr, ts: set<Table>, k: nat)
    requires IsPredicate(p) && (p.And? || p.Or?) && k < |p.children| && Fragment(p.children[k], ts).Some?
    ensures Fragment(p, ts).Some?
  {
    FragmentIs(p, ts);
    FragmentsFrom(p.children, ts, Fragment(p.children[k], ts).value);
    hide Fragment;
    hide Fragments;
  }

  /** A child breaks the condition. */
  lemma {:induction false} BreaksKid(p: Expr, ts: set<Table>, pos: bool, k: nat, own: set<Expr>) returns (on: set<Expr>)
    requires IsPredicate(p) && (p.And? || p.Or?) && Distinct(BaseParts(p)) && k < |p.children|
    requires own <= Atoms(p.children[k]) && Breaking(p.children[k], ts, pos, own)
    ensures on <= Atoms(p) && Breaking(p, ts, pos, on)
  {
    var cs, all := p.children, p.And? == pos;
    KidsAreDistinct(p, |cs|);
    var ss := seq(|cs|, i requires 0 <= i < |cs| =>
      if i == k then own else if all then Want(cs[i], pos) else Opposed(cs[i], ts, pos));
    forall i | 0 <= i < |cs| ensures ss[i] <= Atoms(cs[i]) {
      WantIsOfAtoms(cs[i], pos);
      OpposedIsOfAtoms(cs[i], ts, pos);
    }
    UnionParts(p, ss);
    on := Union(ss);
    hide Atoms;
    hide Union;
    hide BaseParts;
    hide Distinct;
    hide Fragment;
    hide TruthOf;
    hide Want;
    hide Keeps;
    BreakingIsLocal(cs[k], ts, pos, own, on);
    forall i | 0 <= i < |cs| && i != k
      ensures all ==> TruthOf(On(on), cs[i]) == FromBool(pos)
      ensures !all && Fragment(cs[i], ts).Some? ==> TruthOf(On(on), Fragment(cs[i], ts).value) == FromBool(!pos)
    {
      if all {
        WantMakes(cs[i], pos, on);
      } else {
        OpposedMakes(cs[i], ts, pos, on);
      }
    }
    if all {
      AllBreak(p, ts, pos, k, on);
    } else {
      SomeFragment(p, ts, k);
      OneBreaks(p, ts, pos, k, on);
    }
  }

  /** A child is lost although one child would do. */
  lemma {:induction false} BreaksLost(p: Expr, ts: set<Table>, pos: bool, k: nat) returns (on: set<Expr>)
    requires IsPredicate(p) && (p.And? || p.Or?) && Distinct(BaseParts(p)) && p.And? != pos && k < |p.children|
    requires Fragment(p, ts).Some? && Fragment(p.children[k], ts).None?
    ensures on <= Atoms(p) && Breaking(p, ts, pos, on)
  {
    var cs := p.children;
    KidsAreDistinct(p, |cs|);
    var ss := seq(|cs|, i requires 0 <= i < |cs| => Opposed(cs[i], ts, pos));
    forall i | 0 <= i < |cs| ensures ss[i] <= Atoms(cs[i]) {
      OpposedIsOfAtoms(cs[i], ts, pos);
    }
    UnionParts(p, ss);
    on := Union(ss);
    hide Atoms;
    hide Union;
    hide BaseParts;
    hide Distinct;
    hide Fragment;
    hide TruthOf;
    forall i | 0 <= i < |cs|
      ensures if Fragment(cs[i], ts).Some? then TruthOf(On(on), Fragment(cs[i], ts).value) == FromBool(!pos)
              else TruthOf(On(on), cs[i]) == FromBool(pos)
    {
      OpposedMakes(cs[i], ts, pos, on);
    }
    OneBreaks(p, ts, pos, k, on);
  }

  /** For predicates of different base predicates, the condition holds exactly if the fragment is True for all truth
      values of the base predicates for which the predicate is. */
  lemma {:induction false} KeepsExactly(p: Expr, ts: set<Table>)
    requires IsPredicate(p) && Distinct(BaseParts(p))
    ensures Keeps(p, ts, true) <==> forall v: Expr -> Truth ::
      TruthOf(v, p) == True && Fragment(p, ts).Some? ==> TruthOf(v, Fragment(p, ts).value) == True
  {
    hide Distinct;
    hide BaseParts;
    hide Fragment;
    hide TruthOf;
    if Keeps(p, ts, true) {
      hide Keeps;
      forall v: Expr -> Truth | TruthOf(v, p) == True && Fragment(p, ts).Some?
        ensures TruthOf(v, Fragment(p, ts).value) == True
      {
        FragmentFollows(v, p, ts, true);
      }
    } else {
      hide Keeps;
      var on := Breaks(p, ts, true);
      assert TruthOf(On(on), p) == True;
    }
  }

  // ----- rows -----

  /** The truth values of all expressions on a row. */
  ghost function ValuesOn(w: World, r: Row): Expr -> Truth { e => Holds(w, e, r) }

  lemma {:induction false} HoldsIsTruthOf(w: World, p: Expr, r: Row)
    ensures Holds(w, p, r) == TruthOf(ValuesOn(w, r), p)
  {
    var v := ValuesOn(w, r);
    if p.And? || p.Or? {
      var cs, vs := p.children, EvalKids(w, p, r);
      forall i | 0 <= i < |cs| ensures TruthOf(v, cs[i]) == ToTruth(vs[i]) {
        HoldsIsTruthOf(w, cs[i], r);
      }
      assert TruthsOf(vs) == set i | 0 <= i < |cs| :: TruthOf(v, cs[i]);
    } else if p.Not? {
      HoldsIsTruthOf(w, p.child, r);
      assert EvalKids(w, p, r) == [Eval(w, p.child, r)];
    }
  }

  /** A conjunction keeps its rows iff all its conjuncts do. */
  lemma {:induction false} KeepsByConjuncts(p: Expr, ts: set<Table>)
    requires IsPredicate(p)
    ensures Keeps(p, ts, true) <==> forall c :: c in Conjuncts(p) ==> IsPredicate(c) && Keeps(c, ts, true)
  {
    if p.And? {
      var cs := p.children;
      forall i | 0 <= i < |cs|
        ensures Keeps(cs[i], ts, true) <==> forall c :: c in Conjuncts(cs[i]) ==> IsPredicate(c) && Keeps(c, ts, true)
        ensures Conjuncts(cs[i]) <= Conjuncts(p)
      {
        KeepsByConjuncts(cs[i], ts);
        assert cs[i] in cs;
      }
      forall c | c in Conjuncts(p) ensures exists i :: 0 <= i < |cs| && c in Conjuncts(cs[i]) {
        var k :| k in cs && c in Conjuncts(k);
      }
      assert Keeps(p, ts, true) <==> forall i :: 0 <= i < |cs| ==> Keeps(cs[i], ts, true);
      hide Keeps;
      hide Conjuncts;
      hide IsPredicate;
    } else {
      assert Conjuncts(p) == {p};
    }
  }
}
