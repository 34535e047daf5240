/** The check of overriding members, with the types of methods: what may replace what. */
module Overriding {
  import opened ClassLayout

  datatype Basic = INT | BOOL | STRING | VOID

  datatype Type = Base(basic: Basic) | Cls(name: string) | Arr(elem: Type)

  /** The type of a method, the receiver left out. */
  datatype Sig = Sig(ret: Type, params: seq<Type>)

  type Sigs = map<(string, string), Sig>

  // ---- Types as sets of values ----

  /** What a variable may hold: a plain value, an object of a class, no object, or an array. */
  datatype Value = Plain(basic: Basic) | Object(cls: string) | Null | Array(elem: Type)

  /** A class type is for objects of the class and its descendants, and for no object. */
  ghost predicate Fits(t: Table, rank: map<string, int>, v: Value, x: Type)
    requires Ordered(t, rank)
  {
    match x
    case Base(b) => v == Plain(b)
    case Cls(a) => v == Null || (v.Object? && v.cls in t && Ancestor(t, rank, a, v.cls))
    case Arr(e) => v == Array(e)
  }

  /** Whatever is of type x is of type y too. */
  ghost predicate Compatible(t: Table, rank: map<string, int>, x: Type, y: Type)
    requires Ordered(t, rank)
  {
    forall v :: Fits(t, rank, v, x) ==> Fits(t, rank, v, y)
  }

  /** A caller that knows only sup may call sub: whatever arguments it passes sub takes, and whatever sub gives it can
      use. */
  ghost predicate Replaces(t: Table, rank: map<string, int>, sub: Sig, sup: Sig)
    requires Ordered(t, rank)
  {
    && (forall v :: Fits(t, rank, v, sub.ret) ==> Fits(t, rank, v, sup.ret))
    && |sub.params| == |sup.params|
    && forall i :: 0 <= i < |sub.params| ==> Takes(t, rank, sup.params[i], sub.params[i])
  }

  ghost predicate Takes(t: Table, rank: map<string, int>, passed: Type, param: Type)
    requires Ordered(t, rank)
  {
    forall v :: Fits(t, rank, v, passed) ==> Fits(t, rank, v, param)
  }

  lemma {:induction false} AncestorsJoin(t: Table, rank: map<string, int>, a: string, b: string, c: string)
    requires Ordered(t, rank) && c in t && Ancestor(t, rank, b, c) && b in t && Ancestor(t, rank, a, b)
    ensures Ancestor(t, rank, a, c)
    decreases OrderOf(t, rank, c)
  {
    if b != c {
      UpIs(t, rank, c);
      AncestorsJoin(t, rank, a, b, t[c].parent.value);
    }
  }

  /** So class types go up to ancestors, and other types only match themselves. */
  lemma CompatibleIff(t: Table, rank: map<string, int>, x: Type, y: Type)
    requires Ordered(t, rank) && Known(t, x)
    ensures Compatible(t, rank, x, y) <==> if x.Cls? then y.Cls? && Ancestor(t, rank, y.name, x.name) else x == y
  {
    match x
    case Base(b) => assert Fits(t, rank, Plain(b), x);
    case Arr(e) => assert Fits(t, rank, Array(e), x);
    case Cls(c) =>
      assert Fits(t, rank, Object(c), x) && Fits(t, rank, Null, x);
      if y.Cls? && Ancestor(t, rank, y.name, c) {
        forall v | Fits(t, rank, v, x) ensures Fits(t, rank, v, y) {
          if v.Object? {
            AncestorIsAbove(t, rank, c, v.cls);
            AncestorsJoin(t, rank, y.name, c, v.cls);
          }
        }
      }
  }

  lemma ReplacesJoin(t: Table, rank: map<string, int>, a: Sig, b: Sig, c: Sig)
    requires Ordered(t, rank) && Replaces(t, rank, a, b) && Replaces(t, rank, b, c)
    ensures Replaces(t, rank, a, c)
  {
    hide Fits, Ordered;
    forall i | 0 <= i < |a.params| ensures Takes(t, rank, c.params[i], a.params[i]) {
      assert Takes(t, rank, c.params[i], b.params[i]) && Takes(t, rank, b.params[i], a.params[i]);
    }
  }

  // ---- Accepted types ----

  /** Every type of every method is one of the program's, and every method has a type. */
  ghost predicate Typed(t: Table, sigs: Sigs) {
    && (forall c, i :: c in t && 0 <= i < |t[c].members| && t[c].members[i].kind == Method ==> (c, t[c].members[i].name) in sigs)
    && forall k :: k in sigs ==> Known(t, sigs[k].ret) && forall i :: 0 <= i < |sigs[k].params| ==> Known(t, sigs[k].params[i])
  }

  predicate Known(t: Table, x: Type) { x.Cls? ==> x.name in t }

  /** A method that meets one of its name further up may replace the one declared last there. */
  ghost predicate MayReplace(t: Table, rank: map<string, int>, sigs: Sigs, up: seq<Level>, c: string, m: Member)
    requires Ordered(t, rank)
  {
    Visible(up, m.name).Some? ==>
      && (c, m.name) in sigs && (MostDerived(up, m.name), m.name) in sigs
      && Replaces(t, rank, sigs[(c, m.name)], sigs[(MostDerived(up, m.name), m.name)])
  }

  /** What the check accepts of a class and its ancestors. */
  ghost predicate TypesAccepted(t: Table, rank: map<string, int>, sigs: Sigs, c: string)
    requires Ordered(t, rank) && c in t
    decreases OrderOf(t, rank, c)
  {
    UpIs(t, rank, c);
    && (t[c].parent.Some? ==> TypesAccepted(t, rank, sigs, t[c].parent.value))
    && forall i :: 0 <= i < |t[c].members| ==> MayReplace(t, rank, sigs, Up(t, rank, c), c, t[c].members[i])
  }

  lemma {:induction false} MostDerivedDeclares(t: Table, rank: map<string, int>, c: string, name: string)
    requires Ordered(t, rank) && c in t && Visible(Lineage(t, rank, c), name).Some?
    ensures var d := MostDerived(Lineage(t, rank, c), name);
      d in t && Ancestor(t, rank, d, c) && Declares(t[d].members, name) == Visible(Lineage(t, rank, c), name)
    decreases OrderOf(t, rank, c)
  {
    UpIs(t, rank, c);
    if Declares(t[c].members, name).None? {
      assert t[c].parent.Some?;
      MostDerivedDeclares(t, rank, t[c].parent.value, name);
    }
  }

  lemma SlotHasSig(t: Table, rank: map<string, int>, sigs: Sigs, c: string, name: string)
    requires Ordered(t, rank) && c in t && Accepted(Lineage(t, rank, c)) && Typed(t, sigs) && name in Slots(Lineage(t, rank, c))
    requires forall d :: d in t ==> DistinctNames(t[d].members)
    ensures var k := (MostDerived(Lineage(t, rank, c), name), name); k in sigs && Replaces(t, rank, sigs[k], sigs[k])
  {
    VisibleIs(Lineage(t, rank, c), name);
    MostDerivedDeclares(t, rank, c, name);
    var d := MostDerived(Lineage(t, rank, c), name);
    DeclaresIs(t[d].members, name);
    var i :| 0 <= i < |t[d].members| && t[d].members[i] == Member(name, Method);
    assert (d, t[d].members[i].name) in sigs;
    assert Known(t, sigs[(d, name)].ret);
  }

  /** A call checked against the method an ancestor's slot had then, and made through that slot on any descendant,
      reaches a method that takes the arguments and gives the result the check relied on. */
  lemma {:induction false} DispatchIsTyped(t: Table, rank: map<string, int>, sigs: Sigs, a: string, c: string, name: string)
    requires Ordered(t, rank) && c in t && Ancestor(t, rank, a, c) && Accepted(Lineage(t, rank, c))
    requires Typed(t, sigs) && TypesAccepted(t, rank, sigs, c) && (forall d :: d in t ==> DistinctNames(t[d].members))
    requires a in t && name in Slots(Lineage(t, rank, a))
    ensures var x, y := (MostDerived(Lineage(t, rank, c), name), name), (MostDerived(Lineage(t, rank, a), name), name);
      x in sigs && y in sigs && Replaces(t, rank, sigs[x], sigs[y])
    decreases OrderOf(t, rank, c)
  {
    LayoutExtends(t, rank, a, c);
    if a == c {
      SlotHasSig(t, rank, sigs, c, name);
    } else {
      var p, l := t[c].parent.value, Lineage(t, rank, c);
      UpIs(t, rank, c);
      LevelExtends(l);
      DispatchIsTyped(t, rank, sigs, a, p, name);
      LayoutExtends(t, rank, a, p);
      VisibleIs(Lineage(t, rank, p), name);
      if Declares(t[c].members, name).Some? { LevelReplaces(t, rank, sigs, a, c, name); }
    }
  }

  lemma LevelReplaces(t: Table, rank: map<string, int>, sigs: Sigs, a: string, c: string, name: string)
    requires Ordered(t, rank) && c in t && TypesAccepted(t, rank, sigs, c) && DistinctNames(t[c].members) && a in t
    requires Declares(t[c].members, name).Some? && Visible(Up(t, rank, c), name).Some?
    requires var x, y := (MostDerived(Up(t, rank, c), name), name), (MostDerived(Lineage(t, rank, a), name), name);
      x in sigs && y in sigs && Replaces(t, rank, sigs[x], sigs[y])
    ensures var y := (MostDerived(Lineage(t, rank, a), name), name);
      (c, name) in sigs && Replaces(t, rank, sigs[(c, name)], sigs[y])
  {
    var ms, up := t[c].members, Up(t, rank, c);
    DeclaresIs(ms, name);
    var i :| 0 <= i < |ms| && ms[i] == Declares(ms, name).value;
    assert MayReplace(t, rank, sigs, up, c, ms[i]);
    var x, y := (MostDerived(up, name), name), (MostDerived(Lineage(t, rank, a), name), name);
    ReplacesJoin(t, rank, sigs[(c, name)], sigs[x], sigs[y]);
  }

  // ---- What is accepted, member by member ----

  /** What c declares under a name of its ancestor a are methods both, and the one may replace the other. */
  ghost predicate Agree(t: Table, rank: map<string, int>, sigs: Sigs, c: string, a: string)
    requires Ordered(t, rank) && c in t && a in t
  {
    forall m, k :: Has(t[c].members, m) && Has(t[a].members, k) && m.name == k.name ==>
      && m.kind == k.kind == Method && (c, m.name) in sigs && (a, m.name) in sigs
      && Replaces(t, rank, sigs[(c, m.name)], sigs[(a, m.name)])
  }

  /** Every class from c up agrees with all its ancestors. */
  ghost predicate AllAgree(t: Table, rank: map<string, int>, sigs: Sigs, c: string)
    requires Ordered(t, rank) && c in t
  {
    forall d, a :: d in t && a in t && Ancestor(t, rank, d, c) && Ancestor(t, rank, a, d) && a != d ==> Agree(t, rank, sigs, d, a)
  }

  /** What an ancestor declares is visible, and if what is visible is a method it replaces what the ancestor declares. */
  lemma {:induction false} Inherits(t: Table, rank: map<string, int>, sigs: Sigs, c: string, a: string, k: Member)
    requires Ordered(t, rank) && c in t && a in t && Ancestor(t, rank, a, c) && Has(t[a].members, k) && Typed(t, sigs)
    requires Accepted(Lineage(t, rank, c)) && TypesAccepted(t, rank, sigs, c) && forall d :: d in t ==> DistinctNames(t[d].members)
    ensures var v := Visible(Lineage(t, rank, c), k.name); var d := MostDerived(Lineage(t, rank, c), k.name);
      && v.Some?
      && (v.value.kind == Method ==>
           k.kind == Method && (d, k.name) in sigs && (a, k.name) in sigs && Replaces(t, rank, sigs[(d, k.name)], sigs[(a, k.name)]))
    decreases OrderOf(t, rank, c)
  {
    hide Replaces, Fits, Typed;
    var ms, up := t[c].members, Up(t, rank, c);
    UpIs(t, rank, c);
    DeclaresIs(ms, k.name);
    if a == c {
      assert Declares(ms, k.name) == Some(k);
      if k.kind == Method { HasSig(t, sigs, c, k); ReplacesItself(t, rank, sigs[(c, k.name)]); }
    } else {
      Inherits(t, rank, sigs, t[c].parent.value, a, k);
      if Declares(ms, k.name).Some? { RedeclaredInherits(t, rank, sigs, c, a, k); }
    }
  }

  lemma ReplacesItself(t: Table, rank: map<string, int>, x: Sig)
    requires Ordered(t, rank)
    ensures Replaces(t, rank, x, x)
  {
  }

  lemma RedeclaredInherits(t: Table, rank: map<string, int>, sigs: Sigs, c: string, a: string, k: Member)
    requires Ordered(t, rank) && c in t && DistinctNames(t[c].members) && Declares(t[c].members, k.name).Some?
    requires Accepted(Lineage(t, rank, c)) && TypesAccepted(t, rank, sigs, c)
    requires var v := Visible(Up(t, rank, c), k.name); var d := MostDerived(Up(t, rank, c), k.name);
      && v.Some?
      && (v.value.kind == Method ==>
           k.kind == Method && (d, k.name) in sigs && (a, k.name) in sigs && Replaces(t, rank, sigs[(d, k.name)], sigs[(a, k.name)]))
    ensures var m := Declares(t[c].members, k.name).value;
      && m.kind == k.kind == Method && (c, k.name) in sigs && (a, k.name) in sigs
      && Replaces(t, rank, sigs[(c, k.name)], sigs[(a, k.name)])
  {
    hide Replaces, Fits;
    var ms, up := t[c].members, Up(t, rank, c);
    UpIs(t, rank, c);
    DeclaresIs(ms, k.name);
    var i :| 0 <= i < |ms| && ms[i] == Declares(ms, k.name).value;
    assert Overrides(up, ms[i]) && MayReplace(t, rank, sigs, up, c, ms[i]);
    ReplacesJoin(t, rank, sigs[(c, k.name)], sigs[(MostDerived(up, k.name), k.name)], sigs[(a, k.name)]);
  }

  lemma {:induction false} AcceptedAgrees(t: Table, rank: map<string, int>, sigs: Sigs, c: string, d: string, a: string)
    requires Ordered(t, rank) && c in t && d in t && a in t && Typed(t, sigs) && forall e :: e in t ==> DistinctNames(t[e].members)
    requires Accepted(Lineage(t, rank, c)) && TypesAccepted(t, rank, sigs, c)
    requires Ancestor(t, rank, d, c) && Ancestor(t, rank, a, d) && a != d
    ensures Agree(t, rank, sigs, d, a)
    decreases OrderOf(t, rank, c)
  {
    UpIs(t, rank, c);
    if d != c {
      AcceptedAgrees(t, rank, sigs, t[c].parent.value, d, a);
    } else {
      var ms, up := t[c].members, Up(t, rank, c);
      forall m, k | Has(ms, m) && Has(t[a].members, k) && m.name == k.name
        ensures m.kind == k.kind == Method && (c, m.name) in sigs && (a, m.name) in sigs
          && Replaces(t, rank, sigs[(c, m.name)], sigs[(a, m.name)])
      {
        Inherits(t, rank, sigs, t[c].parent.value, a, k);
        DeclaresIs(ms, m.name);
        RedeclaredInherits(t, rank, sigs, c, a, k);
      }
    }
  }

  lemma {:induction false} AgreeingIsAccepted(t: Table, rank: map<string, int>, sigs: Sigs, c: string)
    requires Ordered(t, rank) && c in t && Typed(t, sigs) && forall e :: e in t ==> DistinctNames(t[e].members)
    requires AllAgree(t, rank, sigs, c)
    ensures Accepted(Lineage(t, rank, c)) && TypesAccepted(t, rank, sigs, c)
    decreases OrderOf(t, rank, c)
  {
    var ms, up := t[c].members, Up(t, rank, c);
    UpIs(t, rank, c);
    if t[c].parent == None {
      RootAccepted(t, rank, sigs, c, ms);
    } else {
      var p := t[c].parent.value;
      AgreeAbove(t, rank, sigs, c);
      AgreeingIsAccepted(t, rank, sigs, p);
      forall i | 0 <= i < |ms| ensures Overrides(up, ms[i]) && MayReplace(t, rank, sigs, up, c, ms[i]) {
        if Visible(up, ms[i].name).Some? {
          MostDerivedDeclares(t, rank, p, ms[i].name);
          var d := MostDerived(up, ms[i].name);
          DeclaresIs(t[d].members, ms[i].name);
          AncestorIsAbove(t, rank, d, p);
          assert Ancestor(t, rank, c, c) && Ancestor(t, rank, d, c) && d != c;
          assert Agree(t, rank, sigs, c, d) && Has(ms, ms[i]) && Has(t[d].members, Visible(up, ms[i].name).value);
        }
      }
    }
  }

  lemma AgreeAbove(t: Table, rank: map<string, int>, sigs: Sigs, c: string)
    requires Ordered(t, rank) && c in t && t[c].parent.Some? && AllAgree(t, rank, sigs, c)
    ensures t[c].parent.value in t && AllAgree(t, rank, sigs, t[c].parent.value)
  {
    UpIs(t, rank, c);
    var p := t[c].parent.value;
    forall d, a | d in t && a in t && Ancestor(t, rank, d, p) && Ancestor(t, rank, a, d) && a != d ensures Agree(t, rank, sigs, d, a) {
      assert Ancestor(t, rank, d, c);
    }
  }

  /** The check against the nearest declaration is the check against all of them. */
  lemma AcceptedIff(t: Table, rank: map<string, int>, sigs: Sigs, c: string)
    requires Ordered(t, rank) && c in t && Typed(t, sigs) && forall e :: e in t ==> DistinctNames(t[e].members)
    ensures Accepted(Lineage(t, rank, c)) && TypesAccepted(t, rank, sigs, c) <==> AllAgree(t, rank, sigs, c)
  {
    hide Accepted, TypesAccepted, Agree;
    if AllAgree(t, rank, sigs, c) {
      AgreeingIsAccepted(t, rank, sigs, c);
    }
    if Accepted(Lineage(t, rank, c)) && TypesAccepted(t, rank, sigs, c) {
      forall d, a | d in t && a in t && Ancestor(t, rank, d, c) && Ancestor(t, rank, a, d) && a != d
        ensures Agree(t, rank, sigs, d, a)
      {
        AcceptedAgrees(t, rank, sigs, c, d, a);
      }
    }
  }

  // ---- The check ----

  /** From a class up to its root, or to the class looked for. */
  method Descends(t: Table, ghost rank: map<string, int>, c: string, a: string) returns (b: bool)
    requires Ordered(t, rank) && c in t
    ensures b <==> Ancestor(t, rank, a, c)
  {
    var cur := c;
    while cur != a
      invariant cur in t && (Ancestor(t, rank, a, cur) <==> Ancestor(t, rank, a, c))
      decreases OrderOf(t, rank, cur)
    {
      UpIs(t, rank, cur);
      if t[cur].parent == None { return false; }
      cur := t[cur].parent.value;
    }
    b := true;
  }

  method IsCompatible(t: Table, ghost rank: map<string, int>, x: Type, y: Type) returns (b: bool)
    requires Ordered(t, rank) && Known(t, x)
    ensures b <==> Compatible(t, rank, x, y)
  {
    CompatibleIff(t, rank, x, y);
    if x.Cls? {
      b := false;
      if y.Cls? { b := Descends(t, rank, x.name, y.name); }
    } else {
      b := x == y;
    }
  }

  method MayBeReplaced(t: Table, ghost rank: map<string, int>, sub: Sig, sup: Sig) returns (b: bool)
    requires Ordered(t, rank) && Known(t, sub.ret) && forall i :: 0 <= i < |sup.params| ==> Known(t, sup.params[i])
    ensures b <==> Replaces(t, rank, sub, sup)
  {
    b := IsCompatible(t, rank, sub.ret, sup.ret);
    if !b || |sub.params| != |sup.params| { return false; }
    var i := 0;
    while i < |sub.params|
      invariant 0 <= i <= |sub.params|
      invariant forall j :: 0 <= j < i ==> Takes(t, rank, sup.params[j], sub.params[j])
    {
      b := IsCompatible(t, rank, sup.params[i], sub.params[i]);
      if !b { return false; }
      i := i + 1;
    }
    b := true;
  }

  /** The nearest declaration of a name, and the class it stands in. */
  method Lookup(t: Table, ghost rank: map<string, int>, c: string, name: string) returns (m: Option<Member>, owner: string)
    requires Ordered(t, rank) && c in t
    ensures m == Visible(Lineage(t, rank, c), name)
    ensures m.Some? ==> owner == MostDerived(Lineage(t, rank, c), name)
    decreases OrderOf(t, rank, c)
  {
    UpIs(t, rank, c);
    m, owner := Declares(t[c].members, name), c;
    if m == None && t[c].parent.Some? { m, owner := Lookup(t, rank, t[c].parent.value, name); }
  }

  /** A name met in an ancestor must be a method, redeclared as a method that may replace it. */
  method CheckMember(t: Table, ghost rank: map<string, int>, sigs: Sigs, c: string, m: Member) returns (ok: bool)
    requires Ordered(t, rank) && c in t && t[c].parent.Some? && Typed(t, sigs) && m in t[c].members
    requires forall d :: d in t ==> DistinctNames(t[d].members)
    ensures ok <==> Overrides(Up(t, rank, c), m) && MayReplace(t, rank, sigs, Up(t, rank, c), c, m)
  {
    UpIs(t, rank, c);
    var p := t[c].parent.value;
    var sym, owner := Lookup(t, rank, p, m.name);
    if sym == None { return true; }
    if !(m.kind == Method && sym.value.kind == Method) { return false; }
    MostDerivedDeclares(t, rank, p, m.name);
    DeclaresIs(t[owner].members, m.name);
    HasSig(t, sigs, owner, sym.value);
    HasSig(t, sigs, c, m);
    ok := MayBeReplaced(t, rank, sigs[(c, m.name)], sigs[(owner, m.name)]);
  }

  lemma HasSig(t: Table, sigs: Sigs, c: string, m: Member)
    requires Typed(t, sigs) && c in t && m in t[c].members && m.kind == Method
    ensures var k := (c, m.name);
      k in sigs && Known(t, sigs[k].ret) && forall i :: 0 <= i < |sigs[k].params| ==> Known(t, sigs[k].params[i])
  {
    var i :| 0 <= i < |t[c].members| && t[c].members[i] == m;
    assert (c, t[c].members[i].name) in sigs;
  }

  /** The ancestors are checked first, then each member. */
  method CheckOverride(t: Table, ghost rank: map<string, int>, sigs: Sigs, c: string) returns (ok: bool)
    requires Ordered(t, rank) && c in t && Typed(t, sigs) && forall d :: d in t ==> DistinctNames(t[d].members)
    ensures ok <==> Accepted(Lineage(t, rank, c)) && TypesAccepted(t, rank, sigs, c)
    ensures ok <==> AllAgree(t, rank, sigs, c)
    decreases OrderOf(t, rank, c)
  {
    hide AllAgree;
    AcceptedIff(t, rank, sigs, c);
    ghost var l, up := Lineage(t, rank, c), Up(t, rank, c);
    UpIs(t, rank, c);
    assert Accepted(l) <==> Accepted(up) && OverridesAll(up, t[c].members);
    hide Accepted, Visible, Typed, MayReplace, Overrides;
    var parent := t[c].parent;
    if parent == None {
      RootAccepted(t, rank, sigs, c, t[c].members);
      return true;
    }
    ok := CheckOverride(t, rank, sigs, parent.value);
    var ms := t[c].members;
    var i := 0;
    while ok && i < |ms|
      invariant 0 <= i <= |ms|
      invariant ok ==> Accepted(up) && TypesAccepted(t, rank, sigs, parent.value)
      invariant ok ==> forall j :: 0 <= j < i ==> Overrides(up, ms[j]) && MayReplace(t, rank, sigs, up, c, ms[j])
      invariant !ok ==>
        || !Accepted(up) || !TypesAccepted(t, rank, sigs, parent.value)
        || exists j :: 0 <= j < |ms| && !(Overrides(up, ms[j]) && MayReplace(t, rank, sigs, up, c, ms[j]))
    {
      ok := CheckMember(t, rank, sigs, c, ms[i]);
      i := i + 1;
    }
  }

  lemma RootAccepted(t: Table, rank: map<string, int>, sigs: Sigs, c: string, ms: seq<Member>)
    requires Ordered(t, rank)
    ensures Accepted([]) && OverridesAll([], ms)
    ensures forall i :: 0 <= i < |ms| ==> MayReplace(t, rank, sigs, [], c, ms[i])
  {
    forall i | 0 <= i < |ms| ensures Overrides([], ms[i]) && MayReplace(t, rank, sigs, [], c, ms[i]) {
      assert Visible([], ms[i].name) == None;
    }
  }
}
