/** Class hierarchies: the layout of objects and virtual tables, and dispatch through them. */
module ClassLayout {
  datatype Option<T> = None | Some(value: T)

  datatype Kind = Var | Method | Static

  datatype Member = Member(name: string, kind: Kind)

  /** A class and what it declares, in order. */
  datatype Decl = Decl(parent: Option<string>, members: seq<Member>)

  type Table = map<string, Decl>

  /** One class on the way from the root to a class. */
  datatype Level = Level(cls: string, members: seq<Member>)

  datatype Label = Label(cls: string, name: string)

  const WORD_SIZE := 4
  const POINTER_SIZE := 4

  // ---- Names in a lineage ----

  function Declares(ms: seq<Member>, name: string): Option<Member> {
    if ms == [] then None else if ms[0].name == name then Some(ms[0]) else Declares(ms[1..], name)
  }

  /** The nearest declaration of a name, from the last level back to the root. */
  function Visible(l: seq<Level>, name: string): Option<Member> {
    if l == [] then None
    else
      var m := Declares(l[|l| - 1].members, name);
      if m.Some? then m else Visible(l[..|l| - 1], name)
  }

  /** The class that declares a name last. */
  function MostDerived(l: seq<Level>, name: string): string {
    if l == [] then ""
    else if Declares(l[|l| - 1].members, name).Some? then l[|l| - 1].cls
    else MostDerived(l[..|l| - 1], name)
  }

  // ---- Slots and fields ----

  function AddMethods(slots: seq<string>, ms: seq<Member>): seq<string>
    decreases |ms|
  {
    if ms == [] then slots
    else AddMethods(if ms[0].kind == Method && ms[0].name !in slots then slots + [ms[0].name] else slots, ms[1..])
  }

  function AddVars(vars: seq<string>, ms: seq<Member>): seq<string>
    decreases |ms|
  {
    if ms == [] then vars
    else AddVars(if ms[0].kind == Var then vars + [ms[0].name] else vars, ms[1..])
  }

  /** The methods of a class in slot order: its parent's, then those it introduces. */
  function Slots(l: seq<Level>): seq<string> {
    if l == [] then [] else AddMethods(Slots(l[..|l| - 1]), l[|l| - 1].members)
  }

  /** The fields of a class in layout order. */
  function Vars(l: seq<Level>): seq<string> {
    if l == [] then [] else AddVars(Vars(l[..|l| - 1]), l[|l| - 1].members)
  }

  function Index(s: seq<string>, name: string): nat
    requires name in s
  {
    if s[0] == name then 0 else 1 + Index(s[1..], name)
  }

  // ---- What the checks accept ----

  ghost predicate DistinctNames(ms: seq<Member>) {
    forall i, j :: 0 <= i < j < |ms| ==> ms[i].name != ms[j].name
  }

  /** A name met further up may only be a method overriding a method. */
  ghost predicate Overrides(up: seq<Level>, m: Member) {
    Visible(up, m.name).Some? ==> m.kind == Method && Visible(up, m.name).value.kind == Method
  }

  ghost predicate Accepted(l: seq<Level>) {
    l == [] ||
    (Accepted(l[..|l| - 1]) && DistinctNames(l[|l| - 1].members) && OverridesAll(l[..|l| - 1], l[|l| - 1].members))
  }

  ghost predicate OverridesAll(up: seq<Level>, ms: seq<Member>) {
    forall i :: 0 <= i < |ms| ==> Overrides(up, ms[i])
  }

  ghost predicate Unique(s: seq<string>) {
    forall i, j :: 0 <= i < j < |s| ==> s[i] != s[j]
  }

  lemma {:induction false} IndexIs(s: seq<string>, name: string)
    requires name in s
    ensures Index(s, name) < |s| && s[Index(s, name)] == name
  {
    if s[0] != name { IndexIs(s[1..], name); }
  }

  lemma {:induction false} IndexAt(s: seq<string>, i: nat)
    requires Unique(s) && i < |s|
    ensures Index(s, s[i]) == i
  {
    if i > 0 { IndexAt(s[1..], i - 1); }
  }

  /** Positions in a list are kept by any longer list. */
  lemma {:induction false} IndexStays(s: seq<string>, t: seq<string>, name: string)
    requires s <= t && name in s
    ensures name in t && Index(t, name) == Index(s, name)
  {
    if s[0] != name { IndexStays(s[1..], t[1..], name); }
  }

  ghost predicate Has(ms: seq<Member>, m: Member) {
    exists i :: 0 <= i < |ms| && ms[i] == m
  }

  lemma HasIs(ms: seq<Member>, m: Member)
    requires ms != []
    ensures Has(ms, m) <==> ms[0] == m || Has(ms[1..], m)
  {
    if Has(ms, m) {
      var i :| 0 <= i < |ms| && ms[i] == m;
      if i > 0 { assert ms[1..][i - 1] == m; }
    }
    if Has(ms[1..], m) {
      var i :| 0 <= i < |ms[1..]| && ms[1..][i] == m;
      assert ms[i + 1] == m;
    }
  }

  lemma {:induction false} AddMethodsExtends(slots: seq<string>, ms: seq<Member>)
    requires Unique(slots)
    ensures slots <= AddMethods(slots, ms) && Unique(AddMethods(slots, ms))
    ensures forall n :: n in AddMethods(slots, ms) <==> n in slots || Has(ms, Member(n, Method))
    decreases |ms|
  {
    if ms != [] {
      var next := if ms[0].kind == Method && ms[0].name !in slots then slots + [ms[0].name] else slots;
      AddMethodsExtends(next, ms[1..]);
      hide Has;
      forall n ensures n in AddMethods(slots, ms) <==> n in slots || Has(ms, Member(n, Method)) { HasIs(ms, Member(n, Method)); }
    }
  }

  lemma {:induction false} AddVarsExtends(vars: seq<string>, ms: seq<Member>)
    requires Unique(vars) && DistinctNames(ms) && forall i :: 0 <= i < |ms| && ms[i].kind == Var ==> ms[i].name !in vars
    ensures vars <= AddVars(vars, ms) && Unique(AddVars(vars, ms))
    ensures forall n :: n in AddVars(vars, ms) <==> n in vars || Has(ms, Member(n, Var))
    decreases |ms|
  {
    if ms != [] {
      var next := if ms[0].kind == Var then vars + [ms[0].name] else vars;
      forall i | 0 <= i < |ms[1..]| && ms[1..][i].kind == Var ensures ms[1..][i].name !in next {
        assert ms[1..][i] == ms[i + 1];
      }
      AddVarsExtends(next, ms[1..]);
      hide Has;
      forall n ensures n in AddVars(vars, ms) <==> n in vars || Has(ms, Member(n, Var)) { HasIs(ms, Member(n, Var)); }
    }
  }

  lemma {:induction false} DeclaresIs(ms: seq<Member>, name: string)
    requires DistinctNames(ms)
    ensures Declares(ms, name).Some? ==> Declares(ms, name).value.name == name
    ensures forall m :: Declares(ms, name) == Some(m) <==> m.name == name && Has(ms, m)
  {
    if ms != [] {
      DeclaresIs(ms[1..], name);
      hide Has;
      forall m ensures Declares(ms, name) == Some(m) <==> m.name == name && Has(ms, m) { HasIs(ms, m); }
    }
  }

  /** In an accepted lineage the visible methods are those with slots, and the visible fields those laid out. */
  lemma {:induction false} VisibleIs(l: seq<Level>, name: string)
    requires Accepted(l)
    ensures Unique(Slots(l)) && Unique(Vars(l))
    ensures name in Slots(l) <==> Visible(l, name) == Some(Member(name, Method))
    ensures name in Vars(l) <==> Visible(l, name) == Some(Member(name, Var))
    ensures Visible(l, name).Some? ==> Visible(l, name).value.name == name
    decreases |l|
  {
    if l != [] {
      var up, ms := l[..|l| - 1], l[|l| - 1].members;
      VisibleIs(up, name);
      AddMethodsExtends(Slots(up), ms);
      forall i | 0 <= i < |ms| && ms[i].kind == Var ensures ms[i].name !in Vars(up) {
        assert Overrides(up, ms[i]);
        VisibleIs(up, ms[i].name);
      }
      AddVarsExtends(Vars(up), ms);
      DeclaresIs(ms, name);
      if Declares(ms, name).Some? {
        var m := Declares(ms, name).value;
        var i :| 0 <= i < |ms| && ms[i] == m;
        assert Overrides(up, ms[i]);
        assert m.kind == Method ==> ms[i] == Member(name, Method);
        assert m.kind == Var ==> ms[i] == Member(name, Var);
      } else {
        assert forall k :: Declares(ms, name) != Some(Member(name, k));
      }
    }
  }

  // ---- Lineages ----

  /** Every class comes after its parent. */
  ghost predicate Ordered(t: Table, order: map<string, int>) {
    forall c :: c in t ==> OrderedAt(t, order, c)
  }

  ghost predicate OrderedAt(t: Table, order: map<string, int>, c: string)
    requires c in t
  {
    && c in order && order[c] >= 0
    && (t[c].parent.Some? ==> t[c].parent.value in t && t[c].parent.value in order && order[t[c].parent.value] < order[c])
  }

  ghost function Lineage(t: Table, order: map<string, int>, c: string): (l: seq<Level>)
    requires Ordered(t, order) && c in t
    ensures l != [] && l[|l| - 1] == Level(c, t[c].members)
    decreases OrderOf(t, order, c)
  {
    assert OrderedAt(t, order, c);
    Up(t, order, c) + [Level(c, t[c].members)]
  }

  ghost function OrderOf(t: Table, order: map<string, int>, c: string): nat
    requires Ordered(t, order) && c in t
  {
    assert OrderedAt(t, order, c);
    order[c]
  }

  /** The levels above a class. */
  ghost function Up(t: Table, order: map<string, int>, c: string): seq<Level>
    requires Ordered(t, order) && c in t
    decreases OrderOf(t, order, c), 0
  {
    assert OrderedAt(t, order, c);
    if t[c].parent.Some? then Lineage(t, order, t[c].parent.value) else []
  }

  ghost predicate Ancestor(t: Table, order: map<string, int>, a: string, c: string)
    requires Ordered(t, order) && c in t
    decreases OrderOf(t, order, c)
  {
    assert OrderedAt(t, order, c);
    a == c || (t[c].parent.Some? && Ancestor(t, order, a, t[c].parent.value))
  }

  lemma {:induction false} AncestorIsAbove(t: Table, order: map<string, int>, a: string, c: string)
    requires Ordered(t, order) && c in t && Ancestor(t, order, a, c)
    ensures a in t && OrderOf(t, order, a) <= OrderOf(t, order, c)
    decreases OrderOf(t, order, c)
  {
    assert OrderedAt(t, order, c);
    if a != c { AncestorIsAbove(t, order, a, t[c].parent.value); }
  }

  lemma UpIs(t: Table, order: map<string, int>, c: string)
    requires Ordered(t, order) && c in t
    ensures var l := Lineage(t, order, c); l[..|l| - 1] == Up(t, order, c)
    ensures t[c].parent.Some? ==> t[c].parent.value in t && OrderOf(t, order, t[c].parent.value) < OrderOf(t, order, c)
  {
    assert OrderedAt(t, order, c);
  }

  /** A descendant's slots and fields extend its ancestor's. */
  lemma {:induction false} LayoutExtends(t: Table, order: map<string, int>, a: string, c: string)
    requires Ordered(t, order) && c in t && Ancestor(t, order, a, c) && Accepted(Lineage(t, order, c))
    ensures a in t && Accepted(Lineage(t, order, a))
    ensures Slots(Lineage(t, order, a)) <= Slots(Lineage(t, order, c))
    ensures Vars(Lineage(t, order, a)) <= Vars(Lineage(t, order, c))
    decreases OrderOf(t, order, c)
  {
    if a != c {
      UpIs(t, order, c);
      var l := Lineage(t, order, c);
      LevelExtends(l);
      hide Slots, Vars, Accepted;
      LayoutExtends(t, order, a, t[c].parent.value);
      assert Up(t, order, c) == Lineage(t, order, t[c].parent.value);
    }
  }

  lemma LevelExtends(l: seq<Level>)
    requires Accepted(l) && l != []
    ensures Accepted(l[..|l| - 1]) && Slots(l[..|l| - 1]) <= Slots(l) && Vars(l[..|l| - 1]) <= Vars(l)
  {
    var up := l[..|l| - 1];
    VisibleIs(up, "");
    AddMethodsExtends(Slots(up), l[|l| - 1].members);
    NewVarsAreNew(l);
    AddVarsExtends(Vars(up), l[|l| - 1].members);
  }

  lemma NewVarsAreNew(l: seq<Level>)
    requires Accepted(l) && l != []
    ensures var up, ms := Vars(l[..|l| - 1]), l[|l| - 1].members;
      Unique(up) && DistinctNames(ms) && forall i :: 0 <= i < |ms| && ms[i].kind == Var ==> ms[i].name !in up
  {
    var up, ms := l[..|l| - 1], l[|l| - 1].members;
    VisibleIs(up, "");
    forall i | 0 <= i < |ms| && ms[i].kind == Var ensures ms[i].name !in Vars(up) {
      assert Overrides(up, ms[i]);
      VisibleIs(up, ms[i].name);
    }
  }

  /** Calls through an ancestor and through a descendant use the same slot. */
  lemma SameSlot(t: Table, order: map<string, int>, a: string, c: string, name: string)
    requires Ordered(t, order) && c in t && Ancestor(t, order, a, c) && Accepted(Lineage(t, order, c))
    requires a in t && name in Slots(Lineage(t, order, a))
    ensures name in Slots(Lineage(t, order, c))
    ensures Index(Slots(Lineage(t, order, c)), name) == Index(Slots(Lineage(t, order, a)), name)
  {
    LayoutExtends(t, order, a, c);
    IndexStays(Slots(Lineage(t, order, a)), Slots(Lineage(t, order, c)), name);
  }

  /** Where a field lies, and how large an object is: a pointer to the virtual table comes first. */
  ghost function FieldOffset(l: seq<Level>, v: string): int
    requires v in Vars(l)
  {
    POINTER_SIZE + WORD_SIZE * Index(Vars(l), v)
  }

  ghost function ObjectSize(l: seq<Level>): int { POINTER_SIZE + WORD_SIZE * |Vars(l)| }

  /** A descendant keeps every field where its ancestor has it; the four bytes of a field lie inside the object, apart
      from those of any other field and from the pointer at its start, and no byte of the object is left over. */
  lemma FieldsDoNotOverlap(t: Table, order: map<string, int>, a: string, c: string, v: string, w: string)
    requires Ordered(t, order) && c in t && Ancestor(t, order, a, c) && Accepted(Lineage(t, order, c))
    requires a in t && v in Vars(Lineage(t, order, a)) && w in Vars(Lineage(t, order, c))
    ensures var l, m := Lineage(t, order, a), Lineage(t, order, c);
      && v in Vars(m) && FieldOffset(m, v) == FieldOffset(l, v)
      && 4 <= FieldOffset(m, v) && FieldOffset(l, v) + 4 <= ObjectSize(l) <= ObjectSize(m)
      && (v != w ==> FieldOffset(m, v) + 4 <= FieldOffset(m, w) || FieldOffset(m, w) + 4 <= FieldOffset(m, v))
      && ObjectSize(m) == 4 + 4 * |Vars(m)|
  {
    LayoutExtends(t, order, a, c);
    var l, m := Lineage(t, order, a), Lineage(t, order, c);
    IndexStays(Vars(l), Vars(m), v);
    IndexIs(Vars(l), v);
    IndexIs(Vars(m), v);
    IndexIs(Vars(m), w);
  }

  // ---- Resolving orders and filling tables ----

  lemma {:induction false} AddMethodsSnoc(slots: seq<string>, ms: seq<Member>, i: nat)
    requires i < |ms|
    ensures AddMethods(slots, ms[..i + 1]) ==
      var s := AddMethods(slots, ms[..i]); if ms[i].kind == Method && ms[i].name !in s then s + [ms[i].name] else s
    decreases i
  {
    if i > 0 {
      var next := if ms[0].kind == Method && ms[0].name !in slots then slots + [ms[0].name] else slots;
      assert ms[..i + 1][1..] == ms[1..][..i] && ms[..i][1..] == ms[1..][..i - 1];
      AddMethodsSnoc(next, ms[1..], i - 1);
    } else {
      assert ms[..1][1..] == [] && ms[..0] == [];
    }
  }

  lemma {:induction false} AddVarsSnoc(vars: seq<string>, ms: seq<Member>, i: nat)
    requires i < |ms|
    ensures AddVars(vars, ms[..i + 1]) ==
      var s := AddVars(vars, ms[..i]); if ms[i].kind == Var then s + [ms[i].name] else s
    decreases i
  {
    if i > 0 {
      var next := if ms[0].kind == Var then vars + [ms[0].name] else vars;
      assert ms[..i + 1][1..] == ms[1..][..i] && ms[..i][1..] == ms[1..][..i - 1];
      AddVarsSnoc(next, ms[1..], i - 1);
    } else {
      assert ms[..1][1..] == [] && ms[..0] == [];
    }
  }

  /** The order given to a member is its place among the slots or the fields. */
  ghost predicate MemberOk(order: map<(string, string), int>, c: string, m: Member, slots: seq<string>, vars: seq<string>) {
    && (m.kind == Var ==> m.name in vars && (c, m.name) in order && order[(c, m.name)] == Index(vars, m.name))
    && (m.kind == Method ==> m.name in slots && (c, m.name) in order && order[(c, m.name)] == Index(slots, m.name))
  }

  lemma MemberStays(order: map<(string, string), int>, later: map<(string, string), int>, c: string, m: Member,
                    slots: seq<string>, vars: seq<string>, s: seq<string>, v: seq<string>)
    requires MemberOk(order, c, m, slots, vars) && slots <= s && vars <= v
    requires (c, m.name) in order ==> (c, m.name) in later && later[(c, m.name)] == order[(c, m.name)]
    ensures MemberOk(later, c, m, s, v)
  {
    if m.kind == Var { IndexStays(vars, v, m.name); }
    if m.kind == Method { IndexStays(slots, s, m.name); }
  }

  datatype Numbers = Numbers(order: map<(string, string), int>, numFunc: map<string, int>, numVar: map<string, int>,
                             size: map<string, int>)

  /** The numbers kept for a class are those of its lineage. */
  ghost predicate Resolved(t: Table, rank: map<string, int>, n: Numbers, c: string)
    requires Ordered(t, rank)
  {
    && c in t && c in n.numFunc && c in n.numVar && c in n.size
    && var l := Lineage(t, rank, c);
    && n.numFunc[c] == |Slots(l)| && n.numVar[c] == |Vars(l)| && n.size[c] == ObjectSize(l)
    && (t[c].parent.Some? ==> t[c].parent.value in n.numFunc)
    && forall i :: 0 <= i < |t[c].members| ==> MemberOk(n.order, c, t[c].members[i], Slots(l), Vars(l))
  }

  /** Numbering the members of c leaves the other classes resolved. */
  lemma ResolvedStays(t: Table, rank: map<string, int>, n: Numbers, m: Numbers, c: string, d: string)
    requires Ordered(t, rank) && Resolved(t, rank, n, d) && d != c
    requires forall x, y :: (x, y) in n.order && x != c ==> (x, y) in m.order && m.order[(x, y)] == n.order[(x, y)]
    requires forall x :: x in n.numFunc && x != c ==> x in m.numFunc && m.numFunc[x] == n.numFunc[x]
    requires forall x :: x in n.numVar && x != c ==> x in m.numVar && m.numVar[x] == n.numVar[x]
    requires forall x :: x in n.size && x != c ==> x in m.size && m.size[x] == n.size[x]
    requires c in n.numFunc ==> c in m.numFunc
    ensures Resolved(t, rank, m, d)
  {
    var ms, l := t[d].members, Lineage(t, rank, d);
    forall i | 0 <= i < |ms| ensures MemberOk(m.order, d, ms[i], Slots(l), Vars(l)) {
      assert MemberOk(n.order, d, ms[i], Slots(l), Vars(l));
    }
  }

  /** What numbering one member stores. */
  ghost predicate Stores(before: map<(string, string), int>, after: map<(string, string), int>, c: string, m: Member,
                         up: seq<string>, slots: seq<string>, vars: seq<string>)
  {
    match m.kind
    case Var => after == before[(c, m.name) := |vars|]
    case Method => after == before[(c, m.name) := if m.name in up then Index(up, m.name) else |slots|]
    case Static => after == before
  }

  /** The member numbered last has its place in the longer lists. */
  lemma NewMember(before: map<(string, string), int>, after: map<(string, string), int>, c: string, m: Member,
                  up: seq<string>, slots: seq<string>, vars: seq<string>, s: seq<string>, v: seq<string>)
    requires Stores(before, after, c, m, up, slots, vars) && up <= slots && Unique(s) && Unique(v)
    requires s == if m.kind == Method && m.name !in slots then slots + [m.name] else slots
    requires v == if m.kind == Var then vars + [m.name] else vars
    requires m.name in slots <==> m.name in up
    ensures MemberOk(after, c, m, s, v)
  {
    if m.kind == Var {
      IndexAt(v, |vars|);
    } else if m.kind == Method {
      if m.name in up { IndexStays(up, s, m.name); } else { IndexAt(s, |slots|); }
    }
  }

  lemma OneMoreMember(before: map<(string, string), int>, after: map<(string, string), int>, c: string, ms: seq<Member>,
                      slots: seq<string>, vars: seq<string>, i: nat)
    requires i < |ms| && DistinctNames(ms) && Unique(slots)
    requires Unique(vars) && forall j :: 0 <= j < |ms| && ms[j].kind == Var ==> ms[j].name !in vars
    requires Stores(before, after, c, ms[i], slots, AddMethods(slots, ms[..i]), AddVars(vars, ms[..i]))
    requires forall j :: 0 <= j < i ==> MemberOk(before, c, ms[j], AddMethods(slots, ms[..i]), AddVars(vars, ms[..i]))
    ensures var s, v := AddMethods(slots, ms[..i + 1]), AddVars(vars, ms[..i + 1]);
      && (forall j :: 0 <= j < i + 1 ==> MemberOk(after, c, ms[j], s, v))
      && |s| == |AddMethods(slots, ms[..i])| + (if ms[i].kind == Method && ms[i].name !in slots then 1 else 0)
      && |v| == |AddVars(vars, ms[..i])| + (if ms[i].kind == Var then 1 else 0)
  {
    PartsUnique(slots, vars, ms, i);
    PartsUnique(slots, vars, ms, i + 1);
    AddMethodsSnoc(slots, ms, i);
    AddVarsSnoc(vars, ms, i);
    assert forall j :: 0 <= j < i ==> ms[j].name != ms[i].name;
    hide AddMethods, AddVars, MemberOk, Unique, DistinctNames;
    var s0, v0, s, v, m := AddMethods(slots, ms[..i]), AddVars(vars, ms[..i]), AddMethods(slots, ms[..i + 1]), AddVars(vars, ms[..i + 1]), ms[i];
    NewMember(before, after, c, m, slots, s0, v0, s, v);
    forall j | 0 <= j < i ensures MemberOk(after, c, ms[j], s, v) {
      MemberStays(before, after, c, ms[j], s0, v0, s, v);
    }
  }

  /** Numbering part of the members meets each name at most once. */
  lemma PartsUnique(slots: seq<string>, vars: seq<string>, ms: seq<Member>, i: nat)
    requires i <= |ms| && DistinctNames(ms) && Unique(slots)
    requires Unique(vars) && forall j :: 0 <= j < |ms| && ms[j].kind == Var ==> ms[j].name !in vars
    ensures slots <= AddMethods(slots, ms[..i]) && Unique(AddMethods(slots, ms[..i])) && Unique(AddVars(vars, ms[..i]))
    ensures i < |ms| ==> (ms[i].name in AddMethods(slots, ms[..i]) <==> ms[i].name in slots)
  {
    var p := ms[..i];
    assert forall j :: 0 <= j < i ==> p[j] == ms[j];
    AddMethodsExtends(slots, p);
    AddVarsExtends(vars, p);
  }

  lemma OverridesIn(l: seq<Level>, m: Member)
    requires l != [] && Accepted(l) && m in l[|l| - 1].members
    ensures Overrides(l[..|l| - 1], m)
  {
    var i :| 0 <= i < |l[|l| - 1].members| && l[|l| - 1].members[i] == m;
    assert OverridesAll(l[..|l| - 1], l[|l| - 1].members);
  }

  /** The number the nearest declaration of a method carries is its slot further down, too. */
  lemma SlotOfVisible(t: Table, rank: map<string, int>, n: Numbers, d: string, c: string, name: string)
    requires Ordered(t, rank) && c in t && d in t && Ancestor(t, rank, d, c) && Accepted(Lineage(t, rank, c))
    requires Resolved(t, rank, n, d) && Declares(t[d].members, name) == Some(Member(name, Method))
    ensures name in Slots(Lineage(t, rank, c)) && (d, name) in n.order
    ensures n.order[(d, name)] == Index(Slots(Lineage(t, rank, c)), name)
  {
    LayoutExtends(t, rank, d, c);
    var ms, l := t[d].members, Lineage(t, rank, d);
    assert l[|l| - 1].members == ms;
    DeclaresIs(ms, name);
    var i :| 0 <= i < |ms| && ms[i] == Member(name, Method);
    assert MemberOk(n.order, d, ms[i], Slots(l), Vars(l));
    IndexStays(Slots(l), Slots(Lineage(t, rank, c)), name);
  }

  class Layouts {
    const table: Table
    ghost const rank: map<string, int>
    var order: map<(string, string), int>
    var numFunc: map<string, int>
    var numVar: map<string, int>
    var size: map<string, int>

    ghost function State(): Numbers
      reads this
    {
      Numbers(order, numFunc, numVar, size)
    }

    ghost predicate Valid()
      reads this
    {
      && Ordered(table, rank)
      && (forall c :: c in table ==> Accepted(Lineage(table, rank, c)))
      && forall c :: c in numFunc ==> Resolved(table, rank, State(), c)
    }

    constructor (t: Table, ghost r: map<string, int>)
      requires Ordered(t, r) && forall c :: c in t ==> Accepted(Lineage(t, r, c))
      ensures Valid() && table == t && rank == r && numFunc == map[]
    {
      table, rank := t, r;
      order, numFunc, numVar, size := map[], map[], map[], map[];
    }

    /** Walk up from a class to the nearest declaration of a name. */
    method LookupVisible(c: string, name: string) returns (d: Option<string>)
      requires Valid() && c in numFunc && c in table
      ensures d.Some? <==> Visible(Lineage(table, rank, c), name).Some?
      ensures d.Some? ==> d.value in numFunc && d.value in table && Ancestor(table, rank, d.value, c)
      ensures d.Some? ==> Declares(table[d.value].members, name) == Visible(Lineage(table, rank, c), name)
      decreases OrderOf(table, rank, c)
    {
      assert Resolved(table, rank, State(), c);
      UpIs(table, rank, c);
      if Declares(table[c].members, name).Some? { return Some(c); }
      if table[c].parent == None { return None; }
      d := LookupVisible(table[c].parent.value, name);
    }

    /** Resolve the parent first, then number the members from where the parent stopped. */
    method ResolveFieldOrder(c: string)
      requires Valid() && c in table
      modifies this
      ensures Valid() && c in numFunc && forall d :: d in old(numFunc) ==> d in numFunc
      ensures forall d :: d in numFunc && d !in old(numFunc) ==> d in table && Ancestor(table, rank, d, c)
      decreases OrderOf(table, rank, c)
    {
      if c in numFunc { return; }
      UpIs(table, rank, c);
      var methods, vars, bytes := 0, 0, POINTER_SIZE;
      var parent := table[c].parent;
      if parent.Some? {
        ResolveFieldOrder(parent.value);
        if c in numFunc { AncestorIsAbove(table, rank, c, parent.value); }
        assert Resolved(table, rank, State(), parent.value);
        methods, vars, bytes := numFunc[parent.value], numVar[parent.value], size[parent.value];
      }
      NumberMembers(c, methods, vars, bytes);
    }

    /** Number the members of one class, whose parent is resolved. */
    method NumberMembers(c: string, methods: int, vars: int, bytes: int)
      requires Valid() && c in table && c !in numFunc
      requires table[c].parent.Some? ==> table[c].parent.value in numFunc
      requires var up := Up(table, rank, c);
        methods == |Slots(up)| && vars == |Vars(up)| && bytes == ObjectSize(up)
      modifies this
      ensures Valid() && numFunc.Keys == old(numFunc.Keys) + {c}
    {
      hide Accepted, Slots, Vars, Resolved, Numbered, Ordered;
      ghost var up := Up(table, rank, c);
      UpIs(table, rank, c);
      NothingNumbered(order, c, table[c].members, Slots(up), Vars(up));
      var ms, nf, nv, sz := table[c].members, methods, vars, bytes;
      var i := 0;
      while i < |ms|
        invariant 0 <= i <= |ms| && Valid()
        invariant Numbered(order, c, ms, Slots(up), Vars(up), i, nf, nv) && sz == POINTER_SIZE + WORD_SIZE * nv
        invariant numFunc == old(numFunc) && numVar == old(numVar) && size == old(size)
      {
        nf, nv := NumberMember(c, i, nf, nv);
        if ms[i].kind == Var { sz := sz + WORD_SIZE; }
        i := i + 1;
      }
      ghost var done := State();
      numFunc, numVar, size := numFunc[c := nf], numVar[c := nv], size[c := sz];
      AllNumbered(table, rank, State(), c);
      forall d | d in numFunc && d != c ensures Resolved(table, rank, State(), d) {
        ResolvedStays(table, rank, done, State(), c, d);
      }
    }

    /** A field takes the next number; a method takes its overridden method's, or the next. */
    method NumberMember(c: string, i: nat, methods: int, vars: int) returns (nf: int, nv: int)
      requires Valid() && c in table && c !in numFunc && i < |table[c].members|
      requires table[c].parent.Some? ==> table[c].parent.value in numFunc
      requires var up := Up(table, rank, c);
        Numbered(order, c, table[c].members, Slots(up), Vars(up), i, methods, vars)
      modifies this`order
      ensures Valid()
      ensures var up := Up(table, rank, c);
        Numbered(order, c, table[c].members, Slots(up), Vars(up), i + 1, nf, nv)
      ensures nv == vars + if table[c].members[i].kind == Var then 1 else 0
    {
      hide Accepted, Slots, Vars, Resolved, Numbered, Ordered;
      ghost var before, up := State(), Up(table, rank, c);
      UpIs(table, rank, c);
      var m := table[c].members[i];
      NumberedSoFar(order, c, table[c].members, Slots(up), Vars(up), i, methods, vars);
      nf, nv := methods, vars;
      if m.kind == Var {
        order := order[(c, m.name) := nv];
        nv := nv + 1;
      } else if m.kind == Method {
        var s := OrderIfVisible(c, m);
        if s == None {
          order := order[(c, m.name) := nf];
          nf := nf + 1;
        } else {
          order := order[(c, m.name) := s.value];
        }
      }
      OneMoreNumbered(before.order, order, Lineage(table, rank, c), i, methods, vars, nf, nv);
      forall d | d in numFunc ensures Resolved(table, rank, State(), d) {
        ResolvedStays(table, rank, before, State(), c, d);
      }
    }

    /** The fields a class adds, in order, from the end of the parent's object on. */
    method AssignOffsets(c: string) returns (offset: map<string, int>)
      requires Valid() && c in numFunc && c in table
      ensures forall v :: v in offset <==> v in Vars(Lineage(table, rank, c)) && v !in Vars(Up(table, rank, c))
      ensures forall v :: v in offset ==> offset[v] == FieldOffset(Lineage(table, rank, c), v)
    {
      ghost var l, up := Lineage(table, rank, c), Up(table, rank, c);
      UpIs(table, rank, c);
      NewVarsAreNew(l);
      assert Resolved(table, rank, State(), c);
      hide Accepted, Slots, Vars, MemberOk, AddVars;
      var value := POINTER_SIZE;
      if table[c].parent.Some? {
        assert Resolved(table, rank, State(), table[c].parent.value);
        value := size[table[c].parent.value];
      } else {
        NoVarsYet();
      }
      var ms := table[c].members;
      offset := map[];
      NoOffsetsYet(l);
      var i := 0;
      while i < |ms|
        invariant 0 <= i <= |ms|
        invariant OffsetsOk(offset, l, i, value)
      {
        OneMoreOffset(offset, l, i, value);
        if ms[i].kind == Var {
          offset := offset[ms[i].name := value];
          value := value + WORD_SIZE;
        }
        i := i + 1;
      }
      AllOffsets(offset, l, value);
    }

    /** A table with a slot for every method, filled from the root down. */
    method CreateVTable(c: string) returns (entries: array<Option<Label>>)
      requires Valid() && c in numFunc && c in table
      ensures fresh(entries) && entries.Length == |Slots(Lineage(table, rank, c))|
      ensures Filled(entries[..], Lineage(table, rank, c))
    {
      assert Resolved(table, rank, State(), c);
      entries := new Option<Label>[numFunc[c]](_ => None);
      FillVTableEntries(entries, c);
    }

    /** The ancestors' methods first, so that a class's own overwrite those it overrides. */
    method FillVTableEntries(vt: array<Option<Label>>, c: string)
      requires Valid() && c in numFunc && c in table && |Slots(Lineage(table, rank, c))| <= vt.Length
      modifies vt
      ensures Filled(vt[..], Lineage(table, rank, c))
      decreases OrderOf(table, rank, c)
    {
      hide Accepted, Slots, Vars, MemberOk, Filled, FilledPart;
      ghost var l, up := Lineage(table, rank, c), Up(table, rank, c);
      UpIs(table, rank, c);
      LevelExtends(l);
      assert Resolved(table, rank, State(), c);
      if table[c].parent.Some? {
        FillVTableEntries(vt, table[c].parent.value);
      } else {
        RootFilled(vt[..]);
      }
      var ms := table[c].members;
      PartlyFilled(vt[..], l);
      var i := 0;
      while i < |ms|
        invariant 0 <= i <= |ms| && FilledPart(vt[..], l, i)
      {
        if ms[i].kind == Method {
          assert MemberOk(order, c, ms[i], Slots(l), Vars(l));
          OneMoreEntry(vt[..], l, i, order);
          vt[order[(c, ms[i].name)]] := Some(Label(c, ms[i].name));
        } else {
          SameEntries(vt[..], l, i);
        }
        i := i + 1;
      }
      AllFilled(vt[..], l);
    }

    /** The order a method inherits, if its name is visible in the parent. */
    method OrderIfVisible(c: string, m: Member) returns (s: Option<int>)
      requires Valid() && c in table && m.kind == Method && m in table[c].members
      requires table[c].parent.Some? ==> table[c].parent.value in numFunc
      ensures s == None <==> m.name !in Slots(Up(table, rank, c))
      ensures s.Some? ==> s.value == Index(Slots(Up(table, rank, c)), m.name)
    {
      ghost var up := Up(table, rank, c);
      UpIs(table, rank, c);
      OverridesIn(Lineage(table, rank, c), m);
      VisibleIs(up, m.name);
      var parent := table[c].parent;
      if parent == None { return None; }
      var d := LookupVisible(parent.value, m.name);
      if d == None { return None; }
      SlotOfVisible(table, rank, State(), d.value, parent.value, m.name);
      s := Some(order[(d.value, m.name)]);
    }
  }

  /** The first i members are numbered, and so many slots and fields are taken. */
  ghost predicate Numbered(order: map<(string, string), int>, c: string, ms: seq<Member>, slots: seq<string>, vars: seq<string>,
                           i: int, nf: int, nv: int)
  {
    && 0 <= i <= |ms| && nf == |AddMethods(slots, ms[..i])| && nv == |AddVars(vars, ms[..i])|
    && forall j :: 0 <= j < i ==> MemberOk(order, c, ms[j], AddMethods(slots, ms[..i]), AddVars(vars, ms[..i]))
  }

  lemma NothingNumbered(order: map<(string, string), int>, c: string, ms: seq<Member>, slots: seq<string>, vars: seq<string>)
    ensures Numbered(order, c, ms, slots, vars, 0, |slots|, |vars|)
  {
  }

  lemma NumberedSoFar(order: map<(string, string), int>, c: string, ms: seq<Member>, slots: seq<string>, vars: seq<string>,
                      i: nat, nf: int, nv: int)
    requires Numbered(order, c, ms, slots, vars, i, nf, nv)
    ensures i <= |ms| && nf == |AddMethods(slots, ms[..i])| && nv == |AddVars(vars, ms[..i])|
  {
  }

  lemma OneMoreNumbered(before: map<(string, string), int>, after: map<(string, string), int>, l: seq<Level>, i: nat,
                        methods: int, fields: int, nf: int, nv: int)
    requires l != [] && Accepted(l) && i < |l[|l| - 1].members|
    requires var c, ms, slots, vars := l[|l| - 1].cls, l[|l| - 1].members, Slots(l[..|l| - 1]), Vars(l[..|l| - 1]);
      && Numbered(before, c, ms, slots, vars, i, methods, fields)
      && Stores(before, after, c, ms[i], slots, AddMethods(slots, ms[..i]), AddVars(vars, ms[..i]))
      && nf == methods + (if ms[i].kind == Method && ms[i].name !in slots then 1 else 0)
      && nv == fields + (if ms[i].kind == Var then 1 else 0)
    ensures Numbered(after, l[|l| - 1].cls, l[|l| - 1].members, Slots(l[..|l| - 1]), Vars(l[..|l| - 1]), i + 1, nf, nv)
  {
    var up := l[..|l| - 1];
    NewVarsAreNew(l);
    VisibleIs(up, "");
    hide Accepted, Slots, Vars, AddMethods, AddVars, MemberOk, Stores;
    OneMoreMember(before, after, l[|l| - 1].cls, l[|l| - 1].members, Slots(up), Vars(up), i);
  }

  lemma AllNumbered(t: Table, rank: map<string, int>, n: Numbers, c: string)
    requires Ordered(t, rank) && c in t && c in n.numFunc && c in n.numVar && c in n.size
    requires n.size[c] == POINTER_SIZE + WORD_SIZE * n.numVar[c]
    requires Numbered(n.order, c, t[c].members, Slots(Up(t, rank, c)), Vars(Up(t, rank, c)), |t[c].members|, n.numFunc[c], n.numVar[c])
    requires t[c].parent.Some? ==> t[c].parent.value in n.numFunc
    ensures Resolved(t, rank, n, c)
  {
    UpIs(t, rank, c);
    var l := Lineage(t, rank, c);
    assert t[c].members[..|t[c].members|] == t[c].members;
    assert Slots(l) == AddMethods(Slots(Up(t, rank, c)), t[c].members);
    assert Vars(l) == AddVars(Vars(Up(t, rank, c)), t[c].members);
  }

  // ---- Virtual tables ----

  /** Every slot holds the label of the class that declares its method last. */
  ghost predicate Filled(entries: seq<Option<Label>>, l: seq<Level>) {
    |Slots(l)| <= |entries| && forall i :: 0 <= i < |Slots(l)| ==> entries[i] == Some(Label(MostDerived(l, Slots(l)[i]), Slots(l)[i]))
  }

  /** The same while the last level's methods are put in: those done, and below them the parent's. */
  ghost predicate FilledPart(entries: seq<Option<Label>>, l: seq<Level>, i: int)
    requires l != []
  {
    && 0 <= i <= |l[|l| - 1].members| && |Slots(l)| <= |entries|
    && forall k :: 0 <= k < |Slots(l)| ==> EntryOk(entries, l, i, k)
  }

  ghost predicate EntryOk(entries: seq<Option<Label>>, l: seq<Level>, i: int, k: int)
    requires l != [] && 0 <= i <= |l[|l| - 1].members| && 0 <= k < |Slots(l)| <= |entries|
  {
    var up, n, ms := l[..|l| - 1], Slots(l)[k], l[|l| - 1].members;
    if Member(n, Method) in ms[..i] then entries[k] == Some(Label(l[|l| - 1].cls, n))
    else k < |Slots(up)| ==> entries[k] == Some(Label(MostDerived(up, n), n))
  }

  lemma RootFilled(entries: seq<Option<Label>>)
    ensures Filled(entries, [])
  {
  }

  lemma PartlyFilled(entries: seq<Option<Label>>, l: seq<Level>)
    requires l != [] && Slots(l[..|l| - 1]) <= Slots(l) && |Slots(l)| <= |entries| && Filled(entries, l[..|l| - 1])
    ensures FilledPart(entries, l, 0)
  {
    hide Slots, MostDerived;
    forall k | 0 <= k < |Slots(l)| ensures EntryOk(entries, l, 0, k) { }
  }

  lemma SameEntries(entries: seq<Option<Label>>, l: seq<Level>, i: nat)
    requires l != [] && FilledPart(entries, l, i) && i < |l[|l| - 1].members| && l[|l| - 1].members[i].kind != Method
    ensures FilledPart(entries, l, i + 1)
  {
    var ms := l[|l| - 1].members;
    assert ms[..i + 1] == ms[..i] + [ms[i]];
    var next := i + 1;
    forall k | 0 <= k < |Slots(l)| ensures EntryOk(entries, l, next, k) { assert EntryOk(entries, l, i, k); }
  }

  lemma OneMoreEntry(entries: seq<Option<Label>>, l: seq<Level>, i: nat, order: map<(string, string), int>)
    requires l != [] && Accepted(l) && FilledPart(entries, l, i) && i < |l[|l| - 1].members|
    requires l[|l| - 1].members[i].kind == Method && MemberOk(order, l[|l| - 1].cls, l[|l| - 1].members[i], Slots(l), Vars(l))
    ensures var c, m := l[|l| - 1].cls, l[|l| - 1].members[i];
      && (c, m.name) in order && 0 <= order[(c, m.name)] < |entries|
      && FilledPart(entries[order[(c, m.name)] := Some(Label(c, m.name))], l, i + 1)
  {
    var c, m, ms := l[|l| - 1].cls, l[|l| - 1].members[i], l[|l| - 1].members;
    VisibleIs(l, m.name);
    IndexIs(Slots(l), m.name);
    var at := order[(c, m.name)];
    assert ms[..i + 1] == ms[..i] + [m];
    hide Accepted, Slots, Visible, MostDerived;
    var next, after := i + 1, entries[at := Some(Label(c, m.name))];
    forall k | 0 <= k < |Slots(l)| ensures EntryOk(after, l, next, k) {
      assert EntryOk(entries, l, i, k);
      if k != at { assert Slots(l)[k] != m.name; }
    }
  }

  lemma AllFilled(entries: seq<Option<Label>>, l: seq<Level>)
    requires l != [] && Accepted(l) && FilledPart(entries, l, |l[|l| - 1].members|)
    ensures Filled(entries, l)
  {
    var up, ms := l[..|l| - 1], l[|l| - 1].members;
    assert ms[..|ms|] == ms;
    LevelExtends(l);
    forall k | 0 <= k < |Slots(l)| ensures entries[k] == Some(Label(MostDerived(l, Slots(l)[k]), Slots(l)[k])) {
      var n := Slots(l)[k];
      assert EntryOk(entries, l, |ms|, k);
      OwnOrInherited(l, k);
    }
  }

  /** A slot is declared by the last level, or was there already. */
  lemma OwnOrInherited(l: seq<Level>, k: nat)
    requires l != [] && Accepted(l) && k < |Slots(l)|
    ensures var n, ms := Slots(l)[k], l[|l| - 1].members;
      if Member(n, Method) in ms then MostDerived(l, n) == l[|l| - 1].cls
      else k < |Slots(l[..|l| - 1])| && MostDerived(l, n) == MostDerived(l[..|l| - 1], n)
  {
    var up, n, ms := l[..|l| - 1], Slots(l)[k], l[|l| - 1].members;
    VisibleIs(l, n);
    VisibleIs(up, n);
    LevelExtends(l);
    DeclaresIs(ms, n);
    assert Member(n, Method) in ms <==> Declares(ms, n) == Some(Member(n, Method));
    if Member(n, Method) !in ms {
      assert n in Slots(up);
      IndexIs(Slots(up), n);
    }
  }

  ghost predicate Named(ms: seq<Member>, name: string) {
    exists i :: 0 <= i < |ms| && ms[i].name == name
  }

  /** Of c and its ancestors, d declares the name and every other one that does lies above d. */
  ghost predicate DeclaresLast(t: Table, order: map<string, int>, c: string, name: string, d: string)
    requires Ordered(t, order) && c in t
  {
    && d in t && Ancestor(t, order, d, c) && Named(t[d].members, name)
    && forall e :: e in t && Ancestor(t, order, e, c) && Named(t[e].members, name) ==> Ancestor(t, order, e, d)
  }

  lemma {:induction false} DeclaresNamed(ms: seq<Member>, name: string)
    ensures Declares(ms, name).Some? <==> Named(ms, name)
  {
    if ms != [] {
      DeclaresNamed(ms[1..], name);
      if Named(ms[1..], name) {
        var i :| 0 <= i < |ms[1..]| && ms[1..][i].name == name;
        assert ms[i + 1].name == name;
      }
      if Named(ms, name) && ms[0].name != name {
        var i :| 0 <= i < |ms| && ms[i].name == name;
        assert ms[1..][i - 1].name == name;
      }
    }
  }

  lemma {:induction false} MostDerivedIs(t: Table, order: map<string, int>, c: string, name: string)
    requires Ordered(t, order) && c in t && Visible(Lineage(t, order, c), name).Some?
    ensures DeclaresLast(t, order, c, name, MostDerived(Lineage(t, order, c), name))
    decreases OrderOf(t, order, c)
  {
    UpIs(t, order, c);
    DeclaresNamed(t[c].members, name);
    if Declares(t[c].members, name).None? { MostDerivedIs(t, order, t[c].parent.value, name); }
  }

  /** Through any ancestor's slot, a call on an object reaches the class that declared the method last. */
  lemma DispatchReachesOverride(t: Table, order: map<string, int>, a: string, c: string, name: string, entries: seq<Option<Label>>)
    requires Ordered(t, order) && c in t && Ancestor(t, order, a, c) && Accepted(Lineage(t, order, c))
    requires a in t && name in Slots(Lineage(t, order, a)) && Filled(entries, Lineage(t, order, c))
    ensures var slot := Index(Slots(Lineage(t, order, a)), name);
      slot < |entries| && entries[slot] == Some(Label(MostDerived(Lineage(t, order, c), name), name))
  {
    SameSlot(t, order, a, c, name);
    IndexIs(Slots(Lineage(t, order, c)), name);
  }

  // ---- Field offsets ----

  /** Offsets given to the fields among the first i members. */
  ghost predicate OffsetsOk(offset: map<string, int>, l: seq<Level>, i: int, value: int) {
    && l != [] && 0 <= i <= |l[|l| - 1].members|
    && var up := Vars(l[..|l| - 1]);
       var now := AddVars(up, l[|l| - 1].members[..i]);
       && value == POINTER_SIZE + WORD_SIZE * |now|
       && (forall v :: v in offset <==> v in now && v !in up)
       && (forall v :: v in offset ==> offset[v] == POINTER_SIZE + WORD_SIZE * Index(now, v))
  }

  lemma NoVarsYet()
    ensures Vars([]) == []
  {
  }

  lemma NoOffsetsYet(l: seq<Level>)
    requires l != []
    ensures OffsetsOk(map[], l, 0, POINTER_SIZE + WORD_SIZE * |Vars(l[..|l| - 1])|)
  {
  }

  lemma OneMoreOffset(offset: map<string, int>, l: seq<Level>, i: nat, value: int)
    requires l != [] && Accepted(l) && OffsetsOk(offset, l, i, value) && i < |l[|l| - 1].members|
    ensures var m := l[|l| - 1].members[i];
      if m.kind == Var then OffsetsOk(offset[m.name := value], l, i + 1, value + WORD_SIZE)
      else OffsetsOk(offset, l, i + 1, value)
  {
    var up, ms := Vars(l[..|l| - 1]), l[|l| - 1].members;
    var before, now, m := AddVars(up, ms[..i]), AddVars(up, ms[..i + 1]), ms[i];
    NewVarsAreNew(l);
    AddVarsSnoc(up, ms, i);
    PartsUnique([], up, ms, i);
    PartsUnique([], up, ms, i + 1);
    hide Accepted, Vars, AddVars;
    if m.kind == Var {
      IndexAt(now, |before|);
      forall v | v in before ensures v != m.name && Index(now, v) == Index(before, v) {
        IndexStays(before, now, v);
        IndexIs(before, v);
      }
    }
  }

  lemma AllOffsets(offset: map<string, int>, l: seq<Level>, value: int)
    requires l != [] && OffsetsOk(offset, l, |l[|l| - 1].members|, value)
    ensures forall v :: v in offset <==> v in Vars(l) && v !in Vars(l[..|l| - 1])
    ensures forall v :: v in offset ==> offset[v] == FieldOffset(l, v)
  {
    var ms := l[|l| - 1].members;
    assert ms[..|ms|] == ms;
  }
}
