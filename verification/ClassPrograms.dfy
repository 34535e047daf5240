/** From a program's class table to its filled virtual tables: the checks, the numbering, the offsets and the tables. */
module ClassPrograms {
  import opened ClassLayout
  import opened Inheritance
  import opened Overriding

  datatype Verdict = BadInheritance | BadOverride | LaidOut

  /** What the type checker guarantees before: known parents, known types, no name twice in one class. */
  ghost predicate Declared(t: Table, sigs: Sigs) {
    Closed(t) && Typed(t, sigs) && forall c :: c in t ==> DistinctNames(t[c].members)
  }

  ghost predicate Fine(t: Table, order: map<string, int>, sigs: Sigs, c: string)
    requires Ordered(t, order) && c in t
  {
    Accepted(Lineage(t, order, c)) && TypesAccepted(t, order, sigs, c)
  }

  /** A class redeclares a name of one of its ancestors otherwise than by a method that may replace a method. */
  ghost predicate Clash(t: Table, order: map<string, int>, sigs: Sigs, d: string, a: string)
    requires Ordered(t, order) && d in t && a in t
  {
    Ancestor(t, order, a, d) && a != d && !Agree(t, order, sigs, d, a)
  }

  /** A call of name, checked on class a and made on an object of class c: the slot of a leads, in the table of c, to the
      class that declares the method last, and that method may replace the one the call was checked against. */
  ghost predicate Dispatches(t: Table, order: map<string, int>, sigs: Sigs, table: seq<Option<Label>>, a: string, c: string, name: string)
    requires Ordered(t, order) && a in t && c in t
  {
    Ancestor(t, order, a, c) && name in Slots(Lineage(t, order, a)) ==>
      var slot := Index(Slots(Lineage(t, order, a)), name);
      var known, reached := MostDerived(Lineage(t, order, a), name), MostDerived(Lineage(t, order, c), name);
      && slot < |table| && table[slot] == Some(Label(reached, name))
      && DeclaresLast(t, order, a, name, known) && DeclaresLast(t, order, c, name, reached)
      && (known, name) in sigs && (reached, name) in sigs
      && Replaces(t, order, sigs[(reached, name)], sigs[(known, name)])
  }

  /** Every field of c that its parent does not have has its place behind the parent's object. */
  ghost predicate Placed(t: Table, order: map<string, int>, offset: map<string, int>, c: string)
    requires Ordered(t, order) && c in t
  {
    && (forall v :: v in offset <==> v in Vars(Lineage(t, order, c)) && v !in Vars(Up(t, order, c)))
    && forall v :: v in offset ==> offset[v] == FieldOffset(Lineage(t, order, c), v)
  }

  /** The whole way. */
  method CheckAndLayOut(t: Table, sigs: Sigs, classes: seq<string>)
    returns (r: Verdict, order: map<string, int>, offsets: map<string, map<string, int>>, tables: map<string, seq<Option<Label>>>)
    requires Declared(t, sigs) && forall c :: c in classes <==> c in t
    ensures r == BadInheritance <==> !Acyclic(t)
    ensures r != BadInheritance ==> Ordered(t, order) && (r == BadOverride <==> exists d, a :: d in t && a in t && Clash(t, order, sigs, d, a))
    ensures r == LaidOut ==> offsets.Keys == tables.Keys == t.Keys
    ensures r == LaidOut ==> forall c :: c in t ==> Placed(t, order, offsets[c], c)
    ensures r == LaidOut ==> forall a, c, name :: a in t && c in t ==> Dispatches(t, order, sigs, tables[c], a, c, name)
  {
    order, offsets, tables := map[], map[], map[];
    var checker := new ClassChecker(t);
    var ok := checker.CheckOrders(classes);
    if !ok { return BadInheritance, order, offsets, tables; }
    order := checker.order;
    ok := CheckAll(t, order, sigs, classes);
    FineIffNoClash(t, order, sigs);
    if !ok { return BadOverride, order, offsets, tables; }
    r := LaidOut;
    hide Ordered, Fine, Accepted, TypesAccepted, Placed, Dispatches;
    AllFine(t, order, sigs);
    offsets, tables := LayOut(t, order, classes);
    forall a, c, name | a in t && c in t ensures Dispatches(t, order, sigs, tables[c], a, c, name) {
      FilledDispatches(t, order, sigs, tables[c], a, c, name);
    }
  }

  lemma FineIffNoClash(t: Table, order: map<string, int>, sigs: Sigs)
    requires Ordered(t, order) && Declared(t, sigs)
    ensures (forall c :: c in t ==> Fine(t, order, sigs, c)) <==> !exists d, a :: d in t && a in t && Clash(t, order, sigs, d, a)
  {
    hide Accepted, TypesAccepted, Agree;
    forall c | c in t ensures Fine(t, order, sigs, c) <==> AllAgree(t, order, sigs, c) { AcceptedIff(t, order, sigs, c); }
    if d, a :| d in t && a in t && Clash(t, order, sigs, d, a) {
      assert Ancestor(t, order, d, d);
      assert !AllAgree(t, order, sigs, d);
    }
    if !exists d, a :: d in t && a in t && Clash(t, order, sigs, d, a) {
      forall c, d, a | c in t && d in t && a in t && Ancestor(t, order, d, c) && Ancestor(t, order, a, d) && a != d
        ensures Agree(t, order, sigs, d, a)
      {
        assert !Clash(t, order, sigs, d, a);
      }
    }
  }

  lemma AllFine(t: Table, order: map<string, int>, sigs: Sigs)
    requires Ordered(t, order) && forall c :: c in t ==> Fine(t, order, sigs, c)
    ensures forall c :: c in t ==> Accepted(Lineage(t, order, c))
  {
    forall c | c in t ensures Accepted(Lineage(t, order, c)) { assert Fine(t, order, sigs, c); }
  }

  lemma FilledDispatches(t: Table, order: map<string, int>, sigs: Sigs, table: seq<Option<Label>>, a: string, c: string, name: string)
    requires Ordered(t, order) && a in t && c in t && Declared(t, sigs) && Fine(t, order, sigs, c)
    requires Filled(table, Lineage(t, order, c))
    ensures Dispatches(t, order, sigs, table, a, c, name)
  {
    if Ancestor(t, order, a, c) && name in Slots(Lineage(t, order, a)) {
      DispatchReachesOverride(t, order, a, c, name, table);
      DispatchIsTyped(t, order, sigs, a, c, name);
      SlotIsLast(t, order, a, c, name);
    }
  }

  lemma SlotIsLast(t: Table, order: map<string, int>, a: string, c: string, name: string)
    requires Ordered(t, order) && a in t && c in t && Accepted(Lineage(t, order, c))
    requires Ancestor(t, order, a, c) && name in Slots(Lineage(t, order, a))
    ensures DeclaresLast(t, order, a, name, MostDerived(Lineage(t, order, a), name))
    ensures DeclaresLast(t, order, c, name, MostDerived(Lineage(t, order, c), name))
  {
    hide Accepted, Slots, Visible, DeclaresLast;
    LayoutExtends(t, order, a, c);
    VisibleIs(Lineage(t, order, a), name);
    VisibleIs(Lineage(t, order, c), name);
    MostDerivedIs(t, order, a, name);
    MostDerivedIs(t, order, c, name);
  }

  /** Every class is checked against its ancestors. */
  method CheckAll(t: Table, order: map<string, int>, sigs: Sigs, classes: seq<string>) returns (ok: bool)
    requires Ordered(t, order) && Declared(t, sigs) && forall c :: c in classes <==> c in t
    ensures ok <==> forall c :: c in t ==> Fine(t, order, sigs, c)
  {
    hide Accepted, TypesAccepted;
    var i := 0;
    while i < |classes|
      invariant 0 <= i <= |classes| && forall j :: 0 <= j < i ==> classes[j] in t && Fine(t, order, sigs, classes[j])
    {
      assert classes[i] in t;
      ok := CheckOverride(t, order, sigs, classes[i]);
      if !ok {
        assert !Fine(t, order, sigs, classes[i]);
        return false;
      }
      i := i + 1;
    }
    forall c | c in t ensures Fine(t, order, sigs, c) {
      var j :| 0 <= j < |classes| && classes[j] == c;
    }
    ok := true;
  }

  /** Class by class, numbers and offsets; then class by class, the tables. */
  method LayOut(t: Table, order: map<string, int>, classes: seq<string>)
    returns (offsets: map<string, map<string, int>>, tables: map<string, seq<Option<Label>>>)
    requires Ordered(t, order) && (forall c :: c in t ==> Accepted(Lineage(t, order, c))) && forall c :: c in classes <==> c in t
    ensures offsets.Keys == tables.Keys == t.Keys
    ensures forall c :: c in t ==> Placed(t, order, offsets[c], c) && Filled(tables[c], Lineage(t, order, c))
  {
    hide Filled, Placed;
    var layouts := new Layouts(t, order);
    offsets := NumberAll(layouts, classes);
    tables := FillAll(layouts, classes);
  }

  method NumberAll(layouts: Layouts, classes: seq<string>) returns (offsets: map<string, map<string, int>>)
    requires layouts.Valid() && forall c :: c in classes <==> c in layouts.table
    modifies layouts
    ensures layouts.Valid() && offsets.Keys == layouts.table.Keys && forall c :: c in classes ==> c in layouts.numFunc
    ensures forall c :: c in offsets ==> Placed(layouts.table, layouts.rank, offsets[c], c)
  {
    hide Accepted, Ordered, Resolved, Placed;
    offsets := map[];
    var i := 0;
    while i < |classes|
      invariant 0 <= i <= |classes| && layouts.Valid() && offsets.Keys <= layouts.table.Keys
      invariant forall j :: 0 <= j < i ==> classes[j] in layouts.numFunc && classes[j] in offsets
      invariant forall c :: c in offsets ==> Placed(layouts.table, layouts.rank, offsets[c], c)
    {
      var c := classes[i];
      assert c in layouts.table;
      layouts.ResolveFieldOrder(c);
      var offset := Offsets(layouts, c);
      offsets := offsets[c := offset];
      i := i + 1;
    }
    Listed(classes, layouts.table.Keys, offsets.Keys);
  }

  method Offsets(layouts: Layouts, c: string) returns (offset: map<string, int>)
    requires layouts.Valid() && c in layouts.numFunc && c in layouts.table
    ensures Placed(layouts.table, layouts.rank, offset, c)
  {
    hide Accepted, Ordered, Resolved;
    offset := layouts.AssignOffsets(c);
  }

  method FillAll(layouts: Layouts, classes: seq<string>) returns (tables: map<string, seq<Option<Label>>>)
    requires layouts.Valid() && (forall c :: c in classes <==> c in layouts.table) && forall c :: c in classes ==> c in layouts.numFunc
    ensures tables.Keys == layouts.table.Keys
    ensures forall c :: c in tables ==> Filled(tables[c], Lineage(layouts.table, layouts.rank, c))
  {
    hide Accepted, Ordered, Resolved, Filled;
    tables := map[];
    var i := 0;
    while i < |classes|
      invariant 0 <= i <= |classes| && layouts.Valid() && tables.Keys <= layouts.table.Keys
      invariant forall j :: 0 <= j < i ==> classes[j] in tables
      invariant forall c :: c in tables ==> Filled(tables[c], Lineage(layouts.table, layouts.rank, c))
    {
      var c := classes[i];
      assert c in classes;
      var entries := layouts.CreateVTable(c);
      tables := tables[c := entries[..]];
      i := i + 1;
    }
    Listed(classes, layouts.table.Keys, tables.Keys);
  }

  lemma Listed(classes: seq<string>, all: set<string>, done: set<string>)
    requires (forall c :: c in classes <==> c in all) && done <= all && forall j :: 0 <= j < |classes| ==> classes[j] in done
    ensures done == all
  {
    forall c | c in all ensures c in done {
      var j :| 0 <= j < |classes| && classes[j] == c;
    }
  }
}
