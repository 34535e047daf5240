/** The checks made of a program's classes before they are laid out. */
module Inheritance {
  import opened ClassLayout

  /** Away from the classes being worked on, each class is one deeper than its parent. */
  ghost predicate Depths(t: Table, order: map<string, int>, busy: set<string>) {
    forall x :: x in order && x !in busy && x in t ==> DepthAt(t, order, busy, x)
  }

  ghost predicate DepthAt(t: Table, order: map<string, int>, busy: set<string>, x: string)
    requires x in t && x in order
  {
    match t[x].parent
    case None => order[x] == 0
    case Some(p) => p in order && p !in busy && order[x] == order[p] + 1
  }

  ghost predicate Closed(t: Table) {
    forall c :: c in t && t[c].parent.Some? ==> t[c].parent.value in t
  }

  /** Some ranking puts every class after its parent: no class inherits from itself. */
  ghost predicate Acyclic(t: Table) { exists rank :: Ordered(t, rank) }

  ghost predicate Below(rank: map<string, int>, c: string, busy: set<string>) {
    c in rank && forall b :: b in busy ==> b in rank && rank[c] < rank[b]
  }

  class ClassChecker {
    const table: Table
    var order: map<string, int>

    constructor (t: Table)
      ensures table == t && order == map[]
    {
      table, order := t, map[];
    }

    /** The depth of a class, marked zero while its parents are worked out, so that cycles end. */
    method CalcOrder(c: Option<string>, ghost rank: map<string, int>, ghost busy: set<string>) returns (n: int)
      requires Closed(table) && (c.Some? ==> c.value in table) && order.Keys <= table.Keys
      requires forall x :: x in order ==> order[x] >= 0
      requires Ordered(table, rank) ==> Depths(table, order, busy) && (c.Some? ==> Below(rank, c.value, busy))
      modifies this
      ensures order.Keys <= table.Keys && forall x :: x in order ==> order[x] >= 0
      ensures forall x :: x in old(order) ==> x in order && order[x] == old(order)[x]
      ensures if c.Some? then c.value in order && n == order[c.value] else n == -1 && order == old(order)
      ensures Ordered(table, rank) ==> Depths(table, order, busy)
      decreases |table.Keys - order.Keys|, if c.Some? then 1 else 0
    {
      if c == None { return -1; }
      assert table[c.value].parent.Some? ==> table[c.value].parent.value in table;
      hide Ordered, Depths, Below, Closed;
      if c.value !in order {
        ghost var before := order;
        order := order[c.value := 0];
        assert c.value in table.Keys - before.Keys && c.value !in table.Keys - order.Keys;
        SubsetSmaller(table.Keys - order.Keys, table.Keys - before.Keys);
        if Ordered(table, rank) { MarkKeeps(table, rank, before, busy, c.value); }
        var p := CalcOrder(table[c.value].parent, rank, busy + {c.value});
        ghost var after := order;
        order := order[c.value := p + 1];
        if Ordered(table, rank) { UnmarkKeeps(table, rank, after, busy, c.value, p); }
      }
      n := order[c.value];
    }

    /** Every class is compared with its parent: all come out deeper exactly when no class inherits from itself. */
    method CheckOrders(classes: seq<string>) returns (ok: bool)
      requires Closed(table) && order == map[] && (forall c :: c in classes <==> c in table)
      modifies this
      ensures ok <==> Acyclic(table)
      ensures ok ==> Ordered(table, order)
    {
      ghost var rank := if Acyclic(table) then (var r :| Ordered(table, r); r) else map[];
      ok := true;
      var i := 0;
      while i < |classes|
        invariant 0 <= i <= |classes| && order.Keys <= table.Keys
        invariant forall x :: x in order ==> order[x] >= 0
        invariant Acyclic(table) ==> Depths(table, order, {})
        invariant forall j :: 0 <= j < i ==> classes[j] in table && OrderedAt(table, order, classes[j])
      {
        ghost var before := order;
        var c := classes[i];
        assert c in table;
        if Acyclic(table) { RankHas(table, rank, c); }
        var a := CalcOrder(Some(c), rank, {});
        ghost var between := order;
        var b := CalcOrder(table[c].parent, rank, {});
        if Acyclic(table) { assert DepthAt(table, order, {}, c); }
        if a <= b { return false; }
        assert OrderedAt(table, order, c);
        forall j | 0 <= j < i ensures OrderedAt(table, order, classes[j]) {
          OrderStays(table, before, between, order, classes[j]);
        }
        i := i + 1;
      }
      forall c | c in table ensures OrderedAt(table, order, c) {
        var j :| 0 <= j < |classes| && classes[j] == c;
      }
      assert Ordered(table, order);
    }
  }

  lemma SubsetSmaller(a: set<string>, b: set<string>)
    requires a < b
    ensures |a| < |b|
  {
    assert b == a + (b - a);
    assert b - a != {};
  }

  lemma RankHas(t: Table, rank: map<string, int>, c: string)
    requires Ordered(t, rank) && c in t && Closed(t)
    ensures Below(rank, c, {}) && (t[c].parent.Some? ==> Below(rank, t[c].parent.value, {}))
  {
    assert OrderedAt(t, rank, c);
  }

  lemma OrderStays(t: Table, before: map<string, int>, between: map<string, int>, after: map<string, int>, c: string)
    requires c in t && OrderedAt(t, before, c)
    requires forall x :: x in before ==> x in between && between[x] == before[x]
    requires forall x :: x in between ==> x in after && after[x] == between[x]
    ensures OrderedAt(t, after, c)
  {
  }

  lemma MarkKeeps(t: Table, rank: map<string, int>, before: map<string, int>, busy: set<string>, c: string)
    requires Ordered(t, rank) && c in t && c !in before && Below(rank, c, busy) && Depths(t, before, busy)
    ensures Depths(t, before[c := 0], busy + {c})
    ensures t[c].parent.Some? ==> Below(rank, t[c].parent.value, busy + {c})
  {
    assert OrderedAt(t, rank, c);
    forall x | x in before && x !in busy && x in t && x != c ensures DepthAt(t, before[c := 0], busy + {c}, x) {
      assert DepthAt(t, before, busy, x);
    }
  }

  lemma UnmarkKeeps(t: Table, rank: map<string, int>, after: map<string, int>, busy: set<string>, c: string, p: int)
    requires Ordered(t, rank) && c in t && c in after && Below(rank, c, busy)
    requires Depths(t, after, busy + {c})
    requires t[c].parent.Some? ==> t[c].parent.value in after && p == after[t[c].parent.value]
    requires t[c].parent == None ==> p == -1
    ensures Depths(t, after[c := p + 1], busy)
  {
    assert OrderedAt(t, rank, c);
    var later := after[c := p + 1];
    forall x | x in later && x !in busy && x in t ensures DepthAt(t, later, busy, x) {
      if x != c { assert DepthAt(t, after, busy + {c}, x); }
    }
  }
}
