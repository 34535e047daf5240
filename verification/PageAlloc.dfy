/** The first-fit page allocator: a sorted list of free blocks, merged on free. */
module PageAlloc {
  import opened Runs

  datatype Option<T> = None | Some(value: T)

  /** Insert without merging. */
  function Insert(s: seq<Run>, r: Run): seq<Run> {
    s[..Below(s, r.at)] + [r] + s[Below(s, r.at)..]
  }

  ghost predicate Touches(s: seq<Run>, r: Run) {
    exists i :: 0 <= i < |s| && (s[i].End() == r.at || r.End() == s[i].at)
  }

  /** First fit: the lowest block with room. */
  ghost predicate FirstFit(s: seq<Run>, n: int, k: int) {
    0 <= k < |s| && s[k].len >= n && forall i :: 0 <= i < k ==> s[i].len < n
  }

  ghost predicate FitsNowhere(s: seq<Run>, n: int) {
    forall i :: 0 <= i < |s| ==> s[i].len < n
  }

  /** Where first fit looks: the lowest block with room, or the end of the list. */
  function FitAt(s: seq<Run>, n: int): (k: nat)
    ensures k <= |s| && (k < |s| ==> FirstFit(s, n, k)) && (k == |s| <==> FitsNowhere(s, n))
  {
    if s == [] then 0
    else if s[0].len >= n then 0
    else
      var k := FitAt(s[1..], n);
      assert forall i :: 0 < i < |s| ==> s[i] == s[1..][i - 1];
      k + 1
  }

  /** The list and the property fields spell out the blocks. */
  ghost predicate Spells(list: seq<int>, property: map<int, int>, blocks: seq<Run>) {
    |list| == |blocks| && forall i :: 0 <= i < |blocks| ==> SpellsOne(list[i], property, blocks[i])
  }

  ghost predicate SpellsOne(page: int, property: map<int, int>, block: Run) {
    page == block.at && page in property && property[page] == block.len
  }

  class PageArea {
    var freeList: seq<int>
    var property: map<int, int>
    var heads: set<int>
    var nrFree: int
    ghost var blocks: seq<Run>

    ghost predicate Listed()
      reads this
    {
      Spells(freeList, property, blocks) && forall p :: p in heads <==> p in freeList
    }

    ghost predicate Valid()
      reads this
    {
      Listed() && Canonical(blocks) && nrFree == Total(blocks)
    }

    constructor ()
      ensures Valid() && blocks == []
    {
      freeList, property, heads, nrFree, blocks := [], map[], {}, 0, [];
    }

    /** Link a block in before the first one above it. */
    method ListAdd(base: int)
      requires Spells(freeList, property, blocks) && forall p :: p in heads <==> p in freeList || p == base
      requires Canonical(blocks) && base in property && Free(blocks, Run(base, property[base]))
      modifies this`freeList, this`blocks
      ensures Listed() && blocks == Insert(old(blocks), Run(base, property[base]))
    {
      var i := 0;
      while i < |freeList|
        invariant 0 <= i <= |freeList|
        invariant forall j :: 0 <= j < i ==> blocks[j].at < base
      {
        var p := freeList[i];
        assert SpellsOne(p, property, blocks[i]);
        assert base != p;
        if base < p {
          assert base + property[base] <= p;
          break;
        } else {
          assert p + property[p] <= base;
        }
        i := i + 1;
      }
      BelowIs(blocks, base, i);
      freeList := freeList[..i] + [base] + freeList[i..];
      blocks := Insert(blocks, Run(base, property[base]));
    }

    /** Blocks are only inserted here: nothing is merged. */
    method InitMemmap(base: int, n: int)
      requires Valid() && Free(blocks, Run(base, n))
      modifies this
      ensures Listed() && nrFree == Total(blocks)
      ensures blocks == Insert(old(blocks), Run(base, n))
    {
      NotListed(freeList, property, blocks, base, n);
      property := property[base := n];
      heads := heads + {base};
      nrFree := nrFree + n;
      InsertTotal(blocks, Run(base, n));
      ListAdd(base);
    }

    method AllocPages(n: int) returns (page: Option<int>)
      requires Valid() && n > 0
      modifies this
      ensures Valid()
      ensures var s := old(blocks);
        var k := FitAt(s, n);
        if k == |s| then page == None && blocks == s else page == Some(s[k].at) && blocks == Take(s, k, n)
    {
      if n > nrFree {
        forall i | 0 <= i < |blocks| ensures blocks[i].len < n { TotalBounds(blocks, i); }
        return None;
      }
      var i := 0;
      while i < |freeList|
        invariant 0 <= i <= |freeList|
        invariant forall j :: 0 <= j < i ==> blocks[j].len < n
      {
        assert SpellsOne(freeList[i], property, blocks[i]);
        if property[freeList[i]] >= n { break; }
        i := i + 1;
      }
      if i == |freeList| { return None; }
      assert FirstFit(blocks, n, i);
      assert SpellsOne(freeList[i], property, blocks[i]);
      page := Some(freeList[i]);
      Carve(i, n);
    }

    /** Take the first n pages of the i-th block; what is left stays at its place in the list. */
    method Carve(i: nat, n: int)
      requires Valid() && i < |blocks| && i < |freeList| && 0 < n <= blocks[i].len
      modifies this
      ensures Valid() && blocks == Take(old(blocks), i, n)
    {
      hide Canonical, Spells, Total, Without, Take;
      ghost var s := blocks;
      SpelledAt(freeList, property, s, i);
      TakeKeeps(s, i, n);
      TakeTotal(s, i, n);
      Unlink(freeList, property, s, i);
      var p := freeList[i];
      freeList := Without(freeList, i);
      if property[p] > n {
        Shrink(freeList, property, s, i, n);
        Relink(freeList, i, p + n);
        property := property[p + n := property[p] - n];
        heads := heads + {p + n};
        freeList := freeList[..i] + [p + n] + freeList[i..];
      } else {
        assert Take(s, i, n) == Without(s, i) by { TakeAll(s, i); }
      }
      heads := heads - {p};
      nrFree := nrFree - n;
      blocks := Take(s, i, n);
    }

    /** One pass merges both neighbours into the block, which then goes back in order. */
    method FreePages(page: int, n: int)
      requires Valid() && Free(blocks, Run(page, n))
      modifies this
      ensures Valid() && blocks == Add(old(blocks), Run(page, n))
    {
      hide Canonical, Free, Spells, Insert, Add, Below, Rest, Merged, Low, High, Place, Total;
      ghost var s, r := blocks, Run(page, n);
      NotListed(freeList, property, blocks, page, n);
      Before(s, r);
      var base := page;
      property := property[base := n];
      heads := heads + {base};
      var i := 0;
      ghost var seen := 0;
      while i < |freeList|
        invariant 0 <= seen <= |s| && i == Place(s, r, seen) <= |freeList| == |blocks|
        invariant blocks == Rest(s, r, seen) && Spells(freeList, property, blocks)
        invariant SpellsOne(base, property, Merged(s, r, seen)) && base !in freeList
        invariant forall p :: p in heads <==> p in freeList || p == base
        invariant |freeList| - i == |s| - seen && nrFree == old(nrFree)
        decreases |s| - seen
      {
        PassKeeps(s, r, seen);
        PassMerges(s, r, seen);
        PassMoves(s, r, seen);
        SpelledAt(freeList, property, blocks, i);
        Unlink(freeList, property, blocks, i);
        var p := freeList[i];
        if base + property[base] == p {
          SpellsApart(Without(freeList, i), property, Without(blocks, i), base, property[base] + property[p]);
          property := property[base := property[base] + property[p]];
          heads := heads - {p};
          freeList := Without(freeList, i);
          blocks := Without(blocks, i);
        } else if p + property[p] == base {
          SpellsApart(Without(freeList, i), property, Without(blocks, i), p, property[p] + property[base]);
          property := property[p := property[p] + property[base]];
          heads := heads - {base};
          base := p;
          freeList := Without(freeList, i);
          blocks := Without(blocks, i);
        } else {
          i := i + 1;
        }
        seen := seen + 1;
      }
      nrFree := nrFree + n;
      RestThenInsert(s, r);
      AddIsCanonical(s, r);
      AddTotal(s, r);
      ListAdd(base);
    }
  }

  // ---- The list under updates ----

  lemma SpelledAt(list: seq<int>, property: map<int, int>, blocks: seq<Run>, i: nat)
    requires Spells(list, property, blocks) && i < |list|
    ensures SpellsOne(list[i], property, blocks[i])
  {
  }

  lemma SpellsApart(list: seq<int>, property: map<int, int>, blocks: seq<Run>, page: int, n: int)
    requires Spells(list, property, blocks) && page !in list
    ensures Spells(list, property[page := n], blocks)
  {
    forall i | 0 <= i < |blocks| ensures SpellsOne(list[i], property[page := n], blocks[i]) {
      assert SpellsOne(list[i], property, blocks[i]);
    }
  }

  lemma NotListed(list: seq<int>, property: map<int, int>, blocks: seq<Run>, page: int, n: int)
    requires Spells(list, property, blocks) && Canonical(blocks) && Free(blocks, Run(page, n))
    ensures page !in list && Spells(list, property[page := n], blocks)
  {
    forall i | 0 <= i < |list| ensures list[i] != page { assert SpellsOne(list[i], property, blocks[i]); }
    SpellsApart(list, property, blocks, page, n);
  }

  lemma Unlink(list: seq<int>, property: map<int, int>, blocks: seq<Run>, i: nat)
    requires Spells(list, property, blocks) && Canonical(blocks) && i < |list|
    ensures Spells(Without(list, i), property, Without(blocks, i))
    ensures forall p :: p in Without(list, i) <==> p in list && p != list[i]
  {
    forall j | 0 <= j < |blocks| - 1 ensures SpellsOne(Without(list, i)[j], property, Without(blocks, i)[j]) {
      assert SpellsOne(list[if j < i then j else j + 1], property, blocks[if j < i then j else j + 1]);
    }
    forall j | 0 <= j < |list| && j != i ensures list[j] != list[i] {
      assert SpellsOne(list[i], property, blocks[i]) && SpellsOne(list[j], property, blocks[j]);
      assert j < i ==> blocks[j].End() < blocks[i].at;
      assert j > i ==> blocks[i].End() < blocks[j].at;
    }
    forall p | p in list && p != list[i] ensures p in Without(list, i) {
      var j :| 0 <= j < |list| && list[j] == p;
      assert p == Without(list, i)[if j < i then j else j - 1];
    }
  }

  lemma TakeAll(s: seq<Run>, i: nat)
    requires i < |s|
    ensures Take(s, i, s[i].len) == Without(s, i)
  {
  }

  lemma Relink(list: seq<int>, i: nat, page: int)
    requires i <= |list|
    ensures forall p :: p in list[..i] + [page] + list[i..] <==> p in list || p == page
  {
    assert list == list[..i] + list[i..];
  }

  lemma Shrink(list: seq<int>, property: map<int, int>, blocks: seq<Run>, i: nat, n: int)
    requires i < |blocks| && Canonical(blocks) && 0 < n < blocks[i].len && Spells(list, property, Without(blocks, i))
    ensures i <= |list|
    requires SpellsOne(blocks[i].at, property, blocks[i])
    ensures Spells(list[..i] + [blocks[i].at + n] + list[i..], property[blocks[i].at + n := blocks[i].len - n], Take(blocks, i, n))
  {
    var l, p, b := list[..i] + [blocks[i].at + n] + list[i..], property[blocks[i].at + n := blocks[i].len - n], Take(blocks, i, n);
    forall j | 0 <= j < |b| ensures SpellsOne(l[j], p, b[j]) {
      if j != i {
        var m := if j < i then j else j - 1;
        assert SpellsOne(list[m], property, Without(blocks, i)[m]);
        assert b[j] == blocks[j] == Without(blocks, i)[m] && l[j] == list[m];
        assert j < i ==> blocks[j].End() < blocks[i].at;
        assert j > i ==> blocks[i].End() < blocks[j].at;
      }
    }
  }

  // ---- The merging pass ----

  ghost predicate Low(s: seq<Run>, r: Run, seen: int) { seen >= Below(s, r.at) && JoinsLow(s, Below(s, r.at), r) }

  ghost predicate High(s: seq<Run>, r: Run, seen: int) { seen > Below(s, r.at) && JoinsHigh(s, Below(s, r.at), r) }

  /** The blocks left in the list once the pass has seen some of them. */
  ghost function Rest(s: seq<Run>, r: Run, seen: int): seq<Run> {
    var k := Below(s, r.at);
    s[..if Low(s, r, seen) then k - 1 else k] + s[if High(s, r, seen) then k + 1 else k..]
  }

  /** The block being freed, with what the pass has merged into it. */
  ghost function Merged(s: seq<Run>, r: Run, seen: int): Run {
    var k := Below(s, r.at);
    var lo := if Low(s, r, seen) then s[k - 1].len else 0;
    var hi := if High(s, r, seen) then s[k].len else 0;
    Run(r.at - lo, lo + r.len + hi)
  }

  ghost function Place(s: seq<Run>, r: Run, seen: int): int {
    seen - (if Low(s, r, seen) then 1 else 0) - (if High(s, r, seen) then 1 else 0)
  }

  lemma Before(s: seq<Run>, r: Run)
    requires Canonical(s)
    ensures Rest(s, r, 0) == s && Merged(s, r, 0) == r && Place(s, r, 0) == 0
  {
    var k := Below(s, r.at);
    assert s[..k] + s[k..] == s;
  }

  lemma PassMerges(s: seq<Run>, r: Run, seen: nat)
    requires Canonical(s) && Free(s, r) && seen < |s|
    ensures Merged(s, r, seen).End() == s[seen].at <==> High(s, r, seen + 1) && !High(s, r, seen)
    ensures s[seen].End() == Merged(s, r, seen).at <==> Low(s, r, seen + 1) && !Low(s, r, seen)
    ensures Low(s, r, seen + 1) && !Low(s, r, seen) ==>
      Merged(s, r, seen + 1) == Run(s[seen].at, s[seen].len + Merged(s, r, seen).len)
    ensures High(s, r, seen + 1) && !High(s, r, seen) ==>
      Merged(s, r, seen + 1) == Run(Merged(s, r, seen).at, Merged(s, r, seen).len + s[seen].len)
    ensures Low(s, r, seen + 1) == Low(s, r, seen) && High(s, r, seen + 1) == High(s, r, seen) ==>
      Merged(s, r, seen + 1) == Merged(s, r, seen)
    ensures (Low(s, r, seen) ==> Low(s, r, seen + 1)) && (High(s, r, seen) ==> High(s, r, seen + 1))
  {
    FreePlace(s, r);
    var k := Below(s, r.at);
    assert seen > k ==> s[k].End() < s[seen].at;
    assert seen + 1 < k ==> s[seen].End() < s[k - 1].at;
  }

  lemma PassMoves(s: seq<Run>, r: Run, seen: nat)
    requires seen < |s|
    ensures var i, rest, next := Place(s, r, seen), Rest(s, r, seen), Rest(s, r, seen + 1);
      && 0 <= i < |rest| && rest[i] == s[seen]
      && (if Low(s, r, seen + 1) == Low(s, r, seen) && High(s, r, seen + 1) == High(s, r, seen)
          then next == rest && Place(s, r, seen + 1) == i + 1
          else next == Without(rest, i) && Place(s, r, seen + 1) == i)
  {
    var k, i, rest, next := Below(s, r.at), Place(s, r, seen), Rest(s, r, seen), Rest(s, r, seen + 1);
    if Low(s, r, seen + 1) && !Low(s, r, seen) {
      assert rest == s;
      assert next == s[..k - 1] + s[k..];
    } else if High(s, r, seen + 1) && !High(s, r, seen) {
      var lo := if Low(s, r, seen) then k - 1 else k;
      assert rest == s[..lo] + s[k..];
      assert next == s[..lo] + s[k + 1..];
      assert Without(rest, lo) == next;
    }
  }

  lemma PassKeeps(s: seq<Run>, r: Run, seen: nat)
    requires Canonical(s)
    ensures Canonical(Rest(s, r, seen))
  {
    var k := Below(s, r.at);
    CutIsCanonical(s, if Low(s, r, seen) then k - 1 else k, if High(s, r, seen) then k + 1 else k);
  }

  lemma CutIsCanonical(s: seq<Run>, lo: nat, hi: nat)
    requires Canonical(s) && lo <= hi <= |s|
    ensures Canonical(s[..lo] + s[hi..])
  {
    var t := s[..lo] + s[hi..];
    forall i, j | 0 <= i < j < |t| ensures t[i].End() < t[j].at {
      assert s[if i < lo then i else i - lo + hi].End() < s[if j < lo then j else j - lo + hi].at;
    }
  }

  lemma CutThenInsert(s: seq<Run>, lo: nat, hi: nat, m: Run)
    requires Canonical(s) && lo <= hi <= |s| && m.len > 0
    requires forall i :: 0 <= i < lo ==> s[i].End() < m.at
    requires forall i :: hi <= i < |s| ==> m.End() < s[i].at
    ensures var t := s[..lo] + s[hi..];
      Free(t, m) && Insert(t, m) == s[..lo] + [m] + s[hi..]
  {
    var t := s[..lo] + s[hi..];
    forall i | 0 <= i < |t|
      ensures i < lo ==> t[i].at < m.at && t[i].End() < m.at
      ensures i >= lo ==> m.End() < t[i].at
    {
      assert t[i] == s[if i < lo then i else i - lo + hi];
    }
    hide Canonical;
    BelowIs(t, m.at, lo);
    assert t[..lo] == s[..lo] && t[lo..] == s[hi..];
  }

  lemma RestThenInsert(s: seq<Run>, r: Run)
    requires Canonical(s) && Free(s, r)
    ensures var m, t := Merged(s, r, |s|), Rest(s, r, |s|);
      Canonical(t) && Free(t, m) && Insert(t, m) == Add(s, r)
  {
    var k := Below(s, r.at);
    assert Low(s, r, |s|) == JoinsLow(s, k, r) && High(s, r, |s|) == JoinsHigh(s, k, r);
    assert Rest(s, r, |s|) == s[..Lo(s, k, r)] + s[Hi(s, k, r)..];
    assert Merged(s, r, |s|) == Joined(s, k, r);
    hide Canonical, Free, Below, Lo, Hi, JoinsLow, JoinsHigh, Joined, Rest, Merged, Insert, Low, High;
    JoinedApart(s, r);
    CutIsCanonical(s, Lo(s, k, r), Hi(s, k, r));
    CutThenInsert(s, Lo(s, k, r), Hi(s, k, r), Joined(s, k, r));
  }

  // ---- What the free list promises ----

  lemma InsertTotal(s: seq<Run>, r: Run)
    ensures Total(Insert(s, r)) == Total(s) + r.len
  {
    var k := Below(s, r.at);
    TotalSplit(s, k);
    TotalJoin(s[..k] + [r], s[k..]);
    TotalJoin(s[..k], [r]);
  }

  lemma TotalBounds(s: seq<Run>, i: nat)
    requires Canonical(s) && i < |s|
    ensures s[i].len <= Total(s)
  {
    TotalAt(s, i);
    TotalIsPositive(s[..i]);
    TotalIsPositive(s[i + 1..]);
  }

  lemma {:induction false} TotalIsPositive(s: seq<Run>)
    requires forall i :: 0 <= i < |s| ==> s[i].len > 0
    ensures Total(s) >= 0
  {
    if s != [] { TotalIsPositive(s[1..]); }
  }

  /** Registering memory keeps the list canonical exactly when it touches no free block. */
  lemma InsertIsCanonicalIff(s: seq<Run>, r: Run)
    requires Canonical(s) && Free(s, r)
    ensures Canonical(Insert(s, r)) <==> !Touches(s, r)
    ensures !Touches(s, r) ==> Insert(s, r) == Add(s, r)
  {
    FreePlace(s, r);
    var k := Below(s, r.at);
    if Touches(s, r) {
      var i :| 0 <= i < |s| && (s[i].End() == r.at || r.End() == s[i].at);
      TouchingIsNotCanonical(s, r, i);
    } else {
      assert 0 < k ==> s[k - 1].End() != r.at;
      assert k < |s| ==> r.End() != s[k].at;
      SpliceKeeps(s, k, k, r);
    }
  }

  lemma TouchingIsNotCanonical(s: seq<Run>, r: Run, i: nat)
    requires Canonical(s) && Free(s, r) && i < |s| && (s[i].End() == r.at || r.End() == s[i].at)
    ensures !Canonical(Insert(s, r))
  {
    FreePlace(s, r);
    var k, t := Below(s, r.at), Insert(s, r);
    assert t[k] == r && t[if i < k then i else i + 1] == s[i];
  }

  // ---- Runs of allocations and frees ----

  /** The list after several requests, and the blocks they were given. */
  function AllocAll(s: seq<Run>, ns: seq<int>): (seq<Run>, seq<Run>)
    decreases |ns|
  {
    if ns == [] then (s, [])
    else
      var k := FitAt(s, ns[0]);
      if k == |s| then AllocAll(s, ns[1..])
      else
        var (t, rs) := AllocAll(Take(s, k, ns[0]), ns[1..]);
        (t, [Run(s[k].at, ns[0])] + rs)
  }

  function FreeAll(s: seq<Run>, rs: seq<Run>): seq<Run>
    decreases |rs|
  {
    if rs == [] then s else FreeAll(Add(s, rs[0]), rs[1..])
  }

  lemma ApartTail(s: seq<Run>, rs: seq<Run>)
    requires Canonical(s) && Apart(s, rs) && rs != []
    ensures Canonical(Add(s, rs[0])) && Apart(Add(s, rs[0]), rs[1..])
  {
    AddIsCanonical(s, rs[0]);
    var t := rs[1..];
    forall i | 0 <= i < |t| ensures Free(Add(s, rs[0]), t[i]) {
      assert t[i] == rs[i + 1];
      StaysFree(s, rs[0], rs[i + 1]);
    }
    forall i, j | 0 <= i < j < |t| ensures t[i].End() <= t[j].at || t[j].End() <= t[i].at {
      assert t[i] == rs[i + 1] && t[j] == rs[j + 1];
    }
  }

  lemma {:induction false} FreeAllCovers(s: seq<Run>, rs: seq<Run>, x: int)
    requires Canonical(s) && Apart(s, rs)
    ensures Canonical(FreeAll(s, rs))
    ensures In(FreeAll(s, rs), x) <==> In(s, x) || In(rs, x)
    decreases |rs|
  {
    hide Canonical, Apart, Add, Free, In;
    if rs == [] {
      NothingIn(x);
    } else {
      assert Free(s, rs[0]) by { FirstApart(s, rs); }
      ApartTail(s, rs);
      AddCovers(s, rs[0], x);
      DropFirst(rs, 0, x);
      assert rs[0..] == rs;
      FreeAllCovers(Add(s, rs[0]), rs[1..], x);
    }
  }

  lemma FirstApart(s: seq<Run>, rs: seq<Run>)
    requires Apart(s, rs) && rs != []
    ensures Free(s, rs[0])
  {
  }

  lemma NothingIn(x: int)
    ensures !In([], x)
  {
  }

  lemma ApartAnyOrder(s: seq<Run>, rs: seq<Run>, qs: seq<Run>)
    requires Apart(s, rs) && multiset(qs) == multiset(rs)
    ensures Apart(s, qs)
  {
    forall i | 0 <= i < |qs| ensures Free(s, qs[i]) {
      assert qs[i] in multiset(qs);
      assert qs[i] in rs;
    }
    forall i, j | 0 <= i < j < |qs| ensures qs[i].End() <= qs[j].at || qs[j].End() <= qs[i].at {
      if qs[i] == qs[j] {
        Twice(qs, i, j);
        TwiceAt(rs, qs[i]);
      } else {
        assert qs[i] in multiset(rs) && qs[j] in multiset(rs);
      }
    }
  }

  lemma Twice<T>(s: seq<T>, i: nat, j: nat)
    requires i < j < |s| && s[i] == s[j]
    ensures multiset(s)[s[i]] >= 2
  {
    assert s == s[..j] + [s[j]] + s[j + 1..];
    assert s[i] == s[..j][i];
    assert s[i] in multiset(s[..j]);
  }

  lemma {:induction false} TwiceAt(rs: seq<Run>, r: Run)
    requires multiset(rs)[r] >= 2
    ensures exists i, j :: 0 <= i < j < |rs| && rs[i] == r == rs[j]
    decreases |rs|
  {
    if rs != [] {
      assert rs == [rs[0]] + rs[1..];
      if rs[0] == r {
        assert r in multiset(rs[1..]);
        var j :| 0 <= j < |rs| - 1 && rs[1..][j] == r;
        assert rs[0] == r == rs[j + 1];
      } else {
        TwiceAt(rs[1..], r);
        var i, j :| 0 <= i < j < |rs| - 1 && rs[1..][i] == r == rs[1..][j];
        assert rs[i + 1] == r == rs[j + 1];
      }
    }
  }

  lemma InAnyOrder(rs: seq<Run>, qs: seq<Run>, x: int)
    requires multiset(qs) == multiset(rs)
    ensures In(qs, x) ==> In(rs, x)
  {
    if In(qs, x) {
      var i :| 0 <= i < |qs| && qs[i].at <= x < qs[i].End();
      assert qs[i] in multiset(rs);
    }
  }

  /** Blocks freed in any order leave the same list. */
  lemma FreesInAnyOrder(s: seq<Run>, rs: seq<Run>, qs: seq<Run>)
    requires Canonical(s) && Apart(s, rs) && multiset(qs) == multiset(rs)
    ensures FreeAll(s, rs) == FreeAll(s, qs)
  {
    ApartAnyOrder(s, rs, qs);
    forall x ensures In(FreeAll(s, rs), x) <==> In(FreeAll(s, qs), x) {
      FreeAllCovers(s, rs, x);
      FreeAllCovers(s, qs, x);
      InAnyOrder(rs, qs, x);
      InAnyOrder(qs, rs, x);
    }
    FreeAllCovers(s, rs, 0);
    FreeAllCovers(s, qs, 0);
    CanonicalIsUnique(FreeAll(s, rs), FreeAll(s, qs));
  }

  lemma {:induction false} AllocAllCovers(s: seq<Run>, ns: seq<int>, x: int)
    requires Canonical(s) && forall i :: 0 <= i < |ns| ==> ns[i] > 0
    ensures var (t, rs) := AllocAll(s, ns);
      Canonical(t) && (In(s, x) <==> In(t, x) || In(rs, x)) && !(In(t, x) && In(rs, x))
    decreases |ns|
  {
    if ns == [] {
    } else {
      var k := FitAt(s, ns[0]);
      if k == |s| {
        AllocAllCovers(s, ns[1..], x);
      } else {
        TakeKeeps(s, k, ns[0]);
        TakeCovers(s, k, ns[0], x);
        AllocAllCovers(Take(s, k, ns[0]), ns[1..], x);
        var (t, rs) := AllocAll(Take(s, k, ns[0]), ns[1..]);
        InJoin([Run(s[k].at, ns[0])], rs, x);
        OneIn(Run(s[k].at, ns[0]), x);
        CoveredAt(s, k, x);
      }
    }
  }

  lemma {:induction false} AllocAllApart(s: seq<Run>, ns: seq<int>)
    requires Canonical(s) && forall i :: 0 <= i < |ns| ==> ns[i] > 0
    ensures Apart(AllocAll(s, ns).0, AllocAll(s, ns).1)
    decreases |ns|
  {
    if ns == [] {
    } else {
      var k := FitAt(s, ns[0]);
      if k == |s| {
        AllocAllApart(s, ns[1..]);
      } else {
        var r, u := Run(s[k].at, ns[0]), Take(s, k, ns[0]);
        TakeKeeps(s, k, ns[0]);
        AllocAllApart(u, ns[1..]);
        var (t, rs) := AllocAll(u, ns[1..]);
        AllocAllCovers(u, ns[1..], 0);
        forall x | r.at <= x < r.End() ensures !In(t, x) && !In(rs, x) {
          TakeCovers(s, k, ns[0], x);
          AllocAllCovers(u, ns[1..], x);
        }
        FreeIsUncovered(t, r);
        forall i | 0 <= i < |rs| ensures r.End() <= rs[i].at || rs[i].End() <= r.at {
          UncoveredIsApart(rs, r, i, t);
        }
        ApartMore(t, r, rs);
      }
    }
  }

  /** After any requests, freeing what they were given, in any order, restores the list. */
  lemma FreesUndoAllocs(s: seq<Run>, ns: seq<int>, qs: seq<Run>)
    requires Canonical(s) && forall i :: 0 <= i < |ns| ==> ns[i] > 0
    requires multiset(qs) == multiset(AllocAll(s, ns).1)
    ensures FreeAll(AllocAll(s, ns).0, qs) == s
  {
    var (t, rs) := AllocAll(s, ns);
    AllocAllApart(s, ns);
    AllocAllCovers(s, ns, 0);
    FreesInAnyOrder(t, rs, qs);
    forall x ensures In(FreeAll(t, rs), x) <==> In(s, x) {
      AllocAllCovers(s, ns, x);
      FreeAllCovers(t, rs, x);
    }
    FreeAllCovers(t, rs, 0);
    CanonicalIsUnique(FreeAll(t, rs), s);
  }
}
