/** The file-system image builder, and the kernel's reading of the images it writes. */
module ImageBuilder {
  import opened Bitmap

  const NDIRECT := 12
  const NENTRY := 1024
  const L1_NBLKS := NENTRY + NDIRECT
  const LN_NBLKS := 32768
  const BLKBITS := 32768
  const BLKN_ROOT := 1
  const BLKN_FREEMAP := 2

  /** The block numbers in an inode; zero stands for no block. */
  datatype Inode = Inode(direct: seq<int>, indirect: int, dbIndirect: int)

  /** A file being built: how many blocks it has, and the index blocks last used (zero for none). */
  datatype CacheInode = CacheInode(nblks: int, inode: Inode, l1: int, l2: int)

  /** What a block was allocated for: every block has one purpose. */
  datatype Role = IsInode | IsData(file: int, index: int) | IsIndex(file: int, which: int)

  const WHOLE := 0
  const ROOT := 1

  /** The i-th block of a file, or zero past its end. */
  function At(c: seq<int>, i: int): int { if 0 <= i < |c| then c[i] else 0 }

  /** How many index blocks a file of l blocks gains with its next block. */
  function NewIndexes(l: int): int {
    (if l == NDIRECT || l == L1_NBLKS then 1 else 0)
    + (if l >= L1_NBLKS && (l - L1_NBLKS) % NENTRY == 0 then 1 else 0)
  }

  // ---- One file ----

  /** An index block holding the entries from base on. */
  ghost predicate Leaf(blocks: map<int, seq<int>>, role: map<int, Role>, f: int, which: int, b: int, c: seq<int>, base: int) {
    && b != 0 && b in blocks && b in role && role[b] == IsIndex(f, which)
    && |blocks[b]| == NENTRY && forall k :: 0 <= k < NENTRY ==> blocks[b][k] == At(c, base + k)
  }

  function Base(g: int): int { L1_NBLKS + NENTRY * g }

  ghost predicate Branch(blocks: map<int, seq<int>>, role: map<int, Role>, f: int, root: seq<int>, c: seq<int>, g: int)
    requires 0 <= g < |root|
  {
    if Base(g) < |c| then Leaf(blocks, role, f, 2 + g, root[g], c, Base(g)) else root[g] == 0
  }

  ghost predicate Root(blocks: map<int, seq<int>>, role: map<int, Role>, f: int, b: int, c: seq<int>) {
    && b != 0 && b in blocks && b in role && role[b] == IsIndex(f, ROOT) && |blocks[b]| == NENTRY
    && forall g :: 0 <= g < NENTRY ==> Branch(blocks, role, f, blocks[b], c, g)
  }

  ghost predicate DirectOk(ci: CacheInode, c: seq<int>) {
    && ci.nblks == |c| <= LN_NBLKS && |ci.inode.direct| == NDIRECT
    && forall k :: 0 <= k < NDIRECT ==> ci.inode.direct[k] == At(c, k)
  }

  ghost predicate SingleOk(blocks: map<int, seq<int>>, role: map<int, Role>, f: int, ci: CacheInode, c: seq<int>) {
    if |c| <= NDIRECT then ci.inode.indirect == 0 && ci.l1 == 0
    else Leaf(blocks, role, f, WHOLE, ci.inode.indirect, c, NDIRECT)
  }

  ghost predicate DoubleOk(blocks: map<int, seq<int>>, role: map<int, Role>, f: int, ci: CacheInode, c: seq<int>) {
    if |c| <= L1_NBLKS then ci.inode.dbIndirect == 0 && (|c| > NDIRECT ==> ci.l1 == ci.inode.indirect)
    else
      && Root(blocks, role, f, ci.inode.dbIndirect, c) && ci.l2 == ci.inode.dbIndirect
      && 0 <= (|c| - 1 - L1_NBLKS) / NENTRY < NENTRY
      && ci.l1 == blocks[ci.inode.dbIndirect][(|c| - 1 - L1_NBLKS) / NENTRY]
  }

  ghost predicate DataOk(role: map<int, Role>, f: int, c: seq<int>) {
    forall i :: 0 <= i < |c| ==> c[i] in role && role[c[i]] == IsData(f, i)
  }

  ghost predicate FileOk(blocks: map<int, seq<int>>, role: map<int, Role>, f: int, ci: CacheInode, c: seq<int>) {
    && DirectOk(ci, c) && SingleOk(blocks, role, f, ci, c) && DoubleOk(blocks, role, f, ci, c) && DataOk(role, f, c)
  }

  ghost predicate AllOk(blocks: map<int, seq<int>>, role: map<int, Role>, files: map<int, CacheInode>, content: map<int, seq<int>>) {
    forall f :: f in files ==> f in content && FileOk(blocks, role, f, files[f], content[f])
  }

  /** Index blocks of one file are untouched. */
  ghost predicate Untouched(blocks: map<int, seq<int>>, after: map<int, seq<int>>, role: map<int, Role>, f: int) {
    forall b :: b in blocks && b in role && role[b].IsIndex? && role[b].file == f ==> b in after && after[b] == blocks[b]
  }

  ghost predicate Extends(role: map<int, Role>, after: map<int, Role>) {
    forall b :: b in role ==> b in after && after[b] == role[b]
  }

  lemma LeafStays(blocks: map<int, seq<int>>, role: map<int, Role>, after: map<int, seq<int>>, later: map<int, Role>,
                  f: int, which: int, b: int, c: seq<int>, base: int)
    requires Leaf(blocks, role, f, which, b, c, base) && Extends(role, later) && b in after && after[b] == blocks[b]
    ensures Leaf(after, later, f, which, b, c, base)
  {
  }

  /** Work on one file leaves the others as they were. */
  lemma FileStays(blocks: map<int, seq<int>>, role: map<int, Role>, after: map<int, seq<int>>, later: map<int, Role>,
                  f: int, ci: CacheInode, c: seq<int>)
    requires FileOk(blocks, role, f, ci, c) && Untouched(blocks, after, role, f) && Extends(role, later)
    ensures FileOk(after, later, f, ci, c)
  {
    forall i | 0 <= i < |c| ensures c[i] in later && later[c[i]] == IsData(f, i) { var b := c[i]; assert b in role; }
    if |c| > NDIRECT { LeafStays(blocks, role, after, later, f, WHOLE, ci.inode.indirect, c, NDIRECT); }
    if |c| > L1_NBLKS {
      var b := ci.inode.dbIndirect;
      forall g | 0 <= g < NENTRY ensures Branch(after, later, f, after[b], c, g) {
        assert Branch(blocks, role, f, blocks[b], c, g);
        if Base(g) < |c| { LeafStays(blocks, role, after, later, f, 2 + g, blocks[b][g], c, Base(g)); }
      }
    }
  }

  /** Giving out a block changes no file. */
  lemma MoreRoles(blocks: map<int, seq<int>>, role: map<int, Role>, later: map<int, Role>, files: map<int, CacheInode>,
                  content: map<int, seq<int>>)
    requires AllOk(blocks, role, files, content) && Extends(role, later)
    ensures AllOk(blocks, later, files, content)
  {
    hide FileOk;
    forall f | f in files ensures FileOk(blocks, later, f, files[f], content[f]) {
      FileStays(blocks, role, blocks, later, f, files[f], content[f]);
    }
  }

  lemma OneMoreFile(blocks: map<int, seq<int>>, role: map<int, Role>, files: map<int, CacheInode>, content: map<int, seq<int>>, f: int)
    requires AllOk(blocks, role, files, content) && f !in files
    ensures AllOk(blocks, role, files[f := EmptyFile()], content[f := []])
  {
    EmptyIsOk(blocks, role, f);
    hide FileOk;
  }

  /** One file has grown, on index blocks that are its own. */
  lemma OneGrew(blocks: map<int, seq<int>>, role: map<int, Role>, after: map<int, seq<int>>, later: map<int, Role>,
                files: map<int, CacheInode>, content: map<int, seq<int>>, f: int, ci: CacheInode, c: seq<int>)
    requires AllOk(blocks, role, files, content) && Extends(role, later) && OnlyFile(blocks, after, role, f)
    requires FileOk(after, later, f, ci, c)
    ensures AllOk(after, later, files[f := ci], content[f := c])
  {
    hide FileOk;
    forall g | g in files && g != f ensures FileOk(after, later, g, files[g], content[g]) {
      FileStays(blocks, role, after, later, g, files[g], content[g]);
    }
  }

  // ---- Appending ----

  lemma LeafGrows(blocks: map<int, seq<int>>, role: map<int, Role>, f: int, which: int, b: int, c: seq<int>, base: int, x: int)
    requires Leaf(blocks, role, f, which, b, c, base) && 0 <= base <= |c| < base + NENTRY
    ensures Leaf(blocks[b := blocks[b][|c| - base := x]], role, f, which, b, c + [x], base)
  {
  }

  /** A leaf that is full keeps its entries while another block is written. */
  lemma LeafFull(blocks: map<int, seq<int>>, role: map<int, Role>, after: map<int, seq<int>>, later: map<int, Role>,
                 f: int, which: int, b: int, c: seq<int>, base: int, x: int)
    requires Leaf(blocks, role, f, which, b, c, base) && 0 <= base && base + NENTRY <= |c|
    requires Extends(role, later) && b in after && after[b] == blocks[b]
    ensures Leaf(after, later, f, which, b, c + [x], base)
  {
  }

  lemma ZeroLeaf(blocks: map<int, seq<int>>, role: map<int, Role>, f: int, which: int, b: int, c: seq<int>, base: int)
    requires b != 0 && b in blocks && b in role && role[b] == IsIndex(f, which) && blocks[b] == seq(NENTRY, _ => 0) && |c| <= base
    ensures Leaf(blocks, role, f, which, b, c, base)
  {
  }

  lemma ZeroRoot(blocks: map<int, seq<int>>, role: map<int, Role>, f: int, b: int, c: seq<int>)
    requires b != 0 && b in blocks && b in role && role[b] == IsIndex(f, ROOT) && blocks[b] == seq(NENTRY, _ => 0) && |c| <= L1_NBLKS
    ensures Root(blocks, role, f, b, c)
  {
  }

  /** One more entry in the last leaf, which the root may have gained just now. */
  lemma RootGrows(blocks: map<int, seq<int>>, role: map<int, Role>, after: map<int, seq<int>>, later: map<int, Role>,
                  f: int, b: int, c: seq<int>, g: nat, leaf: int, x: int)
    requires Root(blocks, role, f, b, c) && g < NENTRY && Base(g) <= |c| < Base(g + 1)
    requires Extends(role, later) && b in after && after[b] == blocks[b][g := leaf]
    requires Leaf(after, later, f, 2 + g, leaf, c + [x], Base(g))
    requires forall d :: d in blocks && d != b && d != leaf ==> d in after && after[d] == blocks[d]
    ensures Root(after, later, f, b, c + [x])
  {
    forall h | 0 <= h < NENTRY ensures Branch(after, later, f, after[b], c + [x], h) {
      assert Branch(blocks, role, f, blocks[b], c, h);
      if h < g {
        assert Base(h) + NENTRY <= Base(g);
        LeafFull(blocks, role, after, later, f, 2 + h, blocks[b][h], c, Base(h), x);
      }
    }
  }

  lemma DataGrows(role: map<int, Role>, later: map<int, Role>, f: int, c: seq<int>, x: int)
    requires DataOk(role, f, c) && Extends(role, later) && x in later && later[x] == IsData(f, |c|)
    ensures DataOk(later, f, c + [x])
  {
    forall i | 0 <= i < |c| ensures c[i] in later && later[c[i]] == IsData(f, i) { var b := c[i]; assert b in role; }
  }

  class Builder {
    const ninos: int
    const first: int
    var nextIno: int
    var unusedBlocks: int
    var files: map<int, CacheInode>
    var blocks: map<int, seq<int>>
    ghost var content: map<int, seq<int>>
    ghost var role: map<int, Role>

    /** Blocks from the first to the next are given out, each for one purpose; the rest are unused. */
    ghost predicate Allocated()
      reads this
    {
      && BLKN_ROOT < first <= nextIno <= ninos && unusedBlocks == ninos - nextIno
      && (forall b :: b in role ==> first <= b < nextIno)
      && (forall b :: b in blocks ==> b in role && role[b].IsIndex?)
    }

    ghost predicate Valid()
      reads this
    {
      && Allocated() && files.Keys == content.Keys
      && (forall f :: f in files ==> f == BLKN_ROOT || (f in role && role[f].IsInode?))
      && AllOk(blocks, role, files, content)
    }

    constructor (n: int)
      requires BLKN_FREEMAP + (n + BLKBITS - 1) / BLKBITS < n
      ensures Valid() && ninos == n && content == map[BLKN_ROOT := []] && nextIno == first
      ensures first == BLKN_FREEMAP + (n + BLKBITS - 1) / BLKBITS
    {
      ninos, first := n, BLKN_FREEMAP + (n + BLKBITS - 1) / BLKBITS;
      nextIno := BLKN_FREEMAP + (n + BLKBITS - 1) / BLKBITS;
      unusedBlocks := n - (BLKN_FREEMAP + (n + BLKBITS - 1) / BLKBITS);
      files, blocks := map[BLKN_ROOT := EmptyFile()], map[];
      content, role := map[BLKN_ROOT := []], map[];
      new;
      EmptyIsOk(blocks, role, BLKN_ROOT);
    }

    method AllocIno(ghost r: Role) returns (ino: Option<int>)
      requires Allocated()
      modifies this`nextIno, this`unusedBlocks, this`role
      ensures Allocated() && Extends(old(role), role)
      ensures ino == None <==> old(nextIno) == ninos
      ensures ino.Some? ==> ino.value == old(nextIno) && ino.value > 0 && ino.value !in old(role) && role == old(role)[ino.value := r]
      ensures ino == None ==> role == old(role) && nextIno == ninos
      ensures ino.Some? ==> nextIno == old(nextIno) + 1
    {
      if nextIno < ninos {
        unusedBlocks := unusedBlocks - 1;
        ino := Some(nextIno);
        role := role[nextIno := r];
        nextIno := nextIno + 1;
      } else {
        ino := None;
      }
    }

    /**
     * Make sure an index block is at hand: a new empty one for a zero entry, or the one last used. The
     * look-up of any other block, which would search the wrong bucket of the cache, is never needed.
     */
    method UpdateCache(cb: int, ino: int, ghost f: int, ghost which: int) returns (b: Option<int>)
      requires Allocated() && (ino != 0 ==> cb == ino && ino in blocks)
      modifies this`nextIno, this`unusedBlocks, this`role, this`blocks
      ensures Allocated() && Extends(old(role), role)
      ensures ino != 0 ==> b == Some(ino) && blocks == old(blocks) && role == old(role) && nextIno == old(nextIno)
      ensures b == None ==> nextIno == ninos && blocks == old(blocks) && role == old(role)
      ensures b == None ==> ino == 0 && old(nextIno) == ninos
      ensures ino == 0 && b.Some? ==> nextIno == old(nextIno) + 1
      ensures ino == 0 && b.Some? ==>
        && b.value != 0 && b.value !in old(role) && b.value !in old(blocks)
        && role == old(role)[b.value := IsIndex(f, which)] && blocks == old(blocks)[b.value := seq(NENTRY, _ => 0)]
    {
      if ino == 0 {
        b := AllocIno(IsIndex(f, which));
        if b.Some? { blocks := blocks[b.value := seq(NENTRY, _ => 0)]; }
      } else {
        assert cb == ino;
        b := Some(ino);
      }
    }

    /** A new file has an inode and no blocks. */
    method NewFile() returns (f: Option<int>)
      requires Valid()
      modifies this
      ensures f == None ==> old(nextIno) == ninos
      ensures f.Some? ==> nextIno == old(nextIno) + 1
      ensures f.Some? ==> Valid() && f.value !in old(files) && content == old(content)[f.value := []]
      ensures Extends(old(role), role)
    {
      f := AllocIno(IsInode);
      if f.Some? {
        hide FileOk, AllOk;
        MoreRoles(blocks, old(role), role, files, content);
        OneMoreFile(blocks, role, files, content, f.value);
        files := files[f.value := EmptyFile()];
        content := content[f.value := []];
      }
    }

    /** Allocate the next block of a file. */
    method NewBlock(f: int) returns (ino: Option<int>)
      requires Valid() && f in files
      modifies this`nextIno, this`unusedBlocks, this`role
      ensures ino == None ==> old(nextIno) == ninos
      ensures ino.Some? ==> nextIno == old(nextIno) + 1
      ensures ino.Some? ==> Valid() && ino.value !in old(role) && role == old(role)[ino.value := IsData(f, |content[f]|)]
    {
      ino := AllocIno(IsData(f, |content[f]|));
      hide FileOk, AllOk;
      if ino.Some? { MoreRoles(blocks, old(role), role, files, content); }
    }

    /** Record a block of a file: in the inode, in its index block, or in an index block of index blocks. */
    method AppendBlock(f: int, ino: int) returns (r: Outcome)
      requires Valid() && f in files && ino in role && role[ino] == IsData(f, |content[f]|)
      modifies this
      ensures r == TooBig <==> |old(content)[f]| >= LN_NBLKS
      ensures r == NoSpace ==> old(nextIno) + NewIndexes(|old(content)[f]|) > ninos
      ensures r == Appended ==> Valid() && content == old(content)[f := old(content)[f] + [ino]]
      ensures r == Appended ==> Extends(old(role), role) && nextIno == old(nextIno) + NewIndexes(|old(content)[f]|)
    {
      hide FileOk;
      ghost var c := content[f];
      var file := files[f];
      NblksIsLength(blocks, role, f, file, c);
      if file.nblks >= LN_NBLKS { return TooBig; }
      var grown := None;
      if file.nblks < NDIRECT {
        DirectGrows(blocks, role, f, file, c, ino);
        grown := Some(file.(nblks := file.nblks + 1, inode := file.inode.(direct := file.inode.direct[file.nblks := ino])));
      } else if file.nblks < L1_NBLKS {
        grown := AppendSingle(f, file, ino);
      } else {
        grown := AppendDouble(f, file, ino);
      }
      if grown == None { return NoSpace; }
      OneGrew(old(blocks), old(role), blocks, role, files, content, f, grown.value, c + [ino]);
      hide AllOk;
      files := files[f := grown.value];
      content := content[f := c + [ino]];
      r := Appended;
    }

    method AppendSingle(f: int, file: CacheInode, ino: int) returns (grown: Option<CacheInode>)
      requires Allocated() && f in content && FileOk(blocks, role, f, file, content[f])
      requires NDIRECT <= |content[f]| < L1_NBLKS && ino in role && role[ino] == IsData(f, |content[f]|)
      modifies this`nextIno, this`unusedBlocks, this`role, this`blocks
      ensures Allocated() && Extends(old(role), role) && OnlyFile(old(blocks), blocks, old(role), f)
      ensures grown == None ==> old(nextIno) + NewIndexes(|content[f]|) > ninos
      ensures grown.Some? ==> nextIno == old(nextIno) + NewIndexes(|content[f]|) && FileOk(blocks, role, f, grown.value, content[f] + [ino])
    {
      ghost var c := content[f];
      SingleIsAtHand(blocks, role, f, file, c);
      hide DoubleOk, DirectOk, DataOk;
      var l1 := UpdateCache(file.l1, file.inode.indirect, f, WHOLE);
      if l1 == None { return None; }
      var b := l1.value;
      ghost var mid := blocks;
      if file.inode.indirect == 0 { ZeroLeaf(blocks, role, f, WHOLE, b, c, NDIRECT); }
      LeafGrows(blocks, role, f, WHOLE, b, c, NDIRECT, ino);
      blocks := blocks[b := blocks[b][file.nblks - NDIRECT := ino]];
      grown := Some(file.(nblks := file.nblks + 1, inode := file.inode.(indirect := b), l1 := b));
      SingleGrown(old(role), role, blocks, f, file, c, ino, b);
    }

    method AppendDouble(f: int, file: CacheInode, ino: int) returns (grown: Option<CacheInode>)
      requires Allocated() && f in content && FileOk(blocks, role, f, file, content[f])
      requires L1_NBLKS <= |content[f]| < LN_NBLKS && ino in role && role[ino] == IsData(f, |content[f]|)
      modifies this`nextIno, this`unusedBlocks, this`role, this`blocks
      ensures Allocated() && Extends(old(role), role) && OnlyFile(old(blocks), blocks, old(role), f)
      ensures grown == None ==> old(nextIno) + NewIndexes(|content[f]|) > ninos
      ensures grown.Some? ==> nextIno == old(nextIno) + NewIndexes(|content[f]|) && FileOk(blocks, role, f, grown.value, content[f] + [ino])
    {
      ghost var c := content[f];
      ghost var role0, blocks0 := role, blocks;
      DoubleIsAtHand(blocks, role, f, file, c);
      hide FileOk, Root, Leaf, Extends, OnlyMade, OnlyFile;
      var n := file.nblks - L1_NBLKS;
      var g := n / NENTRY;
      var l2 := RootBlock(f, file);
      if l2 == None { return None; }
      var db := l2.value;
      ghost var role1, blocks1 := role, blocks;
      var l1 := LeafBlock(f, file, db, g);
      if l1 == None { return None; }
      var leaf := l1.value;
      ghost var blocks2 := blocks[db := blocks[db][g := leaf]];
      StoreEntry(db, g, leaf, n % NENTRY, ino);
      grown := Some(file.(nblks := file.nblks + 1, inode := file.inode.(dbIndirect := db), l1 := leaf, l2 := db));
      DoubleGrown(blocks0, role0, blocks1, role1, blocks2, role, f, file, c, g, db, leaf, ino);
      OnlyTwo(blocks0, role0, blocks1, role1, blocks, f, g, db, leaf);
      ExtendsTwice(role0, role1, role);
    }

    /** The double indirect block, new with the first block that needs it. */
    method RootBlock(f: int, file: CacheInode) returns (b: Option<int>)
      requires Allocated() && f in content && FileOk(blocks, role, f, file, content[f]) && L1_NBLKS <= |content[f]| < LN_NBLKS
      modifies this`nextIno, this`unusedBlocks, this`role, this`blocks
      ensures Allocated() && Extends(old(role), role)
      ensures b == None ==> |content[f]| == L1_NBLKS && old(nextIno) == ninos && OnlyFile(old(blocks), blocks, old(role), f)
      ensures b.Some? ==> nextIno == old(nextIno) + if |content[f]| == L1_NBLKS then 1 else 0
      ensures b.Some? ==> RootReady(old(blocks), old(role), blocks, role, f, file, content[f], b.value)
    {
      DoubleIsAtHand(blocks, role, f, file, content[f]);
      hide FileOk, Root, RootReady;
      b := UpdateCache(file.l2, file.inode.dbIndirect, f, ROOT);
      if b.Some? { RootAtHand(old(blocks), old(role), blocks, role, f, file, content[f], b.value); }
    }

    /** The index block under it, new with each block that begins one. */
    method LeafBlock(f: int, file: CacheInode, db: int, g: nat) returns (b: Option<int>)
      requires Allocated() && f in content && L1_NBLKS <= |content[f]| < LN_NBLKS && g == (|content[f]| - L1_NBLKS) / NENTRY
      requires Root(blocks, role, f, db, content[f])
      requires |content[f]| > L1_NBLKS ==>
        && 0 <= (|content[f]| - 1 - L1_NBLKS) / NENTRY < NENTRY
        && file.l1 == blocks[db][(|content[f]| - 1 - L1_NBLKS) / NENTRY]
      modifies this`nextIno, this`unusedBlocks, this`role, this`blocks
      ensures Allocated() && Extends(old(role), role) && g < NENTRY && Base(g) <= |content[f]| < Base(g + 1)
      ensures (|content[f]| - L1_NBLKS) % NENTRY == |content[f]| - Base(g)
      ensures b == None ==> |content[f]| == Base(g) && old(nextIno) == ninos && blocks == old(blocks) && role == old(role)
      ensures b.Some? ==> nextIno == old(nextIno) + if |content[f]| == Base(g) then 1 else 0
      ensures b.Some? ==> db in blocks && |blocks[db]| == NENTRY && b.value in blocks
      ensures b.Some? ==>
        LeafReady(old(blocks), old(role), blocks[db := blocks[db][g := b.value]], role, f, db, content[f], g, b.value)
    {
      LeafIsAtHand(blocks, role, f, file, db, content[f], g);
      hide Leaf, LeafReady;
      b := UpdateCache(file.l1, blocks[db][g], f, 2 + g);
      if b.Some? {
        LeafAtHand(old(blocks), old(role), blocks[db := blocks[db][g := b.value]], role, f, db, content[f], g, b.value);
      }
    }

    /** Put the leaf in the root, and the block in the leaf. */
    method StoreEntry(db: int, g: nat, leaf: int, k: nat, ino: int)
      requires Allocated() && db in blocks && leaf in blocks && db != leaf && g < |blocks[db]| && k < |blocks[leaf]|
      modifies this`blocks
      ensures Allocated()
      ensures blocks == (var m := old(blocks)[db := old(blocks)[db][g := leaf]]; m[leaf := m[leaf][k := ino]])
    {
      blocks := blocks[db := blocks[db][g := leaf]];
      blocks := blocks[leaf := blocks[leaf][k := ino]];
    }
  }

  function EmptyFile(): CacheInode { CacheInode(0, Inode(seq(NDIRECT, _ => 0), 0, 0), 0, 0) }

  lemma EmptyIsOk(blocks: map<int, seq<int>>, role: map<int, Role>, f: int)
    ensures FileOk(blocks, role, f, EmptyFile(), [])
  {
  }

  /** One block of the free map: the bits from the next block to give out on are set. */
  method WriteBits(i: nat, ninos: int, nextIno: int) returns (words: seq<bv32>)
    requires 0 < nextIno <= ninos && i < ninos
    ensures |words| == NENTRY
    ensures forall y :: 0 <= y < BLKBITS ==> (BitAt(words, y) <==> nextIno <= i + y < ninos)
  {
    hide BitAt, Mask, Or;
    var data := new bv32[NENTRY](_ => 0);
    forall y: nat ensures !BitAt(data[..], y) { NoBits(data[..], y); }
    if i + BLKBITS > nextIno {
      var start, end := 0, BLKBITS;
      if i < nextIno { start := nextIno - i; }
      if i + BLKBITS > ninos { end := ninos - i; }
      var j := start;
      while j < end
        invariant start <= j && (j <= end || j == start)
        invariant forall y :: 0 <= y < BLKBITS ==> (BitAt(data[..], y) <==> start <= y < j)
      {
        ghost var before := data[..];
        data[j / BITS] := Or(data[j / BITS], Mask(j % BITS));
        assert data[..] == before[j / BITS := Or(before[j / BITS], Mask(j % BITS))];
        forall y | 0 <= y < BLKBITS ensures BitAt(data[..], y) <==> start <= y < j + 1 {
          SetBitAt(before, j, y);
        }
        j := j + 1;
      }
    }
    words := data[..];
  }

  lemma NoBits(words: seq<bv32>, y: nat)
    requires forall k :: 0 <= k < |words| ==> words[k] == 0
    ensures !BitAt(words, y)
  {
    hide Mask;
    if y / BITS < |words| { ZeroHasNoBit(words[y / BITS]); }
  }

  // ---- No block is used twice ----

  /** Everything a block of the image can be. */
  datatype Place = OfInode(f: int) | OfData(f: int, i: int) | OfSingle(f: int) | OfRoot(f: int) | OfLeaf(f: int, g: int)

  ghost predicate Lies(blocks: map<int, seq<int>>, files: map<int, CacheInode>, content: map<int, seq<int>>, p: Place, b: int) {
    && p.f in files && p.f in content
    && var c, din := content[p.f], files[p.f].inode;
       match p
       case OfInode(f) => b == f
       case OfData(_, i) => 0 <= i < |c| && b == c[i]
       case OfSingle(_) => |c| > NDIRECT && b == din.indirect
       case OfRoot(_) => |c| > L1_NBLKS && b == din.dbIndirect
       case OfLeaf(_, g) =>
         && 0 <= g && |c| > Base(g) && din.dbIndirect in blocks && g < |blocks[din.dbIndirect]|
         && b == blocks[din.dbIndirect][g]
  }

  function RoleOf(p: Place): Role {
    match p
    case OfInode(_) => IsInode
    case OfData(f, i) => IsData(f, i)
    case OfSingle(f) => IsIndex(f, WHOLE)
    case OfRoot(f) => IsIndex(f, ROOT)
    case OfLeaf(f, g) => IsIndex(f, 2 + g)
  }

  lemma LiesByRole(blocks: map<int, seq<int>>, role: map<int, Role>, files: map<int, CacheInode>, content: map<int, seq<int>>,
                   p: Place, b: int)
    requires AllOk(blocks, role, files, content) && Lies(blocks, files, content, p, b) && !p.OfInode?
    ensures b in role && role[b] == RoleOf(p)
  {
    assert FileOk(blocks, role, p.f, files[p.f], content[p.f]);
    if p.OfLeaf? {
      assert Branch(blocks, role, p.f, blocks[files[p.f].inode.dbIndirect], content[p.f], p.g);
    }
  }

  /** Data, index blocks and inodes of all files lie in different blocks. */
  lemma BlocksAreDistinct(blocks: map<int, seq<int>>, role: map<int, Role>, files: map<int, CacheInode>,
                          content: map<int, seq<int>>, p: Place, q: Place, b: int)
    requires AllOk(blocks, role, files, content) && BLKN_ROOT !in role
    requires forall f :: f in files ==> f == BLKN_ROOT || (f in role && role[f].IsInode?)
    requires Lies(blocks, files, content, p, b) && Lies(blocks, files, content, q, b)
    ensures p == q
  {
    if !p.OfInode? { LiesByRole(blocks, role, files, content, p, b); }
    if !q.OfInode? { LiesByRole(blocks, role, files, content, q, b); }
  }

  datatype Outcome = Appended | TooBig | NoSpace

  /** Only the index blocks of one file are touched. */
  ghost predicate OnlyFile(blocks: map<int, seq<int>>, after: map<int, seq<int>>, role: map<int, Role>, f: int) {
    forall b :: b in blocks && b in role && !(role[b].IsIndex? && role[b].file == f) ==> b in after && after[b] == blocks[b]
  }

  lemma NblksIsLength(blocks: map<int, seq<int>>, role: map<int, Role>, f: int, ci: CacheInode, c: seq<int>)
    requires FileOk(blocks, role, f, ci, c)
    ensures ci.nblks == |c| && |ci.inode.direct| == NDIRECT
  {
  }

  lemma DirectGrows(blocks: map<int, seq<int>>, role: map<int, Role>, f: int, ci: CacheInode, c: seq<int>, x: int)
    requires FileOk(blocks, role, f, ci, c) && |c| < NDIRECT && x in role && role[x] == IsData(f, |c|)
    requires |ci.inode.direct| == NDIRECT && ci.nblks == |c|
    ensures FileOk(blocks, role, f, ci.(nblks := ci.nblks + 1, inode := ci.inode.(direct := ci.inode.direct[ci.nblks := x])), c + [x])
  {
    DataGrows(role, role, f, c, x);
  }

  /** The index block a single-indirect append needs is the one last used, or there is none yet. */
  lemma SingleIsAtHand(blocks: map<int, seq<int>>, role: map<int, Role>, f: int, ci: CacheInode, c: seq<int>)
    requires FileOk(blocks, role, f, ci, c) && NDIRECT <= |c| < L1_NBLKS
    ensures ci.nblks == |c|
    ensures ci.inode.indirect == 0 <==> |c| == NDIRECT
    ensures ci.inode.indirect != 0 ==> ci.l1 == ci.inode.indirect && Leaf(blocks, role, f, WHOLE, ci.inode.indirect, c, NDIRECT)
  {
  }

  lemma SingleGrown(before: map<int, Role>, role: map<int, Role>, blocks: map<int, seq<int>>, f: int, ci: CacheInode, c: seq<int>,
                    x: int, b: int)
    requires DirectOk(ci, c) && DataOk(before, f, c) && Extends(before, role) && NDIRECT <= |c| < L1_NBLKS
    requires ci.inode.dbIndirect == 0 && x in role && role[x] == IsData(f, |c|)
    requires Leaf(blocks, role, f, WHOLE, b, c + [x], NDIRECT)
    ensures FileOk(blocks, role, f, ci.(nblks := ci.nblks + 1, inode := ci.inode.(indirect := b), l1 := b), c + [x])
  {
    DataGrows(before, role, f, c, x);
  }

  lemma DoubleIsAtHand(blocks: map<int, seq<int>>, role: map<int, Role>, f: int, ci: CacheInode, c: seq<int>)
    requires FileOk(blocks, role, f, ci, c) && L1_NBLKS <= |c| < LN_NBLKS
    ensures ci.nblks == |c|
    ensures ci.inode.dbIndirect == 0 <==> |c| == L1_NBLKS
    ensures ci.inode.dbIndirect != 0 ==>
      ci.l2 == ci.inode.dbIndirect && ci.l2 in blocks && Root(blocks, role, f, ci.l2, c)
  {
  }

  ghost predicate RootReady(blocks: map<int, seq<int>>, role: map<int, Role>, after: map<int, seq<int>>, later: map<int, Role>,
                            f: int, ci: CacheInode, c: seq<int>, db: int)
  {
    && Root(after, later, f, db, c) && db in after && |after[db]| == NENTRY && Extends(role, later)
    && (|c| > L1_NBLKS ==>
        0 <= (|c| - 1 - L1_NBLKS) / NENTRY < NENTRY && ci.l1 == after[db][(|c| - 1 - L1_NBLKS) / NENTRY])
    && OnlyMade(blocks, after, role, db) && OnlyFile(blocks, after, role, f)
    && (db in blocks ==> db in role && role[db] == IsIndex(f, ROOT))
  }

  ghost predicate LeafReady(blocks: map<int, seq<int>>, role: map<int, Role>, after: map<int, seq<int>>, later: map<int, Role>,
                            f: int, db: int, c: seq<int>, g: nat, leaf: int)
  {
    && leaf != db && Leaf(after, later, f, 2 + g, leaf, c, Base(g)) && leaf in after && |after[leaf]| == NENTRY
    && Extends(role, later) && (leaf in blocks ==> leaf in role && role[leaf] == IsIndex(f, 2 + g))
    && db in blocks && |blocks[db]| == NENTRY && g < NENTRY && db in after && after[db] == blocks[db][g := leaf]
    && forall d :: d in blocks && d != db && d != leaf ==> d in after && after[d] == blocks[d]
  }

  /** After the root is at hand, new or not, it spells out the file so far. */
  lemma RootAtHand(blocks: map<int, seq<int>>, role: map<int, Role>, after: map<int, seq<int>>, later: map<int, Role>,
                   f: int, ci: CacheInode, c: seq<int>, db: int)
    requires FileOk(blocks, role, f, ci, c) && L1_NBLKS <= |c| < LN_NBLKS
    requires ci.inode.dbIndirect != 0 ==> db == ci.inode.dbIndirect && after == blocks && later == role
    requires ci.inode.dbIndirect == 0 ==>
      && db != 0 && db !in role && db !in blocks
      && later == role[db := IsIndex(f, ROOT)] && after == blocks[db := seq(NENTRY, _ => 0)]
    ensures RootReady(blocks, role, after, later, f, ci, c, db)
  {
    if ci.inode.dbIndirect == 0 { ZeroRoot(after, later, f, db, c); }
  }

  lemma LeafIsAtHand(blocks: map<int, seq<int>>, role: map<int, Role>, f: int, ci: CacheInode, db: int, c: seq<int>, g: nat)
    requires Root(blocks, role, f, db, c) && g == (|c| - L1_NBLKS) / NENTRY && L1_NBLKS <= |c| < LN_NBLKS
    requires |c| > L1_NBLKS ==>
      0 <= (|c| - 1 - L1_NBLKS) / NENTRY < NENTRY && ci.l1 == blocks[db][(|c| - 1 - L1_NBLKS) / NENTRY]
    ensures g < NENTRY && Base(g) <= |c| < Base(g + 1) && (|c| - L1_NBLKS) % NENTRY == |c| - Base(g)
    ensures blocks[db][g] == 0 <==> |c| == Base(g)
    ensures blocks[db][g] != 0 ==>
      ci.l1 == blocks[db][g] && ci.l1 in blocks && Leaf(blocks, role, f, 2 + g, ci.l1, c, Base(g))
  {
    assert Branch(blocks, role, f, blocks[db], c, g);
  }

  /** The same for the leaf, whose number is then in the root. */
  lemma LeafAtHand(blocks: map<int, seq<int>>, role: map<int, Role>, after: map<int, seq<int>>, later: map<int, Role>,
                   f: int, db: int, c: seq<int>, g: nat, leaf: int)
    requires Root(blocks, role, f, db, c) && g < NENTRY && Base(g) <= |c| < Base(g + 1)
    requires blocks[db][g] != 0 ==> leaf == blocks[db][g] && later == role && after == blocks[db := blocks[db][g := leaf]]
    requires blocks[db][g] == 0 ==>
      && leaf != 0 && leaf !in role && leaf !in blocks && later == role[leaf := IsIndex(f, 2 + g)]
      && after == blocks[leaf := seq(NENTRY, _ => 0)][db := blocks[db][g := leaf]]
    ensures LeafReady(blocks, role, after, later, f, db, c, g, leaf)
  {
    assert Branch(blocks, role, f, blocks[db], c, g);
    if blocks[db][g] == 0 {
      ZeroLeaf(after, later, f, 2 + g, leaf, c, Base(g));
    } else {
      LeafStays(blocks, role, after, later, f, 2 + g, leaf, c, Base(g));
    }
  }

  lemma DoubleGrown(blocks: map<int, seq<int>>, role: map<int, Role>, mid: map<int, seq<int>>, between: map<int, Role>,
                    after: map<int, seq<int>>, later: map<int, Role>, f: int, ci: CacheInode, c: seq<int>, g: nat, db: int,
                    leaf: int, x: int)
    requires FileOk(blocks, role, f, ci, c) && L1_NBLKS <= |c| < LN_NBLKS && OnlyMade(blocks, mid, role, db)
    requires Extends(role, between) && Extends(between, later) && x in later && later[x] == IsData(f, |c|)
    requires Root(mid, between, f, db, c) && g == (|c| - L1_NBLKS) / NENTRY && g < NENTRY && Base(g) <= |c| < Base(g + 1)
    requires leaf != db && Leaf(after, later, f, 2 + g, leaf, c, Base(g)) && db in after && after[db] == mid[db][g := leaf]
    requires forall d :: d in mid && d != db && d != leaf ==> d in after && after[d] == mid[d]
    requires leaf in mid ==> leaf in between && between[leaf] == IsIndex(f, 2 + g)
    ensures FileOk(after[leaf := after[leaf][|c| - Base(g) := x]], later, f,
                   ci.(nblks := ci.nblks + 1, inode := ci.inode.(dbIndirect := db), l1 := leaf, l2 := db), c + [x])
  {
    var final := after[leaf := after[leaf][|c| - Base(g) := x]];
    LeafGrows(after, later, f, 2 + g, leaf, c, Base(g), x);
    RootGrows(mid, between, final, later, f, db, c, g, leaf, x);
    DataStays(role, between, later, f, c, x);
    var b := ci.inode.indirect;
    assert b in mid && mid[b] == blocks[b] && b != db;
    assert b != leaf;
    LeafFull(blocks, role, final, later, f, WHOLE, b, c, NDIRECT, x);
  }

  /** One block at most is new or changed. */
  ghost predicate OnlyMade(blocks: map<int, seq<int>>, after: map<int, seq<int>>, role: map<int, Role>, db: int) {
    forall b :: b in blocks && b != db ==> b in after && after[b] == blocks[b]
  }

  lemma DataStays(role: map<int, Role>, between: map<int, Role>, later: map<int, Role>, f: int, c: seq<int>, x: int)
    requires DataOk(role, f, c) && Extends(role, between) && Extends(between, later) && x in later && later[x] == IsData(f, |c|)
    ensures DataOk(later, f, c + [x])
  {
    assert Extends(role, later);
    DataGrows(role, later, f, c, x);
  }

  lemma OnlyTwo(blocks: map<int, seq<int>>, role: map<int, Role>, mid: map<int, seq<int>>, between: map<int, Role>,
                after: map<int, seq<int>>, f: int, g: int, db: int, leaf: int)
    requires OnlyMade(blocks, mid, role, db) && Extends(role, between)
    requires db in blocks ==> db in role && role[db] == IsIndex(f, ROOT)
    requires leaf in mid ==> leaf in between && between[leaf] == IsIndex(f, 2 + g)
    requires forall d :: d in mid && d != db && d != leaf ==> d in after && after[d] == mid[d]
    ensures OnlyFile(blocks, after, role, f)
  {
  }

  lemma ExtendsTwice(role: map<int, Role>, between: map<int, Role>, later: map<int, Role>)
    requires Extends(role, between) && Extends(between, later)
    ensures Extends(role, later)
  {
  }
}
