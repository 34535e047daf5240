/** The kernel's reading of an image, and the whole way from what is put into an image to what is read from it. */
module ImageMount {
  import opened Bitmap
  import opened ImageBuilder
  import opened ImageDisk

  // ---- Mounting ----

  ghost predicate Mountable(disk: Disk) {
    && BLKN_SUPER in disk && disk[BLKN_SUPER].Super? && disk[BLKN_SUPER].blocks >= 0
    && HasMap(disk, MapBlocks(disk[BLKN_SUPER].blocks))
  }

  ghost predicate HasMapAt(disk: Disk, k: int) {
    BLKN_FREEMAP + k in disk && disk[BLKN_FREEMAP + k].Bits? && |disk[BLKN_FREEMAP + k].words| == NENTRY
  }

  ghost predicate HasMap(disk: Disk, n: int) {
    forall k :: 0 <= k < n ==> HasMapAt(disk, k)
  }

  /** The free map, its blocks one after the other. */
  ghost function MapWords(disk: Disk, n: nat): seq<bv32>
    requires HasMap(disk, n)
  {
    assert n > 0 ==> HasMapAt(disk, n - 1);
    if n == 0 then [] else MapWords(disk, n - 1) + disk[BLKN_FREEMAP + n - 1].words
  }

  datatype Mount = Mounted(words: seq<bv32>, blocks: int) | CountIsWrong

  /** Read the free map and count its bits; the super block must say the same. */
  method MountSfs(disk: Disk) returns (m: Mount)
    requires Mountable(disk)
    ensures var super, n := disk[BLKN_SUPER], MapBlocks(disk[BLKN_SUPER].blocks);
      n >= 0 && m == if Ones(MapWords(disk, n), BITS * |MapWords(disk, n)|) == super.unusedBlocks
        then Mounted(MapWords(disk, n), super.blocks) else CountIsWrong
  {
    hide Ones;
    var super := disk[BLKN_SUPER];
    var nblks, blkno := MapBlocks(super.blocks), BLKN_FREEMAP;
    var words: seq<bv32> := [];
    ghost var k: nat := 0;
    while nblks != 0
      invariant nblks >= 0 && k + nblks == MapBlocks(super.blocks) && blkno == BLKN_FREEMAP + k && words == MapWords(disk, k)
      decreases nblks
    {
      assert HasMapAt(disk, k);
      words := words + disk[blkno].words;
      k := k + 1;
      blkno, nblks := blkno + 1, nblks - 1;
    }
    var map_ := new bv32[|words|](i requires 0 <= i < |words| => words[i]);
    assert map_[..] == words;
    var freemap := new FreeSet(map_);
    var unused := freemap.Count(BITS * map_.Length);
    m := if unused == super.unusedBlocks then Mounted(words, super.blocks) else CountIsWrong;
  }

  lemma {:induction false} MapWordsAre(disk: Disk, ninos: int, nextIno: int, n: nat)
    requires HasMap(disk, n) && forall k :: 0 <= k < n ==> MapBlock(disk, ninos, nextIno, k)
    ensures |MapWords(disk, n)| == NENTRY * n
    ensures forall x :: 0 <= x < BLKBITS * n ==> (BitAt(MapWords(disk, n), x) <==> nextIno <= x < ninos)
  {
    if n > 0 {
      assert HasMapAt(disk, n - 1);
      MapWordsAre(disk, ninos, nextIno, n - 1);
      var a, b := MapWords(disk, n - 1), disk[BLKN_FREEMAP + n - 1].words;
      assert MapBlock(disk, ninos, nextIno, n - 1);
      hide BitAt;
      forall x | 0 <= x < BLKBITS * n ensures BitAt(a + b, x) <==> nextIno <= x < ninos { BitsJoin(a, b, x); }
    }
  }

  /** The count made at mount time is the one in the super block of a closed image. */
  lemma MountCountAgrees(disk: Disk, ninos: int, nextIno: int)
    requires 0 < nextIno <= ninos && MapWritten(disk, ninos, nextIno)
    ensures var n := MapBlocks(ninos);
      && n >= 0 && HasMap(disk, n) && Ones(MapWords(disk, n), BITS * |MapWords(disk, n)|) == ninos - nextIno
      && ninos <= BITS * |MapWords(disk, n)|
      && forall x :: 0 <= x < BITS * |MapWords(disk, n)| ==> (BitAt(MapWords(disk, n), x) <==> nextIno <= x < ninos)
  {
    var n := MapBlocks(ninos);
    forall k | 0 <= k < n ensures HasMapAt(disk, k) {
      assert MapBlock(disk, ninos, nextIno, k);
    }
    MapWordsAre(disk, ninos, nextIno, n);
    hide BitAt;
    OnesOfRange(MapWords(disk, n), BITS * |MapWords(disk, n)|, nextIno, ninos);
  }

  // ---- Looking up ----

  /** sfs_block_inuse; the panic for numbers outside the file system is None. */
  function InUse(m: Mount, ino: int): Option<bool>
    requires m.Mounted?
  {
    if 0 < ino < m.blocks then Some(!BitAt(m.words, ino)) else None
  }

  ghost predicate Readable(disk: Disk, din: Inode) {
    && |din.direct| == NDIRECT
    && (din.indirect != 0 ==>
      din.indirect in disk && disk[din.indirect].Entries? && |disk[din.indirect].entries| == NENTRY)
  }

  /** The block map of an inode, when nothing is to be created: its own entries, then one index block. */
  function Bmap(disk: Disk, din: Inode, index: nat): int
    requires Readable(disk, din) && index < L1_NBLKS
  {
    if index < NDIRECT then din.direct[index]
    else if din.indirect != 0 then disk[din.indirect].entries[index - NDIRECT]
    else 0
  }

  datatype Answer = Block(ino: int) | Panic

  /** sfs_bmap_get_nolock: an index past the single indirect block, or a block not in use, stops the kernel. */
  function LookUp(disk: Disk, m: Mount, din: Inode, index: nat): Answer
    requires m.Mounted? && Readable(disk, din)
  {
    if index >= L1_NBLKS then Panic
    else
      var ino := Bmap(disk, din, index);
      if ino == 0 || InUse(m, ino) == Some(true) then Block(ino) else Panic
  }

  /** The kernel finds the i-th block the builder appended, and nothing past the end. */
  lemma KernelReadsBack(blocks: map<int, seq<int>>, role: map<int, Role>, f: int, ci: CacheInode, c: seq<int>,
                        disk: Disk, i: nat)
    requires FileOk(blocks, role, f, ci, c)
    requires forall b :: b in blocks ==> b in disk && disk[b] == Entries(blocks[b])
    ensures Readable(disk, ci.inode)
    ensures i < L1_NBLKS ==> Bmap(disk, ci.inode, i) == At(c, i)
  {
    var b := ci.inode.indirect;
    if |c| > NDIRECT { assert b in blocks; }
  }

  // ---- From end to end ----

  /** What a file looks like from the kernel: the texts put into it, block by block, each filled up with zeros. */
  ghost predicate ReadsAt(disk: Disk, m: Mount, din: Inode, texts: seq<Bytes>, i: nat) {
    && m.Mounted? && Readable(disk, din)
    && var a := LookUp(disk, m, din, i);
      if i >= L1_NBLKS then a == Panic
      else if i >= |texts| then a == Block(0)
      else a.Block? && a.ino != 0 && HoldsText(disk, a.ino, texts[i])
  }

  ghost predicate Reads(disk: Disk, m: Mount, ino: int, texts: seq<Bytes>) {
    && m.Mounted? && InUse(m, ino) == Some(true) && ino in disk && disk[ino].DiskInode?
    && forall i: nat :: ReadsAt(disk, m, disk[ino].inode, texts, i)
  }

  /** What is put into an image: new files, and blocks appended to the k-th file, the root being the first. */
  datatype Act = Create | Append(k: nat, text: Bytes)

  /** The texts of each file, in order of creation. */
  function Plan(script: seq<Act>): (p: seq<seq<Bytes>>)
    ensures p != []
  {
    if script == [] then [[]]
    else
      var p := Plan(script[..|script| - 1]);
      match script[|script| - 1]
      case Create => p + [[]]
      case Append(k, text) => if k < |p| && |text| <= BLKSIZE then p[k := p[k] + [text]] else p
  }

  /** The blocks the script takes: an inode for each file, and its blocks with their index blocks. */
  function Used(script: seq<Act>): nat {
    if script == [] then 0
    else
      var before := script[..|script| - 1];
      Used(before) + match script[|script| - 1]
        case Create => 1
        case Append(k, _) => if k < |Plan(before)| then 1 + NewIndexes(|Plan(before)[k]|) else 0
  }

  lemma {:induction false} UsedGrows(script: seq<Act>, i: nat)
    requires i <= |script|
    ensures Used(script[..i]) <= Used(script)
    decreases |script|
  {
    if i < |script| {
      UsedGrows(script[..|script| - 1], i);
      assert script[..|script| - 1][..i] == script[..i];
    } else {
      assert script[..i] == script;
    }
  }

  ghost predicate Sensible(script: seq<Act>) {
    forall j :: 0 <= j < |script| && script[j].Append? ==>
      script[j].k < |Plan(script[..j])| && |script[j].text| <= BLKSIZE
  }

  datatype Built = Ready(disk: Disk, m: Mount, inos: seq<int>) | Full | FileTooBig

  /** What mounting leaves to say about the free map: exactly the blocks given out are in use. */
  ghost predicate MapSays(m: Mount, nextIno: int) {
    && m.Mounted? && 0 < nextIno <= m.blocks
    && forall x :: 0 < x < m.blocks ==> (BitAt(m.words, x) <==> nextIno <= x)
  }

  lemma FileReads(blocks: map<int, seq<int>>, role: map<int, Role>, f: int, ci: CacheInode, c: seq<int>, texts: seq<Bytes>,
                  disk: Disk, m: Mount, nextIno: int)
    requires FileOk(blocks, role, f, ci, c) && Stored(disk, c, texts) && MapSays(m, nextIno)
    requires forall b :: b in role ==> 0 < b < nextIno
    requires forall b :: b in blocks ==> b in disk && disk[b] == Entries(blocks[b])
    requires 0 < f < nextIno && f in disk && disk[f] == DiskInode(ci.inode)
    ensures Reads(disk, m, f, texts)
  {
    hide BitAt;
    forall i: nat ensures ReadsAt(disk, m, ci.inode, texts, i) {
      KernelReadsBack(blocks, role, f, ci, c, disk, i);
      hide FileOk, Readable;
      if i < |c| {
        assert c[i] in role by { DataIsKnown(blocks, role, f, ci, c, i); }
      }
    }
  }

  lemma DataIsKnown(blocks: map<int, seq<int>>, role: map<int, Role>, f: int, ci: CacheInode, c: seq<int>, i: nat)
    requires FileOk(blocks, role, f, ci, c) && i < |c|
    ensures c[i] in role && role[c[i]] == IsData(f, i)
  {
  }

  /** The files made so far hold what the script says. */
  ghost predicate Carries(texts: map<int, seq<Bytes>>, inos: seq<int>, plan: seq<seq<Bytes>>) {
    && |inos| == |plan| && (forall k, l :: 0 <= k < l < |inos| ==> inos[k] != inos[l])
    && forall k :: 0 <= k < |inos| ==> inos[k] in texts && texts[inos[k]] == plan[k]
  }

  lemma NothingPlanned()
    ensures Plan([]) == [[]] && Used([]) == 0
  {
  }

  lemma LastAct(done: seq<Act>, act: Act)
    ensures (done + [act])[..|done|] == done
    ensures act.Create? ==> Plan(done + [act]) == Plan(done) + [[]] && Used(done + [act]) == Used(done) + 1
    ensures act.Append? && act.k < |Plan(done)| && |act.text| <= BLKSIZE ==>
      && Plan(done + [act]) == Plan(done)[act.k := Plan(done)[act.k] + [act.text]]
      && Used(done + [act]) == Used(done) + 1 + NewIndexes(|Plan(done)[act.k]|)
  {
    assert (done + [act])[..|done|] == done;
  }

  lemma OneMoreFile(texts: map<int, seq<Bytes>>, inos: seq<int>, plan: seq<seq<Bytes>>, f: int)
    requires Carries(texts, inos, plan) && f !in texts
    ensures Carries(texts[f := []], inos + [f], plan + [[]])
  {
  }

  lemma OneMoreBlock(texts: map<int, seq<Bytes>>, inos: seq<int>, plan: seq<seq<Bytes>>, k: nat, text: Bytes)
    requires Carries(texts, inos, plan) && k < |plan|
    ensures k < |inos| && inos[k] in texts && texts[inos[k]] == plan[k]
    ensures Carries(texts[inos[k] := texts[inos[k]] + [text]], inos, plan[k := plan[k] + [text]])
  {
  }

  method Perform(image: Image, inos: seq<int>, act: Act, ghost done: seq<Act>) returns (out: Outcome, more: seq<int>)
    requires image.Valid() && Carries(image.texts, inos, Plan(done))
    requires act.Append? ==> act.k < |Plan(done)| && |act.text| <= BLKSIZE
    modifies image, image.builder
    ensures out == Appended ==> image.Valid() && Carries(image.texts, more, Plan(done + [act])) && inos <= more
    ensures out == Appended ==> image.builder.nextIno - old(image.builder.nextIno) == Used(done + [act]) - Used(done)
    ensures out == NoSpace ==> image.builder.ninos - old(image.builder.nextIno) < Used(done + [act]) - Used(done)
    ensures out == TooBig ==> act.Append? && |Plan(done)[act.k]| >= LN_NBLKS
  {
    LastAct(done, act);
    hide FileOk, Stored, Carries, Plan, Used;
    ghost var texts := image.texts;
    match act {
      case Create =>
        var f := image.Create();
        if f == None { return NoSpace, inos; }
        OneMoreFile(texts, inos, Plan(done), f.value);
        out, more := Appended, inos + [f.value];
      case Append(k, text) =>
        OneMoreBlock(texts, inos, Plan(done), k, text);
        out := image.Append(inos[k], text);
        more := inos;
    }
  }

  function First(n: int): int { BLKN_FREEMAP + MapBlocks(n) }

  /** Build an image, close it, mount it: unless a file grows too big or the blocks the script takes do not fit, the
      kernel counts the free blocks the builder counted, and reads in every file the texts that were put into it,
      with no panic for any block it looks at. */
  method BuildAndMount(n: int, script: seq<Act>) returns (r: Built)
    requires First(n) < n && Sensible(script)
    ensures r.FileTooBig? ==> exists j :: 0 <= j < |script| && script[j].Append? && |Plan(script[..j])[script[j].k]| >= LN_NBLKS
    ensures r.Full? ==> First(n) + Used(script) > n
    ensures r.Ready? ==> First(n) + Used(script) <= n && BLKN_SUPER in r.disk && r.disk[BLKN_SUPER] == Super(n, n - First(n) - Used(script))
    ensures r.Ready? ==> |r.inos| == |Plan(script)| && forall k :: 0 <= k < |r.inos| ==> Reads(r.disk, r.m, r.inos[k], Plan(script)[k])
    ensures r.Ready? ==> r.m.Mounted? && forall x :: InUse(r.m, x) == if 0 < x < n then Some(x < First(n) + Used(script)) else None
    ensures r.Ready? ==> r.inos[0] == BLKN_ROOT && forall k, l :: 0 <= k < l < |r.inos| ==> r.inos[k] != r.inos[l]
  {
    hide Reads, FileOk, Stored, Plan, Used;
    var image := new Image(n);
    var inos := [BLKN_ROOT];
    NothingPlanned();
    assert script[..0] == [];
    var i := 0;
    while i < |script|
      invariant 0 <= i <= |script| && image.Valid() && fresh(image) && fresh(image.builder)
      invariant image.builder.ninos == n && image.builder.nextIno == First(n) + Used(script[..i])
      invariant inos != [] && inos[0] == BLKN_ROOT && Carries(image.texts, inos, Plan(script[..i]))
    {
      assert script[..i + 1] == script[..i] + [script[i]];
      UsedGrows(script, i + 1);
      var out;
      out, inos := Perform(image, inos, script[i], script[..i]);
      if out == NoSpace { return Full; }
      if out == TooBig { return FileTooBig; }
      i := i + 1;
    }
    assert script[..i] == script;
    r := CloseAndMount(image, inos, Plan(script));
  }

  method CloseAndMount(image: Image, inos: seq<int>, ghost plan: seq<seq<Bytes>>) returns (r: Built)
    requires image.Valid() && Carries(image.texts, inos, plan)
    modifies image
    ensures r.Ready? && BLKN_SUPER in r.disk && r.disk[BLKN_SUPER] == Super(image.builder.ninos, image.builder.unusedBlocks)
    ensures r.inos == inos && forall k :: 0 <= k < |inos| ==> Reads(r.disk, r.m, inos[k], plan[k])
    ensures var b := image.builder;
      r.m.Mounted? && forall x :: InUse(r.m, x) == if 0 < x < b.ninos then Some(x < b.nextIno) else None
  {
    ghost var b, before := image.builder, image.disk;
    image.Close();
    var disk := image.disk;
    MountCountAgrees(disk, b.ninos, b.nextIno);
    var m := MountSfs(disk);
    forall k | 0 <= k < |inos| ensures Reads(disk, m, inos[k], plan[k]) {
      var f := inos[k];
      StoredStays(before, disk, b.content[f], plan[k]);
      FileReads(b.blocks, b.role, f, b.files[f], b.content[f], plan[k], disk, m, b.nextIno);
    }
    r := Ready(disk, m, inos);
  }
}
