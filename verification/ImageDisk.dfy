/** The image as a disk: what the builder writes to it, and what the kernel makes of it. */
module ImageDisk {
  import opened Bitmap
  import opened ImageBuilder

  const BLKSIZE := 4096
  const BLKN_SUPER := 0

  type Bytes = seq<bv8>

  /** A disk block, by what is written there. */
  datatype DiskBlock =
    | Super(blocks: int, unusedBlocks: int)
    | Bits(words: seq<bv32>)
    | Entries(entries: seq<int>)
    | DiskInode(inode: Inode)
    | Raw(bytes: Bytes)

  type Disk = map<int, DiskBlock>

  /** A whole block that begins with the text and is zero from there on. */
  predicate Padded(block: Bytes, text: Bytes) {
    |block| == BLKSIZE && text <= block && forall k :: |text| <= k < BLKSIZE ==> block[k] == 0
  }

  /** write_block fills the rest of a block with zeros. */
  function Pad(text: Bytes): (block: Bytes)
    requires |text| <= BLKSIZE
    ensures Padded(block, text)
  {
    text + seq(BLKSIZE - |text|, _ => 0)
  }

  /** The fewest blocks of 4096 bytes that have a bit for each of that many blocks. */
  function MapBlocks(blocks: int): (n: int)
    ensures 8 * 4096 * (n - 1) < blocks <= 8 * 4096 * n
  {
    (blocks + BLKBITS - 1) / BLKBITS
  }

  // ---- The free map ----

  /** Block k of the free map on the disk. */
  ghost predicate MapBlock(disk: Disk, ninos: int, nextIno: int, k: nat) {
    var b := BLKN_FREEMAP + k;
    && b in disk && disk[b].Bits? && |disk[b].words| == NENTRY
    && forall y :: 0 <= y < BLKBITS ==> (BitAt(disk[b].words, y) <==> nextIno <= BLKBITS * k + y < ninos)
  }

  ghost predicate MapWritten(disk: Disk, ninos: int, nextIno: int) {
    forall k :: 0 <= k < MapBlocks(ninos) ==> MapBlock(disk, ninos, nextIno, k)
  }

  /** Blocks outside the free map do not matter to it. */
  lemma MapStays(disk: Disk, after: Disk, ninos: int, nextIno: int)
    requires MapWritten(disk, ninos, nextIno)
    requires forall b :: b in disk && BLKN_FREEMAP <= b < BLKN_FREEMAP + MapBlocks(ninos) ==> b in after && after[b] == disk[b]
    ensures MapWritten(after, ninos, nextIno)
  {
    hide BitAt;
    forall k | 0 <= k < MapBlocks(ninos) ensures MapBlock(after, ninos, nextIno, k) {
      assert MapBlock(disk, ninos, nextIno, k);
    }
  }

  // ---- The image being built ----

  ghost predicate HoldsText(disk: Disk, b: int, text: Bytes) {
    b in disk && disk[b].Raw? && Padded(disk[b].bytes, text)
  }

  /** The blocks of a file hold its texts. */
  ghost predicate Stored(disk: Disk, c: seq<int>, texts: seq<Bytes>) {
    |c| == |texts| && forall i :: 0 <= i < |c| ==> HoldsText(disk, c[i], texts[i])
  }

  lemma StoredStays(disk: Disk, after: Disk, c: seq<int>, texts: seq<Bytes>)
    requires Stored(disk, c, texts) && forall b :: b in disk ==> b in after && after[b] == disk[b]
    ensures Stored(after, c, texts)
  {
    forall i | 0 <= i < |c| ensures HoldsText(after, c[i], texts[i]) { assert HoldsText(disk, c[i], texts[i]); }
  }

  lemma StoredGrows(disk: Disk, c: seq<int>, texts: seq<Bytes>, b: int, text: Bytes)
    requires Stored(disk, c, texts) && HoldsText(disk, b, text)
    ensures Stored(disk, c + [b], texts + [text])
  {
  }

  /** Data, index blocks and inodes lie past the free map, the root inode before it, and none where another does. */
  ghost predicate PlacesApart(data: set<int>, indexes: set<int>, inodes: set<int>, first: int) {
    && data !! indexes && data !! inodes && indexes !! inodes
    && (forall b :: b in data || b in indexes ==> b >= first)
    && (forall f :: f in inodes ==> f == BLKN_ROOT || f >= first)
  }

  /** The disk after the stores of close_sfs, which follow those of the free map. */
  function Flushed(disk: Disk, ninos: int, unused: int, blocks: map<int, seq<int>>, files: map<int, CacheInode>): Disk {
    disk[BLKN_SUPER := Super(ninos, unused)]
    + (map b | b in blocks :: Entries(blocks[b])) + (map f | f in files :: DiskInode(files[f].inode))
  }

  lemma FlushedHolds(data: set<int>, disk: Disk, ninos: int, unused: int, blocks: map<int, seq<int>>,
                     files: map<int, CacheInode>, first: int)
    requires PlacesApart(data, blocks.Keys, files.Keys, first) && first > BLKN_FREEMAP
    requires forall b :: b in disk ==> b in data || BLKN_FREEMAP <= b < first
    ensures var t := Flushed(disk, ninos, unused, blocks, files);
      && BLKN_SUPER in t && t[BLKN_SUPER] == Super(ninos, unused)
      && (forall b :: b in blocks ==> b in t && t[b] == Entries(blocks[b]))
      && (forall f :: f in files ==> f in t && t[f] == DiskInode(files[f].inode))
      && (forall b :: b in disk ==> b in t && t[b] == disk[b])
  {
  }

  class Image {
    const builder: Builder
    var disk: Disk
    ghost var texts: map<int, seq<Bytes>>

    /** Only data has been written so far. */
    ghost predicate Valid()
      reads this, builder
    {
      && builder.Valid() && builder.first == BLKN_FREEMAP + MapBlocks(builder.ninos) && texts.Keys == builder.content.Keys
      && (forall b :: b in disk ==> b in builder.role && builder.role[b].IsData?)
      && forall f :: f in texts ==> Stored(disk, builder.content[f], texts[f])
    }

    constructor (n: int)
      requires BLKN_FREEMAP + MapBlocks(n) < n
      ensures Valid() && fresh(builder) && builder.ninos == n && builder.nextIno == builder.first && texts == map[BLKN_ROOT := []]
    {
      var b := new Builder(n);
      builder, disk, texts := b, map[], map[BLKN_ROOT := []];
    }

    method Create() returns (f: Option<int>)
      requires Valid()
      modifies this, builder
      ensures f == None ==> old(builder.nextIno) == builder.ninos
      ensures f.Some? ==> builder.nextIno == old(builder.nextIno) + 1
      ensures f.Some? ==> Valid() && f.value !in old(texts) && texts == old(texts)[f.value := []]
    {
      f := builder.NewFile();
      if f.Some? { texts := texts[f.value := []]; }
    }

    /** The next block of a file: allocated, written, recorded. */
    method Append(f: int, text: Bytes) returns (r: Outcome)
      requires Valid() && f in texts && |text| <= BLKSIZE
      modifies this, builder
      ensures r == TooBig ==> |old(texts)[f]| >= LN_NBLKS
      ensures r == NoSpace ==> old(builder.nextIno) + 1 + NewIndexes(|old(texts)[f]|) > builder.ninos
      ensures r == Appended ==> builder.nextIno == old(builder.nextIno) + 1 + NewIndexes(|old(texts)[f]|)
      ensures r == Appended ==> Valid() && texts == old(texts)[f := old(texts)[f] + [text]]
    {
      hide FileOk, Stored;
      var ino := builder.NewBlock(f);
      if ino == None { return NoSpace; }
      ghost var before := disk;
      disk := disk[ino.value := Raw(Pad(text))];
      forall g | g in texts ensures Stored(disk, builder.content[g], texts[g]) {
        StoredStays(before, disk, builder.content[g], texts[g]);
      }
      StoredGrows(disk, builder.content[f], texts[f], ino.value, text);
      r := builder.AppendBlock(f, ino.value);
      texts := texts[f := texts[f] + [text]];
    }

    lemma PlacesAreApart()
      requires Valid()
      ensures PlacesApart(disk.Keys, builder.blocks.Keys, builder.files.Keys, builder.first)
    {
      hide FileOk, Stored;
      var r, first := builder.role, builder.first;
      forall b | b in disk.Keys ensures b in r && r[b].IsData? && b >= first { }
      forall b | b in builder.blocks.Keys ensures b in r && r[b].IsIndex? && b >= first { }
      forall f | f in builder.files.Keys ensures f == BLKN_ROOT || (f in r && r[f].IsInode? && f >= first) { }
      assert first > BLKN_ROOT;
    }

    /** close_sfs: the free map, the super block, the index blocks and the inodes, none upon another. */
    method Close()
      requires Valid()
      modifies this`disk
      ensures MapWritten(disk, builder.ninos, builder.nextIno)
      ensures BLKN_SUPER in disk && disk[BLKN_SUPER] == Super(builder.ninos, builder.unusedBlocks)
      ensures forall b :: b in builder.blocks ==> b in disk && disk[b] == Entries(builder.blocks[b])
      ensures forall f :: f in builder.files ==> f in disk && disk[f] == DiskInode(builder.files[f].inode)
      ensures forall b :: b in old(disk) ==> b in disk && disk[b] == old(disk)[b]
    {
      PlacesAreApart();
      hide MapWritten, FileOk, Stored, PlacesApart;
      ghost var data := disk.Keys;
      WriteMap();
      ghost var mapped := disk;
      FlushedHolds(data, mapped, builder.ninos, builder.unusedBlocks, builder.blocks, builder.files, builder.first);
      disk := disk[BLKN_SUPER := Super(builder.ninos, builder.unusedBlocks)];
      disk := disk + (map b | b in builder.blocks :: Entries(builder.blocks[b]));
      disk := disk + (map f | f in builder.files :: DiskInode(builder.files[f].inode));
      MapStays(mapped, disk, builder.ninos, builder.nextIno);
    }

    method WriteMap()
      requires Valid()
      modifies this`disk
      ensures MapWritten(disk, builder.ninos, builder.nextIno)
      ensures forall b :: b in old(disk) ==> b in disk && disk[b] == old(disk)[b]
      ensures forall b :: b in disk && b !in old(disk) ==> BLKN_FREEMAP <= b < builder.first
    {
      hide BitAt;
      var i, ino := 0, BLKN_FREEMAP;
      ghost var k := 0;
      while i < builder.ninos
        invariant i == BLKBITS * k && ino == BLKN_FREEMAP + k && 0 <= k <= MapBlocks(builder.ninos)
        invariant forall j :: 0 <= j < k ==> MapBlock(disk, builder.ninos, builder.nextIno, j)
        invariant forall b :: b in old(disk) ==> b in disk && disk[b] == old(disk)[b]
        invariant forall b :: b in disk && b !in old(disk) ==> BLKN_FREEMAP <= b < builder.first
        decreases builder.ninos - i
      {
        var buffer := WriteBits(i, builder.ninos, builder.nextIno);
        ghost var before := disk;
        disk := disk[ino := Bits(buffer)];
        forall j | 0 <= j < k ensures MapBlock(disk, builder.ninos, builder.nextIno, j) {
          assert MapBlock(before, builder.ninos, builder.nextIno, j);
        }
        ino, i := ino + 1, i + BLKBITS;
        k := k + 1;
      }
    }
  }
}
