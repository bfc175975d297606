/** The file system as the blocks of the disk hold it: inodes packed sixteen to a
    block, the free map as bits, and what it means for a disk image to be a file
    system. */
module FsImage {
  import opened Blocks
  import opened FsState

  // -------------------------------------------------------- inodes in blocks

  /** Words in a struct dinode. */
  const DINODE_WORDS: nat := 16

  /** The w-th word of an inode as struct dinode lays it out, two shorts to a word. */
  function InodeWord(ip: Inode, w: nat): Word
    requires w < DINODE_WORDS
  {
    if w == 0 then ip.kind + 0x1_0000 * ip.major
    else if w == 1 then ip.minor + 0x1_0000 * ip.nlink
    else if w == 2 then ip.size
    else ip.addrs[w - 3]
  }

  /** The w-th word of a slot of an inode block. */
  function WordAt(blk: Block, slot: nat, w: nat): Word
    requires slot < IPB && w < DINODE_WORDS
  {
    GetWord(blk, DINODE_WORDS * slot + w)
  }

  /** The inode in a slot of an inode block. */
  function DecodeInode(blk: Block, slot: nat): Inode
    requires slot < IPB
  {
    var w0, w1 := WordAt(blk, slot, 0), WordAt(blk, slot, 1);
    Inode(w0 % 0x1_0000, w0 / 0x1_0000, w1 % 0x1_0000, w1 / 0x1_0000, WordAt(blk, slot, 2),
          seq<Word>(NDIRECT + 1, k requires 0 <= k <= NDIRECT => WordAt(blk, slot, 3 + k)))
  }

  /** The block with the first n words of an inode stored in a slot. */
  function PutWords(blk: Block, slot: nat, ip: Inode, n: nat): Block
    requires slot < IPB && n <= DINODE_WORDS
  {
    if n == 0 then blk
    else SetWord(PutWords(blk, slot, ip, n - 1), DINODE_WORDS * slot + n - 1, InodeWord(ip, n - 1))
  }

  lemma {:induction false} PutWordsAt(blk: Block, slot: nat, ip: Inode, n: nat, other: nat, w: nat)
    requires slot < IPB && n <= DINODE_WORDS && other < IPB && w < DINODE_WORDS
    ensures WordAt(PutWords(blk, slot, ip, n), other, w)
            == if other == slot && w < n then InodeWord(ip, w) else WordAt(blk, other, w)
  {
    hide SetWord, GetWord, InodeWord;
    if n > 0 {
      PutWordsAt(blk, slot, ip, n - 1, other, w);
      var j, m := DINODE_WORDS * other + w, DINODE_WORDS * slot + n - 1;
      assert j == m <==> other == slot && w == n - 1;
      WordRoundTrip(PutWords(blk, slot, ip, n - 1), m, InodeWord(ip, n - 1));
    }
  }

  /** A stored inode reads back, and the other inodes of the block are as before. */
  lemma InodeRoundTrip(blk: Block, slot: nat, ip: Inode, other: nat)
    requires slot < IPB && other < IPB
    ensures DecodeInode(PutWords(blk, slot, ip, DINODE_WORDS), other)
            == if other == slot then ip else DecodeInode(blk, other)
  {
    hide WordAt, PutWords, InodeWord, DecodeInode;
    var r, e := PutWords(blk, slot, ip, DINODE_WORDS), if other == slot then ip else DecodeInode(blk, other);
    forall w: nat | w < DINODE_WORDS
      ensures WordAt(r, other, w) == InodeWord(e, w)
    {
      PutWordsAt(blk, slot, ip, DINODE_WORDS, other, w);
      DecodedWord(blk, other, w);
    }
    SameWords(r, other, e);
  }

  lemma DecodedWord(blk: Block, slot: nat, w: nat)
    requires slot < IPB && w < DINODE_WORDS
    ensures InodeWord(DecodeInode(blk, slot), w) == WordAt(blk, slot, w)
  {
    hide WordAt;
  }

  /** An inode is what its words say. */
  lemma SameWords(blk: Block, slot: nat, ip: Inode)
    requires slot < IPB
    requires forall w: nat :: w < DINODE_WORDS ==> WordAt(blk, slot, w) == InodeWord(ip, w)
    ensures DecodeInode(blk, slot) == ip
  {
    hide WordAt;
    assert DecodeInode(blk, slot).addrs == ip.addrs;
  }

  /** Each inode number has a block among the inode blocks, and its slot there holds
      the inode. */
  ghost predicate InodesMatch(sb: Super, data: DiskMap, dinodes: Inodes) {
    && (forall i :: i in dinodes <==> 0 < i < sb.ninodes)
    && (forall i :: i in dinodes ==> IBlock(i, sb) in data && DecodeInode(data[IBlock(i, sb)], i % IPB) == dinodes[i])
  }

  // ------------------------------------------------------- bits of the free map

  ghost predicate MapByte(sb: Super, data: DiskMap, k: nat, v: bv8) {
    && sb.bmapStart + k / BSIZE in data
    && data[sb.bmapStart + k / BSIZE][k % BSIZE] == v as int
  }

  ghost predicate MapMatches(sb: Super, data: DiskMap, bits: seq<bv8>) {
    |bits| == BSIZE * MapBlocks(sb) && forall k: nat :: k < |bits| ==> MapByte(sb, data, k, bits[k])
  }

  /** The map block with the bit for block b set or cleared. */
  function Flipped(blk: Block, b: nat, on: bool): Block {
    var i := b % BPB / 8;
    var v := blk[i] as bv8;
    blk[i := (if on then ByteSet(v, b % 8) else ByteClear(v, b % 8)) as int]
  }

  function BitTo(bits: seq<bv8>, b: nat, on: bool): seq<bv8>
    requires b < 8 * |bits|
  {
    if on then SetBit(bits, b) else ClearBit(bits, b)
  }

  lemma MapIndex(sb: Super, b: nat)
    ensures BBlock(b, sb) == sb.bmapStart + b / 8 / BSIZE && b / 8 % BSIZE == b % BPB / 8
  {
    assert b == b / BPB * BPB + b % BPB;
    assert b / 8 == b / BPB * BSIZE + b % BPB / 8;
  }

  lemma ByteOf(x: Byte, v: bv8)
    requires x == v as int
    ensures x as bv8 == v
  {
  }

  /** Testing a bit where balloc and bfree look for it. */
  lemma BitRead(sb: Super, data: DiskMap, bits: seq<bv8>, b: nat)
    requires MapMatches(sb, data, bits) && b < 8 * |bits|
    ensures BBlock(b, sb) in data
    ensures ByteBit(data[BBlock(b, sb)][b % BPB / 8] as bv8, b % 8) <==> Bit(bits, b)
  {
    hide ByteBit, BBlock;
    MapIndex(sb, b);
    assert MapByte(sb, data, b / 8, bits[b / 8]);
    ByteOf(data[BBlock(b, sb)][b % BPB / 8], bits[b / 8]);
  }

  /** Flipping a bit in its block is flipping it in the map. */
  lemma BitWritten(sb: Super, data: DiskMap, bits: seq<bv8>, b: nat, on: bool)
    requires MapMatches(sb, data, bits) && b < 8 * |bits|
    ensures BBlock(b, sb) in data
    ensures MapMatches(sb, data[BBlock(b, sb) := Flipped(data[BBlock(b, sb)], b, on)], BitTo(bits, b, on))
  {
    hide ByteSet, ByteClear, BBlock;
    MapIndex(sb, b);
    var c := BBlock(b, sb);
    assert MapByte(sb, data, b / 8, bits[b / 8]);
    ByteOf(data[c][b % BPB / 8], bits[b / 8]);
    var data', bits' := data[c := Flipped(data[c], b, on)], BitTo(bits, b, on);
    forall k: nat | k < |bits'|
      ensures MapByte(sb, data', k, bits'[k])
    {
      assert MapByte(sb, data, k, bits[k]);
      assert k / BSIZE == b / 8 / BSIZE && k % BSIZE == b / 8 % BSIZE ==> k == b / 8;
    }
  }

  // ------------------------------------------------------------- frames

  /** The free map and the inodes are in the blocks that hold them. */
  ghost predicate OnDisk(sb: Super, data: DiskMap, bits: seq<bv8>, dinodes: Inodes) {
    MapMatches(sb, data, bits) && InodesMatch(sb, data, dinodes)
  }

  /** s are blocks of the disk, and those outside s are as before. */
  ghost predicate Touched(d0: DiskMap, d1: DiskMap, s: set<nat>) {
    d1.Keys == d0.Keys && s <= d0.Keys && forall b :: b in d0 && b !in s ==> d1[b] == d0[b]
  }

  lemma TouchedTrans(d0: DiskMap, d1: DiskMap, d2: DiskMap, s: set<nat>, t: set<nat>)
    requires Touched(d0, d1, s) && Touched(d1, d2, t)
    ensures Touched(d0, d2, s + t)
  {
  }

  /** Blocks at or after `from` are as before. */
  ghost predicate SameFrom(d0: DiskMap, d1: DiskMap, from: nat) {
    d1.Keys == d0.Keys && forall b :: b in d0 && from <= b ==> d1[b] == d0[b]
  }

  /** Blocks before `to` are as before. */
  ghost predicate SameBelow(d0: DiskMap, d1: DiskMap, to: nat) {
    d1.Keys == d0.Keys && forall b :: b in d0 && b < to ==> d1[b] == d0[b]
  }

  lemma OnDiskFrame(sb: Super, d0: DiskMap, d1: DiskMap, bits: seq<bv8>, dinodes: Inodes)
    requires SuperOk(sb) && OnDisk(sb, d0, bits, dinodes) && SameBelow(d0, d1, sb.dataStart)
    ensures OnDisk(sb, d1, bits, dinodes)
  {
    hide DecodeInode, MapBlocks;
    forall k: nat | k < |bits|
      ensures MapByte(sb, d1, k, bits[k])
    {
      assert MapByte(sb, d0, k, bits[k]);
      assert k / BSIZE < MapBlocks(sb);
    }
    forall i | i in dinodes
      ensures IBlock(i, sb) in d1 && DecodeInode(d1[IBlock(i, sb)], i % IPB) == dinodes[i]
    {
      InodeBlock(sb, i);
    }
  }

  lemma InodeBlock(sb: Super, i: nat)
    requires SuperOk(sb) && i < sb.ninodes
    ensures sb.inodeStart <= IBlock(i, sb) < sb.bmapStart <= sb.dataStart
  {
  }

  /** Writing a map block leaves the inodes, and writing an inode block the map. */
  lemma BitOnDisk(sb: Super, data: DiskMap, bits: seq<bv8>, dinodes: Inodes, b: nat, on: bool)
    requires SuperOk(sb) && OnDisk(sb, data, bits, dinodes) && b < 8 * |bits|
    ensures var c := BBlock(b, sb);
            sb.bmapStart <= c < sb.dataStart && c in data
            && OnDisk(sb, data[c := Flipped(data[c], b, on)], BitTo(bits, b, on), dinodes)
  {
    BitWritten(sb, data, bits, b, on);
    hide DecodeInode, Flipped, MapMatches, BitTo;
    MapBlockOf(sb, bits, b, data);
    forall i | i in dinodes
      ensures IBlock(i, sb) < sb.bmapStart
    {
      InodeBlock(sb, i);
    }
  }

  lemma MapBlockOf(sb: Super, bits: seq<bv8>, b: nat, data: DiskMap)
    requires SuperOk(sb) && MapMatches(sb, data, bits) && b < 8 * |bits|
    ensures sb.bmapStart <= BBlock(b, sb) < sb.dataStart
  {
    assert b / BPB < MapBlocks(sb);
  }

  lemma InodeOnDisk(sb: Super, data: DiskMap, bits: seq<bv8>, dinodes: Inodes, inum: nat, ip: Inode)
    requires SuperOk(sb) && OnDisk(sb, data, bits, dinodes) && inum in dinodes
    ensures var c := IBlock(inum, sb);
            inum < sb.ninodes && sb.inodeStart <= c < sb.bmapStart && c in data
            && OnDisk(sb, data[c := PutWords(data[c], inum % IPB, ip, DINODE_WORDS)], bits, dinodes[inum := ip])
  {
    InodeBlock(sb, inum);
    var c := IBlock(inum, sb);
    var d1 := data[c := PutWords(data[c], inum % IPB, ip, DINODE_WORDS)];
    hide DecodeInode, PutWords, IBlock, MapMatches;
    MapKept(sb, data, bits, c, d1[c]);
    forall i | i in dinodes[inum := ip]
      ensures IBlock(i, sb) in d1 && DecodeInode(d1[IBlock(i, sb)], i % IPB) == dinodes[inum := ip][i]
    {
      InodeRoundTrip(data[c], inum % IPB, ip, i % IPB);
      if IBlock(i, sb) == c && i % IPB == inum % IPB {
        OwnSlot(sb, i, inum);
      }
    }
  }

  lemma MapKept(sb: Super, data: DiskMap, bits: seq<bv8>, c: nat, blk: Block)
    requires MapMatches(sb, data, bits) && c < sb.bmapStart
    ensures MapMatches(sb, data[c := blk], bits)
  {
    forall k: nat | k < |bits|
      ensures MapByte(sb, data[c := blk], k, bits[k])
    {
      assert MapByte(sb, data, k, bits[k]);
    }
  }

  lemma OwnSlot(sb: Super, i: nat, j: nat)
    requires IBlock(i, sb) == IBlock(j, sb) && i % IPB == j % IPB
    ensures i == j
  {
  }

  /** Files are made of data blocks: what happens below them changes no reference
      and no byte. */
  lemma MetaFrame(sb: Super, bits: seq<bv8>, d0: DiskMap, d1: DiskMap, inodes: Inodes, owner: Owners)
    requires FsOk(sb, bits, d0, inodes, owner) && SameFrom(d0, d1, sb.dataStart)
    ensures FsOk(sb, bits, d1, inodes, owner)
    ensures forall i, k :: i in inodes && 0 <= k < SLOTS ==> Ref(inodes[i], d1, k) == Ref(inodes[i], d0, k)
    ensures forall i, j: nat :: i in inodes ==> BlockOf(inodes[i], d1, j) == BlockOf(inodes[i], d0, j)
    ensures forall i, j: nat :: i in inodes ==> ByteAt(inodes[i], d1, j) == ByteAt(inodes[i], d0, j)
    ensures forall i :: i in inodes ==> Content(inodes[i], d1) == Content(inodes[i], d0)
  {
    hide Ref, Bit, BlockOf, ByteAt;
    forall i | i in inodes
      ensures forall k :: 0 <= k < SLOTS ==> Ref(inodes[i], d1, k) == Ref(inodes[i], d0, k)
    {
      MetaRefs(sb, bits, d0, d1, inodes, owner, i);
    }
    assert forall c :: c in owner ==> HasRef(inodes, d0, owner[c], c);
    assert forall c :: c in owner ==> HasRef(inodes, d1, owner[c], c);
    assert DiskOk(sb, bits, d1) && SizesOk(d1, inodes);
    forall i, j: nat | i in inodes
      ensures BlockOf(inodes[i], d1, j) == BlockOf(inodes[i], d0, j)
      ensures ByteAt(inodes[i], d1, j) == ByteAt(inodes[i], d0, j)
    {
      MetaBytes(sb, bits, d0, d1, inodes, owner, i, j);
    }
  }

  lemma MetaRefs(sb: Super, bits: seq<bv8>, d0: DiskMap, d1: DiskMap, inodes: Inodes, owner: Owners, i: nat)
    requires FsOk(sb, bits, d0, inodes, owner) && SameFrom(d0, d1, sb.dataStart) && i in inodes
    ensures forall k :: 0 <= k < SLOTS ==> Ref(inodes[i], d1, k) == Ref(inodes[i], d0, k)
  {
    assert Ref(inodes[i], d0, NDIRECT) == inodes[i].addrs[NDIRECT];
    hide GetWord, Bit, SizesOk;
  }

  lemma MetaBytes(sb: Super, bits: seq<bv8>, d0: DiskMap, d1: DiskMap, inodes: Inodes, owner: Owners, i: nat, j: nat)
    requires FsOk(sb, bits, d0, inodes, owner) && SameFrom(d0, d1, sb.dataStart) && i in inodes
    requires forall k :: 0 <= k < SLOTS ==> Ref(inodes[i], d1, k) == Ref(inodes[i], d0, k)
    ensures BlockOf(inodes[i], d1, j) == BlockOf(inodes[i], d0, j)
    ensures ByteAt(inodes[i], d1, j) == ByteAt(inodes[i], d0, j)
  {
    hide Ref, Bit, SizesOk;
  }

  // --------------------------------------------------------------- disk images

  function BitsOf(sb: Super, img: DiskMap): seq<bv8> {
    seq(BSIZE * MapBlocks(sb), k requires 0 <= k =>
      if sb.bmapStart + k / BSIZE in img then img[sb.bmapStart + k / BSIZE][k % BSIZE] as bv8 else 0)
  }

  predicate IsInum(sb: Super, i: nat) { 0 < i < sb.ninodes }

  function InodesOf(sb: Super, img: DiskMap): Inodes {
    map i: nat | i < sb.ninodes && IsInum(sb, i) && IBlock(i, sb) in img :: DecodeInode(img[IBlock(i, sb)], i % IPB)
  }

  /** The image is a consistent file system: every block a file refers to is a data
      block, marked in use and referred to once, no other data block is marked, and
      every file has all its blocks. */
  ghost predicate ImageOk(sb: Super, img: DiskMap) {
    exists owner :: FsOk(sb, BitsOf(sb, img), img, InodesOf(sb, img), owner) && NoLeak(sb, BitsOf(sb, img), owner)
  }

  /** Decoding the blocks gives back the map and the inodes. */
  lemma Decoded(sb: Super, data: DiskMap, bits: seq<bv8>, dinodes: Inodes)
    requires OnDisk(sb, data, bits, dinodes)
    ensures BitsOf(sb, data) == bits && InodesOf(sb, data) == dinodes
  {
    hide DecodeInode;
    forall k: nat | k < |bits|
      ensures BitsOf(sb, data)[k] == bits[k]
    {
      assert MapByte(sb, data, k, bits[k]);
      ByteOf(data[sb.bmapStart + k / BSIZE][k % BSIZE], bits[k]);
    }
    assert BitsOf(sb, data) == bits;
    forall i
      ensures i in InodesOf(sb, data) <==> i in dinodes
    {
      assert i in dinodes ==> IsInum(sb, i);
    }
    assert InodesOf(sb, data) == dinodes;
  }

  /** One file-system operation: from one consistent image to another, differing only
      in the blocks it logged. */
  ghost predicate Transaction(sb: Super, before: DiskMap, after: DiskMap, txn: set<nat>) {
    ImageOk(sb, before) && ImageOk(sb, after) && Touched(before, after, txn)
  }

  lemma IsTransaction(sb: Super, d0: DiskMap, bits0: seq<bv8>, i0: Inodes, own0: Owners,
                      d1: DiskMap, bits1: seq<bv8>, i1: Inodes, own1: Owners, txn: set<nat>)
    requires FsOk(sb, bits0, d0, i0, own0) && OnDisk(sb, d0, bits0, i0)
    requires FsOk(sb, bits1, d1, i1, own1) && OnDisk(sb, d1, bits1, i1) && Touched(d0, d1, txn)
    requires NoLeak(sb, bits0, own0) && NoLeak(sb, bits1, own1)
    ensures Transaction(sb, d0, d1, txn)
  {
    hide FsOk, NoLeak, OnDisk, Touched;
    Decoded(sb, d0, bits0, i0);
    Decoded(sb, d1, bits1, i1);
  }
}
