/** The file system's blocks and inodes as values: who owns which block, and what
    bytes a file holds. */
module FsState {
  import opened Blocks

  const NDIRECT: nat := 12
  const NINDIRECT: nat := WORDS_PER_BLOCK
  const MAXFILE: nat := NDIRECT + NINDIRECT
  const BPB: nat := BSIZE * 8
  const IPB: nat := 16

  /** References an inode holds: NDIRECT direct ones, the indirect block, and the
      entries of the indirect block. */
  const SLOTS: nat := NDIRECT + 1 + NINDIRECT

  datatype Super = Super(size: nat, ninodes: nat, inodeStart: nat, bmapStart: nat, dataStart: nat)

  /** How many blocks the free map takes. */
  function MapBlocks(sb: Super): nat { (sb.size + BPB - 1) / BPB }

  /** The disk layout of fs.h: inodes, then the free map, then data. */
  ghost predicate SuperOk(sb: Super) {
    && 0 < sb.inodeStart && sb.inodeStart + sb.ninodes / IPB < sb.bmapStart
    && sb.bmapStart + MapBlocks(sb) <= sb.dataStart <= sb.size < 0x1_0000_0000
  }

  function BBlock(b: nat, sb: Super): nat { b / BPB + sb.bmapStart }

  function IBlock(inum: nat, sb: Super): nat { inum / IPB + sb.inodeStart }

  type Addrs = s: seq<Word> | |s| == NDIRECT + 1 witness seq(NDIRECT + 1, i => 0)

  type Half = h: nat | h < 0x1_0000

  /** What the disk keeps of an inode; the short fields as 16-bit patterns. */
  datatype Inode = Inode(kind: Half, major: Half, minor: Half, nlink: Half, size: Word, addrs: Addrs)

  type Inodes = map<nat, Inode>

  // ------------------------------------------------------------------ free map

  /** 1 << k for a bit of a byte. */
  function Mask(k: nat): bv8
    requires k < 8
  {
    if k == 0 then 1 else if k == 1 then 2 else if k == 2 then 4 else if k == 3 then 8
    else if k == 4 then 16 else if k == 5 then 32 else if k == 6 then 64 else 128
  }

  predicate ByteBit(x: bv8, k: nat)
    requires k < 8
  {
    x & Mask(k) != 0
  }

  function ByteSet(x: bv8, k: nat): bv8
    requires k < 8
  {
    x | Mask(k)
  }

  function ByteClear(x: bv8, k: nat): bv8
    requires k < 8
  {
    x & !Mask(k)
  }

  lemma ByteBits(x: bv8, j: nat, k: nat)
    requires j < 8 && k < 8
    ensures ByteBit(ByteSet(x, k), j) <==> j == k || ByteBit(x, j)
    ensures ByteBit(ByteClear(x, k), j) <==> j != k && ByteBit(x, j)
  {
  }

  /** Is block b marked in use? */
  predicate Bit(bits: seq<bv8>, b: nat)
    requires b < 8 * |bits|
  {
    ByteBit(bits[b / 8], b % 8)
  }

  function SetBit(bits: seq<bv8>, b: nat): (r: seq<bv8>)
    requires b < 8 * |bits|
    ensures |r| == |bits|
  {
    bits[b / 8 := ByteSet(bits[b / 8], b % 8)]
  }

  function ClearBit(bits: seq<bv8>, b: nat): (r: seq<bv8>)
    requires b < 8 * |bits|
    ensures |r| == |bits|
  {
    bits[b / 8 := ByteClear(bits[b / 8], b % 8)]
  }

  /** Setting or clearing a bit touches no other. */
  lemma BitChanges(bits: seq<bv8>, b: nat, c: nat)
    requires b < 8 * |bits| && c < 8 * |bits|
    ensures Bit(SetBit(bits, b), c) <==> c == b || Bit(bits, c)
    ensures Bit(ClearBit(bits, b), c) <==> c != b && Bit(bits, c)
  {
    hide ByteBit, ByteSet, ByteClear;
    ByteBits(bits[b / 8], c % 8, b % 8);
  }

  // ----------------------------------------------------------------- ownership

  /** The block number in slot k of an inode, zero if there is none. */
  function Ref(ip: Inode, data: DiskMap, k: nat): Word
    requires k < SLOTS
  {
    if k <= NDIRECT then ip.addrs[k]
    else if ip.addrs[NDIRECT] == 0 || ip.addrs[NDIRECT] !in data then 0
    else GetWord(data[ip.addrs[NDIRECT]], k - NDIRECT - 1)
  }

  /** A place that can hold a block number. */
  datatype Loc = Loc(inum: nat, slot: nat)

  type Owners = map<nat, Loc>

  ghost predicate HasRef(inodes: Inodes, data: DiskMap, l: Loc, b: nat) {
    l.inum in inodes && l.slot < SLOTS && Ref(inodes[l.inum], data, l.slot) == b
  }

  ghost predicate DiskOk(sb: Super, bits: seq<bv8>, data: DiskMap) {
    && SuperOk(sb)
    && sb.size <= 8 * |bits|
    && (forall b: nat :: sb.inodeStart <= b < sb.size ==> b in data)
    && (forall b: nat :: b < sb.dataStart ==> Bit(bits, b))
  }

  /** Every reference is to a data block, whose bit is set, and no block is
      referenced from two places; owner is the inverse of the references. */
  ghost predicate OwnedOnce(sb: Super, bits: seq<bv8>, data: DiskMap, inodes: Inodes, owner: Owners)
    requires DiskOk(sb, bits, data)
  {
    && (forall i, k :: i in inodes && 0 <= k < SLOTS && Ref(inodes[i], data, k) != 0 ==>
          Ref(inodes[i], data, k) in owner && owner[Ref(inodes[i], data, k)] == Loc(i, k))
    && (forall b :: b in owner ==>
          b != 0 && sb.dataStart <= b < sb.size && Bit(bits, b) && HasRef(inodes, data, owner[b], b))
  }

  /** Where the number of the bn-th block of a file is kept. */
  function FileSlot(bn: nat): (k: nat)
    requires bn < MAXFILE
    ensures k < SLOTS && k != NDIRECT
  {
    if bn < NDIRECT then bn else bn + 1
  }

  /** Every block below a file's size is there. */
  ghost predicate Mapped(ip: Inode, data: DiskMap, size: nat) {
    size <= MAXFILE * BSIZE && forall bn: nat :: bn < MAXFILE && bn * BSIZE < size ==> Ref(ip, data, FileSlot(bn)) != 0
  }

  ghost predicate SizesOk(data: DiskMap, inodes: Inodes) {
    forall i :: i in inodes ==> Mapped(inodes[i], data, inodes[i].size)
  }

  ghost predicate FsOk(sb: Super, bits: seq<bv8>, data: DiskMap, inodes: Inodes, owner: Owners) {
    DiskOk(sb, bits, data) && OwnedOnce(sb, bits, data, inodes, owner) && SizesOk(data, inodes)
  }

  /** No data block is marked in use that no file refers to. */
  ghost predicate NoLeak(sb: Super, bits: seq<bv8>, owner: Owners) {
    forall b: nat :: sb.dataStart <= b < sb.size && b < 8 * |bits| && Bit(bits, b) ==> b in owner
  }

  // ------------------------------------------------------------------ contents

  /** The block that holds byte j of a file, zero if there is none. */
  function BlockOf(ip: Inode, data: DiskMap, j: nat): Word {
    if j / BSIZE < MAXFILE then Ref(ip, data, FileSlot(j / BSIZE)) else 0
  }

  /** Byte j of a file, whether or not it is below the size. */
  function ByteAt(ip: Inode, data: DiskMap, j: nat): Byte {
    var b := BlockOf(ip, data, j);
    if b != 0 && b in data then data[b][j % BSIZE] else 0
  }

  /** The file as a byte sequence. */
  function Content(ip: Inode, data: DiskMap): seq<Byte> {
    seq(ip.size, j requires 0 <= j => ByteAt(ip, data, j))
  }

  /** Files other than `inum` are as before. */
  ghost predicate OthersKept(data: DiskMap, inodes: Inodes, data': DiskMap, inodes': Inodes, inum: nat) {
    && inodes'.Keys == inodes.Keys
    && forall i :: i in inodes && i != inum ==>
         inodes'[i] == inodes[i] && Content(inodes'[i], data') == Content(inodes[i], data)
  }

  // --------------------------------------------------- writing into a data block

  /** Two views of the disk that agree on every indirect block give the same references. */
  lemma RefFrame(ip: Inode, data: DiskMap, data': DiskMap, k: nat)
    requires k < SLOTS && data'.Keys == data.Keys
    requires ip.addrs[NDIRECT] != 0 && ip.addrs[NDIRECT] in data ==> data'[ip.addrs[NDIRECT]] == data[ip.addrs[NDIRECT]]
    ensures Ref(ip, data', k) == Ref(ip, data, k)
  {
  }

  /** A block owned as file data is nobody's indirect block. */
  lemma DataIsNotIndirect(sb: Super, bits: seq<bv8>, data: DiskMap, inodes: Inodes, owner: Owners, b: nat, i: nat)
    requires DiskOk(sb, bits, data) && OwnedOnce(sb, bits, data, inodes, owner) && i in inodes
    requires b !in owner || owner[b].slot != NDIRECT
    ensures b != 0 ==> inodes[i].addrs[NDIRECT] != b
  {
    assert Ref(inodes[i], data, NDIRECT) == inodes[i].addrs[NDIRECT];
  }

  /** Rewriting a block that is not an indirect block keeps every reference. */
  lemma WriteKeepsRefs(sb: Super, bits: seq<bv8>, data: DiskMap, inodes: Inodes, owner: Owners, b: nat, blk: Block)
    requires FsOk(sb, bits, data, inodes, owner) && b in data && b != 0
    requires b !in owner || owner[b].slot != NDIRECT
    ensures forall i, k :: i in inodes && 0 <= k < SLOTS ==>
              Ref(inodes[i], data[b := blk], k) == Ref(inodes[i], data, k)
    ensures FsOk(sb, bits, data[b := blk], inodes, owner)
  {
    var data' := data[b := blk];
    assert data'.Keys == data.Keys;
    forall i, k | i in inodes && 0 <= k < SLOTS
      ensures Ref(inodes[i], data', k) == Ref(inodes[i], data, k)
    {
      DataIsNotIndirect(sb, bits, data, inodes, owner, b, i);
      RefFrame(inodes[i], data, data', k);
    }
    hide Ref;
    assert forall c :: c in owner ==> HasRef(inodes, data', owner[c], c);
    assert DiskOk(sb, bits, data');
  }

  /** What a write into block b means for the bytes of files. */
  lemma WriteBytes(sb: Super, bits: seq<bv8>, data: DiskMap, inodes: Inodes, owner: Owners, b: nat, blk: Block,
                   i: nat, j: nat)
    requires FsOk(sb, bits, data, inodes, owner) && b in data && b != 0 && i in inodes
    requires b !in owner || owner[b].slot != NDIRECT
    ensures BlockOf(inodes[i], data[b := blk], j) == BlockOf(inodes[i], data, j)
    ensures var mine := j / BSIZE < MAXFILE && b in owner && owner[b] == Loc(i, FileSlot(j / BSIZE));
            ByteAt(inodes[i], data[b := blk], j) == if mine then blk[j % BSIZE] else ByteAt(inodes[i], data, j)
  {
    WriteKeepsRefs(sb, bits, data, inodes, owner, b, blk);
    if j / BSIZE < MAXFILE {
      var k := FileSlot(j / BSIZE);
      var r := Ref(inodes[i], data, k);
      assert r != 0 ==> r in owner && owner[r] == Loc(i, k);
      assert b in owner && owner[b] == Loc(i, k) ==> HasRef(inodes, data, owner[b], b);
      hide Ref;
      assert r == b <==> b in owner && owner[b] == Loc(i, k);
    }
  }

  // ------------------------------------------------------- adding a reference

  lemma ZeroBlockWords(k: nat)
    requires k < WORDS_PER_BLOCK
    ensures GetWord(ZeroBlock(), k) == 0
  {
  }

  /** bmap stores block number b in slot k of inode inum. */
  function RefInodes(inodes: Inodes, inum: nat, k: nat, b: Word): Inodes
    requires inum in inodes
  {
    if k <= NDIRECT then inodes[inum := inodes[inum].(addrs := inodes[inum].addrs[k := b])] else inodes
  }

  function RefData(data: DiskMap, inodes: Inodes, inum: nat, k: nat, b: Word): DiskMap
    requires inum in inodes && k < SLOTS && (k > NDIRECT ==> inodes[inum].addrs[NDIRECT] in data)
  {
    if k <= NDIRECT then data
    else data[inodes[inum].addrs[NDIRECT] := SetWord(data[inodes[inum].addrs[NDIRECT]], k - NDIRECT - 1, b)]
  }

  /** A marked, zeroed block that nobody refers to. */
  ghost predicate Spare(sb: Super, bits: seq<bv8>, data: DiskMap, owner: Owners, b: nat)
    requires DiskOk(sb, bits, data)
  {
    b != 0 && sb.dataStart <= b < sb.size && Bit(bits, b) && b !in owner && data[b] == ZeroBlock()
  }

  lemma NewRefs(sb: Super, bits: seq<bv8>, data: DiskMap, inodes: Inodes, owner: Owners, inum: nat, k: nat, b: Word,
                i: nat, l: nat)
    requires DiskOk(sb, bits, data) && OwnedOnce(sb, bits, data, inodes, owner) && Spare(sb, bits, data, owner, b)
    requires inum in inodes && i in inodes && k < SLOTS && l < SLOTS && Ref(inodes[inum], data, k) == 0
    requires k > NDIRECT ==> inodes[inum].addrs[NDIRECT] != 0 && inodes[inum].addrs[NDIRECT] in data
    ensures Ref(RefInodes(inodes, inum, k, b)[i], RefData(data, inodes, inum, k, b), l)
            == if i == inum && l == k then b else Ref(inodes[i], data, l)
  {
    var inodes', data' := RefInodes(inodes, inum, k, b), RefData(data, inodes, inum, k, b);
    var ind, ind' := inodes[i].addrs[NDIRECT], inodes[inum].addrs[NDIRECT];
    if k <= NDIRECT {
      if i == inum && k == NDIRECT && l > NDIRECT {
        ZeroBlockWords(l - NDIRECT - 1);
      }
    } else {
      assert Ref(inodes[i], data, NDIRECT) == ind && Ref(inodes[inum], data, NDIRECT) == ind';
      assert i != inum ==> ind != ind';
      WordRoundTrip(data[ind'], k - NDIRECT - 1, b);
    }
  }

  lemma SetRefOwned(sb: Super, bits: seq<bv8>, data: DiskMap, inodes: Inodes, owner: Owners, inum: nat, k: nat, b: Word)
    requires DiskOk(sb, bits, data) && OwnedOnce(sb, bits, data, inodes, owner) && Spare(sb, bits, data, owner, b)
    requires inum in inodes && k < SLOTS && Ref(inodes[inum], data, k) == 0
    requires k > NDIRECT ==> inodes[inum].addrs[NDIRECT] != 0 && inodes[inum].addrs[NDIRECT] in data
    ensures var data' := RefData(data, inodes, inum, k, b);
            DiskOk(sb, bits, data') && OwnedOnce(sb, bits, data', RefInodes(inodes, inum, k, b),
                                                 owner[b := Loc(inum, k)])
  {
    var data', inodes' := RefData(data, inodes, inum, k, b), RefInodes(inodes, inum, k, b);
    var owner' := owner[b := Loc(inum, k)];
    forall i, l | i in inodes && 0 <= l < SLOTS
      ensures Ref(inodes'[i], data', l) == if i == inum && l == k then b else Ref(inodes[i], data, l)
    {
      NewRefs(sb, bits, data, inodes, owner, inum, k, b, i, l);
    }
    assert data'.Keys == data.Keys && inodes'.Keys == inodes.Keys;
    hide Ref, RefData, RefInodes;
    assert DiskOk(sb, bits, data');
    forall c | c in owner'
      ensures HasRef(inodes', data', owner'[c], c)
    {
      if c != b {
        assert HasRef(inodes, data, owner[c], c);
        assert !(owner[c].inum == inum && owner[c].slot == k);
      }
    }
  }

  /** A new reference changes no byte below any file's size. */
  lemma SetRefBytes(sb: Super, bits: seq<bv8>, data: DiskMap, inodes: Inodes, owner: Owners, inum: nat, k: nat,
                    b: Word, i: nat, j: nat)
    requires DiskOk(sb, bits, data) && OwnedOnce(sb, bits, data, inodes, owner) && Spare(sb, bits, data, owner, b)
    requires inum in inodes && k < SLOTS && Ref(inodes[inum], data, k) == 0
    requires k > NDIRECT ==> inodes[inum].addrs[NDIRECT] != 0 && inodes[inum].addrs[NDIRECT] in data
    requires i in inodes && BlockOf(inodes[i], data, j) != 0
    ensures var data', inodes' := RefData(data, inodes, inum, k, b), RefInodes(inodes, inum, k, b);
            && BlockOf(inodes'[i], data', j) == BlockOf(inodes[i], data, j)
            && ByteAt(inodes'[i], data', j) == ByteAt(inodes[i], data, j)
  {
    var l := FileSlot(j / BSIZE);
    NewRefs(sb, bits, data, inodes, owner, inum, k, b, i, l);
    var r := Ref(inodes[i], data, l);
    assert r in owner && owner[r] == Loc(i, l);
    if k > NDIRECT {
      var ind := inodes[inum].addrs[NDIRECT];
      assert Ref(inodes[inum], data, NDIRECT) == ind && owner[ind] == Loc(inum, NDIRECT);
      assert r != ind;
    }
  }

  lemma SetRefOk(sb: Super, bits: seq<bv8>, data: DiskMap, inodes: Inodes, owner: Owners, inum: nat, k: nat, b: Word)
    requires FsOk(sb, bits, data, inodes, owner) && Spare(sb, bits, data, owner, b)
    requires inum in inodes && k < SLOTS && Ref(inodes[inum], data, k) == 0
    requires k > NDIRECT ==> inodes[inum].addrs[NDIRECT] != 0 && inodes[inum].addrs[NDIRECT] in data
    ensures var data', inodes' := RefData(data, inodes, inum, k, b), RefInodes(inodes, inum, k, b);
            && FsOk(sb, bits, data', inodes', owner[b := Loc(inum, k)])
            && Ref(inodes'[inum], data', k) == b
            && inodes'.Keys == inodes.Keys && data'.Keys == data.Keys
            && forall i :: i in inodes ==>
                 inodes'[i].size == inodes[i].size && Content(inodes'[i], data') == Content(inodes[i], data)
  {
    SetRefOwned(sb, bits, data, inodes, owner, inum, k, b);
    NewRefs(sb, bits, data, inodes, owner, inum, k, b, inum, k);
    var data', inodes' := RefData(data, inodes, inum, k, b), RefInodes(inodes, inum, k, b);
    forall i | i in inodes
      ensures inodes'[i].size == inodes[i].size && Mapped(inodes'[i], data', inodes'[i].size)
      ensures Content(inodes'[i], data') == Content(inodes[i], data)
    {
      forall j: nat | j < inodes[i].size
        ensures ByteAt(inodes'[i], data', j) == ByteAt(inodes[i], data, j)
        ensures BlockOf(inodes'[i], data', j) == BlockOf(inodes[i], data, j) != 0
      {
        MappedAt(inodes[i], data, inodes[i].size, j);
        SetRefBytes(sb, bits, data, inodes, owner, inum, k, b, i, j);
      }
      forall bn: nat | bn < MAXFILE && bn * BSIZE < inodes[i].size
        ensures Ref(inodes'[i], data', FileSlot(bn)) != 0
      {
        assert (bn * BSIZE) / BSIZE == bn;
        assert BlockOf(inodes'[i], data', bn * BSIZE) != 0;
      }
    }
  }

  lemma MappedAt(ip: Inode, data: DiskMap, size: nat, j: nat)
    requires Mapped(ip, data, size) && j < size
    ensures BlockOf(ip, data, j) != 0
  {
    assert j / BSIZE * BSIZE <= j;
  }
}
