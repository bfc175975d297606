/** fs.c on blocks and inodes: allocation, block maps, reading and writing.  What
    the log and the cache show of the disk is the map `data`, free map and inodes
    included; `logged` collects the blocks an operation passes to log_write. */
module Fs {
  import opened Blocks
  import opened FsState
  import opened FsImage

  /** Bytes of mapped blocks, and where they are, stay as they are. */
  ghost predicate Extends(data: DiskMap, inodes: Inodes, data': DiskMap, inodes': Inodes) {
    && inodes'.Keys == inodes.Keys && data'.Keys == data.Keys
    && (forall i :: i in inodes ==> inodes'[i] == inodes[i].(addrs := inodes'[i].addrs))
    && (forall i, j: nat :: i in inodes && BlockOf(inodes[i], data, j) != 0 ==>
          && BlockOf(inodes'[i], data', j) == BlockOf(inodes[i], data, j)
          && ByteAt(inodes'[i], data', j) == ByteAt(inodes[i], data, j))
  }

  lemma ExtendsTrans(d0: DiskMap, i0: Inodes, d1: DiskMap, i1: Inodes, d2: DiskMap, i2: Inodes)
    requires Extends(d0, i0, d1, i1) && Extends(d1, i1, d2, i2)
    ensures Extends(d0, i0, d2, i2)
  {
    hide Ref, BlockOf, ByteAt;
  }

  /** Bit bi of the map block that starts at block number b. */
  lemma BitPlace(sb: Super, b: nat, bi: nat)
    requires b % BPB == 0 && bi < BPB
    ensures BBlock(b + bi, sb) == BBlock(b, sb) && (b + bi) % BPB == bi && (b + bi) % 8 == bi % 8
  {
    assert b == b / BPB * BPB;
  }

  /** No block is left. */
  ghost predicate Full(bits: seq<bv8>, size: nat) {
    forall c: nat :: c < size ==> c < 8 * |bits| && Bit(bits, c)
  }

  class Fs {
    const sb: Super
    var data: DiskMap
    var inodes: Inodes
    ghost var bits: seq<bv8>
    ghost var dinodes: Inodes
    ghost var owner: Owners
    ghost var logged: set<nat>

    /** bits and dinodes are what the map and inode blocks of data hold. */
    ghost predicate Valid()
      reads this
    {
      FsOk(sb, bits, data, inodes, owner) && OnDisk(sb, data, bits, dinodes) && inodes.Keys == dinodes.Keys
    }

    /** As between operations: the disk has every inode, and no block is lost. */
    ghost predicate Settled()
      reads this
    {
      inodes == dinodes && NoLeak(sb, bits, owner)
    }

    constructor (s: Super, d: DiskMap, nodes: Inodes, ghost b: seq<bv8>, ghost own: Owners)
      requires FsOk(s, b, d, nodes, own) && OnDisk(s, d, b, nodes)
      ensures Valid() && sb == s && data == d && inodes == nodes && dinodes == nodes
      ensures bits == b && owner == own && logged == {}
    {
      sb := s;
      data := d;
      inodes := nodes;
      bits := b;
      dinodes := nodes;
      owner := own;
      logged := {};
    }

    /** balloc's two loops: the first block whose bit is clear, sb.size if there is none. */
    method FindFree() returns (r: nat)
      requires sb.size <= 8 * |bits| && MapMatches(sb, data, bits)
      ensures r <= sb.size && forall c: nat :: c < r ==> Bit(bits, c)
      ensures r < sb.size ==> !Bit(bits, r)
    {
      hide ByteBit, Bit, MapMatches, BBlock;
      var b := 0;
      while b < sb.size
        invariant b % BPB == 0 && (forall c: nat :: c < b && c < sb.size ==> Bit(bits, c))
      {
        var bi := 0;
        while bi < BPB && b + bi < sb.size
          invariant 0 <= bi <= BPB && forall c: nat :: c < b + bi && c < sb.size ==> Bit(bits, c)
        {
          BitPlace(sb, b, bi);
          BitRead(sb, data, bits, b + bi);
          if !ByteBit(data[BBlock(b, sb)][bi / 8] as bv8, bi % 8) {
            return b + bi;
          }
          bi := bi + 1;
        }
        b := b + BPB;
      }
      return sb.size;
    }

    /** balloc: mark the first free block and zero it; 0 stands for the panic. */
    method Balloc() returns (r: Word)
      requires Valid()
      modifies this`bits, this`data, this`logged
      ensures Valid()
      ensures r == 0 <==> Full(old(bits), sb.size)
      ensures r == 0 ==> bits == old(bits) && data == old(data) && logged == old(logged)
      ensures r != 0 ==> sb.dataStart <= r < sb.size && r in old(data) && r < 8 * |old(bits)| && !Bit(old(bits), r)
      ensures r != 0 ==> forall c: nat :: c < r ==> Bit(old(bits), c)
      ensures r != 0 ==> BBlock(r, sb) in old(data) && BBlock(r, sb) < sb.dataStart
      ensures r != 0 ==> bits == SetBit(old(bits), r) && data == WithBlock(sb, old(data), r)
      ensures r != 0 ==> Spare(sb, bits, data, owner, r) && Extends(old(data), inodes, data, inodes)
      ensures r != 0 ==> logged == old(logged) + {BBlock(r, sb), r} && Touched(old(data), data, {BBlock(r, sb), r})
    {
      hide SetBit, ByteBit, Ref, Extends, OwnedOnce, SizesOk, Spare, MapMatches, InodesMatch, Flipped, BBlock, Touched;
      var b := FindFree();
      if b == sb.size {
        return 0;
      }
      AllocatedOnDisk(sb, bits, data, inodes, dinodes, owner, b);
      bits := SetBit(bits, b);
      data := data[BBlock(b, sb) := Flipped(data[BBlock(b, sb)], b, true)];
      data := data[b := ZeroBlock()];
      logged := logged + {BBlock(b, sb), b};
      return b;
    }

    /** bfree: clear the block's bit; false stands for "freeing free block". */
    method Bfree(b: nat) returns (ok: bool)
      requires SuperOk(sb) && OnDisk(sb, data, bits, dinodes) && b < sb.size <= 8 * |bits|
      modifies this`bits, this`data, this`logged
      ensures OnDisk(sb, data, bits, dinodes) && SameFrom(old(data), data, sb.dataStart)
      ensures ok <==> Bit(old(bits), b)
      ensures ok ==> bits == ClearBit(old(bits), b) && logged == old(logged) + {BBlock(b, sb)}
      ensures ok ==> Touched(old(data), data, {BBlock(b, sb)})
      ensures !ok ==> bits == old(bits) && data == old(data) && logged == old(logged)
    {
      hide ByteBit, ByteClear, Bit, ClearBit, OnDisk, Flipped, BBlock, SuperOk, SameFrom, Touched;
      var bi := b % BPB;
      BitCleared(sb, data, bits, dinodes, b);
      ok := ByteBit(data[BBlock(b, sb)][bi / 8] as bv8, bi % 8);
      if ok {
        bits := ClearBit(bits, b);
        data := data[BBlock(b, sb) := Flipped(data[BBlock(b, sb)], b, false)];
        logged := logged + {BBlock(b, sb)};
      }
    }

    /** Allocate a block for an empty slot: balloc and the assignment that follows.
        For an entry of the indirect block, that block is logged as well. */
    method FillSlot(inum: nat, k: nat) returns (addr: Word)
      requires Valid() && inum in inodes && k < SLOTS && Ref(inodes[inum], data, k) == 0
      requires k > NDIRECT ==> inodes[inum].addrs[NDIRECT] != 0 && inodes[inum].addrs[NDIRECT] in data
      modifies this`bits, this`data, this`inodes, this`owner, this`logged
      ensures Valid() && Extends(old(data), old(inodes), data, inodes)
      ensures addr == 0 ==> logged == old(logged) && bits == old(bits) && data == old(data) && inodes == old(inodes)
      ensures addr == 0 <==> Full(old(bits), sb.size)
      ensures old(NoLeak(sb, bits, owner)) ==> NoLeak(sb, bits, owner)
      ensures addr != 0 ==> inum in inodes && Ref(inodes[inum], data, k) == addr && addr in data
      ensures addr != 0 && k == NDIRECT ==> data[addr] == ZeroBlock()
      ensures addr != 0 ==> inodes == RefInodes(old(inodes), inum, k, addr)
      ensures addr != 0 ==> addr < sb.size
      ensures addr != 0 ==> logged == old(logged) + SlotBlocks(sb, addr, inodes[inum].addrs[NDIRECT], k > NDIRECT)
      ensures addr != 0 ==> Touched(old(data), data, SlotBlocks(sb, addr, inodes[inum].addrs[NDIRECT], k > NDIRECT))
    {
      hide Ref, Extends, OwnedOnce, SizesOk, Spare, DiskOk, RefData, RefInodes, Bit, Full, OnDisk, WithBlock, Touched,
        NoLeak;
      addr := Balloc();
      if addr == 0 {
        ExtendsSame(data, inodes);
        return;
      }
      ghost var d1 := data;
      SlotStillEmpty(sb, old(bits), old(data), inodes, owner, inum, k, addr);
      SetRefExtends(sb, bits, data, inodes, owner, inum, k, addr);
      RefUpdates(data, inodes, inum, k, addr);
      SpareIsZero(sb, bits, data, owner, addr);
      TakenIsOwned(sb, old(bits), owner, addr, Loc(inum, k));
      owner := owner[addr := Loc(inum, k)];
      if k <= NDIRECT {
        inodes := inodes[inum := inodes[inum].(addrs := inodes[inum].addrs[k := addr])];
      } else {
        var ind := inodes[inum].addrs[NDIRECT];
        IndirectWritten(sb, bits, data, inodes, dinodes, old(owner), inum, SetWord(data[ind], k - NDIRECT - 1, addr));
        data := data[ind := SetWord(data[ind], k - NDIRECT - 1, addr)];
        logged := logged + {ind};
        TouchedTrans(old(data), d1, data, {BBlock(addr, sb), addr as nat}, {ind as nat});
      }
      assert k <= NDIRECT ==> {BBlock(addr, sb), addr as nat} + {} == {BBlock(addr, sb), addr as nat};
      ExtendsTrans(old(data), old(inodes), d1, old(inodes), data, inodes);
    }

    /** bmap: the disk address of a file's bn-th block, allocating it if needed; 0
        stands for a panic.  The ghost results say what had to be allocated. */
    method Bmap(inum: nat, bn: nat) returns (addr: Word, ghost newData: bool, ghost newInd: bool)
      requires Valid() && inum in inodes && bn < MAXFILE
      modifies this`bits, this`data, this`inodes, this`owner, this`logged
      ensures Valid() && Extends(old(data), old(inodes), data, inodes) && inum in inodes
      ensures forall i :: i in old(inodes) && i != inum ==> i in inodes && inodes[i] == old(inodes)[i]
      ensures addr == 0 ==> Full(bits, sb.size)
      ensures old(NoLeak(sb, bits, owner)) ==> NoLeak(sb, bits, owner)
      ensures addr != 0 ==> addr < sb.size && (bn >= NDIRECT ==> 0 < inodes[inum].addrs[NDIRECT] < sb.size)
      ensures newData <==> Ref(old(inodes)[inum], old(data), FileSlot(bn)) == 0
      ensures newInd ==> newData && bn >= NDIRECT && old(inodes)[inum].addrs[NDIRECT] == 0
      ensures !newData ==> data == old(data) && inodes == old(inodes) && bits == old(bits) && logged == old(logged)
      ensures !newData ==> owner == old(owner)
      ensures !newData ==> addr == Ref(old(inodes)[inum], old(data), FileSlot(bn))
      ensures addr != 0 ==> Ref(inodes[inum], data, FileSlot(bn)) == addr && addr in data
      ensures addr != 0 && old(inodes)[inum].addrs[NDIRECT] != 0 ==>
                inodes[inum].addrs[NDIRECT] == old(inodes)[inum].addrs[NDIRECT]
      ensures addr != 0 && newData ==>
                logged == old(logged) + NewBlocks(sb, addr, inodes[inum].addrs[NDIRECT], bn >= NDIRECT, newInd)
      ensures addr != 0 && newData ==>
                Touched(old(data), data, NewBlocks(sb, addr, inodes[inum].addrs[NDIRECT], bn >= NDIRECT, newInd))
    {
      hide Extends, OwnedOnce, SizesOk, DiskOk, Bit, OnDisk, Touched, BBlock, GetWord, Full, NoLeak;
      newInd := false;
      ExtendsSame(data, inodes);
      if bn < NDIRECT {
        addr := inodes[inum].addrs[bn];
        newData := addr == 0;
        if addr == 0 {
          addr := FillSlot(inum, bn);
          assert addr != 0 ==> SlotBlocks(sb, addr, inodes[inum].addrs[NDIRECT], false)
                               == NewBlocks(sb, addr, inodes[inum].addrs[NDIRECT], false, false);
        } else {
          RefInData(sb, bits, data, inodes, owner, inum, bn);
        }
        return;
      }
      newData := Ref(inodes[inum], data, FileSlot(bn)) == 0;
      addr := inodes[inum].addrs[NDIRECT];
      ghost var d1, i1 := data, inodes;
      if addr == 0 {
        newInd := true;
        addr := FillSlot(inum, NDIRECT);
        if addr == 0 {
          return;
        }
        EmptyIndirect(old(data), old(inodes), data, inodes, inum, bn);
        ZeroBlockWords(bn - NDIRECT);
        d1, i1 := data, inodes;
      } else {
        RefInData(sb, bits, data, inodes, owner, inum, NDIRECT);
      }
      addr := GetWord(data[addr], bn - NDIRECT);
      if addr == 0 {
        addr := FillSlot(inum, FileSlot(bn));
        ExtendsTrans(old(data), old(inodes), d1, i1, data, inodes);
        if addr != 0 {
          BlocksOfSlots(sb, old(data), d1, data, addr, inodes[inum].addrs[NDIRECT], newInd);
        }
      } else {
        RefInData(sb, bits, data, inodes, owner, inum, FileSlot(bn));
      }
    }

    /** readi: the bytes from off on, at most n, clipped to the file's size. */
    method Readi(inum: nat, off0: Word, n0: Word) returns (out: seq<Byte>)
      requires Valid() && inum in inodes
      modifies this
      ensures bits == old(bits) && data == old(data) && inodes == old(inodes) && dinodes == old(dinodes)
      ensures owner == old(owner) && logged == old(logged)
      ensures out == if off0 > inodes[inum].size || off0 + n0 >= 0x1_0000_0000 then []
                     else if off0 + n0 > inodes[inum].size then Content(inodes[inum], data)[off0..]
                     else Content(inodes[inum], data)[off0..off0 + n0]
    {
      hide FsOk, OnDisk, Ref, ByteAt, Extends, Touched, NewBlocks, BBlock;
      var ip := inodes[inum];
      if off0 > ip.size || off0 + n0 >= 0x1_0000_0000 {
        return [];
      }
      var n: nat := if off0 + n0 > ip.size then ip.size - off0 else n0;
      var tot: nat, off: nat := 0, off0;
      out := [];
      while tot < n
        invariant tot <= n && off == off0 + tot && out == Content(ip, data)[off0..off]
        invariant Valid() && bits == old(bits) && data == old(data) && inodes == old(inodes) && dinodes == old(dinodes)
        invariant owner == old(owner) && logged == old(logged)
      {
        FileMapped(sb, bits, data, inodes, owner, inum, off);
        var addr, _, _ := Bmap(inum, off / BSIZE);
        var m: nat := if n - tot < BSIZE - off % BSIZE then n - tot else BSIZE - off % BSIZE;
        ChunkIsContent(ip, data, off, m);
        out := out + data[addr][off % BSIZE..off % BSIZE + m];
        tot, off := tot + m, off + m;
      }
    }

    /** One iteration of writei: bmap, copy, log_write. */
    method WriteChunk(inum: nat, off: nat, piece: seq<Byte>) returns (addr: Word, ghost newData: bool,
                                                                      ghost newInd: bool)
      requires Valid() && inum in inodes && off / BSIZE < MAXFILE && off % BSIZE + |piece| <= BSIZE
      modifies this`bits, this`data, this`inodes, this`owner, this`logged
      ensures Valid() && inodes.Keys == old(inodes.Keys) && inum in inodes
      ensures inodes[inum] == old(inodes)[inum].(addrs := inodes[inum].addrs)
      ensures addr == 0 ==> Full(bits, sb.size)
      ensures old(NoLeak(sb, bits, owner)) ==> NoLeak(sb, bits, owner)
      ensures addr != 0 ==> BytesSet(old(data), old(inodes)[inum], data, inodes[inum], off, piece)
      ensures addr != 0 ==> OthersKept(old(data), old(inodes), data, inodes, inum)
      ensures addr != 0 ==> addr < sb.size && (off / BSIZE >= NDIRECT ==> 0 < inodes[inum].addrs[NDIRECT] < sb.size)
      ensures newData <==> Ref(old(inodes)[inum], old(data), FileSlot(off / BSIZE)) == 0
      ensures newInd ==> newData && off / BSIZE >= NDIRECT && old(inodes)[inum].addrs[NDIRECT] == 0
      ensures addr != 0 && old(inodes)[inum].addrs[NDIRECT] != 0 ==>
                inodes[inum].addrs[NDIRECT] == old(inodes)[inum].addrs[NDIRECT]
      ensures addr != 0 ==>
                logged == old(logged) + ChunkBlocks(sb, addr, inodes[inum].addrs[NDIRECT], off / BSIZE >= NDIRECT,
                                                    newData, newInd)
      ensures addr != 0 ==>
                Touched(old(data), data, ChunkBlocks(sb, addr, inodes[inum].addrs[NDIRECT], off / BSIZE >= NDIRECT,
                                                     newData, newInd))
    {
      hide FsOk, Ref, BlockOf, ByteAt, Extends, BytesSet, OthersKept, NewBlocks, SizesOk, OnDisk, Touched, Full, NoLeak;
      SizesOf(sb, bits, data, inodes, owner);
      addr, newData, newInd := Bmap(inum, off / BSIZE);
      ExtendsKeys(old(data), old(inodes), data, inodes, inum);
      if addr == 0 {
        return;
      }
      ghost var d1 := data;
      var o := off % BSIZE;
      var blk: Block := data[addr][..o] + piece + data[addr][o + |piece|..];
      ChunkWritten(sb, bits, old(data), old(inodes), data, inodes, owner, inum, off, piece, addr, blk);
      DataWritten(sb, bits, data, inodes, dinodes, owner, inum, FileSlot(off / BSIZE), blk);
      data := data[addr := blk];
      logged := logged + {addr};
      ChunkTouched(sb, old(data), d1, data, addr, inodes[inum].addrs[NDIRECT], off / BSIZE >= NDIRECT, newData, newInd);
    }

    /** writei: replace or append bytes.  Rejected stands for -1; NoBlocks for
        balloc's panic.  txn is what the call passes to log_write. */
    method Writei(inum: nat, off0: Word, src: seq<Byte>) returns (r: WriteResult, ghost txn: set<nat>)
      requires Valid() && inum in inodes && |src| < 0x1_0000_0000
      modifies this
      ensures r.Rejected? <==>
                off0 > old(inodes)[inum].size || off0 + |src| >= 0x1_0000_0000 || off0 + |src| > MAXFILE * BSIZE
      ensures r.Rejected? ==> bits == old(bits) && data == old(data) && inodes == old(inodes)
      ensures r.Rejected? ==> dinodes == old(dinodes) && logged == old(logged) && owner == old(owner)
      ensures Valid() && inum in inodes
      ensures r.Written? ==> r.n == |src| && Wrote(old(data), old(inodes), data, inodes, inum, off0, src)
      ensures r.Written? ==> dinodes == old(dinodes)[inum := inodes[inum]] && logged == old(logged) + txn
      ensures r.Written? && |src| <= CHUNK ==> |txn| <= MAXOPBLOCKS
      ensures r.Written? && |src| <= CHUNK && sb.size <= BPB ==> |txn| <= 7
      ensures r.Written? ==> Touched(old(data), data, txn)
      ensures r.Written? && old(Settled()) ==> Settled() && Transaction(sb, old(data), data, txn)
      ensures r.NoBlocks? ==> Full(bits, sb.size)
    {
      hide FsOk, Ref, BlockOf, ByteAt, BytesSet, OthersKept, NewBlocks, Content, Spliced, TallyOk, Counted, Rounds,
        SizesOk, IBlock, OnDisk, Touched, Transaction, ChunkBlocks, Wrote, SameFiles, DecodeInode,
        Full, NoLeak;
      ghost var d0, nodes0 := data, inodes;
      txn := {};
      if off0 > inodes[inum].size || off0 + |src| >= 0x1_0000_0000 {
        return Rejected, {};
      }
      if off0 + |src| > MAXFILE * BSIZE {
        return Rejected, {};
      }
      var tot: nat, off: nat := 0, off0;
      ghost var ta := Tally(0, 0, {}, {}, {}, false);
      NothingWritten(sb, d0, nodes0, inum, off0, src, logged);
      SizesOf(sb, bits, data, inodes, owner);
      while tot < |src|
        invariant tot <= |src| && off == off0 + tot && Valid() && inum in inodes && dinodes == old(dinodes)
        invariant WriteSoFar(sb, d0, nodes0, data, inodes, inum, off0, src, tot, ta, old(logged), logged)
        invariant old(NoLeak(sb, bits, owner)) ==> NoLeak(sb, bits, owner)
      {
        var m: nat := if |src| - tot < BSIZE - off % BSIZE then |src| - tot else BSIZE - off % BSIZE;
        RoundStarts(sb, bits, d0, nodes0, data, inodes, owner, inum, off0, src, tot, m, ta, old(logged), logged);
        ghost var d1, nodes1, logged1 := data, inodes, logged;
        var addr; ghost var newData, newInd;
        addr, newData, newInd := WriteChunk(inum, off, src[tot..tot + m]);
        if addr == 0 {
          return NoBlocks, {};
        }
        ta := RoundDone(sb, d0, nodes0, d1, nodes1, data, inodes, inum, off0, src, tot, m, ta, old(logged), logged1,
                        logged, addr, newData, newInd);
        tot, off := tot + m, off + m;
      }
      assert src[..tot] == src;
      WriteFinished(sb, bits, d0, nodes0, data, inodes, owner, inum, off0, src);
      TallyTotal(sb, ta, inodes[inum].addrs[NDIRECT], IBlock(inum, sb), off0 % BSIZE, |src|);
      if off > inodes[inum].size {
        inodes := inodes[inum := inodes[inum].(size := off)];
      }
      ghost var d1 := data;
      Iupdate(inum);
      txn := ta.d + ta.b + ta.i + {IBlock(inum, sb)};
      WriteCommitted(sb, d0, old(bits), nodes0, old(dinodes), old(owner), d1, data, bits, inodes, dinodes, owner,
                     inum, off0, src, ta.d + ta.b + ta.i);
      return Written(tot), txn;
    }

    /** filewrite on an inode: one writei, and one transaction, per chunk.  On
        success all of src is in the file; otherwise the chunks before the failing
        one are.  txns lists what each transaction logged. */
    method FileWrite(inum: nat, off0: Word, src: seq<Byte>)
      returns (r: WriteResult, off: nat, ghost txns: seq<set<nat>>, ghost images: seq<DiskMap>)
      requires Valid() && inum in inodes && |src| < 0x8000_0000
      modifies this
      ensures Valid() && inum in inodes && off0 <= off <= off0 + |src|
      ensures forall t :: 0 <= t < |txns| ==> |txns[t]| <= MAXOPBLOCKS && (sb.size <= BPB ==> |txns[t]| <= 7)
      ensures !r.NoBlocks? ==>
                (r.Rejected? <==> src != [] && (off0 > old(inodes)[inum].size || off0 + |src| > MAXFILE * BSIZE))
      ensures r.Written? ==> r.n == |src| && off == off0 + |src|
      ensures !r.NoBlocks? && off0 <= old(inodes)[inum].size ==>
                Content(inodes[inum], data) == Spliced(Content(old(inodes)[inum], old(data)), off0, src[..off - off0])
      ensures !r.NoBlocks? ==> OthersKept(old(data), old(inodes), data, inodes, inum)
      ensures !r.NoBlocks? ==> logged == old(logged) + Union(txns)
      ensures r.Rejected? ==> off == off0 || (off0 <= old(inodes)[inum].size && off + CHUNK > MAXFILE * BSIZE)
      ensures |images| == |txns| + 1 && images[0] == old(data) && (r.NoBlocks? || images[|txns|] == data)
      ensures old(Settled()) ==> Transactions(sb, images, txns) && (r.NoBlocks? || Settled())
      ensures r.NoBlocks? ==> Full(bits, sb.size)
    {
      hide FsOk, Content, OthersKept, Spliced, Union, OnDisk, Touched, Transaction, Full, NoLeak;
      ghost var d0, nodes0 := data, inodes;
      var i: nat := 0;
      off := off0;
      txns, images := [], [data];
      NoChunks(d0, nodes0, inum, off0, src, logged);
      while i < |src|
        invariant i <= |src| && off == off0 + i && Valid() && inum in inodes
        invariant i > 0 ==> off <= MAXFILE * BSIZE
        invariant forall t :: 0 <= t < |txns| ==> |txns[t]| <= MAXOPBLOCKS && (sb.size <= BPB ==> |txns[t]| <= 7)
        invariant ChunksDone(d0, nodes0, data, inodes, inum, off0, src, i) && logged == old(logged) + Union(txns)
        invariant |images| == |txns| + 1 && images[0] == old(data) && images[|txns|] == data
        invariant old(Settled()) ==> Transactions(sb, images, txns) && Settled()
      {
        var n1 := if |src| - i > CHUNK then CHUNK else |src| - i;
        ghost var d1, nodes1, logged1 := data, inodes, logged;
        ChunkSize(d0, nodes0, data, inodes, inum, off0, src, i);
        var w; ghost var txn;
        w, txn := Writei(inum, off, src[i..i + n1]);
        if !w.Written? {
          return w, off, txns, images;
        }
        NextChunk(d0, nodes0, d1, nodes1, data, inodes, inum, off0, src, i, n1);
        UnionMore(txns, txn, old(logged), logged1, logged);
        txns, images := txns + [txn], images + [data];
        off := off + w.n;
        i := i + w.n;
      }
      return Written(|src|), off, txns, images;
    }

    /** itrunc's first loop: free and clear the direct slots. */
    method FreeDirect(inum: nat)
      requires Valid() && inum in inodes
      modifies this`bits, this`data, this`inodes, this`logged
      ensures FreedUpTo(sb, old(bits), bits, owner, inum, NDIRECT) && OnDisk(sb, data, bits, dinodes)
      ensures inum in inodes && inodes == old(inodes)[inum := old(inodes)[inum].(addrs := inodes[inum].addrs)]
      ensures forall k :: 0 <= k <= NDIRECT ==>
                inodes[inum].addrs[k] == if k < NDIRECT then 0 else old(inodes)[inum].addrs[k]
      ensures logged == old(logged) + FreedMaps(sb, owner, inum, NDIRECT)
      ensures MapsWritten(sb, old(data), data, owner, inum, NDIRECT)
    {
      hide FsOk, Bit, ClearBit, FreedUpTo, FreedMaps, BBlock, OnDisk, MapsWritten, SuperOk, Touched, SameFrom;
      ghost var bits0, nodes0, d0 := bits, inodes, data;
      NothingFreed(sb, bits, data, inodes, owner, inum);
      var i: nat := 0;
      while i < NDIRECT
        invariant i <= NDIRECT && inum in inodes && FreedUpTo(sb, bits0, bits, owner, inum, i)
        invariant inodes == nodes0[inum := nodes0[inum].(addrs := inodes[inum].addrs)]
        invariant forall k :: 0 <= k <= NDIRECT ==> inodes[inum].addrs[k] == if k < i then 0 else nodes0[inum].addrs[k]
        invariant logged == old(logged) + FreedMaps(sb, owner, inum, i)
        invariant OnDisk(sb, data, bits, dinodes) && MapsWritten(sb, d0, data, owner, inum, i)
      {
        FreeNext(sb, bits0, bits, d0, nodes0, owner, inum, i, i);
        ghost var d1 := data;
        if inodes[inum].addrs[i] != 0 {
          var ok := Bfree(inodes[inum].addrs[i]);
          inodes := inodes[inum := inodes[inum].(addrs := inodes[inum].addrs[i := 0])];
        }
        NextMap(sb, d0, d1, data, owner, inum, i, nodes0[inum].addrs[i]);
        i := i + 1;
      }
    }

    /** itrunc's second loop: free the blocks listed in the indirect block. */
    method FreeIndirect(inum: nat, ghost d0: DiskMap, ghost nodes0: Inodes, ghost bits0: seq<bv8>, ghost base: set<nat>)
      requires FsOk(sb, bits0, d0, nodes0, owner) && inum in inodes && inum in nodes0
      requires inodes[inum].addrs[NDIRECT] == nodes0[inum].addrs[NDIRECT] != 0
      requires FreedUpTo(sb, bits0, bits, owner, inum, NDIRECT)
      requires logged == base + FreedMaps(sb, owner, inum, NDIRECT)
      requires OnDisk(sb, data, bits, dinodes) && MapsWritten(sb, d0, data, owner, inum, NDIRECT)
      modifies this`bits, this`data, this`logged
      ensures FreedUpTo(sb, bits0, bits, owner, inum, SLOTS - 1)
      ensures logged == base + FreedMaps(sb, owner, inum, SLOTS - 1)
      ensures OnDisk(sb, data, bits, dinodes) && MapsWritten(sb, d0, data, owner, inum, SLOTS - 1)
    {
      hide FsOk, Bit, ClearBit, FreedUpTo, FreedMaps, BBlock, OnDisk, MapsWritten, SuperOk, Touched, SameFrom, GetWord;
      OwnedRef(sb, bits0, d0, nodes0, owner, inum, NDIRECT);
      IndirectKept(sb, bits0, d0, data, nodes0, owner, inum, NDIRECT);
      var a := data[inodes[inum].addrs[NDIRECT]];
      var j: nat := 0;
      while j < NINDIRECT
        invariant j <= NINDIRECT && FreedUpTo(sb, bits0, bits, owner, inum, NDIRECT + j)
        invariant logged == base + FreedMaps(sb, owner, inum, NDIRECT + j)
        invariant OnDisk(sb, data, bits, dinodes) && MapsWritten(sb, d0, data, owner, inum, NDIRECT + j)
      {
        FreeNext(sb, bits0, bits, d0, nodes0, owner, inum, NDIRECT + j, NDIRECT + 1 + j);
        ghost var d1 := data;
        if GetWord(a, j) != 0 {
          var ok := Bfree(GetWord(a, j));
        }
        NextMap(sb, d0, d1, data, owner, inum, NDIRECT + j, GetWord(a, j));
        j := j + 1;
      }
    }

    /** itrunc: give back every block of the file, then empty it. */
    method Itrunc(inum: nat)
      requires Valid() && inum in inodes
      modifies this
      ensures Valid()
      ensures inodes == old(inodes)[inum := old(inodes)[inum].(size := 0, addrs := NoAddrs())]
      ensures inum in inodes && forall k :: 0 <= k < SLOTS ==> Ref(inodes[inum], data, k) == 0
      ensures OthersKept(old(data), old(inodes), data, inodes, inum)
      ensures |bits| == |old(bits)| && forall b: nat :: b < 8 * |bits| ==>
                (Bit(bits, b) <==> Bit(old(bits), b) && !(b in old(owner) && old(owner)[b].inum == inum))
      ensures dinodes == old(dinodes)[inum := inodes[inum]]
      ensures logged == old(logged) + FreedMaps(sb, old(owner), inum, SLOTS) + {IBlock(inum, sb)}
      ensures sb.size <= BPB ==> |FreedMaps(sb, old(owner), inum, SLOTS)| <= 1
      ensures Touched(old(data), data, FreedMaps(sb, old(owner), inum, SLOTS) + {IBlock(inum, sb)})
      ensures old(Settled()) ==> Settled()
      ensures old(Settled()) ==>
                Transaction(sb, old(data), data, FreedMaps(sb, old(owner), inum, SLOTS) + {IBlock(inum, sb)})
    {
      hide FsOk, Bit, ClearBit, FreedUpTo, FreedMaps, BBlock, OwnedOnce, SizesOk, OthersKept, OnDisk, MapsWritten,
        SuperOk, Touched, SameFrom, IBlock, Transaction, Ref, Gone, SameFiles, DecodeInode, NoLeak;
      ghost var bits0, nodes0, d0 := bits, inodes, data;
      NothingFreed(sb, bits, data, inodes, owner, inum);
      FreeDirect(inum);
      if inodes[inum].addrs[NDIRECT] != 0 {
        FreeIndirect(inum, d0, nodes0, bits0, old(logged));
        FreeNext(sb, bits0, bits, d0, nodes0, owner, inum, SLOTS - 1, NDIRECT);
        IndirectKept(sb, bits0, d0, d0, nodes0, owner, inum, 0);
        ghost var d1 := data;
        var ok := Bfree(inodes[inum].addrs[NDIRECT]);
        NextMap(sb, d0, d1, data, owner, inum, SLOTS - 1, nodes0[inum].addrs[NDIRECT]);
        inodes := inodes[inum := inodes[inum].(addrs := inodes[inum].addrs[NDIRECT := 0])];
      } else {
        NoIndirect(sb, bits0, bits, d0, nodes0, owner, inum);
        NoMoreMaps(sb, d0, data, owner, inum);
      }
      inodes := inodes[inum := inodes[inum].(size := 0)];
      ghost var owner' := Others(owner, inum);
      TruncatedImage(sb, bits0, bits, d0, data, nodes0, inodes, owner, owner', inum);
      owner := owner';
      ghost var d2 := data;
      Iupdate(inum);
      TruncatedOnDisk(sb, d0, d2, data, nodes0, inodes, old(owner), inum);
      Committed(sb, d0, bits0, nodes0, old(dinodes), old(owner), data, bits, inodes, dinodes, owner, inum,
                FreedMaps(sb, old(owner), inum, SLOTS) + {IBlock(inum, sb)});
    }

    /** iupdate: copy the in-memory inode into its slot of its block.  It reads back
        from there, and the other inodes of the block are as before. */
    method Iupdate(inum: nat)
      requires Valid() && inum in inodes
      modifies this`data, this`dinodes, this`logged
      ensures Valid() && dinodes == old(dinodes)[inum := inodes[inum]] && logged == old(logged) + {IBlock(inum, sb)}
      ensures Touched(old(data), data, {IBlock(inum, sb)}) && IBlock(inum, sb) in old(data)
      ensures DecodeInode(data[IBlock(inum, sb)], inum % IPB) == inodes[inum]
      ensures forall j: nat :: j < IPB && j != inum % IPB ==>
                DecodeInode(data[IBlock(inum, sb)], j) == DecodeInode(old(data)[IBlock(inum, sb)], j)
      ensures SameFiles(inodes, old(data), data)
    {
      hide FsOk, OnDisk, SetWord, DecodeInode, IBlock, SameFrom, SameFiles;
      DiskOf(sb, bits, data, inodes, owner);
      InodeOnDisk(sb, data, bits, dinodes, inum, inodes[inum]);
      var slot, ip := inum % IPB, inodes[inum];
      var bp := data[IBlock(inum, sb)];
      FirstWords(bp, slot, ip);
      bp := SetWord(bp, DINODE_WORDS * slot, ip.kind + 0x1_0000 * ip.major);
      bp := SetWord(bp, DINODE_WORDS * slot + 1, ip.minor + 0x1_0000 * ip.nlink);
      bp := SetWord(bp, DINODE_WORDS * slot + 2, ip.size);
      var k: nat := 0;
      while k <= NDIRECT
        invariant k <= NDIRECT + 1 && bp == PutWords(data[IBlock(inum, sb)], slot, ip, 3 + k)
      {
        bp := SetWord(bp, DINODE_WORDS * slot + 3 + k, ip.addrs[k]);
        k := k + 1;
      }
      InodeWritten(sb, bits, data, inodes, owner, inum, bp);
      data := data[IBlock(inum, sb) := bp];
      dinodes := dinodes[inum := inodes[inum]];
      logged := logged + {IBlock(inum, sb)};
    }

    /** What ilock reads from the disk: the inode iupdate last wrote.  ok is false on
        the panic for an inode without a type. */
    method ReadInode(inum: nat) returns (ip: Inode, ok: bool)
      requires Valid() && inum in inodes
      ensures ip == dinodes[inum] && (ok <==> ip.kind != 0)
    {
      hide FsOk, GetWord;
      var slot, bp := inum % IPB, data[IBlock(inum, sb)];
      var addrs: seq<Word> := [];
      while |addrs| <= NDIRECT
        invariant |addrs| <= NDIRECT + 1 && forall k :: 0 <= k < |addrs| ==> addrs[k] == WordAt(bp, slot, 3 + k)
        decreases NDIRECT + 1 - |addrs|
      {
        addrs := addrs + [WordAt(bp, slot, 3 + |addrs|)];
      }
      var w0, w1 := WordAt(bp, slot, 0), WordAt(bp, slot, 1);
      ip := Inode(w0 % 0x1_0000, w0 / 0x1_0000, w1 % 0x1_0000, w1 / 0x1_0000, WordAt(bp, slot, 2), addrs);
      assert ip.addrs == DecodeInode(bp, slot).addrs;
      ok := ip.kind != 0;
    }
  }

  datatype WriteResult = Rejected | NoBlocks | Written(n: nat)

  const MAXOPBLOCKS: nat := 10

  /** filewrite's chunk: room for inode, indirect block, and two blocks of slop. */
  const CHUNK: nat := ((MAXOPBLOCKS - 1 - 1 - 2) / 2) * BSIZE

  /** c with src written over it at off, extended if it reaches past the end. */
  function Spliced(c: seq<Byte>, off: nat, src: seq<Byte>): seq<Byte>
    requires off <= |c|
  {
    c[..off] + src + (if off + |src| < |c| then c[off + |src|..] else [])
  }

  /** src is in the file at off, and nothing else in it or in another file changed. */
  ghost predicate Wrote(d0: DiskMap, i0: Inodes, d1: DiskMap, i1: Inodes, inum: nat, off: nat, src: seq<Byte>) {
    && inum in i0 && inum in i1 && off <= i0[inum].size
    && Content(i1[inum], d1) == Spliced(Content(i0[inum], d0), off, src)
    && i1[inum] == i0[inum].(size := i1[inum].size, addrs := i1[inum].addrs)
    && OthersKept(d0, i0, d1, i1, inum)
  }

  /** writei's loop after tot bytes: they are in place, the rest of the file and the
      other files are as before, and the tally covers what was logged. */
  ghost predicate WriteSoFar(sb: Super, d0: DiskMap, i0: Inodes, d: DiskMap, i: Inodes, inum: nat,
                             off0: nat, src: seq<Byte>, tot: nat, ta: Tally, base: set<nat>, logged: set<nat>)
    requires tot <= |src| && inum in i0
  {
    && i.Keys == i0.Keys && i[inum] == i0[inum].(addrs := i[inum].addrs)
    && BytesSet(d0, i0[inum], d, i[inum], off0, src[..tot]) && OthersKept(d0, i0, d, i, inum)
    && TallyOk(sb, ta, i[inum].addrs[NDIRECT]) && logged == base + ta.d + ta.b + ta.i
    && Touched(d0, d, ta.d + ta.b + ta.i)
    && Rounds(off0 % BSIZE, tot, |src|, ta.iters)
    && (off0 % BSIZE != 0 && ta.iters > 0 ==> ta.allocs < ta.iters)
  }

  lemma NothingWritten(sb: Super, d0: DiskMap, nodes: Inodes, inum: nat, off: nat, src: seq<Byte>, base: set<nat>)
    requires inum in nodes
    ensures WriteSoFar(sb, d0, nodes, d0, nodes, inum, off, src, 0, Tally(0, 0, {}, {}, {}, false), base, base)
  {
    hide BlockOf, ByteAt;
  }

  lemma RoundStarts(sb: Super, bits: seq<bv8>, d0: DiskMap, i0: Inodes, d: DiskMap, i: Inodes, owner: Owners,
                    inum: nat, off0: nat, src: seq<Byte>, tot: nat, m: nat, ta: Tally, base: set<nat>, logged: set<nat>)
    requires tot < |src| && off0 + |src| <= MAXFILE * BSIZE && inum in i0 && off0 <= i0[inum].size
    requires FsOk(sb, bits, d, i, owner)
    requires WriteSoFar(sb, d0, i0, d, i, inum, off0, src, tot, ta, base, logged)
    requires m == if |src| - tot < BSIZE - (off0 + tot) % BSIZE then |src| - tot else BSIZE - (off0 + tot) % BSIZE
    ensures (off0 + tot) / BSIZE < MAXFILE && 0 < m && (off0 + tot) % BSIZE + m <= BSIZE
    ensures Rounds(off0 % BSIZE, tot + m, |src|, ta.iters + 1)
    ensures ta.iters == 0 && off0 % BSIZE != 0 ==> Ref(i[inum], d, FileSlot((off0 + tot) / BSIZE)) != 0
  {
    hide FsOk, Ref, OthersKept, BytesSet, TallyOk, Rounds;
    ChunkArith(off0, tot, |src|, m, ta.iters);
    FirstIsMapped(sb, bits, d, i, owner, inum, off0 + tot, off0 % BSIZE != 0 && ta.iters == 0);
  }

  lemma RoundDone(sb: Super, d0: DiskMap, i0: Inodes, d1: DiskMap, i1: Inodes, d2: DiskMap, i2: Inodes,
                  inum: nat, off0: nat, src: seq<Byte>, tot: nat, m: nat, ta: Tally, base: set<nat>,
                  logged1: set<nat>, logged2: set<nat>,
                  addr: nat, newData: bool, newInd: bool) returns (t: Tally)
    requires tot + m <= |src| && inum in i0
    requires WriteSoFar(sb, d0, i0, d1, i1, inum, off0, src, tot, ta, base, logged1)
    requires Rounds(off0 % BSIZE, tot + m, |src|, ta.iters + 1)
    requires i2.Keys == i1.Keys && i2[inum] == i1[inum].(addrs := i2[inum].addrs)
    requires BytesSet(d1, i1[inum], d2, i2[inum], off0 + tot, src[tot..tot + m]) && OthersKept(d1, i1, d2, i2, inum)
    requires addr < sb.size && ((off0 + tot) / BSIZE >= NDIRECT ==> 0 < i2[inum].addrs[NDIRECT] < sb.size)
    requires newInd ==> newData && (off0 + tot) / BSIZE >= NDIRECT && i1[inum].addrs[NDIRECT] == 0
    requires i1[inum].addrs[NDIRECT] != 0 ==> i2[inum].addrs[NDIRECT] == i1[inum].addrs[NDIRECT]
    requires var s := ChunkBlocks(sb, addr, i2[inum].addrs[NDIRECT], (off0 + tot) / BSIZE >= NDIRECT, newData, newInd);
             logged2 == logged1 + s && Touched(d1, d2, s)
    requires ta.iters == 0 && off0 % BSIZE != 0 ==> !newData
    ensures WriteSoFar(sb, d0, i0, d2, i2, inum, off0, src, tot + m, t, base, logged2)
  {
    hide NewBlocks, OthersKept, BytesSet, Rounds, MapBlock, Touched, ChunkBlocks, Counted;
    var s := ChunkBlocks(sb, addr, i2[inum].addrs[NDIRECT], (off0 + tot) / BSIZE >= NDIRECT, newData, newInd);
    TouchedTrans(d0, d1, d2, ta.d + ta.b + ta.i, s);
    BytesSetNext(d0, i0[inum], d1, i1[inum], d2, i2[inum], off0, src, tot, m);
    OthersTrans(d0, i0, d1, i1, d2, i2, inum);
    t := TallyStep(sb, ta, i1[inum].addrs[NDIRECT], i2[inum].addrs[NDIRECT], addr, (off0 + tot) / BSIZE >= NDIRECT,
                   newData, newInd, base, logged1, logged2);
  }

  lemma BytesSetNext(d0: DiskMap, ip0: Inode, d1: DiskMap, ip1: Inode, d2: DiskMap, ip2: Inode, off0: nat,
                     src: seq<Byte>, tot: nat, m: nat)
    requires tot + m <= |src| && BytesSet(d0, ip0, d1, ip1, off0, src[..tot])
    requires BytesSet(d1, ip1, d2, ip2, off0 + tot, src[tot..tot + m])
    ensures BytesSet(d0, ip0, d2, ip2, off0, src[..tot + m])
  {
    hide BlockOf, ByteAt;
    forall j: nat | off0 <= j < off0 + tot + m
      ensures BlockOf(ip2, d2, j) != 0 && ByteAt(ip2, d2, j) == src[..tot + m][j - off0]
    {
      if j < off0 + tot {
        assert BlockOf(ip1, d1, j) != 0 && ByteAt(ip1, d1, j) == src[..tot][j - off0];
      } else {
        assert ByteAt(ip2, d2, j) == src[tot..tot + m][j - off0 - tot];
      }
    }
  }

  lemma OthersTrans(d0: DiskMap, i0: Inodes, d1: DiskMap, i1: Inodes, d2: DiskMap, i2: Inodes, inum: nat)
    requires OthersKept(d0, i0, d1, i1, inum) && OthersKept(d1, i1, d2, i2, inum)
    ensures OthersKept(d0, i0, d2, i2, inum)
  {
    hide Content;
  }

  lemma WriteFinished(sb: Super, bits: seq<bv8>, d0: DiskMap, i0: Inodes, d1: DiskMap, i1: Inodes, owner: Owners,
                      inum: nat, off: nat, src: seq<Byte>)
    requires FsOk(sb, bits, d1, i1, owner) && inum in i0 && inum in i1 && SizesOk(d0, i0)
    requires i1[inum] == i0[inum].(addrs := i1[inum].addrs) && off <= i0[inum].size && off + |src| <= MAXFILE * BSIZE
    requires BytesSet(d0, i0[inum], d1, i1[inum], off, src) && OthersKept(d0, i0, d1, i1, inum)
    ensures var i2 := if off + |src| > i1[inum].size then i1[inum := i1[inum].(size := off + |src|)] else i1;
            FsOk(sb, bits, d1, i2, owner) && Wrote(d0, i0, d1, i2, inum, off, src)
  {
    hide FsOk, Content, BytesSet, SizesOk, Mapped;
    var i2 := if off + |src| > i1[inum].size then i1[inum := i1[inum].(size := off + |src|)] else i1;
    assert i2[inum].addrs == i1[inum].addrs;
    ResizeOk(sb, bits, d1, i1, owner, inum, i2, d0, i0, off, src);
    assert Mapped(i0[inum], d0, i0[inum].size) by { SizeOf(d0, i0, inum); }
    SplicedContent(d0, i0[inum], d1, i1[inum], i2[inum], off, src);
  }

  lemma SizeOf(data: DiskMap, inodes: Inodes, inum: nat)
    requires SizesOk(data, inodes) && inum in inodes
    ensures Mapped(inodes[inum], data, inodes[inum].size)
  {
  }

  lemma SplicedContent(d0: DiskMap, ip0: Inode, d1: DiskMap, ip1: Inode, ip2: Inode, off: nat, src: seq<Byte>)
    requires Mapped(ip0, d0, ip0.size) && BytesSet(d0, ip0, d1, ip1, off, src) && ip2.addrs == ip1.addrs
    requires off <= ip0.size
    requires ip2.size == if off + |src| > ip0.size then off + |src| else ip0.size
    ensures |Content(ip0, d0)| == ip0.size && Content(ip2, d1) == Spliced(Content(ip0, d0), off, src)
  {
    hide Mapped;
    var c, e := Content(ip2, d1), Spliced(Content(ip0, d0), off, src);
    assert |c| == |e|;
    forall j: nat | j < |c|
      ensures c[j] == e[j]
    {
      SameAddrs(ip1, ip2, d1, j);
      if j < ip0.size {
        MappedAt(ip0, d0, ip0.size, j);
      }
      hide BlockOf, ByteAt;
    }
  }

  lemma SameAddrs(ip1: Inode, ip2: Inode, d: DiskMap, j: nat)
    requires ip2.addrs == ip1.addrs
    ensures BlockOf(ip2, d, j) == BlockOf(ip1, d, j) && ByteAt(ip2, d, j) == ByteAt(ip1, d, j)
    ensures forall k :: 0 <= k < SLOTS ==> Ref(ip2, d, k) == Ref(ip1, d, k)
  {
  }

  lemma ResizeOk(sb: Super, bits: seq<bv8>, d1: DiskMap, i1: Inodes, owner: Owners, inum: nat, i2: Inodes,
                 d0: DiskMap, i0: Inodes, off: nat, src: seq<Byte>)
    requires FsOk(sb, bits, d1, i1, owner) && inum in i0 && inum in i1 && SizesOk(d0, i0)
    requires i1[inum].size == i0[inum].size
    requires off <= i0[inum].size && off + |src| <= MAXFILE * BSIZE && BytesSet(d0, i0[inum], d1, i1[inum], off, src)
    requires i2 == if off + |src| > i1[inum].size then i1[inum := i1[inum].(size := off + |src|)] else i1
    ensures FsOk(sb, bits, d1, i2, owner)
  {
    hide Ref, BlockOf, ByteAt, BytesSet, Bit;
    if off + |src| > i1[inum].size {
      SameAddrs(i1[inum], i2[inum], d1, 0);
      forall bn: nat | bn < MAXFILE && bn * BSIZE < off + |src|
        ensures Ref(i2[inum], d1, FileSlot(bn)) != 0
      {
        MappedAfter(i0[inum], d0, i1[inum], d1, off, src, bn);
      }
      hide FileSlot;
      assert forall i, k :: i in i1 && 0 <= k < SLOTS ==> Ref(i2[i], d1, k) == Ref(i1[i], d1, k);
    }
  }

  lemma MappedAfter(ip0: Inode, d0: DiskMap, ip1: Inode, d1: DiskMap, off: nat, src: seq<Byte>, bn: nat)
    requires Mapped(ip0, d0, ip0.size) && off <= ip0.size && BytesSet(d0, ip0, d1, ip1, off, src)
    requires bn < MAXFILE && bn * BSIZE < off + |src|
    ensures Ref(ip1, d1, FileSlot(bn)) != 0
  {
    var j := bn * BSIZE;
    assert j / BSIZE == bn;
    if j < ip0.size {
      MappedAt(ip0, d0, ip0.size, j);
    }
    hide Ref;
    assert BlockOf(ip1, d1, j) != 0;
  }

  // ------------------------------------------------------------ whole writes

  function Union(sets: seq<set<nat>>): set<nat> {
    if sets == [] then {} else Union(sets[..|sets| - 1]) + sets[|sets| - 1]
  }

  lemma UnionMore(sets: seq<set<nat>>, s: set<nat>, base: set<nat>, before: set<nat>, after: set<nat>)
    requires before == base + Union(sets) && after == before + s
    ensures after == base + Union(sets + [s])
  {
    assert (sets + [s])[..|sets|] == sets;
  }

  /** The first i bytes of src are in the file, the other files are as before. */
  ghost predicate ChunksDone(d0: DiskMap, i0: Inodes, d: DiskMap, nodes: Inodes, inum: nat, off0: nat, src: seq<Byte>,
                             i: nat)
    requires inum in i0 && inum in nodes && i <= |src|
  {
    && OthersKept(d0, i0, d, nodes, inum)
    && (i > 0 ==> off0 <= i0[inum].size)
    && (off0 > i0[inum].size ==> nodes == i0)
    && (off0 <= i0[inum].size ==>
          off0 <= |Content(i0[inum], d0)| && Content(nodes[inum], d) == Spliced(Content(i0[inum], d0), off0, src[..i]))
  }

  lemma NoChunks(d0: DiskMap, i0: Inodes, inum: nat, off0: nat, src: seq<Byte>, base: set<nat>)
    requires inum in i0
    ensures ChunksDone(d0, i0, d0, i0, inum, off0, src, 0) && base == base + Union([])
  {
    var c := Content(i0[inum], d0);
    hide Content;
    if off0 <= |c| {
      assert c == c[..off0] + [] + c[off0..];
    }
  }

  lemma ChunkSize(d0: DiskMap, i0: Inodes, d: DiskMap, nodes: Inodes, inum: nat, off0: nat, src: seq<Byte>, i: nat)
    requires inum in i0 && inum in nodes && i <= |src| && ChunksDone(d0, i0, d, nodes, inum, off0, src, i)
    ensures off0 + i <= nodes[inum].size <==> off0 <= i0[inum].size
    ensures |Content(nodes[inum], d)| == nodes[inum].size
  {
    hide ByteAt, OthersKept;
    if off0 <= i0[inum].size {
      assert |Content(nodes[inum], d)| >= off0 + i;
    }
  }

  lemma NextChunk(d0: DiskMap, i0: Inodes, d1: DiskMap, i1: Inodes, d2: DiskMap, i2: Inodes,
                  inum: nat, off0: nat, src: seq<Byte>, i: nat, n: nat)
    requires inum in i0 && inum in i1 && inum in i2 && i + n <= |src| && ChunksDone(d0, i0, d1, i1, inum, off0, src, i)
    requires off0 <= i0[inum].size && off0 + i <= |Content(i1[inum], d1)| && OthersKept(d1, i1, d2, i2, inum)
    requires Content(i2[inum], d2) == Spliced(Content(i1[inum], d1), off0 + i, src[i..i + n])
    ensures ChunksDone(d0, i0, d2, i2, inum, off0, src, i + n)
  {
    var c := Content(i0[inum], d0);
    hide Content, Spliced, OthersKept;
    OthersTrans(d0, i0, d1, i1, d2, i2, inum);
    SplicedTwice(c, off0, src[..i], src[i..i + n]);
    assert src[..i] + src[i..i + n] == src[..i + n];
  }

  lemma SplicedTwice(c: seq<Byte>, off: nat, a: seq<Byte>, b: seq<Byte>)
    requires off <= |c|
    ensures off + |a| <= |Spliced(c, off, a)| && Spliced(Spliced(c, off, a), off + |a|, b) == Spliced(c, off, a + b)
  {
    var s := Spliced(c, off, a);
    assert s[..off + |a|] == c[..off] + a;
    if off + |a| + |b| < |s| {
      assert s[off + |a| + |b|..] == c[off + |a| + |b|..];
    }
    assert c[..off] + a + b == c[..off] + (a + b);
  }

  // --------------------------------------------------------------- truncation

  /** Clearing the bit of block b where bfree finds it. */
  lemma BitCleared(sb: Super, data: DiskMap, bits: seq<bv8>, dinodes: Inodes, b: nat)
    requires SuperOk(sb) && OnDisk(sb, data, bits, dinodes) && b < 8 * |bits|
    ensures var c := BBlock(b, sb);
            && c in data && b % BPB % 8 == b % 8
            && (ByteBit(data[c][b % BPB / 8] as bv8, b % 8) <==> Bit(bits, b))
            && var data' := data[c := Flipped(data[c], b, false)];
               OnDisk(sb, data', ClearBit(bits, b), dinodes) && SameFrom(data, data', sb.dataStart)
               && Touched(data, data', {c}) && SameFrom(data, data, sb.dataStart)
  {
    hide ByteBit, ByteClear, Bit, ClearBit, MapMatches, InodesMatch, Flipped, BBlock;
    BitRead(sb, data, bits, b);
    BitOnDisk(sb, data, bits, dinodes, b, false);
  }

  /** The blocks of the other files. */
  ghost function Others(owner: Owners, inum: nat): Owners {
    map b | b in owner && owner[b].inum != inum :: owner[b]
  }

  /** The order in which itrunc frees the slots of an inode. */
  function Rank(slot: nat): nat {
    if slot < NDIRECT then slot else if slot == NDIRECT then SLOTS - 1 else slot - 1
  }

  ghost predicate Gone(owner: Owners, inum: nat, n: nat, b: nat) {
    b in owner && owner[b].inum == inum && Rank(owner[b].slot) < n
  }

  /** The blocks in the first n slots have been freed, and no others. */
  ghost predicate FreedUpTo(sb: Super, bits0: seq<bv8>, bits: seq<bv8>, owner: Owners, inum: nat, n: nat) {
    && |bits| == |bits0|
    && forall b: nat :: b < 8 * |bits| ==> (Bit(bits, b) <==> Bit(bits0, b) && !Gone(owner, inum, n, b))
  }

  /** The free-map blocks for the blocks in the first n slots. */
  ghost function FreedMaps(sb: Super, owner: Owners, inum: nat, n: nat): set<nat> {
    set b | b in owner && Gone(owner, inum, n, b) :: BBlock(b, sb)
  }

  lemma NothingFreed(sb: Super, bits: seq<bv8>, data: DiskMap, inodes: Inodes, owner: Owners, inum: nat)
    requires FsOk(sb, bits, data, inodes, owner)
    ensures FreedUpTo(sb, bits, bits, owner, inum, 0) && FreedMaps(sb, owner, inum, 0) == {} && sb.size <= 8 * |bits|
    ensures SuperOk(sb) && MapsWritten(sb, data, data, owner, inum, 0)
    ensures sb.size <= BPB ==> |FreedMaps(sb, owner, inum, SLOTS)| <= 1
  {
    OneMapFreed(sb, bits, data, inodes, owner, inum);
    hide Bit, Ref, OwnedOnce, SizesOk, BBlock;
    assert FreedMaps(sb, owner, inum, 0) == {};
  }

  lemma OneMapFreed(sb: Super, bits: seq<bv8>, data: DiskMap, inodes: Inodes, owner: Owners, inum: nat)
    requires FsOk(sb, bits, data, inodes, owner)
    ensures sb.size <= BPB ==> |FreedMaps(sb, owner, inum, SLOTS)| <= 1
  {
    hide Bit, Ref, Gone, SizesOk;
    if sb.size <= BPB {
      assert forall b :: b in owner ==> BBlock(b, sb) == sb.bmapStart;
      AtMostOne(FreedMaps(sb, owner, inum, SLOTS), sb.bmapStart);
    }
  }

  lemma OwnedRef(sb: Super, bits: seq<bv8>, data: DiskMap, inodes: Inodes, owner: Owners, inum: nat, k: nat)
    requires FsOk(sb, bits, data, inodes, owner) && inum in inodes && k < SLOTS
    ensures var r := Ref(inodes[inum], data, k);
            && (r != 0 ==>
                  r in data && r < sb.size <= 8 * |bits| && Bit(bits, r) && r in owner && owner[r] == Loc(inum, k))
            && (r == 0 ==> forall b :: b in owner ==> owner[b] != Loc(inum, k))
            && (forall b :: b in owner && owner[b] == Loc(inum, k) ==> b == r)
            && (forall b :: b in owner ==> owner[b].slot < SLOTS)
    ensures SuperOk(sb)
  {
    hide Bit, Ref;
    forall b | b in owner
      ensures owner[b].slot < SLOTS && b != 0 && (owner[b] == Loc(inum, k) ==> b == Ref(inodes[inum], data, k))
    {
      assert HasRef(inodes, data, owner[b], b);
    }
  }

  /** Freeing slot k, the n-th in order; an empty slot needs nothing. */
  lemma FreeNext(sb: Super, bits0: seq<bv8>, bits: seq<bv8>, data: DiskMap, inodes: Inodes, owner: Owners, inum: nat,
                 n: nat, k: nat)
    requires FsOk(sb, bits0, data, inodes, owner) && inum in inodes && k < SLOTS && n == Rank(k)
    requires FreedUpTo(sb, bits0, bits, owner, inum, n)
    ensures var r := Ref(inodes[inum], data, k);
            && (r != 0 ==> && r < sb.size <= 8 * |bits| && Bit(bits, r)
                           && FreedUpTo(sb, bits0, ClearBit(bits, r), owner, inum, n + 1)
                           && FreedMaps(sb, owner, inum, n + 1) == FreedMaps(sb, owner, inum, n) + {BBlock(r, sb)})
            && (r == 0 ==>
                  FreedUpTo(sb, bits0, bits, owner, inum, n + 1)
                  && FreedMaps(sb, owner, inum, n + 1) == FreedMaps(sb, owner, inum, n))
  {
    var r := Ref(inodes[inum], data, k);
    OwnedRef(sb, bits0, data, inodes, owner, inum, k);
    GoneNext(owner, inum, n, k, r);
    hide FsOk, Ref, Rank, Gone, ClearBit, Bit, BBlock;
    if r != 0 {
      assert Bit(bits, r);
      forall b: nat | b < 8 * |bits|
        ensures Bit(ClearBit(bits, r), b) <==> Bit(bits0, b) && !Gone(owner, inum, n + 1, b)
      {
        BitChanges(bits, r, b);
      }
      MapsNext(sb, owner, inum, n, n + 1, r);
    }
  }

  lemma GoneNext(owner: Owners, inum: nat, n: nat, k: nat, r: nat)
    requires k < SLOTS && n == Rank(k) && (forall b :: b in owner ==> owner[b].slot < SLOTS)
    requires forall b :: b in owner && owner[b] == Loc(inum, k) ==> b == r
    requires r != 0 ==> r in owner && owner[r] == Loc(inum, k)
    requires r == 0 ==> forall b :: b in owner ==> owner[b] != Loc(inum, k)
    ensures forall b :: Gone(owner, inum, n + 1, b) <==> Gone(owner, inum, n, b) || (r != 0 && b == r)
    ensures r != 0 ==> !Gone(owner, inum, n, r)
  {
    forall b
      ensures Gone(owner, inum, n + 1, b) <==> Gone(owner, inum, n, b) || (r != 0 && b == r)
    {
      if b in owner && owner[b].inum == inum {
        assert owner[b] == Loc(inum, owner[b].slot);
        assert Rank(owner[b].slot) == n <==> owner[b].slot == k;
      }
    }
  }

  lemma MapsNext(sb: Super, owner: Owners, inum: nat, n: nat, m: nat, r: nat)
    requires r in owner && forall b :: Gone(owner, inum, m, b) <==> Gone(owner, inum, n, b) || b == r
    ensures FreedMaps(sb, owner, inum, m) == FreedMaps(sb, owner, inum, n) + {BBlock(r, sb)}
  {
    hide Gone, BBlock;
    assert Gone(owner, inum, m, r);
  }

  /** With no indirect block, nothing is left after the direct ones. */
  lemma NoIndirect(sb: Super, bits0: seq<bv8>, bits: seq<bv8>, data: DiskMap, inodes: Inodes, owner: Owners, inum: nat)
    requires FsOk(sb, bits0, data, inodes, owner) && inum in inodes && inodes[inum].addrs[NDIRECT] == 0
    requires FreedUpTo(sb, bits0, bits, owner, inum, NDIRECT)
    ensures FreedUpTo(sb, bits0, bits, owner, inum, SLOTS)
    ensures FreedMaps(sb, owner, inum, SLOTS) == FreedMaps(sb, owner, inum, NDIRECT)
  {
    forall b
      ensures Gone(owner, inum, SLOTS, b) <==> Gone(owner, inum, NDIRECT, b)
    {
      if b in owner {
        assert HasRef(inodes, data, owner[b], b) && b != 0;
      }
    }
    hide Gone, Bit, BBlock;
    assert forall b :: b in FreedMaps(sb, owner, inum, SLOTS) <==> b in FreedMaps(sb, owner, inum, NDIRECT);
  }

  lemma Truncated(sb: Super, bits0: seq<bv8>, bits: seq<bv8>, data: DiskMap, i0: Inodes, i1: Inodes, owner: Owners,
                  inum: nat)
    requires FsOk(sb, bits0, data, i0, owner) && inum in i0 && FreedUpTo(sb, bits0, bits, owner, inum, SLOTS)
    requires inum in i1 && i1 == i0[inum := i1[inum]] && i1[inum].size == 0
    requires forall k :: 0 <= k <= NDIRECT ==> i1[inum].addrs[k] == 0
    ensures FsOk(sb, bits, data, i1, Others(owner, inum))
    ensures forall k :: 0 <= k < SLOTS ==> Ref(i1[inum], data, k) == 0
    ensures OthersKept(data, i0, data, i1, inum)
    ensures |bits| == |bits0|
    ensures forall b: nat :: b < 8 * |bits| ==>
              (Bit(bits, b) <==> Bit(bits0, b) && !(b in owner && owner[b].inum == inum))
  {
    var owner' := Others(owner, inum);
    TruncatedRefs(data, i0, i1, inum);
    TruncatedBits(sb, bits0, bits, data, i0, owner, inum);
    hide Ref, Gone, Bit, FreedUpTo;
    assert DiskOk(sb, bits, data);
    TruncatedOwned(sb, bits0, bits, data, i0, i1, owner, owner', inum);
    hide OwnedOnce;
    assert Mapped(i1[inum], data, 0);
    forall i | i in i1
      ensures Mapped(i1[i], data, i1[i].size)
    {
    }
  }

  lemma TruncatedOwned(sb: Super, bits0: seq<bv8>, bits: seq<bv8>, data: DiskMap, i0: Inodes, i1: Inodes,
                       owner: Owners, owner': Owners, inum: nat)
    requires DiskOk(sb, bits0, data) && OwnedOnce(sb, bits0, data, i0, owner) && DiskOk(sb, bits, data)
    requires i1.Keys == i0.Keys
    requires owner' == Others(owner, inum)
    requires forall i, k :: i in i1 && 0 <= k < SLOTS ==>
               Ref(i1[i], data, k) == if i == inum then 0 else Ref(i0[i], data, k)
    requires |bits| == |bits0|
    requires forall b: nat :: b < 8 * |bits| ==>
               (Bit(bits, b) <==> Bit(bits0, b) && !(b in owner && owner[b].inum == inum))
    ensures OwnedOnce(sb, bits, data, i1, owner')
  {
    hide Ref, Bit;
    forall b | b in owner'
      ensures HasRef(i1, data, owner'[b], b) && Bit(bits, b)
    {
      assert HasRef(i0, data, owner[b], b);
    }
  }

  lemma TruncatedRefs(data: DiskMap, i0: Inodes, i1: Inodes, inum: nat)
    requires inum in i0 && inum in i1 && i1 == i0[inum := i1[inum]]
    requires forall k :: 0 <= k <= NDIRECT ==> i1[inum].addrs[k] == 0
    ensures i1.Keys == i0.Keys
    ensures forall i, k :: i in i1 && 0 <= k < SLOTS ==>
              Ref(i1[i], data, k) == if i == inum then 0 else Ref(i0[i], data, k)
  {
  }

  lemma TruncatedBits(sb: Super, bits0: seq<bv8>, bits: seq<bv8>, data: DiskMap, i0: Inodes, owner: Owners, inum: nat)
    requires FsOk(sb, bits0, data, i0, owner) && FreedUpTo(sb, bits0, bits, owner, inum, SLOTS)
    ensures |bits| == |bits0|
    ensures forall b: nat :: b < 8 * |bits| ==>
              (Bit(bits, b) <==> Bit(bits0, b) && !(b in owner && owner[b].inum == inum))
  {
    hide Ref, Bit, Mapped;
    forall b: nat
      ensures Gone(owner, inum, SLOTS, b) <==> b in owner && owner[b].inum == inum
    {
      assert b in owner ==> HasRef(i0, data, owner[b], b);
    }
  }

  // ------------------------------------------------------- counting log blocks

  /** What writei's loop has logged: data blocks, free-map blocks, the indirect
      block; and how often it went round and allocated. */
  datatype Tally = Tally(iters: nat, allocs: nat, d: set<nat>, b: set<nat>, i: set<nat>, newInd: bool)

  ghost predicate TallyOk(sb: Super, ta: Tally, ind: nat) {
    && |ta.d| <= ta.iters && ta.allocs <= ta.iters
    && |ta.b| <= ta.allocs + (if ta.newInd then 1 else 0)
    && ta.i <= {ind} && (ta.i != {} || ta.newInd ==> ind != 0)
    && (forall x :: x in ta.b ==> MapBlock(x, sb))
  }

  /** Block x holds part of the free map. */
  ghost predicate MapBlock(x: nat, sb: Super) {
    sb.bmapStart <= x <= (sb.size - 1) / BPB + sb.bmapStart
  }

  function Counted(sb: Super, ta: Tally, addr: nat, ind: nat, indirect: bool, newData: bool, newInd: bool): Tally {
    Tally(ta.iters + 1, ta.allocs + (if newData then 1 else 0), ta.d + {addr},
          ta.b + (if newData then {BBlock(addr, sb)} else {}) + (if newData && newInd then {BBlock(ind, sb)} else {}),
          ta.i + (if newData && indirect then {ind} else {}), ta.newInd || newInd)
  }

  lemma TallyStep(sb: Super, ta: Tally, ind0: nat, ind: nat, addr: nat, indirect: bool, newData: bool, newInd: bool,
                  base: set<nat>, before: set<nat>, after: set<nat>) returns (t: Tally)
    requires TallyOk(sb, ta, ind0) && addr < sb.size && (indirect ==> 0 < ind < sb.size) && (ind0 != 0 ==> ind == ind0)
    requires newInd ==> newData && indirect && ind0 == 0
    requires before == base + ta.d + ta.b + ta.i
    requires after == before + ChunkBlocks(sb, addr, ind, indirect, newData, newInd)
    ensures TallyOk(sb, t, ind) && after == base + t.d + t.b + t.i
    ensures t.d + t.b + t.i == ta.d + ta.b + ta.i + ChunkBlocks(sb, addr, ind, indirect, newData, newInd)
    ensures t.iters == ta.iters + 1 && t.allocs == ta.allocs + (if newData then 1 else 0)
  {
    hide NewBlocks, TallyOk, BBlock, ChunkBlocks, Counted;
    t := Counted(sb, ta, addr, ind, indirect, newData, newInd);
    CountedRounds(sb, ta, addr, ind, indirect, newData, newInd);
    LoggedParts(sb, ta, addr, ind, indirect, newData, newInd);
    CountedOk(sb, ta, ind0, ind, addr, indirect, newData, newInd);
  }

  lemma CountedOk(sb: Super, ta: Tally, ind0: nat, ind: nat, addr: nat, indirect: bool, newData: bool, newInd: bool)
    requires TallyOk(sb, ta, ind0) && addr < sb.size && (indirect ==> 0 < ind < sb.size) && (ind0 != 0 ==> ind == ind0)
    requires newInd ==> newData && indirect && ind0 == 0
    ensures TallyOk(sb, Counted(sb, ta, addr, ind, indirect, newData, newInd), ind)
  {
    var t := Counted(sb, ta, addr, ind, indirect, newData, newInd);
    CountedSizes(sb, ta, addr, ind, indirect, newData, newInd);
    CountedBlocks(sb, ta, ind, addr, indirect, newData, newInd);
    hide MapBlock, BBlock;
    assert ta.i <= {ind};
    assert t.i <= {ind};
  }

  lemma CountedBlocks(sb: Super, ta: Tally, ind: nat, addr: nat, indirect: bool, newData: bool, newInd: bool)
    requires addr < sb.size && (indirect ==> ind < sb.size) && (newInd ==> indirect)
    requires forall x :: x in ta.b ==> MapBlock(x, sb)
    ensures forall x :: x in Counted(sb, ta, addr, ind, indirect, newData, newInd).b ==> MapBlock(x, sb)
  {
    assert MapBlock(BBlock(addr, sb), sb) && (indirect ==> MapBlock(BBlock(ind, sb), sb));
    hide MapBlock, BBlock;
  }

  lemma CountedRounds(sb: Super, ta: Tally, addr: nat, ind: nat, indirect: bool, newData: bool, newInd: bool)
    ensures var t := Counted(sb, ta, addr, ind, indirect, newData, newInd);
            t.iters == ta.iters + 1 && t.allocs == ta.allocs + (if newData then 1 else 0)
  {
  }

  lemma LoggedParts(sb: Super, ta: Tally, addr: nat, ind: nat, indirect: bool, newData: bool, newInd: bool)
    requires newInd ==> newData && indirect
    ensures var t := Counted(sb, ta, addr, ind, indirect, newData, newInd);
            t.d + t.b + t.i == ta.d + ta.b + ta.i + ChunkBlocks(sb, addr, ind, indirect, newData, newInd)
  {
    hide BBlock;
    var t := Counted(sb, ta, addr, ind, indirect, newData, newInd);
    if !newData {
      assert t.b == ta.b && t.i == ta.i;
    }
  }

  lemma CountedSizes(sb: Super, ta: Tally, addr: nat, ind: nat, indirect: bool, newData: bool, newInd: bool)
    requires newInd ==> newData && indirect
    ensures var t := Counted(sb, ta, addr, ind, indirect, newData, newInd);
            |t.d| <= |ta.d| + 1 && |t.b| <= |ta.b| + (if newData then 1 else 0) + (if newInd then 1 else 0)
  {
    hide BBlock;
    var t := Counted(sb, ta, addr, ind, indirect, newData, newInd);
    if !newData {
      assert t.b == ta.b;
    } else if !newInd {
      assert t.b == ta.b + {BBlock(addr, sb)};
    }
  }

  /** How far writei's loop is after so many rounds, starting rem bytes into a block. */
  ghost predicate Rounds(rem: nat, tot: nat, n: nat, iters: nat) {
    && (iters == 0 ==> tot == 0)
    && (iters > 0 ==> (iters - 1) * BSIZE < rem + tot <= iters * BSIZE)
    && (iters == 0 || tot == n || rem + tot == iters * BSIZE)
  }

  lemma ChunkArith(off0: nat, tot: nat, n: nat, m: nat, iters: nat)
    requires tot < n && off0 + n <= MAXFILE * BSIZE && Rounds(off0 % BSIZE, tot, n, iters)
    requires m == if n - tot < BSIZE - (off0 + tot) % BSIZE then n - tot else BSIZE - (off0 + tot) % BSIZE
    ensures (off0 + tot) / BSIZE < MAXFILE && 0 < m && (off0 + tot) % BSIZE + m <= BSIZE
    ensures Rounds(off0 % BSIZE, tot + m, n, iters + 1)
    ensures iters == 0 ==> tot == 0
  {
    if iters > 0 {
      assert (off0 + tot) == (off0 / BSIZE + iters) * BSIZE;
      assert (off0 + tot) % BSIZE == 0;
    }
  }

  lemma FewRounds(rem: nat, n: nat, iters: nat)
    requires rem < BSIZE && Rounds(rem, n, n, iters)
    ensures n <= CHUNK ==> iters <= (if rem == 0 then 3 else 4)
  {
    if iters > 0 && n <= CHUNK {
      assert (iters - 1) * BSIZE < rem + 3 * BSIZE;
    }
  }

  lemma FirstIsMapped(sb: Super, bits: seq<bv8>, data: DiskMap, inodes: Inodes, owner: Owners, inum: nat, off: nat,
                      first: bool)
    requires FsOk(sb, bits, data, inodes, owner) && inum in inodes
    requires first ==> off % BSIZE != 0 && off <= inodes[inum].size
    ensures first ==> off / BSIZE < MAXFILE && Ref(inodes[inum], data, FileSlot(off / BSIZE)) != 0
  {
    if first {
      FileMapped(sb, bits, data, inodes, owner, inum, off - 1);
      assert (off - 1) / BSIZE == off / BSIZE;
    }
  }

  lemma TallyTotal(sb: Super, ta: Tally, ind: nat, iblock: nat, rem: nat, n: nat)
    requires TallyOk(sb, ta, ind)
    requires rem < BSIZE && Rounds(rem, n, n, ta.iters)
    requires rem != 0 && ta.iters > 0 ==> ta.allocs < ta.iters
    ensures n <= CHUNK ==> |ta.d + ta.b + ta.i + {iblock}| <= MAXOPBLOCKS
    ensures n <= CHUNK && sb.size <= BPB ==> |ta.d + ta.b + ta.i + {iblock}| <= 7
  {
    FewRounds(rem, n, ta.iters);
    UnionBound(ta.d, ta.b, ta.i, iblock);
    AtMostOne(ta.i, ind);
    if sb.size <= BPB {
      OneMapBlock(sb, ta.b);
    }
  }

  lemma OneMapBlock(sb: Super, b: set<nat>)
    requires sb.size <= BPB && forall x :: x in b ==> MapBlock(x, sb)
    ensures |b| <= 1
  {
    assert b <= {sb.bmapStart};
    AtMostOne(b, sb.bmapStart);
  }

  lemma AtMostOne(s: set<nat>, x: nat)
    requires s <= {x}
    ensures |s| <= 1
  {
    assert s == {} || s == {x};
  }

  lemma UnionBound(a: set<nat>, b: set<nat>, c: set<nat>, x: nat)
    ensures |a + b + c + {x}| <= |a| + |b| + |c| + 1
  {
  }

  /** The bytes off .. off+|piece| of the file are piece; other bytes of mapped
      blocks are as before, and the written ones are mapped now. */
  ghost predicate BytesSet(d0: DiskMap, ip0: Inode, d1: DiskMap, ip1: Inode, off: nat, piece: seq<Byte>) {
    && (forall j: nat :: off <= j < off + |piece| ==> BlockOf(ip1, d1, j) != 0 && ByteAt(ip1, d1, j) == piece[j - off])
    && (forall j: nat :: BlockOf(ip0, d0, j) != 0 && !(off <= j < off + |piece|) ==>
          BlockOf(ip1, d1, j) != 0 && ByteAt(ip1, d1, j) == ByteAt(ip0, d0, j))
  }

  lemma FileMapped(sb: Super, bits: seq<bv8>, data: DiskMap, inodes: Inodes, owner: Owners, inum: nat, j: nat)
    requires FsOk(sb, bits, data, inodes, owner) && inum in inodes && j < inodes[inum].size
    ensures j / BSIZE < MAXFILE && Ref(inodes[inum], data, FileSlot(j / BSIZE)) != 0
    ensures BlockOf(inodes[inum], data, j) != 0
  {
    hide Ref;
    MappedAt(inodes[inum], data, inodes[inum].size, j);
  }

  lemma ChunkIsContent(ip: Inode, data: DiskMap, off: nat, m: nat)
    requires off + m <= ip.size && off % BSIZE + m <= BSIZE && off / BSIZE < MAXFILE
    requires Ref(ip, data, FileSlot(off / BSIZE)) != 0 && Ref(ip, data, FileSlot(off / BSIZE)) in data
    ensures data[Ref(ip, data, FileSlot(off / BSIZE))][off % BSIZE..off % BSIZE + m] == Content(ip, data)[off..off + m]
  {
    hide Ref;
    var left := data[Ref(ip, data, FileSlot(off / BSIZE))][off % BSIZE..off % BSIZE + m];
    var right := Content(ip, data)[off..off + m];
    forall l | 0 <= l < m
      ensures left[l] == right[l]
    {
      assert (off + l) / BSIZE == off / BSIZE && (off + l) % BSIZE == off % BSIZE + l;
    }
  }

  lemma ExtendsKeys(d0: DiskMap, i0: Inodes, d1: DiskMap, i1: Inodes, inum: nat)
    requires Extends(d0, i0, d1, i1) && inum in i0
    ensures i1.Keys == i0.Keys && inum in i1 && i1[inum] == i0[inum].(addrs := i1[inum].addrs)
  {
  }

  lemma ChunkWritten(sb: Super, bits: seq<bv8>, d0: DiskMap, i0: Inodes, d1: DiskMap, i1: Inodes, owner: Owners,
                     inum: nat, off: nat, piece: seq<Byte>, addr: nat, blk: Block)
    requires FsOk(sb, bits, d1, i1, owner) && Extends(d0, i0, d1, i1) && inum in i0 && inum in i1 && SizesOk(d0, i0)
    requires forall i :: i in i0 && i != inum ==> i in i1 && i1[i] == i0[i]
    requires off / BSIZE < MAXFILE && off % BSIZE + |piece| <= BSIZE && addr != 0 && addr in d1
    requires Ref(i1[inum], d1, FileSlot(off / BSIZE)) == addr
    requires blk == d1[addr][..off % BSIZE] + piece + d1[addr][off % BSIZE + |piece|..]
    ensures FsOk(sb, bits, d1[addr := blk], i1, owner)
    ensures BytesSet(d0, i0[inum], d1[addr := blk], i1[inum], off, piece)
    ensures OthersKept(d0, i0, d1[addr := blk], i1, inum)
  {
    hide FsOk, Extends, BytesSet, OthersKept, SizesOk, ByteAt, BlockOf, Ref;
    var d2 := d1[addr := blk];
    ChunkBytes(sb, bits, d1, d2, i1, owner, inum, off / BSIZE, addr, blk);
    BytesOfChunk(d0, i0, d1, i1, d2, inum, off, piece, addr, blk);
    OthersOfChunk(d0, i0, d1, i1, d2, inum);
  }

  lemma ChunkBytes(sb: Super, bits: seq<bv8>, d1: DiskMap, d2: DiskMap, nodes: Inodes, owner: Owners,
                   inum: nat, bn: nat, addr: nat, blk: Block)
    requires FsOk(sb, bits, d1, nodes, owner) && inum in nodes && bn < MAXFILE && addr != 0 && addr in d1
    requires Ref(nodes[inum], d1, FileSlot(bn)) == addr && d2 == d1[addr := blk]
    ensures FsOk(sb, bits, d2, nodes, owner)
    ensures forall k :: 0 <= k < SLOTS ==> Ref(nodes[inum], d2, k) == Ref(nodes[inum], d1, k)
    ensures forall i: nat, j: nat :: i in nodes && !(i == inum && j / BSIZE == bn) ==>
              ByteAt(nodes[i], d2, j) == ByteAt(nodes[i], d1, j)
    ensures forall j: nat :: j / BSIZE == bn ==> ByteAt(nodes[inum], d2, j) == blk[j % BSIZE]
  {
    hide FsOk, ByteAt, BlockOf, Ref;
    OwnedAsData(sb, bits, d1, nodes, owner, inum, FileSlot(bn), addr);
    WriteKeepsRefs(sb, bits, d1, nodes, owner, addr, blk);
    hide FileSlot;
    forall i: nat, j: nat | i in nodes && !(i == inum && j / BSIZE == bn)
      ensures ByteAt(nodes[i], d2, j) == ByteAt(nodes[i], d1, j)
    {
      WriteBytes(sb, bits, d1, nodes, owner, addr, blk, i, j);
      SlotInjective(bn, j / BSIZE);
    }
    forall j: nat | j / BSIZE == bn
      ensures ByteAt(nodes[inum], d2, j) == blk[j % BSIZE]
    {
      WriteBytes(sb, bits, d1, nodes, owner, addr, blk, inum, j);
      SlotInjective(bn, j / BSIZE);
    }
  }

  lemma SizesOf(sb: Super, bits: seq<bv8>, data: DiskMap, inodes: Inodes, owner: Owners)
    requires FsOk(sb, bits, data, inodes, owner)
    ensures SizesOk(data, inodes)
  {
  }

  lemma SlotInjective(a: nat, b: nat)
    requires a < MAXFILE
    ensures b < MAXFILE && FileSlot(a) == FileSlot(b) ==> a == b
  {
  }

  lemma OwnedAsData(sb: Super, bits: seq<bv8>, data: DiskMap, inodes: Inodes, owner: Owners, inum: nat, k: nat, b: nat)
    requires FsOk(sb, bits, data, inodes, owner) && inum in inodes && k < SLOTS && Ref(inodes[inum], data, k) == b != 0
    ensures b in owner && owner[b] == Loc(inum, k)
  {
  }

  lemma BytesOfChunk(d0: DiskMap, i0: Inodes, d1: DiskMap, i1: Inodes, d2: DiskMap,
                     inum: nat, off: nat, piece: seq<Byte>, addr: nat, blk: Block)
    requires Extends(d0, i0, d1, i1) && inum in i0 && inum in i1
    requires off / BSIZE < MAXFILE && off % BSIZE + |piece| <= BSIZE && addr != 0 && addr in d1
    requires Ref(i1[inum], d1, FileSlot(off / BSIZE)) == addr
    requires blk == d1[addr][..off % BSIZE] + piece + d1[addr][off % BSIZE + |piece|..]
    requires forall k :: 0 <= k < SLOTS ==> Ref(i1[inum], d2, k) == Ref(i1[inum], d1, k)
    requires forall j: nat :: ByteAt(i1[inum], d2, j) == if j / BSIZE == off / BSIZE then blk[j % BSIZE]
             else ByteAt(i1[inum], d1, j)
    ensures BytesSet(d0, i0[inum], d2, i1[inum], off, piece)
  {
    hide Ref;
    forall j: nat | off <= j < off + |piece| || BlockOf(i0[inum], d0, j) != 0
      ensures BlockOf(i1[inum], d2, j) != 0
      ensures ByteAt(i1[inum], d2, j) == if off <= j < off + |piece| then piece[j - off] else ByteAt(i0[inum], d0, j)
    {
      if off <= j < off + |piece| {
        assert j / BSIZE == off / BSIZE && j % BSIZE == off % BSIZE + (j - off);
      } else if j / BSIZE == off / BSIZE {
        assert j % BSIZE < off % BSIZE || j % BSIZE >= off % BSIZE + |piece|;
        assert blk[j % BSIZE] == d1[addr][j % BSIZE];
      }
    }
  }

  lemma OthersOfChunk(d0: DiskMap, i0: Inodes, d1: DiskMap, i1: Inodes, d2: DiskMap, inum: nat)
    requires Extends(d0, i0, d1, i1) && SizesOk(d0, i0)
    requires forall i :: i in i0 && i != inum ==> i in i1 && i1[i] == i0[i]
    requires forall i, j: nat :: i in i1 && i != inum ==> ByteAt(i1[i], d2, j) == ByteAt(i1[i], d1, j)
    ensures OthersKept(d0, i0, d2, i1, inum)
  {
    hide Ref, BlockOf, ByteAt;
    forall i | i in i0 && i != inum
      ensures Content(i1[i], d2) == Content(i0[i], d0)
    {
      forall j: nat | j < i0[i].size
        ensures ByteAt(i1[i], d2, j) == ByteAt(i0[i], d0, j)
      {
        MappedAt(i0[i], d0, i0[i].size, j);
      }
    }
  }

  /** The blocks logged when a file block addr is added: its bit, the block itself,
      and for a block beyond the direct ones the indirect block, with its own bit
      if that is new too. */
  function NewBlocks(sb: Super, addr: nat, ind: nat, indirect: bool, newInd: bool): set<nat> {
    {BBlock(addr, sb), addr} + (if indirect then {ind} else {}) + (if newInd then {BBlock(ind, sb)} else {})
  }

  /** The blocks logged when a slot is filled. */
  function SlotBlocks(sb: Super, addr: nat, ind: nat, indirect: bool): set<nat> {
    {BBlock(addr, sb), addr} + (if indirect then {ind} else {})
  }

  /** The blocks logged for one chunk of a write. */
  function ChunkBlocks(sb: Super, addr: nat, ind: nat, indirect: bool, newData: bool, newInd: bool): set<nat> {
    {addr} + (if newData then NewBlocks(sb, addr, ind, indirect, newInd) else {})
  }

  /** Filling the indirect slot and then one of its entries. */
  lemma BlocksOfSlots(sb: Super, d0: DiskMap, d1: DiskMap, d2: DiskMap, addr: nat, ind: nat, newInd: bool)
    requires if newInd then Touched(d0, d1, SlotBlocks(sb, ind, ind, false)) else d1 == d0
    requires Touched(d1, d2, SlotBlocks(sb, addr, ind, true))
    ensures Touched(d0, d2, NewBlocks(sb, addr, ind, true, newInd))
    ensures (if newInd then SlotBlocks(sb, ind, ind, false) else {}) + SlotBlocks(sb, addr, ind, true)
            == NewBlocks(sb, addr, ind, true, newInd)
  {
    hide BBlock;
    assert (if newInd then SlotBlocks(sb, ind, ind, false) else {}) + SlotBlocks(sb, addr, ind, true)
        == NewBlocks(sb, addr, ind, true, newInd);
    if newInd {
      TouchedTrans(d0, d1, d2, SlotBlocks(sb, ind, ind, false), SlotBlocks(sb, addr, ind, true));
    }
  }

  lemma ChunkTouched(sb: Super, d0: DiskMap, d1: DiskMap, d2: DiskMap, addr: nat, ind: nat, indirect: bool,
                     newData: bool, newInd: bool)
    requires if newData then Touched(d0, d1, NewBlocks(sb, addr, ind, indirect, newInd)) else d1 == d0
    requires Touched(d1, d2, {addr})
    ensures Touched(d0, d2, ChunkBlocks(sb, addr, ind, indirect, newData, newInd))
  {
    hide NewBlocks;
    if newData {
      TouchedTrans(d0, d1, d2, NewBlocks(sb, addr, ind, indirect, newInd), {addr});
      assert NewBlocks(sb, addr, ind, indirect, newInd) + {addr}
             == ChunkBlocks(sb, addr, ind, indirect, newData, newInd);
    }
  }

  lemma ExtendsSame(data: DiskMap, inodes: Inodes)
    ensures Extends(data, inodes, data, inodes)
  {
    hide Ref, BlockOf, ByteAt;
  }

  lemma SpareIsZero(sb: Super, bits: seq<bv8>, data: DiskMap, owner: Owners, b: nat)
    requires DiskOk(sb, bits, data) && Spare(sb, bits, data, owner, b)
    ensures b in data && data[b] == ZeroBlock()
  {
  }

  lemma RefInData(sb: Super, bits: seq<bv8>, data: DiskMap, inodes: Inodes, owner: Owners, inum: nat, k: nat)
    requires FsOk(sb, bits, data, inodes, owner) && inum in inodes && k < SLOTS
    ensures Ref(inodes[inum], data, k) != 0 ==> Ref(inodes[inum], data, k) in data
    ensures Ref(inodes[inum], data, k) != 0 ==> Ref(inodes[inum], data, k) < sb.size
  {
    hide Ref;
  }

  lemma TakenIsOwned(sb: Super, bits: seq<bv8>, owner: Owners, b: nat, l: Loc)
    requires b < 8 * |bits|
    ensures NoLeak(sb, bits, owner) ==> NoLeak(sb, SetBit(bits, b), owner[b := l])
  {
    forall c: nat | c < 8 * |bits|
      ensures Bit(SetBit(bits, b), c) <==> c == b || Bit(bits, c)
    {
      BitChanges(bits, b, c);
    }
    hide Bit, SetBit;
  }

  /** The disk after balloc took block b. */
  function WithBlock(sb: Super, data: DiskMap, b: nat): DiskMap
    requires BBlock(b, sb) in data
  {
    data[BBlock(b, sb) := Flipped(data[BBlock(b, sb)], b, true)][b := ZeroBlock()]
  }

  lemma SlotStillEmpty(sb: Super, bits: seq<bv8>, data: DiskMap, inodes: Inodes, owner: Owners, inum: nat, k: nat,
                       b: nat)
    requires FsOk(sb, bits, data, inodes, owner) && inum in inodes && k < SLOTS && b < 8 * |bits| && !Bit(bits, b)
    requires sb.dataStart <= b && b in data && BBlock(b, sb) in data && BBlock(b, sb) < sb.dataStart
    requires Ref(inodes[inum], data, k) == 0
    requires k > NDIRECT ==> inodes[inum].addrs[NDIRECT] != 0 && inodes[inum].addrs[NDIRECT] in data
    ensures Ref(inodes[inum], WithBlock(sb, data, b), k) == 0
    ensures k > NDIRECT ==> inodes[inum].addrs[NDIRECT] in WithBlock(sb, data, b)
  {
    var d1 := data[BBlock(b, sb) := Flipped(data[BBlock(b, sb)], b, true)];
    hide Ref, BlockOf, ByteAt, Flipped, BBlock, Bit;
    MetaFrame(sb, bits, data, d1, inodes, owner);
    WriteKeepsRefs(sb, bits, d1, inodes, owner, b, ZeroBlock());
  }

  /** Writing a block that a file refers to leaves the map and the inodes alone. */
  lemma DataWritten(sb: Super, bits: seq<bv8>, data: DiskMap, inodes: Inodes, dinodes: Inodes, owner: Owners,
                    inum: nat, k: nat, blk: Block)
    requires FsOk(sb, bits, data, inodes, owner) && OnDisk(sb, data, bits, dinodes) && inum in inodes && k < SLOTS
    requires Ref(inodes[inum], data, k) != 0
    ensures var b := Ref(inodes[inum], data, k);
            OnDisk(sb, data[b := blk], bits, dinodes) && Touched(data, data[b := blk], {b as nat})
  {
    hide Ref, OnDisk, Bit;
    var b := Ref(inodes[inum], data, k);
    assert b in owner && b in data;
    assert data[b := blk].Keys == data.Keys;
    OnDiskFrame(sb, data, data[b := blk], bits, dinodes);
  }

  lemma IndirectWritten(sb: Super, bits: seq<bv8>, data: DiskMap, inodes: Inodes, dinodes: Inodes, owner: Owners,
                        inum: nat, blk: Block)
    requires FsOk(sb, bits, data, inodes, owner) && OnDisk(sb, data, bits, dinodes) && inum in inodes
    requires inodes[inum].addrs[NDIRECT] != 0
    ensures var b := inodes[inum].addrs[NDIRECT];
            OnDisk(sb, data[b := blk], bits, dinodes) && Touched(data, data[b := blk], {b as nat})
  {
    assert Ref(inodes[inum], data, NDIRECT) == inodes[inum].addrs[NDIRECT];
    hide FsOk, Ref, OnDisk, Touched;
    DataWritten(sb, bits, data, inodes, dinodes, owner, inum, NDIRECT, blk);
  }

  lemma SetRefExtends(sb: Super, bits: seq<bv8>, data: DiskMap, inodes: Inodes, owner: Owners, inum: nat, k: nat,
                      b: Word)
    requires FsOk(sb, bits, data, inodes, owner) && Spare(sb, bits, data, owner, b)
    requires inum in inodes && k < SLOTS && Ref(inodes[inum], data, k) == 0
    requires k > NDIRECT ==> inodes[inum].addrs[NDIRECT] != 0 && inodes[inum].addrs[NDIRECT] in data
    ensures var data', inodes' := RefData(data, inodes, inum, k, b), RefInodes(inodes, inum, k, b);
            && FsOk(sb, bits, data', inodes', owner[b := Loc(inum, k)])
            && inum in inodes' && Ref(inodes'[inum], data', k) == b && b in data'
            && Extends(data, inodes, data', inodes')
  {
    SetRefOk(sb, bits, data, inodes, owner, inum, k, b);
    var data', inodes' := RefData(data, inodes, inum, k, b), RefInodes(inodes, inum, k, b);
    forall i, j: nat | i in inodes && BlockOf(inodes[i], data, j) != 0
      ensures BlockOf(inodes'[i], data', j) == BlockOf(inodes[i], data, j)
      ensures ByteAt(inodes'[i], data', j) == ByteAt(inodes[i], data, j)
    {
      SetRefBytes(sb, bits, data, inodes, owner, inum, k, b, i, j);
    }
    hide Ref, BlockOf, ByteAt, RefData, RefInodes, Content;
  }

  lemma RefUpdates(data: DiskMap, inodes: Inodes, inum: nat, k: nat, b: Word)
    requires inum in inodes && k < SLOTS && (k > NDIRECT ==> inodes[inum].addrs[NDIRECT] in data)
    ensures k <= NDIRECT ==> RefData(data, inodes, inum, k, b) == data
                             && RefInodes(inodes, inum, k, b)
                                == inodes[inum := inodes[inum].(addrs := inodes[inum].addrs[k := b])]
    ensures k > NDIRECT ==> RefInodes(inodes, inum, k, b) == inodes
                            && RefData(data, inodes, inum, k, b)
                               == data[inodes[inum].addrs[NDIRECT] :=
                                         SetWord(data[inodes[inum].addrs[NDIRECT]], k - NDIRECT - 1, b)]
  {
  }

  lemma EmptyIndirect(d0: DiskMap, i0: Inodes, d1: DiskMap, i1: Inodes, inum: nat, bn: nat)
    requires inum in i0 && inum in i1 && NDIRECT <= bn < MAXFILE && i0[inum].addrs[NDIRECT] == 0
    ensures Ref(i0[inum], d0, FileSlot(bn)) == 0
  {
  }

  lemma AllocatedOk(sb: Super, bits: seq<bv8>, data: DiskMap, inodes: Inodes, owner: Owners, b: nat)
    requires FsOk(sb, bits, data, inodes, owner) && b < sb.size && b < 8 * |bits| && !Bit(bits, b)
    ensures 0 < b < 0x1_0000_0000
    ensures FsOk(sb, SetBit(bits, b), data[b := ZeroBlock()], inodes, owner)
    ensures Spare(sb, SetBit(bits, b), data[b := ZeroBlock()], owner, b)
    ensures Extends(data, inodes, data[b := ZeroBlock()], inodes)
  {
    hide Ref, BlockOf, ByteAt;
    var bits', data' := SetBit(bits, b), data[b := ZeroBlock()];
    forall c: nat | c < 8 * |bits|
      ensures Bit(bits', c) <==> c == b || Bit(bits, c)
    {
      BitChanges(bits, b, c);
    }
    WriteKeepsRefs(sb, bits, data, inodes, owner, b, ZeroBlock());
    hide Bit, SetBit;
    assert DiskOk(sb, bits', data');
    forall i, j: nat | i in inodes
      ensures BlockOf(inodes[i], data', j) == BlockOf(inodes[i], data, j)
      ensures ByteAt(inodes[i], data', j) == ByteAt(inodes[i], data, j)
    {
      WriteBytes(sb, bits, data, inodes, owner, b, ZeroBlock(), i, j);
    }
  }

  lemma AllocatedOnDisk(sb: Super, bits: seq<bv8>, data: DiskMap, inodes: Inodes, dinodes: Inodes, owner: Owners,
                        b: nat)
    requires FsOk(sb, bits, data, inodes, owner) && OnDisk(sb, data, bits, dinodes)
    requires b < sb.size && b < 8 * |bits| && !Bit(bits, b)
    ensures 0 < sb.dataStart <= b < 0x1_0000_0000 && b in data && BBlock(b, sb) in data && BBlock(b, sb) < sb.dataStart
    ensures var bits', data' := SetBit(bits, b), WithBlock(sb, data, b);
            && FsOk(sb, bits', data', inodes, owner) && OnDisk(sb, data', bits', dinodes)
            && Spare(sb, bits', data', owner, b) && Extends(data, inodes, data', inodes)
            && Touched(data, data', {BBlock(b, sb), b})
  {
    BitOnDisk(sb, data, bits, dinodes, b, true);
    var c := BBlock(b, sb);
    var d1 := data[c := Flipped(data[c], b, true)];
    assert SameFrom(data, d1, sb.dataStart);
    hide Ref, BlockOf, ByteAt, OnDisk, Flipped, BBlock, OwnedOnce, SizesOk, SetBit, Content, Spare;
    MetaFrame(sb, bits, data, d1, inodes, owner);
    assert Extends(data, inodes, d1, inodes);
    AllocatedOk(sb, bits, d1, inodes, owner, b);
    hide Extends;
    ExtendsTrans(data, inodes, d1, inodes, d1[b := ZeroBlock()], inodes);
    OnDiskFrame(sb, d1, d1[b := ZeroBlock()], SetBit(bits, b), dinodes);
  }

  // ------------------------------------------------------------ transactions

  /** Each transaction leads from one consistent image to the next. */
  ghost predicate Transactions(sb: Super, images: seq<DiskMap>, txns: seq<set<nat>>)
    requires |images| == |txns| + 1
  {
    forall t :: 0 <= t < |txns| ==> Transaction(sb, images[t], images[t + 1], txns[t])
  }

  /** Every file reads the same from both. */
  ghost predicate SameFiles(inodes: Inodes, d0: DiskMap, d1: DiskMap) {
    && (forall i, k :: i in inodes && 0 <= k < SLOTS ==> Ref(inodes[i], d1, k) == Ref(inodes[i], d0, k))
    && (forall i :: i in inodes ==> Content(inodes[i], d1) == Content(inodes[i], d0))
  }

  lemma DiskOf(sb: Super, bits: seq<bv8>, data: DiskMap, inodes: Inodes, owner: Owners)
    requires FsOk(sb, bits, data, inodes, owner)
    ensures SuperOk(sb) && DiskOk(sb, bits, data)
  {
  }

  lemma FirstWords(blk: Block, slot: nat, ip: Inode)
    requires slot < IPB
    ensures var w := DINODE_WORDS * slot;
            PutWords(blk, slot, ip, 3)
            == SetWord(SetWord(SetWord(blk, w, ip.kind + 0x1_0000 * ip.major),
                               w + 1, ip.minor + 0x1_0000 * ip.nlink), w + 2, ip.size)
  {
    hide SetWord;
    assert PutWords(blk, slot, ip, 1) == SetWord(blk, DINODE_WORDS * slot, InodeWord(ip, 0));
    assert PutWords(blk, slot, ip, 2) == SetWord(PutWords(blk, slot, ip, 1), DINODE_WORDS * slot + 1, InodeWord(ip, 1));
  }

  lemma InodeWritten(sb: Super, bits: seq<bv8>, data: DiskMap, inodes: Inodes, owner: Owners, inum: nat, bp: Block)
    requires FsOk(sb, bits, data, inodes, owner) && inum < sb.ninodes && IBlock(inum, sb) in data
    requires inum in inodes && bp == PutWords(data[IBlock(inum, sb)], inum % IPB, inodes[inum], DINODE_WORDS)
    ensures var data' := data[IBlock(inum, sb) := bp];
            FsOk(sb, bits, data', inodes, owner) && SameFiles(inodes, data, data')
    ensures DecodeInode(bp, inum % IPB) == inodes[inum]
    ensures forall j: nat :: j < IPB && j != inum % IPB ==> DecodeInode(bp, j) == DecodeInode(data[IBlock(inum, sb)], j)
  {
    InodeBlock(sb, inum);
    var data' := data[IBlock(inum, sb) := bp];
    assert SameFrom(data, data', sb.dataStart);
    hide FsOk, Ref, BlockOf, ByteAt, Content, PutWords, DecodeInode, IBlock, SameFrom;
    MetaFrame(sb, bits, data, data', inodes, owner);
    forall j: nat | j < IPB
      ensures DecodeInode(bp, j) == if j == inum % IPB then inodes[inum] else DecodeInode(data[IBlock(inum, sb)], j)
    {
      InodeRoundTrip(data[IBlock(inum, sb)], inum % IPB, inodes[inum], j);
    }
  }

  lemma FilesKept(d0: DiskMap, i0: Inodes, d1: DiskMap, d2: DiskMap, i1: Inodes, inum: nat)
    requires OthersKept(d0, i0, d1, i1, inum) && SameFiles(i1, d1, d2) && inum in i1
    ensures OthersKept(d0, i0, d2, i1, inum) && Content(i1[inum], d2) == Content(i1[inum], d1)
  {
    hide Content, Ref;
  }

  lemma Committed(sb: Super, d0: DiskMap, bits0: seq<bv8>, i0: Inodes, dn0: Inodes, own0: Owners,
                  d1: DiskMap, bits1: seq<bv8>, i1: Inodes, dn1: Inodes, own1: Owners, inum: nat, txn: set<nat>)
    requires FsOk(sb, bits0, d0, i0, own0) && OnDisk(sb, d0, bits0, dn0)
    requires FsOk(sb, bits1, d1, i1, own1) && OnDisk(sb, d1, bits1, dn1)
    requires OthersKept(d0, i0, d1, i1, inum) && inum in i1 && dn1 == dn0[inum := i1[inum]] && Touched(d0, d1, txn)
    requires NoLeak(sb, bits0, own0) ==> NoLeak(sb, bits1, own1)
    ensures dn0 == i0 ==> dn1 == i1
    ensures dn0 == i0 && NoLeak(sb, bits0, own0) ==> Transaction(sb, d0, d1, txn)
  {
    hide FsOk, OnDisk, Content, Touched, Transaction, NoLeak;
    if dn0 == i0 {
      assert dn1 == i1;
    }
    if dn0 == i0 && NoLeak(sb, bits0, own0) {
      IsTransaction(sb, d0, bits0, i0, own0, d1, bits1, i1, own1, txn);
    }
  }

  lemma WriteCommitted(sb: Super, d0: DiskMap, bits0: seq<bv8>, i0: Inodes, dn0: Inodes, own0: Owners, d1: DiskMap,
                       d2: DiskMap, bits2: seq<bv8>, i2: Inodes, dn2: Inodes, own2: Owners,
                       inum: nat, off: nat, src: seq<Byte>, s: set<nat>)
    requires FsOk(sb, bits0, d0, i0, own0) && OnDisk(sb, d0, bits0, dn0)
    requires FsOk(sb, bits2, d2, i2, own2) && OnDisk(sb, d2, bits2, dn2)
    requires Wrote(d0, i0, d1, i2, inum, off, src) && SameFiles(i2, d1, d2) && dn2 == dn0[inum := i2[inum]]
    requires Touched(d0, d1, s) && Touched(d1, d2, {IBlock(inum, sb)})
    requires NoLeak(sb, bits0, own0) ==> NoLeak(sb, bits2, own2)
    ensures Wrote(d0, i0, d2, i2, inum, off, src) && Touched(d0, d2, s + {IBlock(inum, sb)})
    ensures dn0 == i0 ==> dn2 == i2
    ensures dn0 == i0 && NoLeak(sb, bits0, own0) ==> Transaction(sb, d0, d2, s + {IBlock(inum, sb)})
  {
    hide FsOk, OnDisk, NoLeak, Content, Spliced, Touched, Transaction, IBlock, SameFiles, OthersKept;
    FilesKept(d0, i0, d1, d2, i2, inum);
    TouchedTrans(d0, d1, d2, s, {IBlock(inum, sb)});
    Committed(sb, d0, bits0, i0, dn0, own0, d2, bits2, i2, dn2, own2, inum, s + {IBlock(inum, sb)});
  }

  // ------------------------------------------------- map blocks of a truncation

  function NoAddrs(): Addrs { seq<Word>(NDIRECT + 1, i => 0) }

  /** Only the map blocks of the freed blocks have been written. */
  ghost predicate MapsWritten(sb: Super, d0: DiskMap, d: DiskMap, owner: Owners, inum: nat, n: nat) {
    SameFrom(d0, d, sb.dataStart) && Touched(d0, d, FreedMaps(sb, owner, inum, n))
  }

  lemma NextMap(sb: Super, d0: DiskMap, d1: DiskMap, d2: DiskMap, owner: Owners, inum: nat, n: nat, r: nat)
    requires MapsWritten(sb, d0, d1, owner, inum, n)
    requires r == 0 ==> d2 == d1 && FreedMaps(sb, owner, inum, n + 1) == FreedMaps(sb, owner, inum, n)
    requires r != 0 ==> SameFrom(d1, d2, sb.dataStart) && Touched(d1, d2, {BBlock(r, sb)})
    requires r != 0 ==> FreedMaps(sb, owner, inum, n + 1) == FreedMaps(sb, owner, inum, n) + {BBlock(r, sb)}
    ensures MapsWritten(sb, d0, d2, owner, inum, n + 1)
  {
    hide FreedMaps, BBlock;
  }

  lemma NoMoreMaps(sb: Super, d0: DiskMap, d: DiskMap, owner: Owners, inum: nat)
    requires MapsWritten(sb, d0, d, owner, inum, NDIRECT)
    requires FreedMaps(sb, owner, inum, SLOTS) == FreedMaps(sb, owner, inum, NDIRECT)
    ensures MapsWritten(sb, d0, d, owner, inum, SLOTS)
  {
  }

  /** The indirect block is a data block, so freeing does not touch it. */
  lemma IndirectKept(sb: Super, bits: seq<bv8>, d0: DiskMap, d: DiskMap, inodes: Inodes, owner: Owners, inum: nat,
                     n: nat)
    requires FsOk(sb, bits, d0, inodes, owner) && inum in inodes
    requires MapsWritten(sb, d0, d, owner, inum, n) || d == d0
    ensures var ind := inodes[inum].addrs[NDIRECT];
            ind != 0 ==> ind in d && ind in d0 && d[ind] == d0[ind]
    ensures Ref(inodes[inum], d0, NDIRECT) == inodes[inum].addrs[NDIRECT]
  {
    assert Ref(inodes[inum], d0, NDIRECT) == inodes[inum].addrs[NDIRECT];
    hide Ref, Bit, Touched, FreedMaps;
  }

  lemma TruncatedImage(sb: Super, bits0: seq<bv8>, bits: seq<bv8>, d0: DiskMap, d: DiskMap, i0: Inodes, i1: Inodes,
                       owner: Owners, owner': Owners, inum: nat)
    requires FsOk(sb, bits0, d0, i0, owner) && inum in i0 && FreedUpTo(sb, bits0, bits, owner, inum, SLOTS)
    requires MapsWritten(sb, d0, d, owner, inum, SLOTS)
    requires owner' == Others(owner, inum)
    requires inum in i1 && i1 == i0[inum := i0[inum].(size := 0, addrs := i1[inum].addrs)]
    requires forall k :: 0 <= k <= NDIRECT ==> i1[inum].addrs[k] == 0
    ensures FsOk(sb, bits, d, i1, owner') && i1 == i0[inum := i0[inum].(size := 0, addrs := NoAddrs())]
    ensures forall k :: 0 <= k < SLOTS ==> Ref(i1[inum], d, k) == 0
    ensures OthersKept(d0, i0, d, i1, inum)
    ensures |bits| == |bits0|
    ensures forall b: nat :: b < 8 * |bits| ==>
              (Bit(bits, b) <==> Bit(bits0, b) && !(b in owner && owner[b].inum == inum))
    ensures NoLeak(sb, bits0, owner) ==> NoLeak(sb, bits, owner')
  {
    hide FsOk, Ref, BlockOf, ByteAt, Content, Bit, FreedUpTo, Touched, FreedMaps;
    Truncated(sb, bits0, bits, d0, i0, i1, owner, inum);
    MetaFrame(sb, bits, d0, d, i1, owner');
    assert i1[inum].addrs == NoAddrs();
  }

  lemma TruncatedOnDisk(sb: Super, d0: DiskMap, d1: DiskMap, d2: DiskMap, i0: Inodes, i1: Inodes, owner: Owners,
                        inum: nat)
    requires MapsWritten(sb, d0, d1, owner, inum, SLOTS) && Touched(d1, d2, {IBlock(inum, sb)}) && SameFiles(i1, d1, d2)
    requires OthersKept(d0, i0, d1, i1, inum) && inum in i1 && forall k :: 0 <= k < SLOTS ==> Ref(i1[inum], d1, k) == 0
    ensures Touched(d0, d2, FreedMaps(sb, owner, inum, SLOTS) + {IBlock(inum, sb)})
    ensures OthersKept(d0, i0, d2, i1, inum) && forall k :: 0 <= k < SLOTS ==> Ref(i1[inum], d2, k) == 0
  {
    hide Ref, FreedMaps, IBlock, OthersKept, Content;
    TouchedTrans(d0, d1, d2, FreedMaps(sb, owner, inum, SLOTS), {IBlock(inum, sb)});
    FilesKept(d0, i0, d1, d2, i1, inum);
  }
}
