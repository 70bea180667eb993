/** mkfs: the initial image satisfies the invariant that the kernel's file
    operations keep. */
module Mkfs {
  import opened Blocks
  import opened Bitmap
  import opened FsTree
  import opened Fs

  // mkfs hands out blocks in order: exactly those from lo to next are owned.
  ghost predicate InOrder(owner: map<nat, Slotted>, lo: nat, next: nat) {
    lo <= next && forall b :: b in owner <==> lo <= b < next
  }

  // No file has a data block at or beyond its size, rounded up.
  ghost predicate Tight(ip: Inode, blocks: Disk, size: nat) {
    |ip.addrs| == NDIRECT + 1 && forall bn :: 0 <= bn < MAXFILE && size <= bn * BSIZE ==> Ptr(ip, blocks, Slot(bn)) == 0
  }

  ghost predicate OthersTight(inodes: seq<Inode>, blocks: Disk, i: nat) {
    forall j :: 0 <= j < |inodes| && j != i ==> Tight(inodes[j], blocks, inodes[j].size)
  }

  // Data pointers agree except for block bn of inode i.
  ghost predicate SameData(i0: seq<Inode>, b0: Disk, i1: seq<Inode>, b1: Disk, i: nat, bn: nat) {
    && Shaped(i0) && Shaped(i1) && |i1| == |i0|
    && forall x: Slotted :: IsSlot(i0, x) && x != Slotted(i, Slot(bn)) && x.slot != NDIRECT
         ==> P(i1, b1, x) == P(i0, b0, x)
  }

  lemma TightFrame(i0: seq<Inode>, b0: Disk, i1: seq<Inode>, b1: Disk, i: nat, bn: nat, size: nat, size': nat)
    requires SameData(i0, b0, i1, b1, i, bn) && bn * BSIZE <= size < size' && i < |i0| && OthersTight(i0, b0, i)
             && Tight(i0[i], b0, size)
    requires forall j :: 0 <= j < |i0| ==> i1[j].size == i0[j].size
    ensures OthersTight(i1, b1, i) && Tight(i1[i], b1, size')
  {
    forall j | 0 <= j < |i0| && j != i ensures Tight(i1[j], b1, i1[j].size) {
      forall k | 0 <= k < MAXFILE && i1[j].size <= k * BSIZE ensures Ptr(i1[j], b1, Slot(k)) == 0 {
        assert P(i1, b1, Slotted(j, Slot(k))) == P(i0, b0, Slotted(j, Slot(k)));
      }
    }
    forall k | 0 <= k < MAXFILE && size' <= k * BSIZE ensures Ptr(i1[i], b1, Slot(k)) == 0 {
      assert P(i1, b1, Slotted(i, Slot(k))) == P(i0, b0, Slotted(i, Slot(k)));
    }
  }

  // Writing data changes no pointer.
  lemma TightWrite(inodes: seq<Inode>, b0: Disk, b1: Disk, i: nat, size: nat)
    requires Shaped(inodes) && i < |inodes| && OthersTight(inodes, b0, i) && Tight(inodes[i], b0, size)
    requires forall x: Slotted :: IsSlot(inodes, x) ==> P(inodes, b1, x) == P(inodes, b0, x)
    ensures OthersTight(inodes, b1, i) && Tight(inodes[i], b1, size)
  {
    forall j, k | 0 <= j < |inodes| && 0 <= k < MAXFILE
      ensures Ptr(inodes[j], b1, Slot(k)) == Ptr(inodes[j], b0, Slot(k))
    {
      assert P(inodes, b1, Slotted(j, Slot(k))) == P(inodes, b0, Slotted(j, Slot(k)));
    }
  }

  // The zero block b goes into entry j of inode i's indirect block.
  lemma EntryTaken(inodes: seq<Inode>, blocks: Disk, owner: map<nat, Slotted>, lo: nat, i: nat, j: nat, b: nat)
    requires Owns(inodes, blocks, owner, lo) && i < |inodes| && j < NINDIRECT && inodes[i].addrs[NDIRECT] != 0
    requires P(inodes, blocks, Slotted(i, NDIRECT + 1 + j)) == 0
    requires lo <= b < |blocks| <= UINT && b !in owner && blocks[b] == ZeroBlock
    ensures var o, a := Slotted(i, NDIRECT + 1 + j), inodes[i].addrs[NDIRECT];
            a in owner && a < |blocks| &&
            var blocks' := blocks[a := SetWord(blocks[a], j, b)];
            && Owns(inodes, blocks', owner[b := o], lo) && DataKept(inodes, blocks, owner, inodes, blocks')
            && P(inodes, blocks', o) == b && SamePtrs(inodes, blocks, inodes, blocks', o)
  {
    var o := Slotted(i, NDIRECT + 1 + j);
    assert blocks[b := ZeroBlock] == blocks;
    AllocEntry(inodes, blocks, owner, lo, i, j, b);
    IndirectOwned(inodes, blocks, owner, lo, i);
    hide Word, Ptr;
    var a := inodes[i].addrs[NDIRECT];
    OwnAdd(inodes, blocks, inodes, blocks[a := SetWord(blocks[a], j, b)], owner, lo, o, b);
  }

  lemma OrderNext(owner: map<nat, Slotted>, lo: nat, b: nat, o: Slotted)
    requires InOrder(owner, lo, b)
    ensures b !in owner && InOrder(owner[b := o], lo, b + 1) && Grows(owner, owner[b := o])
  {
  }

  lemma ShapedOwns(inodes: seq<Inode>, blocks: Disk, owner: map<nat, Slotted>, lo: nat)
    requires Owns(inodes, blocks, owner, lo)
    ensures Shaped(inodes)
  {
  }

  lemma SlotOwned(inodes: seq<Inode>, blocks: Disk, owner: map<nat, Slotted>, lo: nat, i: nat, bn: nat)
    requires Owns(inodes, blocks, owner, lo) && i < |inodes| && bn < MAXFILE
    ensures var x := P(inodes, blocks, Slotted(i, Slot(bn))); Shaped(inodes) && (x != 0 ==> x in owner && x < |blocks|)
  {
  }

  lemma ChunkEnd(off: nat, n: nat)
    requires off % BSIZE + n <= BSIZE && off / BSIZE < MAXFILE
    ensures off + n <= MAXBYTES
  {
  }

  // A chunk s goes at the end of file i, into its block x.
  lemma StoreOK(inodes: seq<Inode>, blocks: Disk, owner: map<nat, Slotted>, lo: nat, i: nat, v: seq<byte>, off: nat,
                s: seq<byte>, files: seq<seq<byte>>, x: nat)
    requires Owns(inodes, blocks, owner, lo) && i < |inodes| && OthersOK(inodes, blocks, files, i)
             && OthersTight(inodes, blocks, i)
    requires DataIs(inodes[i], blocks, v) && Tight(inodes[i], blocks, off + |s|)
    requires off == |v| && s != [] && off % BSIZE + |s| <= BSIZE && off / BSIZE < MAXFILE
    requires x == P(inodes, blocks, Slotted(i, Slot(off / BSIZE))) != 0
    ensures x in owner && x < |blocks|
    ensures var b := blocks[x := Overlay(blocks[x], off % BSIZE, s)];
            && Owns(inodes, b, owner, lo) && OthersOK(inodes, b, files, i) && OthersTight(inodes, b, i)
            && DataIs(inodes[i], b, v + s) && Tight(inodes[i], b, off + |s|)
  {
    hide Owns, P, DataIs, Ptr, OthersTight, Tight;
    SlotOwned(inodes, blocks, owner, lo, i, off / BSIZE);
    ChunkEnd(off, |s|);
    ChunkData(inodes, blocks, owner, lo, i, v, off, s, x);
    var data := Overlay(blocks[x], off % BSIZE, s);
    ChunkFrame(inodes, blocks, owner, lo, i, off / BSIZE, x, data);
    TightWrite(inodes, blocks, blocks[x := data], i, off + |s|);
    assert Splice(v, off, s) == v + s;
  }

  // Block b, the next free one, goes into slot s of inode i.
  lemma SlotTaken(inodes: seq<Inode>, blocks: Disk, owner: map<nat, Slotted>, lo: nat, b: nat, i: nat, s: nat)
    requires Owns(inodes, blocks, owner, lo) && InOrder(owner, lo, b) && b < |blocks| && blocks[b] == ZeroBlock
             && InodesOK(inodes)
    requires i < |inodes| && inodes[i].typ != 0 && s <= NDIRECT && inodes[i].addrs[s] == 0
    ensures var inodes', owner' := inodes[i := inodes[i].(addrs := inodes[i].addrs[s := b])], owner[b := Slotted(i, s)];
            && Owns(inodes', blocks, owner', lo) && InOrder(owner', lo, b + 1) && InodesOK(inodes') && lo <= b
            && SameInodes(inodes, inodes', i) && Grows(owner, owner')
            && DataKept(inodes, blocks, owner, inodes', blocks)
            && SamePtrs(inodes, blocks, inodes', blocks, Slotted(i, s))
  {
    assert blocks[b := ZeroBlock] == blocks;
    AllocSlot(inodes, blocks, owner, lo, i, s, b);
    var inodes' := inodes[i := inodes[i].(addrs := inodes[i].addrs[s := b])];
    OwnAdd(inodes, blocks, inodes', blocks, owner, lo, Slotted(i, s), b);
  }

  class Image {
    const nmeta: nat
    var blocks: Disk
    var inodes: seq<Inode>
    var freeblock: nat
    var freeinode: nat
    ghost var owner: map<nat, Slotted>
    ghost var files: seq<seq<byte>>

    ghost predicate Inv()
      reads this
    {
      && Owns(inodes, blocks, owner, nmeta) && InOrder(owner, nmeta, freeblock) && freeblock <= |blocks| <= UINT
      && (forall b :: freeblock <= b < |blocks| ==> blocks[b] == ZeroBlock)
      && InodesOK(inodes)
    }

    ghost predicate Valid()
      reads this
    {
      && Inv() && FilesOK(inodes, blocks, files) && OthersTight(inodes, blocks, |inodes|)
      && 1 <= freeinode <= |inodes| && forall i :: freeinode <= i < |inodes| ==> inodes[i].typ == 0
    }

    // The image before the first file: fssize zero blocks, no inode in use.
    constructor (nmeta: nat, fssize: nat, ninodes: nat)
      requires 1 <= nmeta <= fssize <= UINT && ninodes >= 1
      ensures Valid() && this.nmeta == nmeta && |blocks| == fssize && freeinode == 1 && freeblock == nmeta
      ensures inodes == seq(ninodes, _ => Inode(0, 0, 0, seq(NDIRECT + 1, _ => 0))) && files == seq(ninodes, _ => [])
    {
      this.nmeta, freeblock, freeinode := nmeta, nmeta, 1;
      blocks := seq(fssize, _ => ZeroBlock);
      inodes := seq(ninodes, _ => Inode(0, 0, 0, seq(NDIRECT + 1, _ => 0)));
      owner, files := map[], seq(ninodes, _ => []);
    }

    /** The next inode, as an empty file. mkfs does not look whether one is
        left; overrun marks the call that writes behind the last one. */
    method Ialloc(typ: nat) returns (inum: nat, overrun: bool)
      requires Valid() && typ != 0
      modifies this`inodes, this`freeinode
      ensures overrun <==> old(freeinode) >= |old(inodes)|
      ensures !overrun ==> Valid() && inum == old(freeinode) && freeinode == inum + 1 && |inodes| == |old(inodes)|
      ensures !overrun ==> files[inum] == []
                           && inodes == old(inodes)[inum := Inode(typ, 1, 0, seq(NDIRECT + 1, _ => 0))]
    {
      hide P;
      inum, overrun := freeinode, freeinode >= |inodes|;
      if overrun { return; }
      freeinode := freeinode + 1;
      var ip := Inode(typ, 1, 0, seq(NDIRECT + 1, _ => 0));
      assert ip.addrs == inodes[inum].addrs;
      OwnsSameAddrs(inodes, blocks, owner, nmeta, inum, ip);
      inodes := inodes[inum := ip];
    }

    // The next block goes into slot s of inode i; false where rsect dies.
    method TakeSlot(i: nat, s: nat) returns (ok: bool)
      requires Inv() && i < |inodes| && inodes[i].typ != 0 && s <= NDIRECT && inodes[i].addrs[s] == 0
      modifies this`inodes, this`freeblock, this`owner
      ensures (ok <==> old(freeblock) < |blocks|) && (!ok ==> freeblock == old(freeblock))
      ensures ok ==> Inv() && SameInodes(old(inodes), inodes, i) && Grows(old(owner), owner) && freeblock > nmeta
      ensures ok ==> DataKept(old(inodes), blocks, old(owner), inodes, blocks)
      ensures ok ==> inodes[i].addrs[s] != 0
      ensures ok ==> SamePtrs(old(inodes), blocks, inodes, blocks, Slotted(i, s))
    {
      hide InOrder, InodesOK, SamePtrs, SameInodes, Grows, DataKept, P;
      var b := freeblock;
      ok := b < |blocks|;
      if ok {
        SlotTaken(inodes, blocks, owner, nmeta, b, i, s);
        inodes := inodes[i := inodes[i].(addrs := inodes[i].addrs[s := b])];
        owner := owner[b := Slotted(i, s)];
        freeblock := b + 1;
      }
    }

    // The next block goes into entry j of the indirect block of inode i.
    method TakeEntry(i: nat, j: nat) returns (ok: bool)
      requires Inv() && i < |inodes| && j < NINDIRECT && inodes[i].addrs[NDIRECT] != 0
      requires P(inodes, blocks, Slotted(i, NDIRECT + 1 + j)) == 0
      modifies this`blocks, this`freeblock, this`owner
      ensures (ok <==> old(freeblock) < |old(blocks)|) && (!ok ==> freeblock == old(freeblock) && blocks == old(blocks))
      ensures ok ==> Inv() && Grows(old(owner), owner) && |blocks| == |old(blocks)|
      ensures ok ==> DataKept(inodes, old(blocks), old(owner), inodes, blocks)
      ensures ok ==> P(inodes, blocks, Slotted(i, NDIRECT + 1 + j)) != 0
      ensures ok ==> SamePtrs(inodes, old(blocks), inodes, blocks, Slotted(i, NDIRECT + 1 + j))
    {
      var b := freeblock;
      ok := b < |blocks|;
      if ok {
        OrderNext(owner, nmeta, b, Slotted(i, NDIRECT + 1 + j));
        hide Owns, P, Word, DataKept, SamePtrs, InodesOK, Grows;
        EntryTaken(inodes, blocks, owner, nmeta, i, j, b);
        var a := inodes[i].addrs[NDIRECT];
        blocks := blocks[a := SetWord(blocks[a], j, b)];
        owner := owner[b := Slotted(i, NDIRECT + 1 + j)];
        freeblock := b + 1;
      }
    }

    // The block for file block fbn, taken if there is none; false on death.
    method Locate(i: nat, fbn: nat) returns (ok: bool)
      requires Inv() && i < |inodes| && inodes[i].typ != 0 && fbn < MAXFILE
      modifies this`blocks, this`inodes, this`freeblock, this`owner
      ensures ok ==> Inv() && SameInodes(old(inodes), inodes, i) && |blocks| == |old(blocks)|
      ensures ok ==> DataKept(old(inodes), old(blocks), old(owner), inodes, blocks)
      ensures ok ==> P(inodes, blocks, Slotted(i, Slot(fbn))) != 0
      ensures !ok ==> freeblock >= |blocks|
      ensures ok ==> SameData(old(inodes), old(blocks), inodes, blocks, i, fbn)
    {
      hide Owns, DataKept, InodesOK;
      ghost var i0, b0, o0 := inodes, blocks, owner;
      assert Shaped(inodes) by { ShapedOwns(inodes, blocks, owner, nmeta); }
      KeptSame(inodes, blocks, owner);
      if fbn < NDIRECT {
        ok := true;
        if inodes[i].addrs[fbn] == 0 {
          ok := TakeSlot(i, fbn);
        }
        return;
      }
      if inodes[i].addrs[NDIRECT] == 0 {
        ok := TakeSlot(i, NDIRECT);
        if !ok { return; }
      }
      ok := LocateEntry(i, fbn - NDIRECT, i0, b0, o0);
    }

    // The end of the indirect case of iappend.
    method LocateEntry(i: nat, j: nat, ghost i0: seq<Inode>, ghost b0: Disk, ghost o0: map<nat, Slotted>)
        returns (ok: bool)
      requires Inv() && i < |inodes| && inodes[i].addrs[NDIRECT] != 0 && j < NINDIRECT
      requires Grows(o0, owner) && DataKept(i0, b0, o0, inodes, blocks)
               && SameData(i0, b0, inodes, blocks, i, NDIRECT + j)
      modifies this`blocks, this`freeblock, this`owner
      ensures ok ==> Inv() && |blocks| == |old(blocks)| && DataKept(i0, b0, o0, inodes, blocks)
      ensures ok ==> P(inodes, blocks, Slotted(i, NDIRECT + 1 + j)) != 0
      ensures !ok ==> freeblock >= |blocks|
      ensures ok ==> SameData(i0, b0, inodes, blocks, i, NDIRECT + j)
    {
      hide Word;
      IndirectOwned(inodes, blocks, owner, nmeta, i);
      ghost var b1, o1 := blocks, owner;
      ok := true;
      if Word(blocks[inodes[i].addrs[NDIRECT]], j) == 0 {
        ok := TakeEntry(i, j);
        if ok { KeptTrans(i0, b0, o0, inodes, b1, o1, inodes, blocks); }
      }
    }

    // One round of iappend's loop.
    method AppendChunk(i: nat, off: nat, s: seq<byte>, ghost v: seq<byte>) returns (ok: bool)
      requires Inv() && i < |inodes| && inodes[i].typ != 0 && OthersOK(inodes, blocks, files, i)
               && OthersTight(inodes, blocks, i)
      requires DataIs(inodes[i], blocks, v) && Tight(inodes[i], blocks, off)
      requires off == |v| && s != [] && off % BSIZE + |s| <= BSIZE && off / BSIZE < MAXFILE
      modifies this`blocks, this`inodes, this`freeblock, this`owner
      ensures ok ==> Inv() && SameInodes(old(inodes), inodes, i) && OthersOK(inodes, blocks, files, i)
                     && OthersTight(inodes, blocks, i)
      ensures ok ==> DataIs(inodes[i], blocks, v + s) && Tight(inodes[i], blocks, off + |s|)
      ensures !ok ==> freeblock >= |blocks|
    {
      hide Word;
      ghost var i0, b0, o0 := inodes, blocks, owner;
      ok := Locate(i, off / BSIZE);
      if !ok { return; }
      OthersKept(i0, b0, o0, nmeta, inodes, blocks, files, i);
      DataFrame(i0, b0, o0, nmeta, inodes, blocks, i, v);
      TightFrame(i0, b0, inodes, blocks, i, off / BSIZE, off, off + |s|);
      StoreChunk(i, off, s, v);
    }

    // rsect, bcopy, wsect
    method StoreChunk(i: nat, off: nat, s: seq<byte>, ghost v: seq<byte>)
      requires Inv() && i < |inodes| && OthersOK(inodes, blocks, files, i) && OthersTight(inodes, blocks, i)
      requires DataIs(inodes[i], blocks, v) && Tight(inodes[i], blocks, off + |s|)
      requires off == |v| && s != [] && off % BSIZE + |s| <= BSIZE && off / BSIZE < MAXFILE
      requires P(inodes, blocks, Slotted(i, Slot(off / BSIZE))) != 0
      modifies this`blocks
      ensures Inv() && OthersOK(inodes, blocks, files, i) && OthersTight(inodes, blocks, i)
      ensures DataIs(inodes[i], blocks, v + s) && Tight(inodes[i], blocks, off + |s|)
    {
      ShapedOwns(inodes, blocks, owner, nmeta);
      hide Owns, DataIs, Tight;
      var x := Ptr(inodes[i], blocks, Slot(off / BSIZE));
      StoreOK(inodes, blocks, owner, nmeta, i, v, off, s, files, x);
      hide OthersOK, OthersTight;
      blocks := blocks[x := Overlay(blocks[x], off % BSIZE, s)];
    }

    /** Appends data to file i, or dies for lack of blocks or file size. */
    method Iappend(i: nat, data: seq<byte>) returns (ok: bool)
      requires Valid() && i < |inodes| && inodes[i].typ != 0
      modifies this`blocks, this`inodes, this`freeblock, this`owner, this`files
      ensures ok ==> Valid() && files == old(files)[i := old(files)[i] + data] && OnlyGrown(old(inodes), inodes, i)
      ensures !ok ==> freeblock >= |blocks| || |old(files)[i]| + |data| > MAXBYTES
    {
      hide Owns, P;
      ghost var inodes0, c0 := inodes, files[i];
      var n, off := 0, inodes[i].size;
      assert c0 + data[..0] == c0;
      while n < |data|
        invariant 0 <= n <= |data| && off == |c0| + n && files == old(files)
        invariant Inv() && SameInodes(inodes0, inodes, i) && OthersOK(inodes, blocks, files, i)
                  && OthersTight(inodes, blocks, i)
        invariant DataIs(inodes[i], blocks, c0 + data[..n]) && Tight(inodes[i], blocks, off)
      {
        if off / BSIZE >= MAXFILE { return false; }
        var n1 := if |data| - n < BSIZE - off % BSIZE then |data| - n else BSIZE - off % BSIZE;
        assert c0 + data[..n] + data[n..n + n1] == c0 + data[..n + n1];
        ok := AppendChunk(i, off, data[n..n + n1], c0 + data[..n]);
        if !ok { return; }
        n, off := n + n1, off + n1;
      }
      assert data[..n] == data;
      SetSize(i, off, c0 + data);
      ok := true;
    }

    // The inode is stored with the size it has now.
    method SetSize(i: nat, off: nat, ghost c: seq<byte>)
      requires Inv() && i < |inodes| && inodes[i].typ != 0 && OthersOK(inodes, blocks, files, i)
               && OthersTight(inodes, blocks, i)
      requires DataIs(inodes[i], blocks, c) && Tight(inodes[i], blocks, off) && off == |c|
      requires 1 <= freeinode <= |inodes| && forall j :: freeinode <= j < |inodes| ==> inodes[j].typ == 0
      modifies this`inodes, this`files
      ensures Valid() && files == old(files)[i := c] && OnlyGrown(old(inodes), inodes, i)
    {
      var ip := inodes[i].(size := off);
      OwnsSameAddrs(inodes, blocks, owner, nmeta, i, ip);
      hide Owns, P;
      inodes := inodes[i := ip];
      files := files[i := c];
    }
  }

  // ---- the end of main

  // The size main gives the root directory.
  function RoundedSize(size: nat): nat {
    (size / BSIZE + 1) * BSIZE
  }

  /** Rounding up the root directory's size leaves a file without holes
      exactly if the size was not a multiple of BSIZE. */
  lemma RootRounding(ip: Inode, blocks: Disk, c: seq<byte>)
    requires DataIs(ip, blocks, c) && Tight(ip, blocks, |c|)
    ensures (exists v :: |v| == RoundedSize(|c|) && DataIs(ip, blocks, v)) <==> |c| % BSIZE != 0
  {
    var n, bn := RoundedSize(|c|), |c| / BSIZE;
    if |c| % BSIZE != 0 {
      var p := Ptr(ip, blocks, Slot(bn));
      assert c[|c| - 1] == blocks[p][(|c| - 1) % BSIZE];
      var v := c + blocks[p][|c| % BSIZE..];
      assert |v| == n;
      forall k | 0 <= k < n
        ensures var q := Ptr(ip, blocks, Slot(k / BSIZE)); 0 < q < |blocks| && blocks[q][k % BSIZE] == v[k]
      {
        if k >= |c| { InBlock(|c|, n - |c|, k); }
      }
      assert DataIs(ip, blocks, v);
    } else {
      forall v | |v| == n ensures !DataIs(ip, blocks, v) {
        if DataIs(ip, blocks, v) {
          Mapped(ip, blocks, v, |c|);
          assert false;
        }
      }
    }
  }

  const DIRENT: nat := 16  // the size of a directory entry

  // A root directory whose entries fill one block.
  function FullRoot(entries: Block): (r: (Inode, Disk)) {
    (Inode(1, 1, BSIZE, [1] + seq(NDIRECT, _ => 0)), [ZeroBlock, entries])
  }

  /** For instance 64 entries, "." and ".." and 62 files, whatever they are:
      mkfs then sets a size whose second block does not exist. */
  lemma FullRootHasHole(entries: Block)
    ensures |entries| == 64 * DIRENT
    ensures var (ip, blocks) := FullRoot(entries);
            && DataIs(ip, blocks, entries) && Tight(ip, blocks, |entries|) && RoundedSize(|entries|) == 2 * BSIZE
            && forall v :: |v| == RoundedSize(|entries|) ==> !DataIs(ip, blocks, v)
  {
    var (ip, blocks) := FullRoot(entries);
    assert DataIs(ip, blocks, entries);
    forall bn | 0 <= bn < MAXFILE && |entries| <= bn * BSIZE ensures Ptr(ip, blocks, Slot(bn)) == 0 {
      assert bn >= 1;
    }
    RootRounding(ip, blocks, entries);
  }

  // balloc(freeblock): a bitmap block with the first used bits set.
  method Balloc(used: nat) returns (m: Bitmap)
    requires used < BPB  // asserted
    ensures |m| == 1 && forall b :: 0 <= b < BPB ==> Bit(m, b) == (b < used)
  {
    m := [seq(BPB, _ => false)];
    for i := 0 to used
      invariant |m| == 1 && forall b :: 0 <= b < BPB ==> Bit(m, b) == (b < i)
    {
      m := PutBit(m, i, true);
    }
  }

  /** The image meets the invariant of the kernel's file operations, and root
      is a file too if its unrounded size is not a multiple of BSIZE. */
  method Finish(g: Image, root: nat) returns (m: Bitmap)
    requires g.Valid() && root < |g.inodes| && g.inodes[root].typ != 0 && |g.blocks| < BPB  // FSSIZE is 2000
    modifies g`inodes, g`files
    ensures Owns(g.inodes, g.blocks, g.owner, g.nmeta) && BitsOK(m, g.owner, g.nmeta, |g.blocks|) && InodesOK(g.inodes)
    ensures var ip := old(g.inodes)[root]; g.inodes == old(g.inodes)[root := ip.(size := RoundedSize(ip.size))]
    ensures old(g.inodes)[root].size % BSIZE != 0 ==>
              FilesOK(g.inodes, g.blocks, g.files) && old(g.files)[root] <= g.files[root]
              && forall j :: 0 <= j < |g.files| && j != root ==> g.files[j] == old(g.files)[j]
  {
    hide P, DataIs, Tight;
    ghost var c := g.files[root];
    ghost var v := if |c| % BSIZE != 0 then RootBytes(g.inodes[root], g.blocks, c) else c;
    var ip := g.inodes[root].(size := RoundedSize(g.inodes[root].size));
    OwnsSameAddrs(g.inodes, g.blocks, g.owner, g.nmeta, root, ip);
    hide Owns;
    m := Balloc(g.freeblock);
    g.inodes := g.inodes[root := ip];
    g.files := g.files[root := v];
  }

  /** So the kernel can mount the image: its invariant holds from the start. */
  method Mount(g: Image, root: nat) returns (fs: FileSystem)
    requires g.Valid() && root < |g.inodes| && g.inodes[root].typ != 0 && |g.blocks| < BPB
             && g.inodes[root].size % BSIZE != 0
    modifies g`inodes, g`files
    ensures fresh(fs) && fs.Valid() && fs.inodes == g.inodes && fs.blocks == g.blocks && fs.files == g.files
  {
    hide Owns, BitsOK, FilesOK, InodesOK;
    var m := Finish(g, root);
    fs := new FileSystem(g.nmeta, m, g.blocks, g.inodes, g.owner, g.files);
  }

  // The bytes of the root directory up to its rounded size.
  ghost function RootBytes(ip: Inode, blocks: Disk, c: seq<byte>): (v: seq<byte>)
    requires DataIs(ip, blocks, c) && Tight(ip, blocks, |c|) && |c| % BSIZE != 0
    ensures |v| == RoundedSize(|c|) && c <= v
    ensures forall size :: DataIs(ip.(size := size), blocks, v)
  {
    RootRounding(ip, blocks, c);
    var v :| |v| == RoundedSize(|c|) && DataIs(ip, blocks, v);
    assert forall k :: 0 <= k < |c| ==> v[k] == c[k];
    v
  }
}
