/** The inode layer of fs.c over the plain block map that cache and log
    provide: block allocation, the block map of a file, reads, writes and
    truncation of byte files. */
module Fs {
  import opened Blocks
  import opened Bitmap
  import opened FsTree
  import opened FsLog

  // ---- splicing bytes into a file

  function Splice(c: seq<byte>, off: nat, s: seq<byte>): (r: seq<byte>)
    requires off <= |c|
    ensures |r| == if off + |s| > |c| then off + |s| else |c|
    ensures forall k :: 0 <= k < |r| ==> r[k] == if off <= k < off + |s| then s[k - off] else c[k]
  {
    if off + |s| > |c| then c[..off] + s else c[..off] + s + c[off + |s|..]
  }

  function Overlay(b: Block, at: nat, s: seq<byte>): (r: Block)
    requires at + |s| <= BSIZE
    ensures forall k :: 0 <= k < BSIZE ==> r[k] == if at <= k < at + |s| then s[k - at] else b[k]
  {
    b[..at] + s + b[at + |s|..]
  }

  // As much of what is left as the block of at has room for.
  function ChunkLength(at: nat, left: nat): (m: nat)
    ensures m <= left && at % BSIZE + m <= BSIZE && (left > 0 ==> m > 0) && (m == left || (at + m) % BSIZE == 0)
  {
    if left < BSIZE - at % BSIZE then left else BSIZE - at % BSIZE
  }

  // Where byte k of a file sits, for k in the block of off.
  lemma InBlock(off: nat, m: nat, k: nat)
    requires off % BSIZE + m <= BSIZE
    ensures off <= k < off + m ==> k / BSIZE == off / BSIZE
    ensures k / BSIZE == off / BSIZE ==> (off <= k < off + m <==> off % BSIZE <= k % BSIZE < off % BSIZE + m)
    ensures off <= k < off + m ==> k % BSIZE - off % BSIZE == k - off
  {
  }

  // A write to a data block leaves all pointers alone.
  lemma PtrFrame(inodes: seq<Inode>, blocks: Disk, owner: map<nat, Slotted>, lo: nat, i: nat, bn: nat, addr: nat,
                 data: Block)
    requires Owns(inodes, blocks, owner, lo) && i < |inodes| && bn < MAXFILE
             && P(inodes, blocks, Slotted(i, Slot(bn))) == addr != 0
    ensures addr < |blocks| && addr in owner && owner[addr] == Slotted(i, Slot(bn))
    ensures forall x: Slotted :: IsSlot(inodes, x) ==> P(inodes, blocks[addr := data], x) == P(inodes, blocks, x)
  {
    hide Word;
    forall x: Slotted | IsSlot(inodes, x) ensures P(inodes, blocks[addr := data], x) == P(inodes, blocks, x) {
      IndirectOwned(inodes, blocks, owner, lo, x.inum);
    }
  }

  // Other blocks of the file have other owners.
  lemma OtherBlock(inodes: seq<Inode>, blocks: Disk, owner: map<nat, Slotted>, lo: nat, i: nat, bn: nat, bn': nat)
    requires Owns(inodes, blocks, owner, lo) && i < |inodes| && bn < MAXFILE && bn' < MAXFILE && bn != bn'
    requires P(inodes, blocks, Slotted(i, Slot(bn))) != 0
    ensures P(inodes, blocks, Slotted(i, Slot(bn))) != P(inodes, blocks, Slotted(i, Slot(bn')))
  {
    hide P;
    assert Slotted(i, Slot(bn)) != Slotted(i, Slot(bn'));
  }

  // Byte k of the file after a chunk was put into the block of off.
  lemma ChunkByte(b: Block, v: seq<byte>, off: nat, s: seq<byte>, k: nat)
    requires off <= |v| && off % BSIZE + |s| <= BSIZE && k < |Splice(v, off, s)|
    requires k / BSIZE == off / BSIZE && k < |v| ==> v[k] == b[k % BSIZE]
    ensures k / BSIZE == off / BSIZE ==> Splice(v, off, s)[k] == Overlay(b, off % BSIZE, s)[k % BSIZE]
    ensures k / BSIZE != off / BSIZE ==> k < |v| && Splice(v, off, s)[k] == v[k]
  {
    hide Splice, Overlay;
    InBlock(off, |s|, k);
  }

  // Writing a chunk into the block of off splices it into the file's data.
  lemma ChunkData(inodes: seq<Inode>, blocks: Disk, owner: map<nat, Slotted>, lo: nat, i: nat, v: seq<byte>, off: nat,
                  s: seq<byte>, addr: nat)
    requires Owns(inodes, blocks, owner, lo) && i < |inodes| && DataIs(inodes[i], blocks, v)
    requires off <= |v| && off % BSIZE + |s| <= BSIZE && off + |s| <= MAXBYTES
    requires s != [] && P(inodes, blocks, Slotted(i, Slot(off / BSIZE))) == addr != 0
    ensures addr < |blocks| &&
            DataIs(inodes[i], blocks[addr := Overlay(blocks[addr], off % BSIZE, s)], Splice(v, off, s))
  {
    hide Splice, Overlay, Ptr;
    PtrFrame(inodes, blocks, owner, lo, i, off / BSIZE, addr, ZeroBlock);
    var data := Overlay(blocks[addr], off % BSIZE, s);
    PtrFrame(inodes, blocks, owner, lo, i, off / BSIZE, addr, data);
    var blocks', v' := blocks[addr := data], Splice(v, off, s);
    forall k | 0 <= k < |v'|
      ensures var p := Ptr(inodes[i], blocks', Slot(k / BSIZE)); 0 < p < |blocks'| && blocks'[p][k % BSIZE] == v'[k]
    {
      var x := Slotted(i, Slot(k / BSIZE));
      assert Ptr(inodes[i], blocks', x.slot) == P(inodes, blocks, x);
      ChunkByte(blocks[addr], v, off, s, k);
      if k / BSIZE != off / BSIZE { OtherBlock(inodes, blocks, owner, lo, i, off / BSIZE, k / BSIZE); }
    }
  }

  lemma Mapped(ip: Inode, blocks: Disk, c: seq<byte>, k: nat)
    requires DataIs(ip, blocks, c) && k < |c|
    ensures k / BSIZE < MAXFILE && Ptr(ip, blocks, Slot(k / BSIZE)) != 0
  {
    assert c[k] == c[k];
  }

  // Bytes of one block of the file.
  lemma ChunkRead(ip: Inode, blocks: Disk, c: seq<byte>, off: nat, m: nat, addr: nat)
    requires DataIs(ip, blocks, c) && off + m <= |c| && off % BSIZE + m <= BSIZE && m > 0
    requires addr == Ptr(ip, blocks, Slot(off / BSIZE))
    ensures addr < |blocks| && blocks[addr][off % BSIZE..off % BSIZE + m] == c[off..off + m]
  {
    assert c[off] == blocks[addr][off % BSIZE];
    var r := blocks[addr][off % BSIZE..off % BSIZE + m];
    forall j | 0 <= j < m ensures r[j] == c[off..off + m][j] {
      InBlock(off, m, off + j);
    }
  }

  // A write to a data block leaves ownership and the data of others alone.
  lemma ChunkFrame(inodes: seq<Inode>, blocks: Disk, owner: map<nat, Slotted>, lo: nat, i: nat, bn: nat, addr: nat,
                   data: Block)
    requires Owns(inodes, blocks, owner, lo) && i < |inodes| && bn < MAXFILE
             && P(inodes, blocks, Slotted(i, Slot(bn))) == addr != 0
    ensures addr < |blocks| && Owns(inodes, blocks[addr := data], owner, lo)
    ensures forall x: Slotted :: IsSlot(inodes, x) ==> P(inodes, blocks[addr := data], x) == P(inodes, blocks, x)
    ensures forall j, c :: 0 <= j < |inodes| && j != i && DataIs(inodes[j], blocks, c)
              ==> DataIs(inodes[j], blocks[addr := data], c)
  {
    PtrFrame(inodes, blocks, owner, lo, i, bn, addr, data);
    var blocks' := blocks[addr := data];
    hide Ptr;
    forall j, c | 0 <= j < |inodes| && j != i && DataIs(inodes[j], blocks, c) ensures DataIs(inodes[j], blocks', c) {
      forall k | 0 <= k < |c|
        ensures var p := Ptr(inodes[j], blocks', Slot(k / BSIZE)); 0 < p < |blocks'| && blocks'[p][k % BSIZE] == c[k]
      {
        var x := Slotted(j, Slot(k / BSIZE));
        assert P(inodes, blocks', x) == P(inodes, blocks, x);
        assert owner[P(inodes, blocks, x)] == x;
      }
    }
  }

  // ---- allocation as seen by the invariant

  ghost predicate InodesOK(inodes: seq<Inode>) {
    forall i :: 0 <= i < |inodes| && inodes[i].typ == 0 ==>
      inodes[i].size == 0 && forall k :: 0 <= k < |inodes[i].addrs| ==> inodes[i].addrs[k] == 0
  }

  // Inode i may have new pointers; the other inodes are as before.
  ghost predicate SameInodes(a: seq<Inode>, b: seq<Inode>, i: nat) {
    && |a| == |b| && i < |a| && |b[i].addrs| == |a[i].addrs|
    && b[i] == a[i].(addrs := b[i].addrs) && forall j :: 0 <= j < |a| && j != i ==> b[j] == a[j]
  }

  // Inode i may have a new size and new pointers; nothing else about the inodes
  // changes, so no file is linked, unlinked, made or freed.
  ghost predicate OnlyGrown(a: seq<Inode>, b: seq<Inode>, i: nat) {
    && |a| == |b| && i < |a| && |b[i].addrs| == |a[i].addrs|
    && b[i] == a[i].(size := b[i].size, addrs := b[i].addrs) && forall j :: 0 <= j < |a| && j != i ==> b[j] == a[j]
  }

  // Inode i alone may change.
  ghost predicate OnlyInode(a: seq<Inode>, b: seq<Inode>, i: nat) {
    |a| == |b| && i < |a| && forall j :: 0 <= j < |a| && j != i ==> b[j] == a[j]
  }

  lemma Added(inodes: seq<Inode>, blocks: Disk, inodes': seq<Inode>, blocks': Disk, owner: map<nat, Slotted>, lo: nat,
              m: Bitmap, o: Slotted, b: nat)
    requires Owns(inodes, blocks, owner, lo) && BitsOK(m, owner, lo, |blocks|) && IsSlot(inodes, o)
    requires SamePtrs(inodes, blocks, inodes', blocks', o) && SameInodes(inodes, inodes', o.inum)
    requires |blocks'| == |blocks| && forall p :: p in owner && p < |blocks| && owner[p].slot != NDIRECT
                                        ==> blocks'[p] == blocks[p]
    requires P(inodes, blocks, o) == 0 && P(inodes', blocks', o) == b && lo <= b < |blocks| && b !in owner
    ensures Owns(inodes', blocks', owner[b := o], lo) && BitsOK(PutBit(m, b, true), owner[b := o], lo, |blocks|)
    ensures DataKept(inodes, blocks, owner, inodes', blocks')
  {
    OwnAdd(inodes, blocks, inodes', blocks', owner, lo, o, b);
  }

  ghost predicate Grows(a: map<nat, Slotted>, b: map<nat, Slotted>) {
    forall p :: p in a ==> p in b && b[p] == a[p]
  }

  lemma KeptTrans(i0: seq<Inode>, b0: Disk, o0: map<nat, Slotted>, i1: seq<Inode>, b1: Disk, o1: map<nat, Slotted>,
                  i2: seq<Inode>, b2: Disk)
    requires DataKept(i0, b0, o0, i1, b1) && Grows(o0, o1) && DataKept(i1, b1, o1, i2, b2)
    ensures DataKept(i0, b0, o0, i2, b2)
  {
    forall x: Slotted | IsSlot(i0, x) && P(i0, b0, x) != 0 ensures P(i2, b2, x) == P(i0, b0, x) {
      assert P(i1, b1, x) == P(i0, b0, x);
    }
  }

  lemma KeptSame(i0: seq<Inode>, b0: Disk, o0: map<nat, Slotted>)
    requires Shaped(i0)
    ensures DataKept(i0, b0, o0, i0, b0)
  {
  }

  ghost predicate OthersOK(inodes: seq<Inode>, blocks: Disk, files: seq<seq<byte>>, i: nat) {
    && |files| == |inodes|
    && forall j :: 0 <= j < |inodes| && j != i ==> inodes[j].size == |files[j]| && DataIs(inodes[j], blocks, files[j])
  }

  lemma OneAndOthers(inodes: seq<Inode>, blocks: Disk, files: seq<seq<byte>>, i: nat)
    requires FilesOK(inodes, blocks, files) && i < |inodes|
    ensures OthersOK(inodes, blocks, files, i) && inodes[i].size == |files[i]| && DataIs(inodes[i], blocks, files[i])
  {
  }

  lemma OthersKept(i0: seq<Inode>, b0: Disk, o0: map<nat, Slotted>, lo: nat, i1: seq<Inode>, b1: Disk,
                   files: seq<seq<byte>>, i: nat)
    requires Owns(i0, b0, o0, lo) && DataKept(i0, b0, o0, i1, b1) && OthersOK(i0, b0, files, i)
    ensures OthersOK(i1, b1, files, i)
  {
    forall j | 0 <= j < |i0| && j != i ensures DataIs(i1[j], b1, files[j]) {
      DataFrame(i0, b0, o0, lo, i1, b1, j, files[j]);
    }
  }

  // Only the pointers of an inode matter for ownership.
  lemma OwnsSameAddrs(inodes: seq<Inode>, blocks: Disk, owner: map<nat, Slotted>, lo: nat, i: nat, ip: Inode)
    requires Owns(inodes, blocks, owner, lo) && i < |inodes| && ip.addrs == inodes[i].addrs
    ensures Owns(inodes[i := ip], blocks, owner, lo)
  {
    var inodes' := inodes[i := ip];
    assert forall x: Slotted :: IsSlot(inodes, x) ==> P(inodes', blocks, x) == P(inodes, blocks, x);
  }

  lemma SpliceMore(c: seq<byte>, off: nat, s: seq<byte>, t: nat, m: nat)
    requires off <= |c| && t + m <= |s|
    ensures Splice(Splice(c, off, s[..t]), off + t, s[t..t + m]) == Splice(c, off, s[..t + m])
  {
  }

  // ---- truncation

  // As BitsOK, but the blocks in the slots done of inode i are free already.
  ghost predicate BitsLess(m: Bitmap, owner: map<nat, Slotted>, lo: nat, size: nat, i: nat, done: set<nat>) {
    && Covers(m, size)
    && forall b :: 0 <= b < size
         ==> Bit(m, b) == (b < lo || (b in owner && !(owner[b].inum == i && owner[b].slot in done)))
  }

  // Slot s is next; a block in it still has its bit set.
  lemma FreeOne(inodes: seq<Inode>, blocks: Disk, owner: map<nat, Slotted>, lo: nat, m: Bitmap, i: nat, done: set<nat>,
                s: nat)
    requires Owns(inodes, blocks, owner, lo) && BitsLess(m, owner, lo, |blocks|, i, done) && i < |inodes| && s < NSLOTS
             && s !in done
    ensures var b := P(inodes, blocks, Slotted(i, s));
            if b == 0 then BitsLess(m, owner, lo, |blocks|, i, done + {s})
            else b < |blocks| && Bit(m, b) && BitsLess(PutBit(m, b, false), owner, lo, |blocks|, i, done + {s})
  {
    var b := P(inodes, blocks, Slotted(i, s));
    if b != 0 {
      assert owner[b] == Slotted(i, s);
      forall c | 0 <= c < |blocks|
        ensures Bit(PutBit(m, b, false), c)
                == (c < lo || (c in owner && !(owner[c].inum == i && owner[c].slot in done + {s})))
      {
        if c in owner && owner[c] == Slotted(i, s) { assert P(inodes, blocks, owner[c]) == c; }
      }
    } else {
      forall c | c in owner ensures owner[c] != Slotted(i, s) {
        assert P(inodes, blocks, owner[c]) == c >= lo;
      }
    }
  }

  function Slots(n: nat): (r: set<nat>)
    ensures forall s :: s in r <==> 0 <= s < n
  {
    if n == 0 then {} else Slots(n - 1) + {n - 1}
  }

  // Without an indirect block no more slots are in use.
  lemma NoIndirect(inodes: seq<Inode>, blocks: Disk, owner: map<nat, Slotted>, lo: nat, m: Bitmap, i: nat)
    requires Owns(inodes, blocks, owner, lo) && BitsLess(m, owner, lo, |blocks|, i, Slots(NDIRECT)) && i < |inodes|
    requires inodes[i].addrs[NDIRECT] == 0
    ensures BitsLess(m, owner, lo, |blocks|, i, Slots(NSLOTS))
  {
    forall c | c in owner && owner[c].inum == i ensures owner[c].slot in Slots(NDIRECT) {
      assert P(inodes, blocks, owner[c]) == c >= lo;
    }
  }

  ghost function Without(owner: map<nat, Slotted>, i: nat): map<nat, Slotted> {
    map p | p in owner && owner[p].inum != i :: owner[p]
  }

  lemma Truncated(inodes: seq<Inode>, blocks: Disk, owner: map<nat, Slotted>, lo: nat, m: Bitmap, i: nat, ip: Inode)
    requires Owns(inodes, blocks, owner, lo) && i < |inodes| && BitsLess(m, owner, lo, |blocks|, i, Slots(NSLOTS))
    requires |ip.addrs| == NDIRECT + 1 && forall k :: 0 <= k <= NDIRECT ==> ip.addrs[k] == 0
    ensures Owns(inodes[i := ip], blocks, Without(owner, i), lo) && BitsOK(m, Without(owner, i), lo, |blocks|)
  {
    var inodes', owner' := inodes[i := ip], Without(owner, i);
    assert forall x: Slotted :: IsSlot(inodes, x)
             ==> P(inodes', blocks, x) == if x.inum == i then 0 else P(inodes, blocks, x);
    forall b | 0 <= b < |blocks| ensures Bit(m, b) == (b < lo || b in owner') {
      if b in owner { assert owner[b].slot in Slots(NSLOTS); }
    }
  }

  lemma WellShaped(inodes: seq<Inode>, blocks: Disk, owner: map<nat, Slotted>, lo: nat)
    requires Owns(inodes, blocks, owner, lo)
    ensures Shaped(inodes)
  {
  }

  lemma NoneOwned(inodes: seq<Inode>, blocks: Disk, owner: map<nat, Slotted>, lo: nat, i: nat)
    requires Owns(inodes, blocks, owner, lo) && i < |inodes|
             && forall k :: 0 <= k <= NDIRECT ==> inodes[i].addrs[k] == 0
    ensures forall b :: b in owner ==> owner[b].inum != i
  {
    forall b | b in owner ensures owner[b].inum != i {
      assert P(inodes, blocks, owner[b]) == b;
    }
  }

  lemma Emptied(inodes: seq<Inode>, blocks: Disk, files: seq<seq<byte>>, i: nat, ip: Inode)
    requires FilesOK(inodes, blocks, files) && InodesOK(inodes) && i < |inodes| && ip.size == 0
    requires |ip.addrs| == NDIRECT + 1 && forall k :: 0 <= k <= NDIRECT ==> ip.addrs[k] == 0
    ensures |files| == |inodes| && FilesOK(inodes[i := ip], blocks, files[i := []]) && InodesOK(inodes[i := ip])
  {
  }

  class FileSystem {
    const lo: nat               // the first data block
    var bitmap: Bitmap
    var blocks: Disk            // all blocks; sb.size of them
    var inodes: seq<Inode>      // the in-core inodes
    var dinodes: seq<Inode>     // the inodes on disk
    ghost var owner: map<nat, Slotted>
    ghost var files: seq<seq<byte>>
    ghost var log: Logged       // by the operation in progress

    ghost predicate Inv()
      reads this
    {
      && Owns(inodes, blocks, owner, lo) && BitsOK(bitmap, owner, lo, |blocks|) && |blocks| <= UINT && InodesOK(inodes)
    }

    ghost function OnDisk(): Stored
      reads this
    {
      Stored(blocks, bitmap, dinodes)
    }

    // Between operations.
    ghost predicate Valid()
      reads this
    {
      Inv() && FilesOK(inodes, blocks, files) && dinodes == inodes
    }

    constructor (lo: nat, bitmap: Bitmap, blocks: Disk, inodes: seq<Inode>, ghost owner: map<nat, Slotted>,
                 ghost files: seq<seq<byte>>)
      requires Owns(inodes, blocks, owner, lo) && BitsOK(bitmap, owner, lo, |blocks|) && |blocks| <= UINT
               && InodesOK(inodes)
      requires FilesOK(inodes, blocks, files)
      ensures Valid() && this.inodes == inodes && this.blocks == blocks && this.bitmap == bitmap && this.files == files
    {
      this.lo, this.bitmap, this.blocks, this.inodes, this.dinodes := lo, bitmap, blocks, inodes, inodes;
      this.owner, this.files, log := owner, files, Logged({}, {}, {});
    }

    method Balloc() returns (b: nat)
      requires BitsOK(bitmap, owner, lo, |blocks|) && lo >= 1
      modifies this`bitmap, this`blocks, this`log
      ensures log == if b == 0 then old(log) else Note(old(log), b)
      ensures Recorded(old(OnDisk()), OnDisk(), old(log), log)
      ensures b == 0 ==> bitmap == old(bitmap) && blocks == old(blocks)
                         && forall c :: 0 <= c < |blocks| ==> Bit(bitmap, c)
      ensures b != 0 ==> lo <= b < |old(blocks)| && b !in owner
                         && bitmap == PutBit(old(bitmap), b, true) && blocks == old(blocks)[b := ZeroBlock]
    {
      RecordedSame(OnDisk(), log);
      b := FirstClear(bitmap, |blocks|);
      if b == |blocks| {
        return 0;
      }
      RecordedAlloc(OnDisk(), log, b);
      hide Recorded;
      bitmap := PutBit(bitmap, b, true);
      blocks := blocks[b := ZeroBlock];
      log := Note(log, b);
    }

    method Bmap(i: nat, bn: nat) returns (addr: nat)
      requires Inv() && i < |inodes| && inodes[i].typ != 0 && bn < MAXFILE
      modifies this`bitmap, this`blocks, this`inodes, this`owner, this`log
      ensures Inv() && SameInodes(old(inodes), inodes, i) && Grows(old(owner), owner) && |blocks| == |old(blocks)|
      ensures DataKept(old(inodes), old(blocks), old(owner), inodes, blocks)
      ensures addr == P(inodes, blocks, Slotted(i, Slot(bn)))
      ensures P(old(inodes), old(blocks), Slotted(i, Slot(bn))) != 0 ==> unchanged(this)
      ensures addr == 0 ==> forall c :: 0 <= c < |blocks| ==> Bit(bitmap, c)
      ensures LogsOn(old(log), log, old(inodes)[i], inodes[i], 1, {addr})
      ensures Recorded(old(OnDisk()), OnDisk(), old(log), log)
    {
      hide Bit, BitsOK, Word, DataKept, InodesOK, LogsOn, Recorded;
      ghost var inodes0, blocks0, owner0, log0, d0 := inodes, blocks, owner, log, OnDisk();
      RecordedSame(d0, log0);
      KeptSame(inodes, blocks, owner);
      LogsNothing(log, inodes[i]);
      if bn < NDIRECT {
        addr := inodes[i].addrs[bn];
        if addr == 0 {
          addr := AllocInSlot(i, bn);
        }
        LogsMore(log0, log, inodes0[i], inodes[i], if addr == inodes0[i].addrs[bn] then 0 else 1,
            if addr == inodes0[i].addrs[bn] then {} else {addr}, 1, {addr});
        return;
      }
      addr := inodes[i].addrs[NDIRECT];
      if addr == 0 {
        addr := AllocInSlot(i, NDIRECT);
        if addr == 0 {
          LogsMore(log0, log, inodes0[i], inodes[i], 0, {}, 1, {addr});
          return;
        }
      }
      ghost var log1, ip, d1 := log, inodes[i], OnDisk();
      addr := BmapIndirect(i, bn - NDIRECT, inodes0, blocks0, owner0);
      RecordedTrans(d0, d1, OnDisk(), log0, log1, log);
      LogsOnTrans(log0, log1, log, inodes0[i], ip, ip, 0, 1, {}, {addr});
      assert {} + {addr} == {addr};
    }

    // The end of bmap, with the indirect block in place; inodes0, blocks0
    // and owner0 are the state at its start.
    method BmapIndirect(i: nat, j: nat, ghost inodes0: seq<Inode>, ghost blocks0: Disk,
                        ghost owner0: map<nat, Slotted>) returns (addr: nat)
      requires Inv() && i < |inodes| && inodes[i].addrs[NDIRECT] != 0 && j < NINDIRECT
      requires Grows(owner0, owner) && DataKept(inodes0, blocks0, owner0, inodes, blocks)
      modifies this`bitmap, this`blocks, this`owner, this`log
      ensures Inv() && Grows(owner0, owner) && |blocks| == |old(blocks)|
      ensures DataKept(inodes0, blocks0, owner0, inodes, blocks)
      ensures addr == P(inodes, blocks, Slotted(i, NDIRECT + 1 + j))
      ensures P(inodes, old(blocks), Slotted(i, NDIRECT + 1 + j)) != 0 ==> unchanged(this)
      ensures addr == 0 ==> forall c :: 0 <= c < |blocks| ==> Bit(bitmap, c)
      ensures LogsOn(old(log), log, inodes[i], inodes[i], 1, {addr})
      ensures Recorded(old(OnDisk()), OnDisk(), old(log), log)
    {
      hide Bit, BitsOK, Word, LogsOn, Recorded;
      RecordedSame(OnDisk(), log);
      IndirectOwned(inodes, blocks, owner, lo, i);
      LogsNothing(log, inodes[i]);
      ghost var blocks1, owner1, log1 := blocks, owner, log;
      addr := Word(blocks[inodes[i].addrs[NDIRECT]], j);
      if addr == 0 {
        addr := AllocInEntry(i, j);
        KeptTrans(inodes0, blocks0, owner0, inodes, blocks1, owner1, inodes, blocks);
      } else {
        LogsMore(log1, log, inodes[i], inodes[i], 0, {}, 1, {addr});
      }
    }

    // A new block for a direct pointer, or for the indirect block.
    method AllocInSlot(i: nat, s: nat) returns (addr: nat)
      requires Inv() && i < |inodes| && inodes[i].typ != 0 && s <= NDIRECT && inodes[i].addrs[s] == 0
      modifies this`bitmap, this`blocks, this`inodes, this`owner, this`log
      ensures Inv() && SameInodes(old(inodes), inodes, i) && Grows(old(owner), owner) && |blocks| == |old(blocks)|
      ensures DataKept(old(inodes), old(blocks), old(owner), inodes, blocks)
      ensures addr == inodes[i].addrs[s]
      ensures addr == 0 ==> unchanged(this) && forall c :: 0 <= c < |blocks| ==> Bit(bitmap, c)
      ensures addr != 0 ==> LogsOn(old(log), log, old(inodes)[i], inodes[i], if s < NDIRECT then 1 else 0,
              if s < NDIRECT then {addr} else {})
      ensures Recorded(old(OnDisk()), OnDisk(), old(log), log)
    {
      hide Bit, PutBit, BitsOK, DataKept, Word, LogsOn, Note, Recorded;
      KeptSame(inodes, blocks, owner);
      addr := Balloc();
      if addr != 0 {
        ghost var o := Slotted(i, s);
        AllocSlot(inodes, old(blocks), owner, lo, i, s, addr);
        LogsSlot(old(log), inodes[i], s, addr);
        var inodes' := inodes[i := inodes[i].(addrs := inodes[i].addrs[s := addr])];
        Added(inodes, old(blocks), inodes', blocks, owner, lo, old(bitmap), o, addr);
        inodes := inodes';
        owner := owner[addr := o];
      }
    }

    // A new block for an entry of the indirect block.
    method AllocInEntry(i: nat, j: nat) returns (addr: nat)
      requires Inv() && i < |inodes| && j < NINDIRECT && inodes[i].addrs[NDIRECT] != 0
      requires P(inodes, blocks, Slotted(i, NDIRECT + 1 + j)) == 0
      modifies this`bitmap, this`blocks, this`owner, this`log
      ensures Inv() && Grows(old(owner), owner) && |blocks| == |old(blocks)|
      ensures DataKept(old(inodes), old(blocks), old(owner), inodes, blocks)
      ensures addr == P(inodes, blocks, Slotted(i, NDIRECT + 1 + j))
      ensures addr == 0 ==> unchanged(this) && forall c :: 0 <= c < |blocks| ==> Bit(bitmap, c)
      ensures LogsOn(old(log), log, inodes[i], inodes[i], 1, {addr})
      ensures Recorded(old(OnDisk()), OnDisk(), old(log), log)
    {
      hide Bit, PutBit, BitsOK, DataKept, Word, LogsOn, Note, Recorded;
      KeptSame(inodes, blocks, owner);
      LogsNothing(log, inodes[i]);
      LogsMore(log, log, inodes[i], inodes[i], 0, {}, 1, {0});
      addr := Balloc();
      if addr != 0 {
        LogsEntry(old(log), inodes[i], addr);
        ghost var o := Slotted(i, NDIRECT + 1 + j);
        AllocEntry(inodes, old(blocks), owner, lo, i, j, addr);
        IndirectOwned(inodes, old(blocks), owner, lo, i);
        var a := inodes[i].addrs[NDIRECT];
        var blocks' := blocks[a := SetWord(blocks[a], j, addr)];
        Added(inodes, old(blocks), inodes, blocks', owner, lo, old(bitmap), o, addr);
        RecordedBlock(OnDisk(), log, a, blocks'[a]);
        RecordedTrans(old(OnDisk()), OnDisk(), OnDisk().(blocks := blocks'), old(log), log,
                      log.(datas := log.datas + {a}));
        blocks := blocks';
        owner := owner[addr := o];
        log := log.(datas := log.datas + {a});
      }
    }

    // One round of writei's loop: bmap, and a copy into the block a.
    method WriteChunk(i: nat, off: nat, s: seq<byte>, ghost v: seq<byte>) returns (ok: bool, ghost a: nat)
      requires Inv() && i < |inodes| && inodes[i].typ != 0 && OthersOK(inodes, blocks, files, i)
      requires DataIs(inodes[i], blocks, v) && off <= |v| && s != [] && off % BSIZE + |s| <= BSIZE
               && off + |s| <= MAXBYTES
      modifies this`bitmap, this`blocks, this`inodes, this`owner, this`log
      ensures Inv() && SameInodes(old(inodes), inodes, i) && OthersOK(inodes, blocks, files, i)
      ensures ok ==> DataIs(inodes[i], blocks, Splice(v, off, s))
      ensures !ok ==> DataIs(inodes[i], blocks, v) && forall c :: 0 <= c < |blocks| ==> Bit(bitmap, c)
      ensures LogsOn(old(log), log, old(inodes)[i], inodes[i],
              if IsMapped(old(inodes)[i], old(blocks), off) then 0 else 1, {a})
      ensures Recorded(old(OnDisk()), OnDisk(), old(log), log)
    {
      hide Bit, BitsOK, Word, LogsOn, InodesOK, DataIs, OthersOK, Recorded;
      ghost var i0, b0, o0, log0, d0 := inodes, blocks, owner, log, OnDisk();
      ghost var one := if IsMapped(i0[i], b0, off) then 0 else 1;
      LogsNothing(log, inodes[i]);
      var addr := Bmap(i, off / BSIZE);
      a := addr;
      if one == 0 { LogsMore(log0, log, i0[i], inodes[i], 0, {}, 0, {a}); }
      OthersKept(i0, b0, o0, lo, inodes, blocks, files, i);
      DataFrame(i0, b0, o0, lo, inodes, blocks, i, v);
      hide Owns, DataKept, Grows;
      ok := addr != 0;
      if ok {
        ghost var log1, d1 := log, OnDisk();
        PutChunk(i, off, s, addr, v);
        RecordedTrans(d0, d1, OnDisk(), log0, log1, log);
        LogsData(log1, inodes[i], addr);
        LogsOnTrans(log0, log1, log, i0[i], inodes[i], inodes[i], one, 0, {a}, {a});
        assert {a} + {a} == {a};
      }
    }

    // The copy into block addr, which holds offset off of the file.
    method PutChunk(i: nat, off: nat, s: seq<byte>, addr: nat, ghost v: seq<byte>)
      requires Inv() && i < |inodes| && OthersOK(inodes, blocks, files, i)
      requires DataIs(inodes[i], blocks, v) && off <= |v| && s != [] && off % BSIZE + |s| <= BSIZE
               && off + |s| <= MAXBYTES
      requires P(inodes, blocks, Slotted(i, Slot(off / BSIZE))) == addr != 0
      modifies this`blocks, this`log
      ensures Inv() && OthersOK(inodes, blocks, files, i) && DataIs(inodes[i], blocks, Splice(v, off, s))
      ensures log == old(log).(datas := old(log).datas + {addr})
      ensures Recorded(old(OnDisk()), OnDisk(), old(log), log)
    {
      hide Bit, BitsOK, Word, InodesOK, Recorded;
      ChunkData(inodes, blocks, owner, lo, i, v, off, s, addr);
      var data := Overlay(blocks[addr], off % BSIZE, s);
      ChunkFrame(inodes, blocks, owner, lo, i, off / BSIZE, addr, data);
      hide Owns, DataIs;
      RecordedBlock(OnDisk(), log, addr, data);
      blocks := blocks[addr := data];
      log := log.(datas := log.datas + {addr});
    }

    method Iupdate(i: nat)
      requires i < |inodes| == |dinodes|
      modifies this`dinodes, this`log
      ensures dinodes == old(dinodes)[i := inodes[i]]
      ensures log == old(log).(inos := old(log).inos + {i / IPB})
      ensures Recorded(old(OnDisk()), OnDisk(), old(log), log)
    {
      RecordedInode(OnDisk(), log, i, inodes[i]);
      dinodes := dinodes[i := inodes[i]];
      log := log.(inos := log.inos + {i / IPB});
    }

    /** The bytes written are spliced in at off; if fewer than asked, the disk
        is full. Of the inodes only this one changes, in size and pointers, and
        no other file does. Every block that changes on disk is logged, and
        Worst bounds how many are. */
    method Writei(i: nat, off: nat, src: seq<byte>) returns (r: int)
      requires Valid() && i < |inodes| && inodes[i].typ != 0 && off < UINT && |src| < UINT
      modifies this`bitmap, this`blocks, this`inodes, this`dinodes, this`owner, this`files, this`log
      ensures Valid() && OnlyGrown(old(inodes), inodes, i)
      ensures r == -1 <==> off > |old(files)[i]| || off + |src| >= UINT || off + |src| > MAXBYTES
      ensures r == -1 ==> unchanged(this)
      ensures r != -1 ==> 0 <= r <= |src| && files == old(files)[i := Splice(old(files)[i], off, src[..r])]
      ensures 0 <= r < |src| ==> forall c :: 0 <= c < |blocks| ==> Bit(bitmap, c)
      ensures Count(log) <= Count(old(log)) + Worst(off, |src|)
      ensures Recorded(old(OnDisk()), OnDisk(), old(log), log)
    {
      hide Bit, BitsOK, Owns, InodesOK, DataIs, OthersOK, FilesOK, Splice, Used, Worst, Count, Recorded;
      RecordedSame(OnDisk(), log);
      OneAndOthers(inodes, blocks, files, i);
      if off > inodes[i].size || off + |src| >= UINT {
        return -1;
      }
      if off + |src| > MAXBYTES {
        return -1;
      }
      ghost var c0, inodes0, log0, d0 := files[i], inodes, log, OnDisk();
      var tot, use := WriteChunks(i, off, src, c0);
      ghost var d1, log1 := OnDisk(), log;
      UseEnds(log0, log, inodes0[i], inodes[i], use, off, |src|, i / IPB);
      Resize(i, off + tot, Splice(c0, off, src[..tot]));
      RecordedTrans(d0, d1, OnDisk(), log0, log1, log);
      return tot;
    }

    // The loop of writei.
    method WriteChunks(i: nat, off: nat, src: seq<byte>, ghost c0: seq<byte>) returns (tot: nat, ghost use: Use)
      requires Inv() && i < |inodes| && inodes[i].typ != 0 && OthersOK(inodes, blocks, files, i)
      requires DataIs(inodes[i], blocks, c0) && off <= |c0| && off + |src| <= MAXBYTES
      modifies this`bitmap, this`blocks, this`inodes, this`owner, this`log
      ensures Inv() && SameInodes(old(inodes), inodes, i) && OthersOK(inodes, blocks, files, i)
      ensures tot <= |src| && DataIs(inodes[i], blocks, Splice(c0, off, src[..tot]))
      ensures tot < |src| ==> forall c :: 0 <= c < |blocks| ==> Bit(bitmap, c)
      ensures Used(old(log), log, old(inodes)[i], inodes[i], use, off, |src|)
      ensures Recorded(old(OnDisk()), OnDisk(), old(log), log)
    {
      hide Bit, BitsOK, Owns, InodesOK, DataIs, OthersOK, Splice, Used, Ptr, ChunkLength, Recorded;
      ghost var d0 := OnDisk();
      RecordedSame(d0, log);
      WellShaped(inodes, blocks, owner, lo);
      ghost var inodes0, log0, v := inodes, log, c0;
      assert v == Splice(c0, off, src[..0]);
      var n, at := |src|, off;
      tot, use := 0, Use(0, {});
      UseNone(log0, inodes[i], off, n);
      while tot < n
        invariant 0 <= tot <= n && at == off + tot
        invariant Inv() && SameInodes(inodes0, inodes, i) && OthersOK(inodes, blocks, files, i)
        invariant DataIs(inodes[i], blocks, v) && v == Splice(c0, off, src[..tot])
        invariant tot == 0 || tot == n || at % BSIZE == 0
        invariant Used(log0, log, inodes0[i], inodes[i], use, off, tot) && Recorded(d0, OnDisk(), log0, log)
      {
        var m := ChunkLength(at, n - tot);
        SpliceMore(c0, off, src, tot, m);
        ghost var ip, log1, one := inodes[i], log, if IsMapped(inodes[i], blocks, at) then 0 else 1;
        if tot == 0 && off % BSIZE != 0 { FirstMapped(ip, blocks, v, off); }
        ghost var d1 := OnDisk();
        var ok, a := WriteChunk(i, at, src[tot..tot + m], v);
        RecordedTrans(d0, d1, OnDisk(), log0, log1, log);
        UseMore(log0, log1, log, inodes0[i], ip, inodes[i], use, off, tot, m, n, one, a);
        use := Use(use.news + one, use.bs + {a});
        if !ok { break; }
        tot, at := tot + m, at + m;
        v := Splice(c0, off, src[..tot]);
      }
    }

    // A longer file has its new size, and the inode on disk is up to date.
    method Resize(i: nat, off: nat, ghost v: seq<byte>)
      requires Inv() && i < |inodes| == |dinodes| && inodes[i].typ != 0 && OthersOK(inodes, blocks, files, i)
      requires DataIs(inodes[i], blocks, v) && |v| == if off > inodes[i].size then off else inodes[i].size
      requires forall j :: 0 <= j < |inodes| && j != i ==> dinodes[j] == inodes[j]
      modifies this`inodes, this`dinodes, this`files, this`log
      ensures Valid() && files == old(files)[i := v] && OnlyGrown(old(inodes), inodes, i)
      ensures log == old(log).(inos := old(log).inos + {i / IPB})
      ensures Recorded(old(OnDisk()), OnDisk(), old(log), log)
    {
      hide BitsOK, Recorded;
      var ip := inodes[i].(size := if off > inodes[i].size then off else inodes[i].size);
      OwnsSameAddrs(inodes, blocks, owner, lo, i, ip);
      hide Owns;
      inodes := inodes[i := ip];
      files := files[i := v];
      Iupdate(i);
    }

    /** filewrite on an inode: the write is cut into operations, none of which
        logs more than it may, and all its bytes are spliced in, or a prefix
        of them and -1. */
    method Filewrite(i: nat, off: nat, src: seq<byte>) returns (ret: int, at: nat, ghost most: nat)
      requires Valid() && i < |inodes| && inodes[i].typ != 0 && off < UINT && |src| < UINT
      modifies this`bitmap, this`blocks, this`inodes, this`dinodes, this`owner, this`files, this`log
      ensures Valid() && off <= at <= off + |src| && ret == (if at == off + |src| then |src| else -1)
      ensures files == if off > |old(files)[i]| then old(files)
                       else old(files)[i := Splice(old(files)[i], off, src[..at - off])]
      ensures OnlyGrown(old(inodes), inodes, i)
      ensures ret == -1 ==> off > |old(files)[i]| || off + |src| > MAXBYTES
                            || forall c :: 0 <= c < |blocks| ==> Bit(bitmap, c)
      ensures src != [] && (off > |old(files)[i]| || off + |src| > MAXBYTES) ==> ret == -1
      ensures off > |old(files)[i]| ==> at == off
      ensures most <= MAXOPBLOCKS
    {
      hide Bit, BitsOK, Owns, InodesOK, DataIs, Splice, Worst, Count, FilesOK, Recorded;
      OneAndOthers(inodes, blocks, files, i);
      var max := ((MAXOPBLOCKS - 1 - 1 - 2) / 2) * BSIZE;
      ghost var c := files[i];
      at, most := off, 0;
      if off <= |c| { assert Splice(c, off, src[..0]) == c; }
      var n := 0;
      while n < |src|
        invariant 0 <= n <= |src| && at == off + n && Valid() && OnlyGrown(old(inodes), inodes, i)
        invariant at < UINT && most <= MAXOPBLOCKS && (n > 0 ==> off <= |c| && at <= MAXBYTES)
        invariant files == if off > |c| then old(files) else old(files)[i := Splice(c, off, src[..n])]
      {
        var n1 := if |src| - n > max then max else |src| - n;
        ShareFits(at, n1);
        log := Logged({}, {}, {});
        EmptyCount();
        var r := Writei(i, at, src[n..n + n1]);
        if r >= 0 {
          SpliceMore(c, off, src, n, r);
          assert src[n..n + n1][..r] == src[n..n + r];
        }
        most := if most < Count(log) then Count(log) else most;
        if r > 0 { at := at + r; }
        if r != n1 { break; }
        n := n + r;
      }
      ret := if n == |src| then |src| else -1;
    }

    /** Reads the bytes of the file from off on, at most n, and changes nothing. */
    method Readi(i: nat, off: nat, n: nat) returns (out: seq<byte>)
      requires Valid() && i < |inodes| && inodes[i].typ != 0 && off < UINT && n < UINT
      modifies this`bitmap, this`blocks, this`inodes, this`owner, this`log
      ensures unchanged(this)
      ensures if off > |files[i]| || off + n >= UINT then out == []
              else out == files[i][off..if off + n > |files[i]| then |files[i]| else off + n]
    {
      hide Bit, BitsOK, Owns, DataIs;
      out := [];
      if off > inodes[i].size || off + n >= UINT {
        return;
      }
      var want := if off + n > inodes[i].size then inodes[i].size - off else n;
      ghost var c := files[i];
      var at := off;
      while |out| < want
        invariant |out| <= want && at == off + |out| && unchanged(this) && out == c[off..at]
      {
        Mapped(inodes[i], blocks, c, at);
        var addr := Bmap(i, at / BSIZE);
        if addr == 0 { break; }
        var m := ChunkLength(at, want - |out|);
        ChunkRead(inodes[i], blocks, c, at, m, addr);
        assert c[off..at] + c[at..at + m] == c[off..at + m];
        out := out + blocks[addr][at % BSIZE..at % BSIZE + m];
        at := at + m;
      }
    }

    /** Block b, in slot s of inode i, becomes free. The bits of the blocks in
        the slots done are clear already; every other bit stays as it is, so no
        block is freed twice, on which bfree would panic. */
    method Bfree(b: nat, ghost inodes0: seq<Inode>, ghost i: nat, ghost s: nat, ghost done: set<nat>)
      requires Owns(inodes0, blocks, owner, lo) && i < |inodes0| && s < NSLOTS && s !in done
      requires BitsLess(bitmap, owner, lo, |blocks|, i, done) && P(inodes0, blocks, Slotted(i, s)) == b != 0
      modifies this`bitmap, this`log
      ensures BitsLess(bitmap, owner, lo, |blocks|, i, done + {s})
      ensures log == old(log).(maps := old(log).maps + {b / BPB})
      ensures Recorded(old(OnDisk()), OnDisk(), old(log), log)
    {
      hide Bit, PutBit, Owns, P, Recorded;
      FreeOne(inodes0, blocks, owner, lo, bitmap, i, done, s);
      assert Bit(bitmap, b);
      RecordedBit(OnDisk(), log, b, false);
      bitmap := PutBit(bitmap, b, false);
      log := log.(maps := log.maps + {b / BPB});
    }

    // The first loop of itrunc.
    method FreeDirect(i: nat)
      requires Inv() && i < |inodes|
      modifies this`bitmap, this`inodes, this`log
      ensures SameInodes(old(inodes), inodes, i) && BitsLess(bitmap, owner, lo, |blocks|, i, Slots(NDIRECT))
      ensures forall k :: 0 <= k < NDIRECT ==> inodes[i].addrs[k] == 0
      ensures inodes[i].addrs[NDIRECT] == old(inodes)[i].addrs[NDIRECT]
      ensures Recorded(old(OnDisk()), OnDisk(), old(log), log)
    {
      hide Bit, Recorded;
      ghost var inodes0, d0, log0 := inodes, OnDisk(), log;
      RecordedSame(d0, log0);
      for k := 0 to NDIRECT
        invariant SameInodes(inodes0, inodes, i) && BitsLess(bitmap, owner, lo, |blocks|, i, Slots(k))
        invariant forall s :: 0 <= s <= NDIRECT ==> inodes[i].addrs[s] == if s < k then 0 else inodes0[i].addrs[s]
        invariant Recorded(d0, OnDisk(), log0, log)
      {
        if inodes[i].addrs[k] != 0 {
          ghost var d1, log1 := OnDisk(), log;
          Bfree(inodes[i].addrs[k], inodes0, i, k, Slots(k));
          RecordedTrans(d0, d1, OnDisk(), log0, log1, log);
          inodes := inodes[i := inodes[i].(addrs := inodes[i].addrs[k := 0])];
        } else {
          FreeOne(inodes0, blocks, owner, lo, bitmap, i, Slots(k), k);
        }
      }
    }

    // The part of itrunc for the indirect block and its entries.
    method FreeIndirect(i: nat, ghost inodes0: seq<Inode>)
      requires Owns(inodes0, blocks, owner, lo) && i < |inodes0| == |inodes|
      requires BitsLess(bitmap, owner, lo, |blocks|, i, Slots(NDIRECT))
      requires |inodes[i].addrs| == NDIRECT + 1 && inodes[i].addrs[NDIRECT] == inodes0[i].addrs[NDIRECT]
      modifies this`bitmap, this`log
      ensures BitsLess(bitmap, owner, lo, |blocks|, i, Slots(NSLOTS))
      ensures Recorded(old(OnDisk()), OnDisk(), old(log), log)
    {
      hide Bit, BitsLess, Word, Slots, Recorded;
      ghost var d0, log0 := OnDisk(), log;
      RecordedSame(d0, log0);
      var a := inodes[i].addrs[NDIRECT];
      if a == 0 {
        NoIndirect(inodes0, blocks, owner, lo, bitmap, i);
        return;
      }
      IndirectOwned(inodes0, blocks, owner, lo, i);
      hide Owns;
      ghost var done: set<nat> := Slots(NDIRECT);
      for j := 0 to NINDIRECT
        invariant BitsLess(bitmap, owner, lo, |blocks|, i, done)
        invariant forall s :: s in done <==> 0 <= s < NDIRECT || NDIRECT < s < NDIRECT + 1 + j
        invariant Recorded(d0, OnDisk(), log0, log)
      {
        if Word(blocks[a], j) != 0 {
          ghost var d1, log1 := OnDisk(), log;
          Bfree(Word(blocks[a], j), inodes0, i, NDIRECT + 1 + j, done);
          RecordedTrans(d0, d1, OnDisk(), log0, log1, log);
        } else {
          FreeOne(inodes0, blocks, owner, lo, bitmap, i, done, NDIRECT + 1 + j);
        }
        done := done + {NDIRECT + 1 + j};
      }
      ghost var d1, log1 := OnDisk(), log;
      Bfree(a, inodes0, i, NDIRECT, done);
      RecordedTrans(d0, d1, OnDisk(), log0, log1, log);
      assert done + {NDIRECT} == Slots(NSLOTS);
    }

    /** Exactly the blocks the file held become free; other files stay. */
    method Itrunc(i: nat)
      requires Valid() && i < |inodes| && inodes[i].typ != 0
      modifies this`bitmap, this`inodes, this`dinodes, this`owner, this`files, this`log
      ensures Valid() && files == old(files)[i := []] && OnlyGrown(old(inodes), inodes, i)
      ensures Recorded(old(OnDisk()), OnDisk(), old(log), log)
      ensures inodes[i].size == 0 && forall k :: 0 <= k <= NDIRECT ==> inodes[i].addrs[k] == 0
      ensures forall b :: 0 <= b < |blocks| ==>
                Bit(bitmap, b) == (old(Bit(bitmap, b))
                    && !(exists s :: 0 <= s < NSLOTS && b >= lo && P(old(inodes), old(blocks), Slotted(i, s)) == b))
    {
      hide BitsOK, Owns, BitsLess, FilesOK, InodesOK, P, Slots, Bit, Recorded;
      ghost var inodes0, owner0, bitmap0 := inodes, owner, bitmap;
      ghost var d0, log0 := OnDisk(), log;
      WellShaped(inodes, blocks, owner, lo);
      FreeDirect(i);
      ghost var d1, log1 := OnDisk(), log;
      FreeIndirect(i, inodes0);
      RecordedTrans(d0, d1, OnDisk(), log0, log1, log);
      d1, log1 := OnDisk(), log;
      var ip := inodes[i].(addrs := inodes[i].addrs[NDIRECT := 0], size := 0);
      Truncated(inodes0, blocks, owner, lo, bitmap, i, ip);
      FreedExactly(inodes0, blocks, owner0, lo, bitmap0, bitmap, i);
      Emptied(inodes0, blocks, files, i, ip);
      owner := Without(owner, i);
      inodes := inodes[i := ip];
      assert inodes == inodes0[i := ip];
      files := files[i := []];
      Iupdate(i);
      RecordedTrans(d0, d1, OnDisk(), log0, log1, log);
    }

    /** iput, by the count of references to the inode in memory and whether it
        was read: the last reference to an inode without links frees it and
        all its blocks, any other only goes. No other inode changes. */
    method Iput(i: nat, ref: nat, valid: bool) returns (ref': nat, valid': bool)
      requires Valid() && i < |inodes| && ref >= 1 && (valid ==> inodes[i].typ != 0)
      modifies this`bitmap, this`inodes, this`dinodes, this`owner, this`files, this`log
      ensures Valid() && ref' == ref - 1 && OnlyInode(old(inodes), inodes, i)
      ensures Recorded(old(OnDisk()), OnDisk(), old(log), log)
      ensures if ref == 1 && valid && old(inodes)[i].nlink == 0
              then !valid' && inodes[i] == Inode(0, 0, 0, seq(NDIRECT + 1, _ => 0)) && files == old(files)[i := []]
                  && forall b :: b in owner ==> owner[b].inum != i
              else valid' == valid && unchanged(this)
    {
      hide BitsOK, P, Bit, FilesOK, Owns, Recorded;
      ghost var d0, log0 := OnDisk(), log;
      RecordedSame(d0, log0);
      WellShaped(inodes, blocks, owner, lo);
      ref', valid' := ref, valid;
      if ref == 1 && valid && inodes[i].nlink == 0 {
        Itrunc(i);
        ghost var d1, log1 := OnDisk(), log;
        assert inodes[i].addrs == seq(NDIRECT + 1, _ => 0);
        var ip := inodes[i].(typ := 0);
        OwnsSameAddrs(inodes, blocks, owner, lo, i, ip);
        NoneOwned(inodes, blocks, owner, lo, i);
        OneAndOthers(inodes, blocks, files, i);
        Emptied(inodes, blocks, files, i, ip);
        assert files[i := []] == files;
        inodes := inodes[i := ip];
        Iupdate(i);
        RecordedTrans(d0, d1, OnDisk(), log0, log1, log);
        valid' := false;
      }
      ref' := ref' - 1;
    }

    /** The lowest free inode number from 1 on, or 0; the new file is empty and
        has no links yet. No block changes hands and no other inode changes. */
    method Ialloc(typ: nat) returns (r: nat)
      requires Valid() && typ != 0
      modifies this`inodes, this`dinodes, this`log
      ensures Valid() && |inodes| == |old(inodes)|
      ensures Recorded(old(OnDisk()), OnDisk(), old(log), log)
      ensures forall j :: 1 <= j < |inodes| && (r == 0 || j < r) ==> old(inodes)[j].typ != 0
      ensures r == 0 ==> unchanged(this)
      ensures r != 0 ==> r < |inodes| && old(inodes)[r].typ == 0 && files[r] == []
                         && inodes == old(inodes)[r := Inode(typ, 0, 0, seq(NDIRECT + 1, _ => 0))]
    {
      hide BitsOK, P, Recorded;
      RecordedSame(OnDisk(), log);
      r := 1;
      while r < |dinodes|
        invariant 1 <= r && forall j :: 1 <= j < r && j < |inodes| ==> inodes[j].typ != 0
      {
        if dinodes[r].typ == 0 {
          var ip := Inode(typ, 0, 0, seq(NDIRECT + 1, _ => 0));
          assert ip.addrs == inodes[r].addrs;
          OwnsSameAddrs(inodes, blocks, owner, lo, r, ip);
          RecordedInode(OnDisk(), log, r, ip);
          dinodes := dinodes[r := ip];
          inodes := inodes[r := ip];
          log := log.(inos := log.inos + {r / IPB});
          return;
        }
        r := r + 1;
      }
      r := 0;
    }
  }

  lemma FreedExactly(inodes: seq<Inode>, blocks: Disk, owner: map<nat, Slotted>, lo: nat, m: Bitmap, m': Bitmap, i: nat)
    requires Owns(inodes, blocks, owner, lo) && BitsOK(m, owner, lo, |blocks|)
             && BitsOK(m', Without(owner, i), lo, |blocks|) && i < |inodes|
    ensures forall b :: 0 <= b < |blocks| ==>
              Bit(m', b) == (Bit(m, b)
                             && !(exists s :: 0 <= s < NSLOTS && b >= lo && P(inodes, blocks, Slotted(i, s)) == b))
  {
    forall b | 0 <= b < |blocks|
      ensures Bit(m', b) == (Bit(m, b)
                             && !(exists s :: 0 <= s < NSLOTS && b >= lo && P(inodes, blocks, Slotted(i, s)) == b))
    {
      if b >= lo && b in owner && owner[b].inum == i {
        var s := owner[b].slot;
        assert owner[b] == Slotted(i, s) && P(inodes, blocks, Slotted(i, s)) == b;
      }
    }
  }
}
