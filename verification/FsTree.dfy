/** Inodes, their direct and indirect block pointers, who owns which block,
    and the bytes of a file. */
module FsTree {
  import opened Blocks
  import opened Bitmap

  const NDIRECT: nat := 12
  const NINDIRECT: nat := WORDS
  const MAXFILE: nat := NDIRECT + NINDIRECT
  const MAXBYTES: nat := 274432  // MAXFILE * BSIZE
  // One slot per direct pointer, one for the indirect block itself, and one
  // per entry of the indirect block.
  const NSLOTS: nat := NDIRECT + 1 + NINDIRECT

  datatype Inode = Inode(typ: nat, nlink: nat, size: nat, addrs: seq<nat>)

  // The slot that holds the pointer to block bn of a file.
  function Slot(bn: nat): nat {
    if bn < NDIRECT then bn else bn + 1
  }

  predicate Shaped(inodes: seq<Inode>) {
    forall i :: 0 <= i < |inodes| ==> |inodes[i].addrs| == NDIRECT + 1
  }

  function Ptr(ip: Inode, blocks: Disk, s: nat): nat
    requires |ip.addrs| == NDIRECT + 1 && s < NSLOTS
  {
    if s <= NDIRECT then ip.addrs[s]
    else if ip.addrs[NDIRECT] == 0 || ip.addrs[NDIRECT] >= |blocks| then 0
    else Word(blocks[ip.addrs[NDIRECT]], s - NDIRECT - 1)
  }

  datatype Slotted = Slotted(inum: nat, slot: nat)

  ghost predicate IsSlot(inodes: seq<Inode>, o: Slotted) {
    o.inum < |inodes| && o.slot < NSLOTS
  }

  ghost function P(inodes: seq<Inode>, blocks: Disk, o: Slotted): nat
    requires Shaped(inodes) && IsSlot(inodes, o)
  {
    Ptr(inodes[o.inum], blocks, o.slot)
  }

  // owner maps each block in use to the one slot that points to it.
  ghost predicate Owns(inodes: seq<Inode>, blocks: Disk, owner: map<nat, Slotted>, lo: nat) {
    && Shaped(inodes) && lo >= 1
    && (forall o: Slotted :: IsSlot(inodes, o) && P(inodes, blocks, o) != 0
          ==> P(inodes, blocks, o) in owner && owner[P(inodes, blocks, o)] == o)
    && (forall p :: p in owner ==> lo <= p < |blocks| && IsSlot(inodes, owner[p]) && P(inodes, blocks, owner[p]) == p)
  }

  // A block's bit is set exactly if it is metadata or owned.
  ghost predicate BitsOK(m: Bitmap, owner: map<nat, Slotted>, lo: nat, size: nat) {
    Covers(m, size) && forall b :: 0 <= b < size ==> Bit(m, b) == (b < lo || b in owner)
  }

  /** The invariant without the map: a data block's bit is set if and only if
      some slot points to it, and then exactly one does. */
  lemma BitIffOneOwner(inodes: seq<Inode>, blocks: Disk, owner: map<nat, Slotted>, lo: nat, m: Bitmap, b: nat)
    requires Owns(inodes, blocks, owner, lo) && BitsOK(m, owner, lo, |blocks|) && lo <= b < |blocks|
    ensures Bit(m, b) <==> exists o :: IsSlot(inodes, o) && P(inodes, blocks, o) == b
    ensures forall o, o' :: (IsSlot(inodes, o) && P(inodes, blocks, o) == b)
                            && (IsSlot(inodes, o') && P(inodes, blocks, o') == b)
                            ==> o == o'
  {
    if b in owner { assert IsSlot(inodes, owner[b]); }
  }

  // ---- the bytes of a file

  ghost predicate DataIs(ip: Inode, blocks: Disk, c: seq<byte>) {
    && |ip.addrs| == NDIRECT + 1 && |c| <= MAXBYTES
    && forall k :: 0 <= k < |c| ==>
         var p := Ptr(ip, blocks, Slot(k / BSIZE)); 0 < p < |blocks| && blocks[p][k % BSIZE] == c[k]
  }

  // File i has exactly the bytes files[i]; so no block below its size is missing.
  ghost predicate FilesOK(inodes: seq<Inode>, blocks: Disk, files: seq<seq<byte>>) {
    |files| == |inodes|
    && forall i :: 0 <= i < |inodes| ==> inodes[i].size == |files[i]| && DataIs(inodes[i], blocks, files[i])
  }

  // ---- what a step may do to pointers

  // Pointers agree except at slot o.
  ghost predicate SamePtrs(inodes: seq<Inode>, blocks: Disk, inodes': seq<Inode>, blocks': Disk, o: Slotted) {
    && Shaped(inodes) && Shaped(inodes') && |inodes'| == |inodes|
    && forall x: Slotted :: IsSlot(inodes, x) && x != o ==> P(inodes', blocks', x) == P(inodes, blocks, x)
  }

  lemma OwnAdd(inodes: seq<Inode>, blocks: Disk, inodes': seq<Inode>, blocks': Disk, owner: map<nat, Slotted>, lo: nat,
               o: Slotted, b: nat)
    requires Owns(inodes, blocks, owner, lo) && SamePtrs(inodes, blocks, inodes', blocks', o) && IsSlot(inodes, o)
    requires |blocks'| == |blocks| && P(inodes, blocks, o) == 0 && P(inodes', blocks', o) == b && lo <= b < |blocks|
             && b !in owner
    ensures Owns(inodes', blocks', owner[b := o], lo)
  {
    forall x: Slotted | IsSlot(inodes', x) && P(inodes', blocks', x) != 0
      ensures P(inodes', blocks', x) in owner[b := o] && owner[b := o][P(inodes', blocks', x)] == x
    {
      if x != o { assert P(inodes', blocks', x) == P(inodes, blocks, x); }
    }
    forall p | p in owner
      ensures IsSlot(inodes', owner[p]) && P(inodes', blocks', owner[p]) == p
    {
      assert owner[p] != o;
    }
  }

  // A fresh zeroed block b goes into slot s of inode i itself.
  lemma AllocSlot(inodes: seq<Inode>, blocks: Disk, owner: map<nat, Slotted>, lo: nat, i: nat, s: nat, b: nat)
    requires Owns(inodes, blocks, owner, lo) && i < |inodes| && s <= NDIRECT && inodes[i].addrs[s] == 0
    requires lo <= b < |blocks| && b !in owner
    ensures var inodes', blocks' := inodes[i := inodes[i].(addrs := inodes[i].addrs[s := b])], blocks[b := ZeroBlock];
            SamePtrs(inodes, blocks, inodes', blocks', Slotted(i, s))
  {
    var inodes', blocks' := inodes[i := inodes[i].(addrs := inodes[i].addrs[s := b])], blocks[b := ZeroBlock];
    forall x: Slotted | IsSlot(inodes, x) && x != Slotted(i, s) ensures P(inodes', blocks', x) == P(inodes, blocks, x) {
      IndirectOwned(inodes, blocks, owner, lo, x.inum);
      ZeroWords();
    }
  }

  lemma IndirectOwned(inodes: seq<Inode>, blocks: Disk, owner: map<nat, Slotted>, lo: nat, i: nat)
    requires Owns(inodes, blocks, owner, lo) && i < |inodes|
    ensures var a := inodes[i].addrs[NDIRECT]; a != 0 ==> a in owner && owner[a] == Slotted(i, NDIRECT)
                                                          && lo <= a < |blocks|
  {
    assert P(inodes, blocks, Slotted(i, NDIRECT)) == inodes[i].addrs[NDIRECT];
  }

  lemma ZeroWords()
    ensures forall j :: 0 <= j < WORDS ==> Word(ZeroBlock, j) == 0
  {
  }

  // A fresh zeroed block b goes into entry j of inode i's indirect block.
  lemma AllocEntry(inodes: seq<Inode>, blocks: Disk, owner: map<nat, Slotted>, lo: nat, i: nat, j: nat, b: nat)
    requires Owns(inodes, blocks, owner, lo) && i < |inodes| && j < NINDIRECT && inodes[i].addrs[NDIRECT] != 0
    requires lo <= b < |blocks| && b !in owner && b < UINT && |blocks| <= UINT
    ensures var a := inodes[i].addrs[NDIRECT];
            a < |blocks| && a != b &&
            var blocks' := blocks[b := ZeroBlock][a := SetWord(blocks[a], j, b)];
            SamePtrs(inodes, blocks, inodes, blocks', Slotted(i, NDIRECT + 1 + j))
                && P(inodes, blocks', Slotted(i, NDIRECT + 1 + j)) == b
  {
    IndirectOwned(inodes, blocks, owner, lo, i);
    var a := inodes[i].addrs[NDIRECT];
    var blocks' := blocks[b := ZeroBlock][a := SetWord(blocks[a], j, b)];
    hide Word;
    forall x: Slotted | IsSlot(inodes, x) && x != Slotted(i, NDIRECT + 1 + j)
      ensures P(inodes, blocks', x) == P(inodes, blocks, x)
    {
      IndirectOwned(inodes, blocks, owner, lo, x.inum);
    }
  }

  // Every pointer that is set stays, and blocks that hold data do too.
  ghost predicate DataKept(inodes: seq<Inode>, blocks: Disk, owner: map<nat, Slotted>, inodes': seq<Inode>,
                           blocks': Disk) {
    && Shaped(inodes) && Shaped(inodes') && |inodes'| == |inodes| && |blocks'| == |blocks|
    && (forall i :: 0 <= i < |inodes| ==> inodes'[i].size == inodes[i].size)
    && (forall x: Slotted :: IsSlot(inodes, x) && P(inodes, blocks, x) != 0
          ==> P(inodes', blocks', x) == P(inodes, blocks, x))
    && (forall p :: p in owner && p < |blocks| && owner[p].slot != NDIRECT ==> blocks'[p] == blocks[p])
  }

  lemma DataFrame(inodes: seq<Inode>, blocks: Disk, owner: map<nat, Slotted>, lo: nat, inodes': seq<Inode>,
                  blocks': Disk, i: nat, c: seq<byte>)
    requires Owns(inodes, blocks, owner, lo) && DataKept(inodes, blocks, owner, inodes', blocks') && i < |inodes|
    requires DataIs(inodes[i], blocks, c)
    ensures DataIs(inodes'[i], blocks', c)
  {
    forall k | 0 <= k < |c|
      ensures var p := Ptr(inodes'[i], blocks', Slot(k / BSIZE)); 0 < p < |blocks'| && blocks'[p][k % BSIZE] == c[k]
    {
      var x := Slotted(i, Slot(k / BSIZE));
      assert P(inodes, blocks, x) != 0;
      assert owner[P(inodes, blocks, x)] == x;
    }
  }
}
