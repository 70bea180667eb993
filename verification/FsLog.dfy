/** Which blocks a file-system operation gives to log_write, and how many a
    write of a given length may be. */
module FsLog {
  import opened Blocks
  import opened Bitmap
  import opened FsTree

  const IPB: nat := 16          // inodes per block

  // The blocks given to log_write since begin_op, by the part of the disk
  // they are in: bitmap blocks, inode blocks and data blocks.
  datatype Logged = Logged(maps: set<nat>, inos: set<nat>, datas: set<nat>)

  function Count(g: Logged): nat {
    |g.maps| + |g.inos| + |g.datas|
  }

  lemma EmptyCount()
    ensures Count(Logged({}, {}, {})) == 0
  {
  }

  // balloc logs the bit of b, and b itself when it is zeroed.
  function Note(g: Logged, b: nat): Logged {
    g.(maps := g.maps + {b / BPB}, datas := g.datas + {b})
  }

  function Indirect(ip: Inode): (r: set<nat>)
    requires |ip.addrs| == NDIRECT + 1
    ensures |r| <= 1
  {
    if ip.addrs[NDIRECT] == 0 then {} else {ip.addrs[NDIRECT]}
  }

  // Logging on from g, inode ip has become ip', and so many new data blocks
  // were allocated; bs and the indirect block are the data blocks logged.
  predicate LogsOn(g: Logged, g': Logged, ip: Inode, ip': Inode, news: nat, bs: set<nat>) {
    && |ip.addrs| == |ip'.addrs| == NDIRECT + 1
    && Indirect(ip) <= Indirect(ip') && g'.inos == g.inos && g'.datas <= g.datas + bs + Indirect(ip')
    && |g'.maps| <= |g.maps| + news + |Indirect(ip')| - |Indirect(ip)|
  }

  lemma LogsOnTrans(g0: Logged, g1: Logged, g2: Logged, i0: Inode, i1: Inode, i2: Inode, f: nat, f': nat, bs: set<nat>,
                    bs': set<nat>)
    requires LogsOn(g0, g1, i0, i1, f, bs) && LogsOn(g1, g2, i1, i2, f', bs')
    ensures LogsOn(g0, g2, i0, i2, f + f', bs + bs')
  {
  }

  lemma AddOne(a: set<nat>, b: nat)
    ensures |a + {b}| <= |a| + 1
  {
    if b in a { assert a + {b} == a; }
  }

  lemma UnionCard(a: set<nat>, b: set<nat>)
    ensures |a + b| <= |a| + |b|
  {
    assert a + b == a + (b - a);
    assert b == (b - a) + (b * a);
  }

  lemma SubsetCard(a: set<nat>, b: set<nat>)
    requires a <= b
    ensures |a| <= |b|
  {
    assert b == a + (b - a);
  }

  // How many blocks of a file n bytes from off on lie in.
  function Touched(off: nat, n: nat): (r: nat)
    ensures n > 0 ==> r >= 1
  {
    if n == 0 then 0 else (off + n - 1) / BSIZE - off / BSIZE + 1
  }

  // A first block that is not written from its start on exists already.
  function Reused(off: nat, n: nat): nat {
    if n > 0 && off % BSIZE != 0 then 1 else 0
  }

  // The blocks that a write of n bytes may log: those written, a bitmap
  // block for each new one and for the indirect block, that block, the inode.
  function Worst(off: nat, n: nat): nat {
    2 * Touched(off, n) + 3 - Reused(off, n)
  }

  // One round of the loop writes to one block.
  lemma TouchedMore(off: nat, t: nat, m: nat)
    requires t == 0 || (off + t) % BSIZE == 0
    requires 0 < m <= BSIZE - (off + t) % BSIZE
    ensures Touched(off, t + m) == Touched(off, t) + 1
  {
  }

  lemma TouchedMonotone(off: nat, t: nat, n: nat)
    requires t <= n
    ensures Touched(off, t) <= Touched(off, n) && Touched(off, t) - Reused(off, t) <= Touched(off, n) - Reused(off, n)
  {
  }

  // writei and iupdate have logged this much in all.
  lemma LogsAtMost(g: Logged, g': Logged, ip: Inode, ip': Inode, news: nat, bs: set<nat>, ino: nat)
    requires LogsOn(g, g', ip, ip', news, bs)
    ensures Count(g'.(inos := g'.inos + {ino})) <= Count(g) + news + |bs| + 3
  {
    AddOne(g'.inos, ino);
    SubsetCard(g'.datas, g.datas + bs + Indirect(ip'));
    UnionCard(g.datas + bs, Indirect(ip'));
    UnionCard(g.datas, bs);
  }

  /** filewrite's share of a write: what one writei of at most that many bytes
      logs, wherever it starts, is within the reservation of an operation. */
  lemma ShareFits(off: nat, n: nat)
    requires n <= ((MAXOPBLOCKS - 1 - 1 - 2) / 2) * BSIZE
    ensures Worst(off, n) <= MAXOPBLOCKS
  {
  }

  lemma LogsNothing(g: Logged, ip: Inode)
    requires |ip.addrs| == NDIRECT + 1
    ensures LogsOn(g, g, ip, ip, 0, {})
  {
  }

  lemma LogsMore(g: Logged, g': Logged, ip: Inode, ip': Inode, n: nat, bs: set<nat>, n': nat, bs': set<nat>)
    requires LogsOn(g, g', ip, ip', n, bs) && n <= n' && bs <= bs'
    ensures LogsOn(g, g', ip, ip', n', bs')
  {
  }

  // A data block in a slot of the inode itself, or the indirect block.
  lemma LogsSlot(g: Logged, ip: Inode, s: nat, b: nat)
    requires |ip.addrs| == NDIRECT + 1 && s <= NDIRECT && ip.addrs[s] == 0 && b != 0
    ensures LogsOn(g, Note(g, b), ip, ip.(addrs := ip.addrs[s := b]), if s < NDIRECT then 1 else 0,
            if s < NDIRECT then {b} else {})
  {
    AddOne(g.maps, b / BPB);
  }

  // A data block in an entry of the indirect block.
  lemma LogsEntry(g: Logged, ip: Inode, b: nat)
    requires |ip.addrs| == NDIRECT + 1 && ip.addrs[NDIRECT] != 0
    ensures LogsOn(g, Note(g, b).(datas := Note(g, b).datas + {ip.addrs[NDIRECT]}), ip, ip, 1, {b})
  {
    AddOne(g.maps, b / BPB);
  }

  lemma LogsData(g: Logged, ip: Inode, b: nat)
    requires |ip.addrs| == NDIRECT + 1
    ensures LogsOn(g, g.(datas := g.datas + {b}), ip, ip, 0, {b})
  {
  }

  // The count of one more round, which took a new block or not.
  lemma RoundCount(off: nat, t: nat, m: nat, news: nat, one: nat)
    requires (t == 0 || (off + t) % BSIZE == 0) && 0 < m <= BSIZE - (off + t) % BSIZE
    requires one <= 1 && (t == 0 && off % BSIZE != 0 ==> one == 0)
    requires news + Reused(off, t) <= Touched(off, t)
    ensures news + one + Reused(off, t + m) <= Touched(off, t + m) == Touched(off, t) + 1
  {
    TouchedMore(off, t, m);
  }

  // The block written last in the middle of it is there.
  lemma FirstMapped(ip: Inode, blocks: Disk, v: seq<byte>, off: nat)
    requires DataIs(ip, blocks, v) && off <= |v| && off % BSIZE != 0
    ensures off / BSIZE < MAXFILE && Ptr(ip, blocks, Slot(off / BSIZE)) != 0
  {
    assert v[off - 1] == v[off - 1];
    assert (off - 1) / BSIZE == off / BSIZE;
  }

  predicate IsMapped(ip: Inode, blocks: Disk, off: nat)
    requires |ip.addrs| == NDIRECT + 1 && off < MAXBYTES
  {
    Ptr(ip, blocks, Slot(off / BSIZE)) != 0
  }

  // The new data blocks and the data blocks written so far.
  datatype Use = Use(news: nat, bs: set<nat>)

  // After t bytes of a write from off on.
  predicate Used(g: Logged, g': Logged, ip: Inode, ip': Inode, u: Use, off: nat, t: nat) {
    LogsOn(g, g', ip, ip', u.news, u.bs) && u.news + Reused(off, t) <= Touched(off, t) && |u.bs| <= Touched(off, t)
  }

  lemma UseNone(g: Logged, ip: Inode, off: nat, n: nat)
    requires |ip.addrs| == NDIRECT + 1
    ensures Used(g, g, ip, ip, Use(0, {}), off, 0)
  {
    LogsNothing(g, ip);
  }

  lemma UseMore(g0: Logged, g1: Logged, g2: Logged, i0: Inode, i1: Inode, i2: Inode, u: Use, off: nat, t: nat, m: nat,
                n: nat, one: nat, a: nat)
    requires Used(g0, g1, i0, i1, u, off, t) && LogsOn(g1, g2, i1, i2, one, {a})
    requires (t == 0 || (off + t) % BSIZE == 0) && 0 < m <= BSIZE - (off + t) % BSIZE && t + m <= n
    requires one <= 1 && (t == 0 && off % BSIZE != 0 ==> one == 0)
    ensures Used(g0, g2, i0, i2, Use(u.news + one, u.bs + {a}), off, t + m)
    ensures Used(g0, g2, i0, i2, Use(u.news + one, u.bs + {a}), off, n)
  {
    LogsOnTrans(g0, g1, g2, i0, i1, i2, u.news, one, u.bs, {a});
    RoundCount(off, t, m, u.news, one);
    AddOne(u.bs, a);
    TouchedMonotone(off, t + m, n);
  }

  lemma UseEnds(g: Logged, g': Logged, ip: Inode, ip': Inode, u: Use, off: nat, n: nat, ino: nat)
    requires Used(g, g', ip, ip', u, off, n)
    ensures Count(g'.(inos := g'.inos + {ino})) <= Count(g) + Worst(off, n)
  {
    LogsAtMost(g, g', ip, ip', u.news, u.bs, ino);
  }

  // ---- nothing changes on disk without log_write

  // Data and indirect blocks, the bitmap and the inodes on disk.
  datatype Stored = Stored(blocks: Disk, bitmap: Bitmap, inodes: seq<Inode>)

  // From d to d', logging on from g to g': every block that changed was logged.
  ghost predicate Recorded(d: Stored, d': Stored, g: Logged, g': Logged) {
    && |d'.blocks| == |d.blocks| && |d'.bitmap| == |d.bitmap| && |d'.inodes| == |d.inodes|
    && g.maps <= g'.maps && g.inos <= g'.inos && g.datas <= g'.datas
    && (forall b :: 0 <= b < |d.blocks| && d'.blocks[b] != d.blocks[b] ==> b in g'.datas)
    && (forall k :: 0 <= k < |d.bitmap| && d'.bitmap[k] != d.bitmap[k] ==> k in g'.maps)
    && (forall j :: 0 <= j < |d.inodes| && d'.inodes[j] != d.inodes[j] ==> j / IPB in g'.inos)
  }

  lemma RecordedSame(d: Stored, g: Logged)
    ensures Recorded(d, d, g, g)
  {
  }

  lemma RecordedTrans(d: Stored, d1: Stored, d2: Stored, g: Logged, g1: Logged, g2: Logged)
    requires Recorded(d, d1, g, g1) && Recorded(d1, d2, g1, g2)
    ensures Recorded(d, d2, g, g2)
  {
  }

  lemma RecordedBlock(d: Stored, g: Logged, b: nat, data: Block)
    requires b < |d.blocks|
    ensures Recorded(d, d.(blocks := d.blocks[b := data]), g, g.(datas := g.datas + {b}))
  {
  }

  lemma RecordedBit(d: Stored, g: Logged, b: nat, v: bool)
    requires b < |d.bitmap| * BPB
    ensures Recorded(d, d.(bitmap := PutBit(d.bitmap, b, v)), g, g.(maps := g.maps + {b / BPB}))
  {
  }

  lemma RecordedInode(d: Stored, g: Logged, j: nat, ip: Inode)
    requires j < |d.inodes|
    ensures Recorded(d, d.(inodes := d.inodes[j := ip]), g, g.(inos := g.inos + {j / IPB}))
  {
  }

  // balloc: the bit and the zeroed block.
  lemma RecordedAlloc(d: Stored, g: Logged, b: nat)
    requires b < |d.bitmap| * BPB && b < |d.blocks|
    ensures Recorded(d, d.(bitmap := PutBit(d.bitmap, b, true), blocks := d.blocks[b := ZeroBlock]), g, Note(g, b))
  {
    RecordedBit(d, g, b, true);
    var d1, g1 := d.(bitmap := PutBit(d.bitmap, b, true)), g.(maps := g.maps + {b / BPB});
    RecordedBlock(d1, g1, b, ZeroBlock);
    RecordedTrans(d, d1, d1.(blocks := d.blocks[b := ZeroBlock]), g, g1, Note(g, b));
  }
}
