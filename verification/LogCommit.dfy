/** The block writes of log.c through the buffer cache: commit and recovery
    write exactly as LogDisk says, while readers hold any buffers they like. */
module LogCommit {
  import opened Options
  import opened Blocks
  import opened LogDisk
  import opened Bcache
  import opened LogPins

  // Buffer b is was after bread of block blockno.
  predicate Fetched(was: Buf, b: Buf, disk: Disk, plain: Disk, blockno: nat) {
    && blockno < |disk| == |plain| && !was.locked
    && b == Buf(ROOTDEV, blockno, true, was.refcnt + 1, true, plain[blockno])
    && (was.refcnt == 0 ==> b.data == disk[blockno])
    && (was.refcnt > 0 ==> Holds(was, blockno))
  }

  // After bread(a) took buffer i, there is still a buffer for block b.
  lemma StillFree(b0: seq<Buf>, b1: seq<Buf>, i: nat, a: nat, b: nat)
    requires SameExcept(b0, b1, i, i) && i < |b0| && (b0[i].refcnt > 0 ==> Holds(b0[i], a)) && a != b
    requires InUse(b0, b) || TwoFree(b0)
    ensures Cached(b1, b) || exists k :: 0 <= k < |b1| && b1[k].refcnt == 0
    ensures InUse(b0, b) ==> Cached(b1, b)
  {
    if InUse(b0, b) {
      var k :| 0 <= k < |b0| && Holds(b0[k], b) && b0[k].refcnt >= 1;
      assert Holds(b1[k], b);
    } else {
      var k, m :| 0 <= k < m < |b0| && b0[k].refcnt == 0 && b0[m].refcnt == 0;
      assert b1[if k == i then m else k].refcnt == 0;
    }
  }

  // bread(a) and bread(b); it panics if the first finds no buffer.
  method BreadPair(bc: BufferCache, a: nat, b: nat) returns (ok: bool, i: nat, j: nat)
    requires bc.Valid() && a < |bc.disk| && b < |bc.disk| && a != b && NotLocked(bc.bufs, a) && NotLocked(bc.bufs, b)
    requires InUse(bc.bufs, b) || TwoFree(bc.bufs)
    modifies bc`bufs
    ensures bc.Valid() && (ok <==> Cached(old(bc.bufs), a) || OneFree(old(bc.bufs)))
    ensures !ok ==> bc.bufs == old(bc.bufs)
    ensures ok ==> i < bc.nbuf && j < bc.nbuf && i != j && SameExcept(old(bc.bufs), bc.bufs, i, j)
    ensures ok ==> Fetched(old(bc.bufs)[i], bc.bufs[i], bc.disk, bc.plain, a)
    ensures ok ==> Fetched(old(bc.bufs)[j], bc.bufs[j], bc.disk, bc.plain, b)
    ensures ok && InUse(old(bc.bufs), b) ==> Holds(old(bc.bufs)[j], b)
  {
    hide BufsOK, ListOK;
    ghost var b0 := bc.bufs;
    var ra := bc.Bread(a);
    i, j, ok := 0, 0, ra.Some?;
    if !ok { return; }
    i := ra.value;
    ghost var b1 := bc.bufs;
    Assigned(b0, bc.disk, bc.plain, i);
    StillFree(b0, b1, i, a, b);
    hide OneFree, TwoFree, InUse;
    assert forall k :: 0 <= k < bc.nbuf && Holds(b1[k], b) ==> k != i && !b1[k].locked;
    var rb := bc.Bread(b);
    j := rb.value;
    Assigned(b1, bc.disk, bc.plain, j);
  }

  // Buffer b is was, read and locked.
  predicate Taken(was: Buf, b: Buf) {
    && b.refcnt == was.refcnt + 1 && b.locked && b.valid && !was.locked
    && (was.refcnt > 0 ==> b.dev == was.dev && b.blockno == was.blockno)
  }

  method BrelsePair(bc: BufferCache, i: nat, j: nat, ghost was: seq<Buf>)
    requires bc.Valid() && i < bc.nbuf && j < bc.nbuf && i != j
    requires SameExcept(was, bc.bufs, i, j) && Taken(was[i], bc.bufs[i]) && Taken(was[j], bc.bufs[j])
    requires bc.bufs[i].refcnt == 1 ==> Clean(bc.bufs[i], bc.disk)
    requires bc.bufs[j].refcnt == 1 ==> Clean(bc.bufs[j], bc.disk)
    modifies bc`bufs, bc`next, bc`prev, bc`order, bc`stamp, bc`clock
    ensures bc.Valid() && SameRefs(was, bc.bufs)
  {
    hide BufsOK, ListOK;
    bc.Brelse(i);
    bc.Brelse(j);
  }

  // bread(a), bread(b) and a copy from the buffer of the second to that of
  // the first, or the other way around; the target is written to disk and
  // both are released.
  method CopyBlock(bc: BufferCache, a: nat, b: nat, toA: bool) returns (ok: bool)
    requires bc.Valid() && a < |bc.disk| && b < |bc.disk| && a != b && NotLocked(bc.bufs, a) && NotLocked(bc.bufs, b)
    requires InUse(bc.bufs, b) || TwoFree(bc.bufs)
    modifies bc
    ensures bc.Valid() && (ok <==> Cached(old(bc.bufs), a) || OneFree(old(bc.bufs)))
    ensures !ok ==> bc.bufs == old(bc.bufs) && bc.disk == old(bc.disk)
                    && bc.plain == old(bc.plain) && bc.writes == old(bc.writes)
    ensures ok ==> SameRefs(old(bc.bufs), bc.bufs) && bc.writes == old(bc.writes) + [bc.disk]
    ensures var src, dst := if toA then b else a, if toA then a else b;
            ok ==> && bc.disk == old(bc.disk)[dst := old(bc.plain)[src]]
                   && bc.plain == old(bc.plain)[dst := old(bc.plain)[src]]
  {
    hide BufsOK, ListOK;
    ghost var was := bc.bufs;
    var i, j;
    ok, i, j := BreadPair(bc, a, b);
    hide OneFree, TwoFree, InUse, Cached;
    if !ok { return; }
    if toA {
      Store(bc, i, bc.bufs[j].data);
    } else {
      Store(bc, j, bc.bufs[i].data);
    }
    BrelsePair(bc, i, j, was);
  }

  // The holder of buffer i fills it and writes it to disk.
  method Store(bc: BufferCache, i: nat, data: Block)
    requires bc.Valid() && i < bc.nbuf && bc.bufs[i].locked && bc.bufs[i].valid
    modifies bc`bufs, bc`disk, bc`plain, bc`writes
    ensures bc.Valid() && SameExcept(old(bc.bufs), bc.bufs, i, i) && bc.bufs[i] == old(bc.bufs)[i].(data := data)
    ensures var b := old(bc.bufs)[i].blockno;
            b < |old(bc.disk)| && bc.disk == old(bc.disk)[b := data] && bc.plain == old(bc.plain)[b := data]
    ensures bc.writes == old(bc.writes) + [bc.disk]
  {
    hide BufsOK, ListOK;
    Assigned(bc.bufs, bc.disk, bc.plain, i);
    bc.Modify(i, data);
    bc.Bwrite(i);
  }

  lemma UnpinAt(bufs: seq<Buf>, disk: Disk, plain: Disk, b: nat, j: nat)
    requires BufsOK(bufs, disk, plain) && InUse(bufs, b) && j < |bufs| && Holds(bufs[j], b)
    ensures bufs[j].refcnt >= 1 && Unpin(bufs, b)[j] == bufs[j].(refcnt := bufs[j].refcnt - 1)
    ensures SameExcept(bufs, Unpin(bufs, b), j, j)
  {
  }

  // The same towards b, which also loses its pin before the release.
  method InstallBlock(bc: BufferCache, a: nat, b: nat) returns (ok: bool)
    requires bc.Valid() && a < |bc.disk| && b < |bc.disk| && a != b && NotLocked(bc.bufs, a) && NotLocked(bc.bufs, b)
    requires InUse(bc.bufs, b)
    modifies bc
    ensures bc.Valid() && (ok <==> Cached(old(bc.bufs), a) || OneFree(old(bc.bufs)))
    ensures !ok ==> bc.bufs == old(bc.bufs) && bc.disk == old(bc.disk)
                    && bc.plain == old(bc.plain) && bc.writes == old(bc.writes)
    ensures ok ==> SameRefs(Unpin(old(bc.bufs), b), bc.bufs) && bc.writes == old(bc.writes) + [bc.disk]
    ensures ok ==> bc.disk == old(bc.disk)[b := old(bc.plain)[a]] && bc.plain == old(bc.plain)[b := old(bc.plain)[a]]
  {
    hide BufsOK, ListOK;
    ghost var b0, was, d0, p0 := bc.bufs, Unpin(bc.bufs, b), bc.disk, bc.plain;
    var i, j;
    ok, i, j := BreadPair(bc, a, b);
    if !ok { return; }
    UnpinAt(b0, d0, p0, b, j);
    hide OneFree, TwoFree, InUse, Unpin, Cached;
    Store(bc, j, bc.bufs[i].data);
    bc.Bunpin(j);
    BrelsePair(bc, i, j, was);
  }

  // The words write_head stores into the header buffer.
  method FillHeader(b: Block, hs: seq<nat>) returns (data: Block)
    requires |hs| < WORDS && forall i :: 0 <= i < |hs| ==> hs[i] < UINT
    ensures data == HeaderBlock(b, hs, |hs|)
  {
    data := SetWord(b, 0, |hs|);
    for k := 0 to |hs|
      invariant data == HeaderBlock(b, hs, k)
    {
      data := SetWord(data, 1 + k, hs[k]);
    }
  }

  method WriteHead(bc: BufferCache, l: Layout, hs: seq<nat>) returns (ok: bool)
    requires bc.Valid() && Fits(l, |bc.disk|) && NotLocked(bc.bufs, l.start)
    requires bc.plain[l.start] == bc.disk[l.start]
    requires |hs| < WORDS && forall i :: 0 <= i < |hs| ==> hs[i] < UINT
    modifies bc
    ensures bc.Valid() && (ok <==> Cached(old(bc.bufs), l.start) || OneFree(old(bc.bufs)))
    ensures !ok ==> bc.bufs == old(bc.bufs) && bc.disk == old(bc.disk)
                    && bc.plain == old(bc.plain) && bc.writes == old(bc.writes)
    ensures ok ==> SameRefs(old(bc.bufs), bc.bufs) && bc.disk == WithHeader(old(bc.disk), l, hs)
    ensures ok ==> bc.writes == old(bc.writes) + [bc.disk] && bc.plain == old(bc.plain)[l.start := bc.disk[l.start]]
  {
    hide BufsOK, ListOK, HeaderBlock, Word, HeaderCount, Header;
    ghost var b0 := bc.bufs;
    var r := bc.Bread(l.start);
    ok := r.Some?;
    if !ok { return; }
    var i := r.value;
    Assigned(b0, bc.disk, bc.plain, i);
    var data := FillHeader(bc.bufs[i].data, hs);
    Store(bc, i, data);
    bc.Brelse(i);
  }

  // ---- one block write of a commit, seen by the invariant

  // Commit's next bread of a log block fails only if no buffer is free.
  lemma LogBufferFree(bufs: seq<Buf>, held: seq<nat>, disk: Disk, plain: Disk, hs: seq<nat>, l: Layout, a: nat)
    requires Kept(bufs, held, disk, plain, hs, l) && Homes(l, |disk|, hs) && InLog(l, a)
    ensures Cached(bufs, a) ==> OneFree(bufs)
  {
    hide Counted, Pinned, OneFree, Cached, Saved, Homes;
    if Cached(bufs, a) { LogBlockFree(bufs, held, hs, l, |disk|, a); }
  }

  lemma OpenFor(bufs: seq<Buf>, held: seq<nat>, disk: Disk, plain: Disk, hs: seq<nat>, l: Layout, b: nat)
    requires Kept(bufs, held, disk, plain, hs, l) && LoggedOpen(bufs, hs) && (InLog(l, b) || b in hs)
    ensures NotLocked(bufs, b) && (b in hs ==> InUse(bufs, b))
  {
    hide Saved;
    ReadyOpen(bufs, held, hs, l, b);
  }

  // Both the disk and what readers see have v in block x now.
  lemma SettledStill(plain: Disk, disk: Disk, hs: seq<nat>, hs': seq<nat>, x: nat, v: Block)
    requires Settled(plain, disk, hs) && x < |disk| && forall b :: b in hs ==> b == x || b in hs'
    ensures Settled(plain[x := v], disk[x := v], hs')
  {
  }

  lemma KeptAgain(a: seq<Buf>, b: seq<Buf>, held: seq<nat>, d0: Disk, p0: Disk, disk: Disk, plain: Disk, hs: seq<nat>,
                  l: Layout)
    requires SameRefs(a, b) && BufsOK(b, disk, plain) && Kept(a, held, d0, p0, hs, l) && Settled(plain, disk, hs)
    ensures Kept(b, held, disk, plain, hs, l)
  {
    hide BufsOK, Saved, Settled;
    SameRefsPinned(a, b, hs);
    SameRefsCounted(a, b, held, disk, plain, hs, l);
    SettledSaved(b, disk, plain, hs);
  }

  lemma KeptUnpinned(a: seq<Buf>, b: seq<Buf>, held: seq<nat>, d0: Disk, p0: Disk, disk: Disk, plain: Disk,
                     hs: seq<nat>, l: Layout)
    requires hs != [] && Distinct(hs) && SameRefs(Unpin(a, hs[0]), b) && BufsOK(b, disk, plain)
    requires Kept(a, held, d0, p0, hs, l) && LoggedOpen(a, hs) && Settled(plain, disk, hs[1..])
    ensures Kept(b, held, disk, plain, hs[1..], l)
  {
    hide BufsOK, Saved, Settled, Pinned, Counted;
    UnpinReady(a, held, hs, l);
    SameRefsReady(Unpin(a, hs[0]), b, held, disk, plain, hs[1..], l);
    SettledSaved(b, disk, plain, hs[1..]);
  }

  predicate LogSettled(plain: Disk, disk: Disk, l: Layout) {
    |plain| == |disk| && forall b :: 0 <= b < |disk| && InLog(l, b) ==> plain[b] == disk[b]
  }

  function TxnOf(plain: Disk, hs: seq<nat>): Txn
    requires forall i :: 0 <= i < |hs| ==> hs[i] < |plain|
  {
    seq(|hs|, i requires 0 <= i < |hs| => Write(hs[i], plain[hs[i]]))
  }

  // writes grew by exactly the disks after block writes from + 1 to to.
  ghost predicate Wrote(w0: seq<Disk>, w1: seq<Disk>, d: Disk, l: Layout, t: Txn, from: nat, to: nat)
    requires Fits(l, |d|) && ValidTxn(l, |d|, t) && from <= to <= 2 * |t| + 2
  {
    w0 <= w1 && |w1| == |w0| + to - from
    && forall k :: from < k <= to ==> w1[|w0| + k - from - 1] == CommitDisk(d, l, t, k)
  }

  // write_log has written the first k log blocks: d0, p0 and w0 are disk,
  // readers' view and device writes at its start.
  ghost predicate Logging(d0: Disk, p0: Disk, w0: seq<Disk>, l: Layout, hs: seq<nat>, k: nat, disk: Disk, plain: Disk,
                          w: seq<Disk>) {
    && Fits(l, |d0|) && Homes(l, |d0|, hs) && |p0| == |d0| && k <= |hs|
    && LogSettled(plain, disk, l) && SameHome(plain, p0, l)
    && var t := TxnOf(p0, hs);
       HomesOf(t) == hs && disk == Logged(d0, l, t, k) && Wrote(w0, w, d0, l, t, 0, k)
  }

  lemma WroteOne(w0: seq<Disk>, w: seq<Disk>, d: Disk, l: Layout, t: Txn, from: nat, to: nat, e: Disk)
    requires Fits(l, |d|) && ValidTxn(l, |d|, t) && from <= to < 2 * |t| + 2
    requires Wrote(w0, w, d, l, t, from, to) && e == CommitDisk(d, l, t, to + 1)
    ensures Wrote(w0, w + [e], d, l, t, from, to + 1)
  {
    hide CommitDisk;
  }

  lemma LogNone(d0: Disk, p0: Disk, w0: seq<Disk>, l: Layout, hs: seq<nat>)
    requires Fits(l, |d0|) && Homes(l, |d0|, hs) && LogSettled(p0, d0, l)
    ensures Logging(d0, p0, w0, l, hs, 0, d0, p0, w0)
  {
    assert HomesOf(TxnOf(p0, hs)) == hs;
  }

  lemma LogOne(d0: Disk, p0: Disk, w0: seq<Disk>, l: Layout, hs: seq<nat>, k: nat, disk: Disk, plain: Disk,
               w: seq<Disk>)
    requires Logging(d0, p0, w0, l, hs, k, disk, plain, w) && k < |hs|
    ensures var a, v := l.start + k + 1, plain[hs[k]];
            Logging(d0, p0, w0, l, hs, k + 1, disk[a := v], plain[a := v], w + [disk[a := v]])
  {
    var a, v, t := l.start + k + 1, plain[hs[k]], TxnOf(p0, hs);
    var e := disk[a := v];
    assert e == Logged(d0, l, t, k + 1) == CommitDisk(d0, l, t, k + 1);
    WroteOne(w0, w, d0, l, t, 0, k, e);
    hide Wrote, Logged, CommitDisk;
  }

  // k blocks were copied; it stops before the last only if no buffer is free.
  method WriteLog(bc: BufferCache, l: Layout, hs: seq<nat>, ghost held: seq<nat>)
      returns (ok: bool, ghost held': seq<nat>, ghost k: nat)
    requires Stable(bc, held, hs, l)
    modifies bc
    ensures Stable(bc, held', hs, l) && k <= |hs| && (ok <==> k == |hs|) && (!ok ==> !OneFree(bc.bufs))
    ensures hs != [] && |hs| == bc.nbuf ==> !ok
    ensures Logging(old(bc.disk), old(bc.plain), old(bc.writes), l, hs, k, bc.disk, bc.plain, bc.writes)
  {
    hide BufsOK, ListOK, Wrote, Logged, OneFree, Kept, Distinct, LoggedOpen, Settled;
    ghost var p0, d0, w0 := bc.plain, bc.disk, bc.writes;
    SettledLog(bc.plain, bc.disk, hs, l);
    LogNone(d0, p0, w0, l, hs);
    var tail := 0;
    held', ok, k := held, true, 0;
    while tail < |hs|
      invariant 0 <= tail <= |hs| && Stable(bc, held', hs, l) && ok && k == tail && (tail > 0 ==> |hs| != bc.nbuf)
      invariant Logging(d0, p0, w0, l, hs, tail, bc.disk, bc.plain, bc.writes)
    {
      held' := Readers(bc, l, hs, held');
      ghost var b1, d1, p1 := bc.bufs, bc.disk, bc.plain;
      var a := l.start + tail + 1;
      LogOne(d0, p0, w0, l, hs, tail, bc.disk, bc.plain, bc.writes);
      OpenFor(b1, held', d1, p1, hs, l, a);
      OpenFor(b1, held', d1, p1, hs, l, hs[tail]);
      LogBufferFree(b1, held', d1, p1, hs, l, a);
      AllPinned(b1, held', d1, p1, hs, l);
      ok := CopyBlock(bc, a, hs[tail], true);
      if !ok { return; }
      SettledStill(p1, d1, hs, hs, a, p1[hs[tail]]);
      KeptAgain(b1, bc.bufs, held', d1, p1, bc.disk, bc.plain, hs, l);
      tail := tail + 1;
      k := tail;
    }
  }

  lemma AllPinned(bufs: seq<Buf>, held: seq<nat>, disk: Disk, plain: Disk, hs: seq<nat>, l: Layout)
    requires Kept(bufs, held, disk, plain, hs, l) && Distinct(hs)
    ensures |hs| == |bufs| ==> !OneFree(bufs)
  {
    hide OneFree, Distinct, Pinned, Counted, Saved;
    if |hs| == |bufs| { NoneFree(bufs, hs); }
  }

  lemma SettledLog(plain: Disk, disk: Disk, hs: seq<nat>, l: Layout)
    requires Settled(plain, disk, hs) && Homes(l, |disk|, hs)
    ensures LogSettled(plain, disk, l)
  {
  }

  // install_trans has copied the first k log blocks home: c, p and w0 are
  // disk, readers' view and device writes at its start.
  ghost predicate Installing(c: Disk, p: Disk, w0: seq<Disk>, l: Layout, hs: seq<nat>, k: nat, disk: Disk, plain: Disk,
                             w: seq<Disk>) {
    && Fits(l, |c|) && Homes(l, |c|, hs) && LogSettled(p, c, l) && k <= |hs|
    && disk == Installed(c, l, hs, k) && plain == Installed(p, l, hs, k)
    && w0 <= w && |w| == |w0| + k
    && forall i :: 1 <= i <= k ==> w[|w0| + i - 1] == Installed(c, l, hs, i)
  }

  lemma InstallOne(c: Disk, p: Disk, w0: seq<Disk>, l: Layout, hs: seq<nat>, k: nat, disk: Disk, plain: Disk,
                   w: seq<Disk>)
    requires Installing(c, p, w0, l, hs, k, disk, plain, w) && k < |hs|
    ensures |plain| == |disk| == |c| && !InLog(l, hs[k])
    ensures var v := plain[l.start + k + 1];
            Installing(c, p, w0, l, hs, k + 1, disk[hs[k] := v], plain[hs[k] := v], w + [disk[hs[k] := v]])
  {
    var v := plain[l.start + k + 1];
    assert InLog(l, l.start + k + 1) && !InLog(l, hs[k]);
    assert disk[hs[k] := v] == Installed(c, l, hs, k + 1) && plain[hs[k] := v] == Installed(p, l, hs, k + 1);
    hide Installed;
  }

  lemma InstallNone(c: Disk, p: Disk, w: seq<Disk>, l: Layout, hs: seq<nat>)
    requires |p| == |c| && Fits(l, |c|) && Homes(l, |c|, hs) && LogSettled(p, c, l)
    ensures Installing(c, p, w, l, hs, 0, c, p, w)
  {
  }

  // install_trans of a commit: k blocks were copied home and unpinned.
  method InstallTrans(bc: BufferCache, l: Layout, hs: seq<nat>, ghost held: seq<nat>)
      returns (ok: bool, ghost held': seq<nat>, ghost k: nat)
    requires Stable(bc, held, hs, l)
    modifies bc
    ensures k <= |hs| && Stable(bc, held', hs[k..], l) && (ok <==> k == |hs|) && (!ok ==> !OneFree(bc.bufs))
    ensures Installing(old(bc.disk), old(bc.plain), old(bc.writes), l, hs, k, bc.disk, bc.plain, bc.writes)
  {
    hide BufsOK, ListOK, Installing, OneFree, Kept, LoggedOpen, Settled;
    ghost var c, p, w0 := bc.disk, bc.plain, bc.writes;
    SettledLog(bc.plain, bc.disk, hs, l);
    InstallNone(c, p, w0, l, hs);
    var tail := 0;
    held', ok, k := held, true, 0;
    assert hs[0..] == hs;
    while tail < |hs|
      invariant 0 <= tail <= |hs| && Stable(bc, held', hs[tail..], l) && ok && k == tail
      invariant Installing(c, p, w0, l, hs, tail, bc.disk, bc.plain, bc.writes)
    {
      ghost var rest := hs[tail..];
      held' := Readers(bc, l, hs[tail..], held');
      ghost var b1, d1, p1 := bc.bufs, bc.disk, bc.plain;
      var a := l.start + tail + 1;
      InstallOne(c, p, w0, l, hs, tail, bc.disk, bc.plain, bc.writes);
      OpenFor(b1, held', d1, p1, rest, l, a);
      OpenFor(b1, held', d1, p1, rest, l, rest[0]);
      LogBufferFree(b1, held', d1, p1, rest, l, a);
      ok := InstallBlock(bc, a, hs[tail]);
      if !ok { return; }
      assert rest[1..] == hs[tail + 1..];
      RestOf(rest);
      SettledStill(p1, d1, rest, rest[1..], hs[tail], p1[a]);
      KeptUnpinned(b1, bc.bufs, held', d1, p1, bc.disk, bc.plain, rest, l);
      tail := tail + 1;
      k := tail;
    }
  }

  lemma RestOf(hs: seq<nat>)
    requires hs != []
    ensures forall b :: b in hs ==> b == hs[0] || b in hs[1..]
  {
    assert hs == [hs[0]] + hs[1..];
  }

  // ---- the phases of commit, put together

  // The header of the commit has been written.
  ghost predicate Headed(d0: Disk, p0: Disk, w0: seq<Disk>, l: Layout, hs: seq<nat>, disk: Disk, plain: Disk,
                         w: seq<Disk>) {
    && Fits(l, |d0|) && Homes(l, |d0|, hs) && |p0| == |d0| && LogSettled(plain, disk, l) && SameHome(plain, p0, l)
    && (forall i :: 0 <= i < |hs| ==> plain[l.start + 1 + i] == plain[hs[i]])
    && var t := TxnOf(p0, hs);
       HomesOf(t) == hs && disk == CommitDisk(d0, l, t, |hs| + 1) && Wrote(w0, w, d0, l, t, 0, |hs| + 1)
  }

  lemma AfterHead(d0: Disk, p0: Disk, w0: seq<Disk>, l: Layout, hs: seq<nat>, d1: Disk, p1: Disk, w1: seq<Disk>)
    requires Logging(d0, p0, w0, l, hs, |hs|, d1, p1, w1)
    ensures var d2 := WithHeader(d1, l, hs); Headed(d0, p0, w0, l, hs, d2, p1[l.start := d2[l.start]], w1 + [d2])
  {
    hide Wrote, HeaderBlock, Word;
    var d2, t := WithHeader(d1, l, hs), TxnOf(p0, hs);
    assert d2 == CommitDisk(d0, l, t, |hs| + 1);
    WroteOne(w0, w1, d0, l, t, 0, |hs|, d2);
    var p2 := p1[l.start := d2[l.start]];
    forall i | 0 <= i < |hs| ensures p2[l.start + 1 + i] == p2[hs[i]] {
      assert InLog(l, l.start + 1 + i) && !InLog(l, hs[i]);
      assert d1[l.start + 1 + i] == t[i].data;
    }
  }

  lemma HomeOf(p: Disk, l: Layout, hs: seq<nat>, k: nat)
    requires Fits(l, |p|) && Homes(l, |p|, hs) && 0 < k <= |hs| && p[l.start + k] == p[hs[k - 1]]
    ensures hs[k - 1] < |p| && p[hs[k - 1] := p[l.start + k]] == p
  {
  }

  lemma {:induction false} InstallNoop(p: Disk, l: Layout, hs: seq<nat>, k: nat)
    requires Fits(l, |p|) && Homes(l, |p|, hs) && k <= |hs|
             && forall i :: 0 <= i < |hs| ==> p[l.start + 1 + i] == p[hs[i]]
    ensures Installed(p, l, hs, k) == p
  {
    hide Homes;
    if k > 0 {
      InstallNoop(p, l, hs, k - 1);
      HomeOf(p, l, hs, k);
    }
  }

  lemma InstallIsCommit(d0: Disk, l: Layout, t: Txn, i: nat)
    requires Fits(l, |d0|) && ValidTxn(l, |d0|, t) && i <= |t|
    ensures Recoverable(CommitDisk(d0, l, t, |t| + 1), l)
    ensures Installed(CommitDisk(d0, l, t, |t| + 1), l, HomesOf(t), i) == CommitDisk(d0, l, t, |t| + 1 + i)
  {
  }

  lemma AfterInstall(d0: Disk, p0: Disk, w0: seq<Disk>, l: Layout, hs: seq<nat>, d2: Disk, p2: Disk, w2: seq<Disk>,
                     k: nat, d3: Disk, p3: Disk, w3: seq<Disk>)
    requires Headed(d0, p0, w0, l, hs, d2, p2, w2) && Installing(d2, p2, w2, l, hs, k, d3, p3, w3)
    ensures p3 == p2 && |d3| == |d0|
    ensures var t := TxnOf(p0, hs);
            d3 == CommitDisk(d0, l, t, |hs| + 1 + k) && Wrote(w0, w3, d0, l, t, 0, |hs| + 1 + k)
  {
    hide Installed, CommitDisk;
    var t, n := TxnOf(p0, hs), |hs|;
    InstallNoop(p2, l, hs, k);
    InstallIsCommit(d0, l, t, k);
    forall j | 0 < j <= n + 1 + k ensures w3[|w0| + j - 1] == CommitDisk(d0, l, t, j) {
      if j <= n + 1 {
        assert w3[|w0| + j - 1] == w2[|w0| + j - 1];
      } else {
        InstallIsCommit(d0, l, t, j - n - 1);
        assert w3[|w2| + (j - n - 1) - 1] == Installed(d2, l, hs, j - n - 1);
      }
    }
  }

  // What a transaction makes of the disk is what readers saw before it.
  lemma ApplyIsPlain(d: Disk, p: Disk, l: Layout, hs: seq<nat>)
    requires Settled(p, d, hs) && forall i :: 0 <= i < |hs| ==> hs[i] < |d|
    ensures Apply(d, TxnOf(p, hs)) == p
  {
    var t := TxnOf(p, hs);
    assert HomesOf(t) == hs;
    forall b | 0 <= b < |d| ensures Apply(d, t)[b] == p[b] {
      ApplyValue(d, t, b);
      assert hs[..|t|] == hs;
    }
  }

  // The number of block writes of commit().
  function Writes(hs: seq<nat>): nat {
    if hs == [] then 0 else 2 * |hs| + 2
  }

  // From disk d0 with readers' view p0 and hs logged, commit() has made the
  // first k block writes of the transaction that turns d0 into p0.
  ghost predicate Committing(d0: Disk, p0: Disk, w0: seq<Disk>, l: Layout, hs: seq<nat>, k: nat, d: Disk,
                             w: seq<Disk>) {
    && Fits(l, |d0|) && Homes(l, |d0|, hs) && |p0| == |d0| && k <= Writes(hs)
    && var t := TxnOf(p0, hs);
       && HomesOf(t) == hs && Apply(d0, t) == p0 && d == CommitDisk(d0, l, t, k) && Wrote(w0, w, d0, l, t, 0, k)
  }

  lemma CommittingTo(d0: Disk, p0: Disk, w0: seq<Disk>, l: Layout, hs: seq<nat>, k: nat, d: Disk, w: seq<Disk>)
    requires Fits(l, |d0|) && Homes(l, |d0|, hs) && Settled(p0, d0, hs) && k <= Writes(hs)
    requires var t := TxnOf(p0, hs);
             HomesOf(t) == hs && d == CommitDisk(d0, l, t, k) && Wrote(w0, w, d0, l, t, 0, k)
    ensures Committing(d0, p0, w0, l, hs, k, d, w)
  {
    hide Wrote, CommitDisk;
    ApplyIsPlain(d0, p0, l, hs);
  }

  lemma LoggingIs(d0: Disk, p0: Disk, w0: seq<Disk>, l: Layout, hs: seq<nat>, k: nat, d: Disk, p: Disk, w: seq<Disk>)
    requires Logging(d0, p0, w0, l, hs, k, d, p, w) && Settled(p0, d0, hs) && hs != []
    ensures Committing(d0, p0, w0, l, hs, k, d, w)
  {
    hide Wrote, Logged, Settled;
    CommittingTo(d0, p0, w0, l, hs, k, d, w);
  }

  lemma CommitDone(d0: Disk, p0: Disk, w0: seq<Disk>, l: Layout, hs: seq<nat>, d3: Disk, w3: seq<Disk>)
    requires Clear(d0, l) && Homes(l, |d0|, hs) && Settled(p0, d0, hs) && hs != []
    requires var t := TxnOf(p0, hs);
             HomesOf(t) == hs && d3 == CommitDisk(d0, l, t, 2 * |hs| + 1) && Wrote(w0, w3, d0, l, t, 0, 2 * |hs| + 1)
    ensures |d3| == |d0| && Fits(l, |d3|)
    ensures var d4 := WithHeader(d3, l, []);
            Clear(d4, l) && Committing(d0, p0, w0, l, hs, Writes(hs), d4, w3 + [d4])
  {
    var d4, t := WithHeader(d3, l, []), TxnOf(p0, hs);
    assert d4 == CommitDisk(d0, l, t, 2 * |hs| + 2);
    WroteOne(w0, w3, d0, l, t, 0, 2 * |hs| + 1, d4);
    hide Wrote, CommitDisk, HeaderBlock, Word, Settled;
    CommittingTo(d0, p0, w0, l, hs, Writes(hs), d4, w3 + [d4]);
  }

  /** The body of commit()'s if: exactly k of its block writes are made, all of
      them unless a bread finds no free buffer, which is a panic. */
  method CommitBlocks(bc: BufferCache, l: Layout, hs: seq<nat>, ghost held: seq<nat>)
      returns (ok: bool, ghost held': seq<nat>, ghost k: nat)
    requires Stable(bc, held, hs, l) && Clear(bc.disk, l) && hs != []
    modifies bc
    ensures Committing(old(bc.disk), old(bc.plain), old(bc.writes), l, hs, k, bc.disk, bc.writes)
    ensures (ok <==> k == Writes(hs)) && (!ok ==> !OneFree(bc.bufs)) && (|hs| == bc.nbuf ==> !ok)
    ensures ok ==> Stable(bc, held', [], l) && Clear(bc.disk, l) && SameHome(bc.plain, old(bc.plain), l)
  {
    hide BufsOK, ListOK, Wrote, CommitDisk, Logged, Word, HeaderBlock, Committing, OneFree, Kept, Settled, Distinct;
    ghost var d0, p0, w0 := bc.disk, bc.plain, bc.writes;
    ok, held', k := WriteLog(bc, l, hs, held);
    LoggingIs(d0, p0, w0, l, hs, k, bc.disk, bc.plain, bc.writes);
    if !ok { return; }
    ghost var d1, p1, w1 := bc.disk, bc.plain, bc.writes;
    ok, held' := Heading(bc, l, hs, hs, held');
    if !ok { return; }
    AfterHead(d0, p0, w0, l, hs, d1, p1, w1);
    ghost var d2, p2, w2 := bc.disk, bc.plain, bc.writes;
    ghost var j;
    ok, held', j := InstallTrans(bc, l, hs, held');
    AfterInstall(d0, p0, w0, l, hs, d2, p2, w2, j, bc.disk, bc.plain, bc.writes);
    k := |hs| + 1 + j;
    CommittingTo(d0, p0, w0, l, hs, k, bc.disk, bc.writes);
    if !ok { return; }
    CommitDone(d0, p0, w0, l, hs, bc.disk, bc.writes);
    assert hs[|hs|..] == [];
    ok, held' := Heading(bc, l, [], [], held');
    if !ok { return; }
    k := Writes(hs);
  }

  // write_head, with pins the blocks still pinned.
  method Heading(bc: BufferCache, l: Layout, hs: seq<nat>, pins: seq<nat>, ghost held: seq<nat>)
      returns (ok: bool, ghost held': seq<nat>)
    requires Stable(bc, held, pins, l) && Homes(l, |bc.disk|, hs)
    modifies bc
    ensures Stable(bc, held', pins, l) && (!ok ==> !OneFree(bc.bufs))
    ensures !ok ==> bc.disk == old(bc.disk) && bc.plain == old(bc.plain) && bc.writes == old(bc.writes)
    ensures ok ==> bc.disk == WithHeader(old(bc.disk), l, hs) && bc.writes == old(bc.writes) + [bc.disk]
    ensures ok ==> bc.plain == old(bc.plain)[l.start := bc.disk[l.start]]
  {
    hide BufsOK, ListOK, Word, HeaderBlock, OneFree, Kept, Distinct, LoggedOpen, Header, HeaderCount;
    held' := Readers(bc, l, pins, held);
    ghost var b1, d1, p1 := bc.bufs, bc.disk, bc.plain;
    assert InLog(l, l.start);
    OpenFor(b1, held', d1, p1, pins, l, l.start);
    LogBufferFree(b1, held', d1, p1, pins, l, l.start);
    SettledLog(p1, d1, pins, l);
    hide Settled;
    ok := WriteHead(bc, l, hs);
    if !ok { return; }
    SettledStill(p1, d1, pins, pins, l.start, bc.disk[l.start]);
    KeptAgain(b1, bc.bufs, held', d1, p1, bc.disk, bc.plain, pins, l);
  }

  lemma CommitNothing(d: Disk, p: Disk, w: seq<Disk>, l: Layout)
    requires Clear(d, l) && Settled(p, d, [])
    ensures Committing(d, p, w, l, [], 0, d, w)
  {
    ApplyIsPlain(d, p, l, []);
    assert HomesOf(TxnOf(p, [])) == [];
  }

  /** A crash, or a panic, after j of the writes of a commit, from disk d0 with
      readers' view p0: recovery gives the blocks of d0 if j is at most the
      number of logged blocks, and those of p0 afterwards. */
  lemma CrashDuringCommit(d0: Disk, p0: Disk, w0: seq<Disk>, l: Layout, hs: seq<nat>, k: nat, d: Disk, w: seq<Disk>,
                          j: nat)
    requires Committing(d0, p0, w0, l, hs, k, d, w) && Clear(d0, l) && j <= k
    ensures |w| == |w0| + k
    ensures var e := if j == 0 then d0 else w[|w0| + j - 1];
            Recoverable(e, l) && SameHome(Recovered(e, l), if j <= |hs| then d0 else p0, l)
  {
    var t := TxnOf(p0, hs);
    if j == 0 {
      RecoverClear(d0, l);
    } else {
      CrashInCommit(d0, l, t, j);
    }
  }

  // ---- recovery

  method ReadHead(bc: BufferCache, l: Layout) returns (hs: seq<nat>)
    requires bc.Valid() && Unlocked(bc.bufs) && TwoFree(bc.bufs) && bc.plain == bc.disk && Recoverable(bc.disk, l)
    modifies bc
    ensures bc.Valid() && SameRefs(old(bc.bufs), bc.bufs)
    ensures bc.disk == old(bc.disk) && bc.plain == old(bc.plain) && bc.writes == old(bc.writes)
    ensures hs == Header(bc.disk, l)
  {
    hide BufsOK, ListOK, Homes, Word;
    ghost var h := Header(bc.disk, l);
    assert OneFree(bc.bufs);
    var r := bc.Bread(l.start);
    var i := r.value;
    var data := bc.bufs[i].data;
    var n := Word(data, 0);
    hs := [];
    for k := 0 to n
      invariant |hs| == k && forall j :: 0 <= j < k ==> hs[j] == h[j]
    {
      hs := hs + [Word(data, 1 + k)];
    }
    bc.Brelse(i);
  }

  // install_trans of a recovery, at boot, when nobody else uses the cache.
  method InstallRecovered(bc: BufferCache, l: Layout, hs: seq<nat>)
    requires bc.Valid() && Fits(l, |bc.disk|) && Homes(l, |bc.disk|, hs) && LogSettled(bc.plain, bc.disk, l)
    requires Unlocked(bc.bufs) && TwoFree(bc.bufs)
    modifies bc
    ensures bc.Valid() && SameRefs(old(bc.bufs), bc.bufs)
    ensures Installing(old(bc.disk), old(bc.plain), old(bc.writes), l, hs, |hs|, bc.disk, bc.plain, bc.writes)
  {
    hide BufsOK, ListOK, Installing, LogSettled, OneFree, TwoFree;
    ghost var b0, c, p, w0 := bc.bufs, bc.disk, bc.plain, bc.writes;
    var tail := 0;
    InstallNone(c, p, w0, l, hs);
    while tail < |hs|
      invariant 0 <= tail <= |hs| && bc.Valid() && SameRefs(b0, bc.bufs)
      invariant Installing(c, p, w0, l, hs, tail, bc.disk, bc.plain, bc.writes)
    {
      ghost var b1 := bc.bufs;
      InstallOne(c, p, w0, l, hs, tail, bc.disk, bc.plain, bc.writes);
      SameRefsFree(b0, b1);
      TwoIsOne(b1);
      var ok := CopyBlock(bc, l.start + tail + 1, hs[tail], false);
      tail := tail + 1;
    }
  }

  /** recover_from_log() makes exactly the block writes of RecoverDisk, so
      CrashInRecovery applies between any two of them. */
  method RecoverFromLog(bc: BufferCache, l: Layout)
    requires bc.Valid() && Unlocked(bc.bufs) && TwoFree(bc.bufs) && bc.plain == bc.disk && Recoverable(bc.disk, l)
    modifies bc
    ensures bc.Valid() && SameRefs(old(bc.bufs), bc.bufs)
    ensures bc.disk == Recovered(old(bc.disk), l) && bc.plain == bc.disk
    ensures var n := HeaderCount(old(bc.disk), l);
            && old(bc.writes) <= bc.writes && |bc.writes| == |old(bc.writes)| + n + 1
            && forall k :: 1 <= k <= n + 1 ==> bc.writes[|old(bc.writes)| + k - 1] == RecoverDisk(old(bc.disk), l, k)
  {
    hide BufsOK, ListOK, Word, HeaderBlock;
    ghost var d0, w0 := bc.disk, bc.writes;
    var lh := ReadHead(bc, l);
    SameRefsFree(old(bc.bufs), bc.bufs);
    InstallRecovered(bc, l, lh);
    SameRefsFree(old(bc.bufs), bc.bufs);
    TwoIsOne(bc.bufs);
    assert InLog(l, l.start);
    lh := [];
    var ok := WriteHead(bc, l, lh);
  }

  // Recovery at boot, when nobody holds a buffer.
  method InitLog(bc: BufferCache, l: Layout, ghost held: seq<nat>)
    requires bc.Valid() && bc.nbuf >= 2 && bc.plain == bc.disk && Recoverable(bc.disk, l)
    requires |held| == |bc.bufs| && forall i :: 0 <= i < |held| ==> bc.bufs[i].refcnt == 0 && held[i] == 0
    modifies bc
    ensures bc.Valid() && bc.plain == bc.disk == Recovered(old(bc.disk), l) && Clear(bc.disk, l)
    ensures Stable(bc, held, [], l)
  {
    hide BufsOK, ListOK, Recovered, RecoverDisk, Kept;
    ghost var b0 := bc.bufs;
    Unassigned(b0, bc.disk, bc.plain);
    assert b0[0].refcnt == 0 && b0[1].refcnt == 0;
    CrashInRecovery(bc.disk, l, 0);
    hide Header, HeaderCount;
    RecoverFromLog(bc, l);
    KeptAtBoot(b0, bc.bufs, held, bc.disk, l);
  }
}
