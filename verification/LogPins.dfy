/** Reference counts of the buffer cache while blocks are logged: every
    reference is a process that holds the buffer or waits for its lock, or
    the pin of a logged block. */
module LogPins {
  import opened Options
  import opened Blocks
  import opened LogDisk
  import opened Bcache

  // Reference counts, locks and the identity of referenced buffers agree.
  predicate SameRefs(a: seq<Buf>, b: seq<Buf>) {
    |a| == |b| && forall i :: 0 <= i < |a| ==>
      && b[i].refcnt == a[i].refcnt && b[i].locked == a[i].locked
      && (a[i].refcnt > 0 ==> b[i].dev == a[i].dev && b[i].blockno == a[i].blockno && (a[i].valid ==> b[i].valid))
  }

  predicate Unlocked(bufs: seq<Buf>) {
    forall i :: 0 <= i < |bufs| ==> !bufs[i].locked
  }

  predicate OneFree(bufs: seq<Buf>) {
    exists i :: 0 <= i < |bufs| && bufs[i].refcnt == 0
  }

  predicate TwoFree(bufs: seq<Buf>) {
    exists i, j :: 0 <= i < j < |bufs| && bufs[i].refcnt == 0 && bufs[j].refcnt == 0
  }

  predicate InUse(bufs: seq<Buf>, b: nat) {
    exists i :: 0 <= i < |bufs| && Holds(bufs[i], b) && bufs[i].refcnt >= 1
  }

  // Nobody has locked the buffer of block b.
  predicate NotLocked(bufs: seq<Buf>, b: nat) {
    forall i :: 0 <= i < |bufs| && Holds(bufs[i], b) ==> !bufs[i].locked
  }

  predicate SameExcept(a: seq<Buf>, b: seq<Buf>, i: nat, j: nat) {
    |a| == |b| && forall k :: 0 <= k < |a| && k != i && k != j ==> b[k] == a[k]
  }

  predicate IsLogged(b: Buf, hs: seq<nat>) {
    b.dev == ROOTDEV && b.blockno in hs
  }

  // So many processes hold the lock of buffer b or wait for it. Their
  // references and the pin of a logged block are all there are; only commit
  // reads the blocks of the log itself.
  predicate CountOf(b: Buf, holders: nat, hs: seq<nat>, l: Layout) {
    && b.refcnt == holders + (if IsLogged(b, hs) then 1 else 0)
    && (b.locked ==> holders >= 1 && b.valid)
    && (holders >= 1 ==> !InLog(l, b.blockno))
  }

  predicate Counted(bufs: seq<Buf>, held: seq<nat>, hs: seq<nat>, l: Layout) {
    |held| == |bufs| && forall i :: 0 <= i < |bufs| ==> CountOf(bufs[i], held[i], hs, l)
  }

  // No process has locked a logged block.
  predicate LoggedOpen(bufs: seq<Buf>, hs: seq<nat>) {
    forall i :: 0 <= i < |bufs| && bufs[i].locked ==> bufs[i].blockno !in hs
  }

  predicate Pinned(bufs: seq<Buf>, hs: seq<nat>) {
    forall k :: 0 <= k < |hs| ==> InUse(bufs, hs[k])
  }

  predicate Distinct(hs: seq<nat>) {
    forall i, j :: 0 <= i < j < |hs| ==> hs[i] != hs[j]
  }

  // Blocks that are not logged are on disk as readers see them.
  predicate Settled(plain: Disk, disk: Disk, hs: seq<nat>) {
    |plain| == |disk| && forall b :: 0 <= b < |disk| && b !in hs ==> plain[b] == disk[b]
  }

  // What commit needs of the cache while hs is logged: other processes may
  // hold any blocks but these.
  predicate Ready(bufs: seq<Buf>, held: seq<nat>, hs: seq<nat>, l: Layout) {
    Counted(bufs, held, hs, l) && Pinned(bufs, hs) && LoggedOpen(bufs, hs)
  }

  lemma ReadyOpen(bufs: seq<Buf>, held: seq<nat>, hs: seq<nat>, l: Layout, b: nat)
    requires Ready(bufs, held, hs, l) && (InLog(l, b) || b in hs)
    ensures NotLocked(bufs, b) && (b in hs ==> InUse(bufs, b))
  {
    hide InUse;
    assert forall i :: 0 <= i < |bufs| ==> CountOf(bufs[i], held[i], hs, l);
  }

  lemma SameRefsFree(a: seq<Buf>, b: seq<Buf>)
    requires SameRefs(a, b)
    ensures (OneFree(a) ==> OneFree(b)) && (TwoFree(a) ==> TwoFree(b))
  {
    if OneFree(a) {
      var i :| 0 <= i < |a| && a[i].refcnt == 0;
      assert b[i].refcnt == 0;
    }
    if TwoFree(a) {
      var i, j :| 0 <= i < j < |a| && a[i].refcnt == 0 && a[j].refcnt == 0;
      assert b[i].refcnt == 0 && b[j].refcnt == 0;
    }
  }

  lemma TwoIsOne(bufs: seq<Buf>)
    requires TwoFree(bufs)
    ensures OneFree(bufs)
  {
  }

  lemma SameRefsPinned(a: seq<Buf>, b: seq<Buf>, hs: seq<nat>)
    requires SameRefs(a, b) && Pinned(a, hs)
    ensures Pinned(b, hs)
  {
    forall k | 0 <= k < |hs| ensures InUse(b, hs[k]) {
      assert InUse(a, hs[k]);
      var i :| 0 <= i < |a| && Holds(a[i], hs[k]) && a[i].refcnt >= 1;
      assert Holds(b[i], hs[k]) && b[i].refcnt >= 1;
    }
  }

  lemma SameRefsCounted(a: seq<Buf>, b: seq<Buf>, held: seq<nat>, disk: Disk, plain: Disk, hs: seq<nat>, l: Layout)
    requires SameRefs(a, b) && BufsOK(b, disk, plain) && Counted(a, held, hs, l) && Pinned(b, hs)
    ensures Counted(b, held, hs, l)
  {
    forall i | 0 <= i < |b| ensures CountOf(b[i], held[i], hs, l) {
      assert CountOf(a[i], held[i], hs, l);
      forall k | 0 <= k < |hs| && a[i].refcnt == 0 ensures !Holds(b[i], hs[k]) {
        assert InUse(b, hs[k]);
      }
    }
  }

  lemma SameRefsReady(a: seq<Buf>, b: seq<Buf>, held: seq<nat>, disk: Disk, plain: Disk, hs: seq<nat>, l: Layout)
    requires SameRefs(a, b) && BufsOK(b, disk, plain) && Ready(a, held, hs, l)
    ensures Ready(b, held, hs, l)
  {
    hide BufsOK, Pinned;
    SameRefsPinned(a, b, hs);
    SameRefsCounted(a, b, held, disk, plain, hs, l);
    assert forall i :: 0 <= i < |a| ==> CountOf(a[i], held[i], hs, l);
  }

  function Unpin(bufs: seq<Buf>, b: nat): seq<Buf> {
    seq(|bufs|, i requires 0 <= i < |bufs| =>
      if Holds(bufs[i], b) && bufs[i].refcnt >= 1 then bufs[i].(refcnt := bufs[i].refcnt - 1) else bufs[i])
  }

  // Dropping the pin of the first entry.
  lemma UnpinPinned(a: seq<Buf>, hs: seq<nat>)
    requires hs != [] && Distinct(hs) && Pinned(a, hs)
    ensures Pinned(Unpin(a, hs[0]), hs[1..])
  {
    var b := Unpin(a, hs[0]);
    forall k | 0 <= k < |hs| - 1 ensures InUse(b, hs[1..][k]) {
      assert InUse(a, hs[k + 1]);
      var i :| 0 <= i < |a| && Holds(a[i], hs[k + 1]) && a[i].refcnt >= 1;
      assert b[i] == a[i];
    }
  }

  lemma UnpinReady(a: seq<Buf>, held: seq<nat>, hs: seq<nat>, l: Layout)
    requires hs != [] && Distinct(hs) && Ready(a, held, hs, l)
    ensures Ready(Unpin(a, hs[0]), held, hs[1..], l) && (OneFree(a) ==> OneFree(Unpin(a, hs[0])))
  {
    var b := Unpin(a, hs[0]);
    UnpinPinned(a, hs);
    hide Pinned, InUse;
    assert hs == [hs[0]] + hs[1..];
    assert hs[0] !in hs[1..];
    forall i | 0 <= i < |a| ensures CountOf(b[i], held[i], hs[1..], l) {
      assert CountOf(a[i], held[i], hs, l);
      assert a[i].blockno in hs <==> a[i].blockno == hs[0] || a[i].blockno in hs[1..];
    }
    if OneFree(a) {
      var i :| 0 <= i < |a| && a[i].refcnt == 0;
      assert b[i].refcnt == 0;
    }
  }

  // ---- free buffers

  // The first bread of write_log panics when no buffer is free; a cached
  // block of the log is one.
  lemma LogBlockFree(bufs: seq<Buf>, held: seq<nat>, hs: seq<nat>, l: Layout, disk: nat, a: nat)
    requires Counted(bufs, held, hs, l) && Homes(l, disk, hs) && InLog(l, a) && Cached(bufs, a)
    ensures OneFree(bufs)
  {
    var i :| 0 <= i < |bufs| && Holds(bufs[i], a);
    assert CountOf(bufs[i], held[i], hs, l);
    assert bufs[i].refcnt == 0;
  }

  function Elems(hs: seq<nat>): (r: set<nat>)
    ensures |r| <= |hs| && forall b :: b in r <==> b in hs
  {
    if hs == [] then {} else {hs[0]} + Elems(hs[1..])
  }

  // How many of the first n buffers some process holds or waits for.
  function HeldCount(held: seq<nat>, n: nat): nat
    requires n <= |held|
  {
    if n == 0 then 0 else HeldCount(held, n - 1) + if held[n - 1] > 0 then 1 else 0
  }

  // The blocks of the buffers among the first n that are only pinned.
  ghost function BlockSet(bufs: seq<Buf>, held: seq<nat>, disk: Disk, plain: Disk, n: nat): (r: set<nat>)
    requires BufsOK(bufs, disk, plain) && n <= |bufs| == |held|
    requires forall i :: 0 <= i < n && held[i] == 0 ==> bufs[i].dev == ROOTDEV
    ensures |r| + HeldCount(held, n) == n
    ensures forall b :: b in r ==> exists i :: 0 <= i < n && held[i] == 0 && bufs[i].blockno == b
  {
    if n == 0 then {} else
    var r := BlockSet(bufs, held, disk, plain, n - 1);
    if held[n - 1] > 0 then r else r + {bufs[n - 1].blockno}
  }

  lemma {:induction false} SubsetCard(a: set<nat>, b: set<nat>)
    requires a <= b
    ensures |a| <= |b|
  {
    assert b == a + (b - a);
  }

  // With one block per pinned buffer, fewer entries and held buffers than
  // there are buffers leave one free.
  lemma SomeFree(bufs: seq<Buf>, held: seq<nat>, hs: seq<nat>, disk: Disk, plain: Disk, l: Layout)
    requires BufsOK(bufs, disk, plain) && Counted(bufs, held, hs, l) && HeldCount(held, |held|) + |hs| < |bufs|
    ensures OneFree(bufs)
  {
    if !OneFree(bufs) {
      forall i | 0 <= i < |bufs| && held[i] == 0 ensures IsLogged(bufs[i], hs) {
        assert CountOf(bufs[i], held[i], hs, l);
        assert bufs[i].refcnt != 0;
      }
      SubsetCard(BlockSet(bufs, held, disk, plain, |bufs|), Elems(hs));
      assert false;
    }
  }

  // As many entries as buffers: none is free, and commit panics.
  lemma NoneFree(bufs: seq<Buf>, hs: seq<nat>)
    requires Pinned(bufs, hs) && Distinct(hs) && |hs| == |bufs|
    ensures !OneFree(bufs)
  {
    if i :| 0 <= i < |bufs| && bufs[i].refcnt == 0 {
      PinnedInRest(bufs, hs, i);
      assert false;
    }
  }

  // Distinct pinned blocks sit in distinct buffers other than an unused one.
  lemma {:induction false} PinnedInRest(bufs: seq<Buf>, hs: seq<nat>, i: nat)
    requires Pinned(bufs, hs) && Distinct(hs) && i < |bufs| && bufs[i].refcnt == 0
    ensures |hs| < |bufs|
    decreases |hs|
  {
    if hs != [] {
      var h := hs[0];
      assert InUse(bufs, h);
      var k :| 0 <= k < |bufs| && Holds(bufs[k], h) && bufs[k].refcnt >= 1;
      var rest := bufs[..k] + bufs[k + 1..];
      var i' := if i < k then i else i - 1;
      assert rest[i'] == bufs[i];
      forall m | 0 <= m < |hs| - 1 ensures InUse(rest, hs[1..][m]) {
        assert InUse(bufs, hs[m + 1]);
        var j :| 0 <= j < |bufs| && Holds(bufs[j], hs[m + 1]) && bufs[j].refcnt >= 1;
        assert rest[if j < k then j else j - 1] == bufs[j];
      }
      PinnedInRest(rest, hs[1..], i');
    }
  }

  // ---- what holds between the steps of any processes

  // A block that is neither logged nor in a locked buffer, where its holder
  // may have changed it, is on disk as readers see it.
  predicate Saved(bufs: seq<Buf>, disk: Disk, plain: Disk, hs: seq<nat>) {
    |plain| == |disk| && forall i :: 0 <= i < |bufs| ==> SavedOne(bufs[i], disk, plain, hs)
  }

  predicate SavedOne(b: Buf, disk: Disk, plain: Disk, hs: seq<nat>)
    requires |plain| == |disk|
  {
    b.dev == ROOTDEV && b.blockno < |disk| && !b.locked && b.blockno !in hs ==> plain[b.blockno] == disk[b.blockno]
  }

  // The cache while hs is logged.
  predicate Kept(bufs: seq<Buf>, held: seq<nat>, disk: Disk, plain: Disk, hs: seq<nat>, l: Layout) {
    Counted(bufs, held, hs, l) && Pinned(bufs, hs) && Saved(bufs, disk, plain, hs)
  }

  lemma SettledSaved(bufs: seq<Buf>, disk: Disk, plain: Disk, hs: seq<nat>)
    requires Settled(plain, disk, hs)
    ensures Saved(bufs, disk, plain, hs)
  {
  }

  // A block whose buffer is not locked, or that is not cached.
  lemma OpenSaved(bufs: seq<Buf>, disk: Disk, plain: Disk, hs: seq<nat>, b: nat)
    requires BufsOK(bufs, disk, plain) && Saved(bufs, disk, plain, hs) && NotLocked(bufs, b) && b < |disk|
    ensures b in hs || plain[b] == disk[b]
  {
    if i :| 0 <= i < |bufs| && Holds(bufs[i], b) {
      assert SavedOne(bufs[i], disk, plain, hs);
    }
  }

  // One buffer changes: it may take another block if nobody used it.
  lemma KeptOne(b0: seq<Buf>, h0: seq<nat>, b1: seq<Buf>, h: nat, disk: Disk, plain: Disk, hs: seq<nat>, l: Layout,
                i: nat)
    requires Kept(b0, h0, disk, plain, hs, l) && SameExcept(b0, b1, i, i) && i < |b0|
    requires CountOf(b1[i], h, hs, l) && SavedOne(b1[i], disk, plain, hs)
    requires b0[i].refcnt > 0 ==> b1[i].dev == b0[i].dev && b1[i].blockno == b0[i].blockno
    ensures Kept(b1, h0[i := h], disk, plain, hs, l)
  {
    var h1 := h0[i := h];
    assert CountOf(b0[i], h0[i], hs, l);
    forall k | 0 <= k < |hs| ensures InUse(b1, hs[k]) {
      assert InUse(b0, hs[k]);
      var j :| 0 <= j < |b0| && Holds(b0[j], hs[k]) && b0[j].refcnt >= 1;
      assert Holds(b1[j], hs[k]) && IsLogged(b1[j], hs);
    }
    forall j | 0 <= j < |b1| ensures CountOf(b1[j], h1[j], hs, l) && SavedOne(b1[j], disk, plain, hs) {
      assert j != i ==> CountOf(b0[j], h0[j], hs, l) && SavedOne(b0[j], disk, plain, hs);
    }
  }

  // Its holder changes a locked buffer.
  lemma KeptUpdate(b0: seq<Buf>, held: seq<nat>, disk: Disk, plain: Disk, hs: seq<nat>, l: Layout, i: nat, data: Block)
    requires Kept(b0, held, disk, plain, hs, l) && BufsOK(b0, disk, plain) && i < |b0| && b0[i].locked
    ensures b0[i].dev == ROOTDEV && b0[i].blockno < |plain|
    ensures Kept(b0[i := b0[i].(data := data)], held, disk, plain[b0[i].blockno := data], hs, l)
  {
    var b1, p1 := b0[i := b0[i].(data := data)], plain[b0[i].blockno := data];
    assert CountOf(b0[i], held[i], hs, l);
    KeptOne(b0, held, b1, held[i], disk, plain, hs, l, i);
    assert held[i := held[i]] == held;
    hide Pinned, Counted, Represents;
    forall j | 0 <= j < |b1| ensures SavedOne(b1[j], disk, p1, hs) {
      assert SavedOne(b1[j], disk, plain, hs);
    }
  }

  // log_write pins the buffer of a new block.
  lemma KeptLog(b0: seq<Buf>, held: seq<nat>, disk: Disk, plain: Disk, hs: seq<nat>, l: Layout, i: nat)
    requires Kept(b0, held, disk, plain, hs, l) && BufsOK(b0, disk, plain) && i < |b0| && b0[i].refcnt >= 1
             && b0[i].blockno !in hs
    ensures Kept(b0[i := b0[i].(refcnt := b0[i].refcnt + 1)], held, disk, plain, hs + [b0[i].blockno], l)
  {
    var b1, hs' := b0[i := b0[i].(refcnt := b0[i].refcnt + 1)], hs + [b0[i].blockno];
    assert forall x :: x in hs' <==> x in hs || x == b0[i].blockno;
    forall k | 0 <= k < |hs'| ensures InUse(b1, hs'[k]) {
      if k < |hs| {
        assert InUse(b0, hs[k]);
        var j :| 0 <= j < |b0| && Holds(b0[j], hs[k]) && b0[j].refcnt >= 1;
        assert Holds(b1[j], hs[k]) && b1[j].refcnt >= 1;
      } else {
        assert Holds(b1[i], hs'[k]) && b1[i].refcnt >= 1;
      }
    }
    hide Pinned;
    forall j | 0 <= j < |b1| ensures CountOf(b1[j], held[j], hs', l) && SavedOne(b1[j], disk, plain, hs') {
      assert CountOf(b0[j], held[j], hs, l) && SavedOne(b0[j], disk, plain, hs);
      assert j != i && b0[j].dev == ROOTDEV ==> b0[j].blockno != b0[i].blockno;
    }
  }

  lemma KeptAtBoot(a: seq<Buf>, b: seq<Buf>, held: seq<nat>, disk: Disk, l: Layout)
    requires SameRefs(a, b) && |held| == |a|
             && forall i :: 0 <= i < |a| ==> a[i].refcnt == 0 && !a[i].locked && held[i] == 0
    requires Fits(l, |disk|)
    ensures Kept(b, held, disk, disk, [], l) && Homes(l, |disk|, []) && Distinct([]) && Settled(disk, disk, [])
  {
    forall i | 0 <= i < |b| ensures CountOf(b[i], held[i], [], l) {
      assert b[i].refcnt == a[i].refcnt && !IsLogged(b[i], []);
    }
  }

  // Buffer i after bget of block b.
  lemma GotOne(b0: seq<Buf>, h0: seq<nat>, b1: seq<Buf>, disk: Disk, plain: Disk, hs: seq<nat>, l: Layout, i: nat,
               b: nat)
    requires BufsOK(b0, disk, plain) && Kept(b0, h0, disk, plain, hs, l) && SameExcept(b0, b1, i, i) && i < |b0|
    requires IsHome(l, |disk|, b) && Holds(b1[i], b) && b1[i].refcnt == b0[i].refcnt + 1
    requires if Cached(b0, b) then Holds(b0[i], b) && b1[i] == b0[i].(refcnt := b0[i].refcnt + 1)
             else b0[i].refcnt == 0 && !b1[i].locked
    ensures Kept(b1, h0[i := h0[i] + 1], disk, plain, hs, l)
  {
    assert CountOf(b0[i], h0[i], hs, l) && SavedOne(b0[i], disk, plain, hs);
    if !Cached(b0, b) {
      forall k | 0 <= k < |hs| ensures hs[k] != b {
        assert InUse(b0, hs[k]);
      }
    }
    KeptOne(b0, h0, b1, h0[i] + 1, disk, plain, hs, l, i);
  }

  // Ok to release: what its holder changed in buffer b is logged.
  predicate Releasable(b: Buf, disk: Disk, plain: Disk, hs: seq<nat>) {
    b.blockno < |disk| == |plain| && (b.blockno in hs || plain[b.blockno] == disk[b.blockno])
  }

  // Buffers without a reference are not locked.
  lemma Unassigned(bufs: seq<Buf>, disk: Disk, plain: Disk)
    requires BufsOK(bufs, disk, plain)
    ensures forall i :: 0 <= i < |bufs| && bufs[i].refcnt == 0 ==> !bufs[i].locked
  {
  }

  lemma HeldHome(bufs: seq<Buf>, held: seq<nat>, disk: Disk, plain: Disk, hs: seq<nat>, l: Layout, i: nat)
    requires BufsOK(bufs, disk, plain) && Kept(bufs, held, disk, plain, hs, l) && i < |bufs| && held[i] >= 1
    ensures IsHome(l, |disk|, bufs[i].blockno) && bufs[i].refcnt >= 1 && bufs[i].dev == ROOTDEV
  {
    assert CountOf(bufs[i], held[i], hs, l);
  }

  lemma SettledGrows(plain: Disk, disk: Disk, hs: seq<nat>, b: nat)
    requires |plain| == |disk|
    ensures Settled(plain, disk, hs) ==> Settled(plain, disk, hs + [b])
  {
  }

  lemma CleanToRelease(bufs: seq<Buf>, held: seq<nat>, disk: Disk, plain: Disk, hs: seq<nat>, l: Layout, i: nat)
    requires BufsOK(bufs, disk, plain) && i < |bufs| && bufs[i].locked && Releasable(bufs[i], disk, plain, hs)
    requires Counted(bufs, held, hs, l)
    ensures held[i] >= 1 && (bufs[i].refcnt == 1 ==> Clean(bufs[i], disk))
  {
    assert CountOf(bufs[i], held[i], hs, l);
  }

  // ---- what a process does to a buffer

  // The cache between any two steps of the processes that use it, with hs
  // logged; held counts the processes that hold or wait for each buffer.
  ghost predicate Held(bc: BufferCache, held: seq<nat>, hs: seq<nat>, l: Layout)
    reads bc
  {
    && bc.Valid() && |held| == bc.nbuf && Fits(l, |bc.disk|) && Homes(l, |bc.disk|, hs)
    && Kept(bc.bufs, held, bc.disk, bc.plain, hs, l)
  }

  // The part of bread under bcache.lock; None is its panic.
  method Get(bc: BufferCache, l: Layout, ghost hs: seq<nat>, b: nat, ghost held: seq<nat>)
      returns (r: Option<nat>, ghost held': seq<nat>)
    requires Held(bc, held, hs, l) && IsHome(l, |bc.disk|, b)
    modifies bc`bufs
    ensures Held(bc, held', hs, l) && (r.None? <==> !Cached(old(bc.bufs), b) && !OneFree(old(bc.bufs)))
    ensures r.None? ==> bc.bufs == old(bc.bufs) && held' == held
    ensures r.Some? ==> && r.value < bc.nbuf && Holds(bc.bufs[r.value], b)
                        && bc.bufs[r.value].locked == old(bc.bufs)[r.value].locked
                        && (Holds(old(bc.bufs)[r.value], b) || !old(bc.bufs)[r.value].locked)
                        && SameExcept(old(bc.bufs), bc.bufs, r.value, r.value)
                        && held' == held[r.value := held[r.value] + 1]
  {
    hide BufsOK, ListOK, Kept, Homes;
    ghost var b0 := bc.bufs;
    Unassigned(b0, bc.disk, bc.plain);
    r := bc.Bget(b);
    held' := held;
    if r.Some? {
      var i := r.value;
      Assigned(b0, bc.disk, bc.plain, i);
      GotOne(b0, held, bc.bufs, bc.disk, bc.plain, hs, l, i, b);
      held' := held[i := held[i] + 1];
    }
  }

  // The rest of bread, for a process whose turn for buffer i has come.
  method Lock(bc: BufferCache, l: Layout, ghost hs: seq<nat>, i: nat, ghost held: seq<nat>)
    requires Held(bc, held, hs, l) && i < bc.nbuf && held[i] >= 1 && !bc.bufs[i].locked
    modifies bc`bufs
    ensures Held(bc, held, hs, l) && SameExcept(old(bc.bufs), bc.bufs, i, i) && old(bc.bufs)[i].blockno < |bc.plain|
    ensures bc.bufs[i] == old(bc.bufs)[i].(locked := true, valid := true, data := bc.plain[old(bc.bufs)[i].blockno])
  {
    hide BufsOK, ListOK, Pinned, Saved;
    assert CountOf(bc.bufs[i], held[i], hs, l);
    ghost var b0 := bc.bufs;
    bc.Lock(i);
    assert held[i := held[i]] == held;
    KeptOne(b0, held, bc.bufs, held[i], bc.disk, bc.plain, hs, l, i);
  }

  // brelse, of a buffer whose holder has logged what it changed.
  method Release(bc: BufferCache, l: Layout, ghost hs: seq<nat>, i: nat, ghost held: seq<nat>)
      returns (ghost held': seq<nat>)
    requires Held(bc, held, hs, l) && i < bc.nbuf && bc.bufs[i].locked
    requires Releasable(bc.bufs[i], bc.disk, bc.plain, hs)
    modifies bc`bufs, bc`next, bc`prev, bc`order, bc`stamp, bc`clock
    ensures Held(bc, held', hs, l) && held[i] >= 1 && held' == held[i := held[i] - 1]
    ensures bc.bufs == old(bc.bufs)[i := old(bc.bufs)[i].(locked := false, refcnt := old(bc.bufs)[i].refcnt - 1)]
  {
    hide BufsOK, ListOK, Pinned, Saved;
    ghost var b0 := bc.bufs;
    assert CountOf(b0[i], held[i], hs, l);
    CleanToRelease(b0, held, bc.disk, bc.plain, hs, l, i);
    bc.Brelse(i);
    KeptOne(b0, held, bc.bufs, held[i] - 1, bc.disk, bc.plain, hs, l, i);
    held' := held[i := held[i] - 1];
  }

  // ---- readers, who go on while a commit runs

  // No operation is open: every change is logged.
  ghost predicate Stable(bc: BufferCache, held: seq<nat>, hs: seq<nat>, l: Layout)
    reads bc
  {
    Held(bc, held, hs, l) && Distinct(hs) && Settled(bc.plain, bc.disk, hs)
  }

  // Any step of any reader.
  method ReaderStep(bc: BufferCache, l: Layout, hs: seq<nat>, ghost held: seq<nat>) returns (ghost held': seq<nat>)
    requires Stable(bc, held, hs, l)
    modifies bc`bufs, bc`next, bc`prev, bc`order, bc`stamp, bc`clock
    ensures Stable(bc, held', hs, l)
  {
    hide BufsOK, ListOK, Kept, Homes, Distinct, Settled, Cached, OneFree;
    held' := held;
    var b: nat, i: nat, get: bool := *, *, *;
    if get {
      if IsHome(l, |bc.disk|, b) {
        var r;
        r, held' := Get(bc, l, hs, b, held);
      }
    } else if i < bc.nbuf && bc.bufs[i].locked {
      SettledReleases(bc.bufs, held, bc.disk, bc.plain, hs, l, i);
      held' := Release(bc, l, hs, i, held);
    } else if i < bc.nbuf && bc.bufs[i].refcnt > if IsLogged(bc.bufs[i], hs) then 1 else 0 {
      SomeoneWaits(bc.bufs, held, bc.disk, bc.plain, hs, l, i);
      Lock(bc, l, hs, i, held);
    }
  }

  lemma SettledReleases(bufs: seq<Buf>, held: seq<nat>, disk: Disk, plain: Disk, hs: seq<nat>, l: Layout, i: nat)
    requires BufsOK(bufs, disk, plain) && Kept(bufs, held, disk, plain, hs, l) && Settled(plain, disk, hs)
    requires i < |bufs| && bufs[i].locked
    ensures Releasable(bufs[i], disk, plain, hs)
  {
    hide BufsOK, Saved, Pinned;
    assert CountOf(bufs[i], held[i], hs, l);
    Assigned(bufs, disk, plain, i);
  }

  lemma SomeoneWaits(bufs: seq<Buf>, held: seq<nat>, disk: Disk, plain: Disk, hs: seq<nat>, l: Layout, i: nat)
    requires Kept(bufs, held, disk, plain, hs, l)
    requires i < |bufs| && bufs[i].refcnt > if IsLogged(bufs[i], hs) then 1 else 0
    ensures held[i] >= 1
  {
    assert CountOf(bufs[i], held[i], hs, l);
  }

  /** Readers take, lock and release any home blocks, logged ones too, in any
      order, and commit goes on once no logged block is locked. */
  method Readers(bc: BufferCache, l: Layout, hs: seq<nat>, ghost held: seq<nat>) returns (ghost held': seq<nat>)
    requires Stable(bc, held, hs, l)
    modifies bc`bufs, bc`next, bc`prev, bc`order, bc`stamp, bc`clock
    ensures Stable(bc, held', hs, l) && LoggedOpen(bc.bufs, hs)
  {
    hide BufsOK, ListOK, Kept, Homes, Distinct, Settled;
    held' := held;
    var n: nat :| n >= 0;
    for k := 0 to n
      invariant Stable(bc, held', hs, l)
    {
      held' := ReaderStep(bc, l, hs, held');
    }
    for i := 0 to bc.nbuf
      invariant Stable(bc, held', hs, l)
      invariant forall j :: 0 <= j < i && bc.bufs[j].locked ==> bc.bufs[j].blockno !in hs
    {
      if bc.bufs[i].locked && bc.bufs[i].blockno in hs {
        SettledReleases(bc.bufs, held', bc.disk, bc.plain, hs, l, i);
        held' := Release(bc, l, hs, i, held');
      }
    }
  }
}
