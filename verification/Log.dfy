/** The log of log.c on the buffer cache, as the steps of any processes that
    use it: readers always see the plain block map, logged blocks stay cached
    and are not written home before their commit. */
module Log {
  import opened Options
  import opened Blocks
  import opened LogDisk
  import opened Bcache
  import opened LogPins
  import opened LogCommit
  import O = LogOps

  lemma HeaderGrows(l: Layout, disk: nat, hs: seq<nat>, b: nat)
    requires Homes(l, disk, hs) && Distinct(hs) && IsHome(l, disk, b) && b < UINT && |hs| < LOGSIZE && |hs| < l.size - 1
    ensures var hs' := if b in hs then hs else hs + [b]; Homes(l, disk, hs') && Distinct(hs')
  {
  }

  lemma OpenAfter(b0: seq<Buf>, b1: seq<Buf>, i: nat, b: nat)
    requires NotLocked(b0, b) && i < |b0| == |b1| && Holds(b1[i], b) && b1[i].locked == b0[i].locked
    requires Holds(b0[i], b) || !b0[i].locked
    ensures !b1[i].locked
  {
  }

  // The fields of the log agree with a reachable state of LogOps.
  ghost predicate Tracks(c: O.Config, l: Layout, s: O.State, lh: seq<nat>, outstanding: nat, committing: bool) {
    && c.m == MAXOPBLOCKS && c.size == l.size
    && s.blocks == lh && s.outstanding == outstanding && s.committing == committing && O.Reachable(c, s)
  }

  class Log {
    // At boot nobody holds a buffer.
    constructor (bc: BufferCache, l: Layout, ghost np: nat)
      requires bc.Valid() && bc.nbuf >= 2 && bc.plain == bc.disk && Recoverable(bc.disk, l)
      requires forall i :: 0 <= i < |bc.bufs| ==> bc.bufs[i].refcnt == 0
      modifies bc
      ensures this.bc == bc && this.l == l && Valid() && lh == [] && outstanding == 0
      ensures c.np == np && s == O.Init(c)
      ensures bc.disk == Recovered(old(bc.disk), l)
    {
      hide BufsOK, ListOK, Recovered, O.Reachable, Held, Distinct, Settled, Clear;
      this.bc, this.l, lh, outstanding, committing := bc, l, [], 0, false;
      held := seq(bc.nbuf, _ => 0);
      c := O.Config(MAXOPBLOCKS, l.size, np);
      s := O.Init(O.Config(MAXOPBLOCKS, l.size, np));
      new;
      O.InitReachable(c);
      InitLog(bc, l, held);
    }

    const bc: BufferCache
    const l: Layout
    var lh: seq<nat>        // log.lh.block[..log.lh.n]
    var outstanding: nat
    var committing: bool
    ghost var held: seq<nat>  // how many processes hold each buffer or wait for its lock
    ghost const c: O.Config
    ghost var s: O.State      // the log as the state machine of LogOps sees it

    // Between any two steps of the processes that use the log, except those
    // of a commit.
    ghost predicate Valid()
      reads this, bc
    {
      && Held(bc, held, lh, l) && Clear(bc.disk, l) && Distinct(lh)
      && (outstanding == 0 ==> Settled(bc.plain, bc.disk, lh))
      && !committing && Tracks(c, l, s, lh, outstanding, committing)
    }

    /** Admission means that this operation and those already open can all log
        MAXOPBLOCKS blocks and the log still holds them. It may be asked for
        while a commit runs. */
    method BeginOp(ghost p: nat) returns (ok: bool)
      requires Tracks(c, l, s, lh, outstanding, committing) && p < |s.ops| && s.ops[p].None?
      modifies this`outstanding, this`s
      ensures Tracks(c, l, s, lh, outstanding, committing) && (old(Valid()) ==> Valid())
      ensures if ok then O.Begin(c, old(s), s, p) else O.MustWait(c, s) && s == old(s)
      ensures ok ==> |lh| + O.Unspent(MAXOPBLOCKS, s.ops) <= LOGSIZE && s.ops[p] == Some({})
    {
      hide Held, Clear, Distinct, Settled, O.Reachable, O.Step;
      ok := !committing && |lh| + (outstanding + 1) * MAXOPBLOCKS <= LOGSIZE;
      if ok {
        ghost var s' := s.(outstanding := s.outstanding + 1, ops := s.ops[p := Some({})]);
        O.BeginReachable(c, s, s', p);
        outstanding := outstanding + 1;
        s := s';
      }
    }

    // The part of bread under bcache.lock; None is its panic.
    method Bget(b: nat) returns (r: Option<nat>)
      requires Valid() && IsHome(l, |bc.disk|, b)
      modifies this`held, bc`bufs
      ensures Valid() && (r.None? <==> !Cached(old(bc.bufs), b) && !OneFree(old(bc.bufs)))
      ensures r.None? ==> bc.bufs == old(bc.bufs) && held == old(held)
      ensures r.Some? ==> && r.value < bc.nbuf && Holds(bc.bufs[r.value], b) && r.value < |old(held)|
                          && bc.bufs[r.value].locked == old(bc.bufs)[r.value].locked
                          && (Holds(old(bc.bufs)[r.value], b) || !old(bc.bufs)[r.value].locked)
                          && SameExcept(old(bc.bufs), bc.bufs, r.value, r.value)
                          && held == old(held)[r.value := old(held)[r.value] + 1]
    {
      hide BufsOK, ListOK, Tracks, Kept, Homes, Distinct, Settled, Clear, Cached, OneFree;
      r, held := Get(bc, l, lh, b, held);
    }

    // The rest of bread, once the lock of buffer i is free.
    method Lock(i: nat)
      requires Valid() && i < bc.nbuf && held[i] >= 1 && !bc.bufs[i].locked
      modifies bc`bufs
      ensures Valid() && SameExcept(old(bc.bufs), bc.bufs, i, i) && old(bc.bufs)[i].blockno < |bc.plain|
      ensures bc.bufs[i] == old(bc.bufs)[i].(locked := true, valid := true, data := bc.plain[old(bc.bufs)[i].blockno])
    {
      hide BufsOK, ListOK, Tracks, Kept, Homes, Distinct, Settled, Clear;
      LogPins.Lock(bc, l, lh, i, held);
    }

    /** bread, when nobody has locked the block: the latest value written to
        it, whatever other buffers are held. */
    method Bread(b: nat) returns (r: Option<nat>)
      requires Valid() && IsHome(l, |bc.disk|, b) && NotLocked(bc.bufs, b)
      modifies this`held, bc`bufs
      ensures Valid() && (r.None? <==> !Cached(old(bc.bufs), b) && !OneFree(old(bc.bufs)))
      ensures r.None? ==> bc.bufs == old(bc.bufs) && held == old(held)
      ensures r.Some? ==> && r.value < bc.nbuf && Holds(bc.bufs[r.value], b) && bc.bufs[r.value].locked
                          && r.value < |old(held)|
                          && bc.bufs[r.value].data == bc.plain[b] && !old(bc.bufs)[r.value].locked
                          && SameExcept(old(bc.bufs), bc.bufs, r.value, r.value)
                          && held == old(held)[r.value := old(held)[r.value] + 1]
    {
      hide BufsOK, ListOK, Tracks, Kept, Homes, Distinct, Settled, Clear, Cached, OneFree;
      ghost var b0 := bc.bufs;
      r := Bget(b);
      if r.Some? {
        OpenAfter(b0, bc.bufs, r.value, b);
        Lock(r.value);
      }
    }

    /** The holder of a buffer changes its block, inside an operation. Readers
        will see it; the disk does not change. */
    method Update(i: nat, data: Block)
      requires Valid() && i < bc.nbuf && bc.bufs[i].locked && outstanding >= 1
      modifies bc`bufs, bc`plain
      ensures Valid() && bc.bufs == old(bc.bufs)[i := old(bc.bufs)[i].(data := data)]
      ensures bc.plain == old(bc.plain)[bc.bufs[i].blockno := data]
    {
      hide BufsOK, ListOK, Tracks, Pinned, Saved;
      assert CountOf(bc.bufs[i], held[i], lh, l);
      KeptUpdate(bc.bufs, held, bc.disk, bc.plain, lh, l, i, data);
      bc.Modify(i, data);
    }

    /** log_write on a buffer that some process holds for its operation p. */
    method LogWrite(ghost p: nat, i: nat) returns (ok: bool)
      requires Valid() && i < bc.nbuf && held[i] >= 1 && bc.bufs[i].blockno < UINT
      requires O.WithinLimit(c, s, p, bc.bufs[i].blockno)
      modifies this`lh, this`s, bc`bufs
      ensures Valid()
      ensures ok <==> |old(lh)| < LOGSIZE && |old(lh)| < l.size - 1  // else panic
      ensures !ok ==> s == old(s) && bc.bufs == old(bc.bufs)
      ensures ok ==> O.LogWrite(c, old(s), s, p, bc.bufs[i].blockno) && bc.bufs[i].blockno in lh
      ensures SameExcept(old(bc.bufs), bc.bufs, i, i)
      ensures bc.bufs[i] == old(bc.bufs)[i].(refcnt := old(bc.bufs)[i].refcnt + |lh| - |old(lh)|)
    {
      hide BufsOK, ListOK, Kept, Settled, Clear, O.Reachable;
      if |lh| >= LOGSIZE || |lh| >= l.size - 1 {
        return false;
      }
      HeldHome(bc.bufs, held, bc.disk, bc.plain, lh, l, i);
      var b := bc.bufs[i].blockno;
      HeaderGrows(l, |bc.disk|, lh, b);
      SettledGrows(bc.plain, bc.disk, lh, b);
      hide Homes, Distinct;
      ghost var s' := s.(blocks := if b in s.blocks then s.blocks else s.blocks + [b],
          ops := s.ops[p := Some(s.ops[p].value + {b})]);
      O.OpenOp(c, s, p);
      O.LogWriteReachable(c, s, s', p, b);
      s := s';
      var k := 0;
      while k < |lh| && lh[k] != b
        invariant 0 <= k <= |lh| && forall j :: 0 <= j < k ==> lh[j] != b
      {
        k := k + 1;
      }
      if k == |lh| {
        KeptLog(bc.bufs, held, bc.disk, bc.plain, lh, l, i);
        bc.Bpin(i);
        lh := lh + [b];
      }
      ok := true;
    }

    /** brelse, of a buffer whose holder has logged what it changed. */
    method Brelse(i: nat)
      requires Valid() && i < bc.nbuf && bc.bufs[i].locked && Releasable(bc.bufs[i], bc.disk, bc.plain, lh)
      modifies this`held, bc`bufs, bc`next, bc`prev, bc`order, bc`stamp, bc`clock
      ensures Valid() && i < |old(held)| && old(held)[i] >= 1 && held == old(held)[i := old(held)[i] - 1]
      ensures bc.bufs == old(bc.bufs)[i := old(bc.bufs)[i].(locked := false, refcnt := old(bc.bufs)[i].refcnt - 1)]
    {
      hide BufsOK, ListOK, Tracks, Kept, Homes, Distinct, Settled, Clear;
      held := Release(bc, l, lh, i, held);
    }

    // bread and brelse around a read of the data; None is a panic of bread.
    method ReadBlock(b: nat) returns (r: Option<Block>)
      requires Valid() && IsHome(l, |bc.disk|, b) && NotLocked(bc.bufs, b)
      modifies this`held, bc`bufs, bc`next, bc`prev, bc`order, bc`stamp, bc`clock
      ensures Valid() && held == old(held)
      ensures r == if Cached(old(bc.bufs), b) || OneFree(old(bc.bufs)) then Some(bc.plain[b]) else None
    {
      hide BufsOK, ListOK, Tracks, Homes, Distinct, Settled, Clear, Counted, Pinned, Saved, Cached, OneFree;
      OpenSaved(bc.bufs, bc.disk, bc.plain, lh, b);
      var i := Bread(b);
      if i.None? { return None; }
      r := Some(bc.bufs[i.value].data);
      Brelse(i.value);
    }

    /** An update of block b inside operation p, while other buffers are held:
        bread, change the data, log_write, brelse. Readers see it at once, the
        disk does not. */
    method WriteBlock(ghost p: nat, b: nat, data: Block) returns (ok: bool)
      requires Valid() && IsHome(l, |bc.disk|, b) && b < UINT && NotLocked(bc.bufs, b)
      requires O.WithinLimit(c, s, p, b)
      modifies this`held, this`lh, this`s, bc
      ensures bc.disk == old(bc.disk) && bc.writes == old(bc.writes)
      // else bread or log_write panics
      ensures ok <==> (Cached(old(bc.bufs), b) || OneFree(old(bc.bufs))) && |old(lh)| < LOGSIZE
                      && |old(lh)| < l.size - 1
      ensures ok ==> Valid() && held == old(held) && bc.plain == old(bc.plain)[b := data]
      ensures ok ==> O.LogWrite(c, old(s), s, p, b) && b in lh
    {
      hide BufsOK, ListOK, Tracks, Homes, Distinct, Settled, Clear, Kept, Cached, OneFree;
      OpenFor(p);
      var r := Bread(b);
      if r.None? { return false; }
      var i := r.value;
      Update(i, data);
      ok := LogWrite(p, i);
      if ok {
        Brelse(i);
      }
    }

    lemma OpenFor(p: nat)
      requires Valid() && O.InOp(s, p)
      ensures outstanding >= 1
    {
      O.OpenOp(c, s, p);
    }

    /** end_op of operation p. If it is the last one, every change is logged by
        now, and commit() makes k of its block writes while readers go on. */
    method EndOp(ghost p: nat) returns (commits: bool, ok: bool, ghost k: nat)
      requires Valid() && O.InOp(s, p) && (outstanding == 1 ==> Settled(bc.plain, bc.disk, lh))
      modifies this`outstanding, this`committing, this`lh, this`s, this`held, bc
      ensures commits <==> old(outstanding) == 1
      ensures ok ==> Valid() && outstanding == old(outstanding) - 1 && s.ops == old(s).ops[p := None]
      ensures !commits ==> ok && lh == old(lh) && held == old(held) && bc.plain == old(bc.plain)
                           && bc.disk == old(bc.disk) && bc.writes == old(bc.writes)
      ensures commits ==> Committing(old(bc.disk), old(bc.plain), old(bc.writes), l, old(lh), k, bc.disk, bc.writes)
      ensures commits ==> (ok <==> k == Writes(old(lh))) && (!ok ==> !OneFree(bc.bufs))
      ensures commits && ok ==> lh == [] && SameHome(bc.plain, old(bc.plain), l)
    {
      hide Held, Committing, O.Reachable, Distinct, Settled, Clear, OneFree;
      O.OpenOp(c, s, p);
      ghost var s' := O.AfterEnd(s, p);
      O.EndReachable(c, s, s', p);
      outstanding := outstanding - 1;
      commits, ok, k := outstanding == 0, true, 0;
      s := s';
      if commits {
        committing := true;
        ok, k := Commit();
        if ok {
          committing := false;
          s := O.Committed(s);
        }
      }
    }

    /** commit(): readers notice nothing, and between any two of its block
        writes they take and release any buffers. A bread that finds no free
        buffer is a panic, with k block writes made; no other thing stops it. */
    method Commit() returns (ok: bool, ghost k: nat)
      requires Stable(bc, held, lh, l) && Clear(bc.disk, l)
      modifies this`lh, this`held, bc
      ensures Committing(old(bc.disk), old(bc.plain), old(bc.writes), l, old(lh), k, bc.disk, bc.writes)
      ensures (ok <==> k == Writes(old(lh))) && (!ok ==> !OneFree(bc.bufs))
      ensures old(lh) != [] && |old(lh)| == bc.nbuf ==> !ok
      ensures ok ==> Stable(bc, held, lh, l) && Clear(bc.disk, l) && lh == [] && SameHome(bc.plain, old(bc.plain), l)
    {
      hide BufsOK, ListOK, Committing, OneFree, Kept, Homes, Distinct, Clear, Settled;
      ok, k := true, 0;
      if |lh| > 0 {
        ok, held, k := CommitBlocks(bc, l, lh, held);
        if ok { lh := []; }
      } else {
        CommitNothing(bc.disk, bc.plain, bc.writes, l);
      }
    }
  }
}
