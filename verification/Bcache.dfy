/** The buffer cache: nbuf buffers on a doubly linked ring in order of last
    release, with reference counts, over one disk. */
module Bcache {
  import opened Options
  import opened Blocks

  const ROOTDEV: nat := 1

  // A buffer that was never assigned has dev 0.
  datatype Buf = Buf(dev: nat, blockno: nat, valid: bool, refcnt: nat, locked: bool, data: Block)

  // ---- the ring through prev and next; h stands for bcache.head

  predicate Linked(next: seq<nat>, prev: seq<nat>, order: seq<nat>, h: nat) {
    var ring := [h] + order + [h];
    && h < |next| == |prev|
    && (forall i :: 0 <= i < |order| ==> order[i] < |next| && order[i] != h)
    && (forall i, j :: 0 <= i < j < |order| ==> order[i] != order[j])
    && (forall i :: 0 <= i <= |order| ==> next[ring[i]] == ring[i + 1])
    && (forall i :: 0 <= i <= |order| ==> prev[ring[i + 1]] == ring[i])
  }

  function Without(order: seq<nat>, k: nat): seq<nat>
    requires k < |order|
  {
    order[..k] + order[k + 1..]
  }

  lemma Unlink(next: seq<nat>, prev: seq<nat>, order: seq<nat>, h: nat, k: nat)
    requires Linked(next, prev, order, h) && k < |order|
    ensures var b := order[k]; var p, x := prev[b], next[b];
            p < |next| && x < |next| && Linked(next[p := x], prev[x := p], Without(order, k), h)
  {
    var ring, b := [h] + order + [h], order[k];
    assert ring[k + 1] == b;
    var p, x := prev[b], next[b];
    assert x == ring[k + 2] && p == ring[k];
    var order' := Without(order, k);
    var ring' := [h] + order' + [h];
    var next', prev' := next[p := x], prev[x := p];
    assert forall i :: 0 <= i < |order'| ==> order'[i] < |next|;
    forall i | 0 <= i <= |order'| ensures next'[ring'[i]] == ring'[i + 1] && prev'[ring'[i + 1]] == ring'[i] {
      var i' := if i <= k then i else i + 1;
      assert ring'[i] == ring[i'];
      assert ring'[i + 1] == ring[if i + 1 <= k then i + 1 else i + 2];
      assert next[ring[i']] == ring[i' + 1] && prev[ring[i' + 1]] == ring[i'];
    }
  }

  lemma PushFront(next: seq<nat>, prev: seq<nat>, order: seq<nat>, h: nat, b: nat)
    requires Linked(next, prev, order, h) && b < |next| && b != h && b !in order
    ensures var first := next[h];
            first < |next| && Linked(next[b := first][h := b], prev[b := h][first := b], [b] + order, h)
  {
    var ring, ring' := [h] + order + [h], [h] + ([b] + order) + [h];
    assert ring[0] == h && next[ring[0]] == ring[1];
    var first := next[h];
    var next', prev' := next[b := first][h := b], prev[b := h][first := b];
    assert ring'[0] == h && ring'[1] == b && ring'[2] == first;
    forall i | 0 <= i <= |order| + 1 ensures next'[ring'[i]] == ring'[i + 1] && prev'[ring'[i + 1]] == ring'[i] {
      if i >= 2 {
        assert ring'[i] == ring[i - 1] == order[i - 2] && ring'[i + 1] == ring[i];
        assert next[ring[i - 1]] == ring[i] && prev[ring[i]] == ring[i - 1];
      }
    }
  }

  lemma Relink(next: seq<nat>, prev: seq<nat>, order: seq<nat>, h: nat, k: nat)
    requires Linked(next, prev, order, h) && k < |order|
    ensures var b := order[k];
            next[b] < |next| && prev[b] < |next| &&
            var next1, prev1 := next[prev[b] := next[b]], prev[next[b] := prev[b]];
            next1[h] < |next| &&
            Linked(next1[b := next1[h]][h := b], prev1[b := h][next1[h] := b], [b] + Without(order, k), h)
  {
    Unlink(next, prev, order, h, k);
    var b := order[k];
    PushFront(next[prev[b] := next[b]], prev[next[b] := prev[b]], Without(order, k), h, b);
  }

  // ---- what a block holds, cached or not

  predicate Holds(b: Buf, blockno: nat) {
    b.dev == ROOTDEV && b.blockno == blockno
  }

  // The buffers are consistent with each other and with the disk.
  predicate Coherent(bufs: seq<Buf>, disk: Disk) {
    && (forall i :: 0 <= i < |bufs| ==> bufs[i].dev == 0 || bufs[i].dev == ROOTDEV)
    && (forall i :: 0 <= i < |bufs| && bufs[i].dev == 0 ==> !bufs[i].valid && bufs[i].refcnt == 0 && !bufs[i].locked)
    && (forall i :: 0 <= i < |bufs| && bufs[i].dev == ROOTDEV ==> bufs[i].blockno < |disk|)
    && (forall i, j :: 0 <= i < j < |bufs| && bufs[i].dev == ROOTDEV && bufs[j].dev == ROOTDEV
          ==> bufs[i].blockno != bufs[j].blockno)
    && (forall i :: 0 <= i < |bufs| && bufs[i].locked ==> bufs[i].refcnt >= 1)
    // an unreferenced buffer can be recycled without losing data
    && (forall i :: 0 <= i < |bufs| && bufs[i].refcnt == 0 ==> Clean(bufs[i], disk))
  }

  predicate Clean(b: Buf, disk: Disk) {
    b.dev == ROOTDEV && b.valid && b.blockno < |disk| ==> b.data == disk[b.blockno]
  }

  predicate Cached(bufs: seq<Buf>, b: nat) {
    exists i :: 0 <= i < |bufs| && Holds(bufs[i], b)
  }

  // plain is the block map that cache and disk together stand for.
  ghost predicate Represents(plain: Disk, bufs: seq<Buf>, disk: Disk) {
    && |plain| == |disk|
    && (forall i :: 0 <= i < |bufs| && bufs[i].dev == ROOTDEV && bufs[i].blockno < |disk| ==>
          plain[bufs[i].blockno] == if bufs[i].valid then bufs[i].data else disk[bufs[i].blockno])
    && (forall b :: 0 <= b < |disk| ==> Cached(bufs, b) || plain[b] == disk[b])
  }

  // The map is determined by cache and disk.
  lemma RepresentsOne(p: Disk, q: Disk, bufs: seq<Buf>, disk: Disk)
    requires Coherent(bufs, disk) && Represents(p, bufs, disk) && Represents(q, bufs, disk)
    ensures p == q
  {
    forall b | 0 <= b < |disk| ensures p[b] == q[b] {
      if i :| 0 <= i < |bufs| && Holds(bufs[i], b) {
        assert p[bufs[i].blockno] == q[bufs[i].blockno];
      }
    }
  }

  ghost predicate BufsOK(bufs: seq<Buf>, disk: Disk, plain: Disk) {
    Coherent(bufs, disk) && Represents(plain, bufs, disk)
  }

  lemma CachedSame(bufs: seq<Buf>, bufs': seq<Buf>)
    requires |bufs'| == |bufs|
    requires forall i :: 0 <= i < |bufs| ==> bufs'[i].dev == bufs[i].dev && bufs'[i].blockno == bufs[i].blockno
    ensures forall b :: Cached(bufs', b) == Cached(bufs, b)
  {
    forall b ensures Cached(bufs', b) == Cached(bufs, b) {
      if j :| 0 <= j < |bufs| && Holds(bufs[j], b) { assert Holds(bufs'[j], b); }
      if j :| 0 <= j < |bufs| && Holds(bufs'[j], b) { assert Holds(bufs[j], b); }
    }
  }

  lemma Assigned(bufs: seq<Buf>, disk: Disk, plain: Disk, i: nat)
    requires BufsOK(bufs, disk, plain) && i < |bufs|
    ensures bufs[i].refcnt >= 1 || bufs[i].locked ==> bufs[i].dev == ROOTDEV && bufs[i].refcnt >= 1
    ensures bufs[i].dev == ROOTDEV ==> bufs[i].blockno < |disk| == |plain|
    ensures bufs[i].dev == ROOTDEV && bufs[i].refcnt == 0 ==> plain[bufs[i].blockno] == disk[bufs[i].blockno]
  {
  }

  // Reference counts and locks change, nothing else.
  lemma CountOK(bufs: seq<Buf>, disk: Disk, plain: Disk, i: nat, refcnt: nat, locked: bool)
    requires BufsOK(bufs, disk, plain) && i < |bufs| && bufs[i].dev == ROOTDEV
    requires locked ==> refcnt >= 1
    requires refcnt == 0 ==> Clean(bufs[i], disk)
    ensures BufsOK(bufs[i := bufs[i].(refcnt := refcnt, locked := locked)], disk, plain)
  {
    CachedSame(bufs, bufs[i := bufs[i].(refcnt := refcnt, locked := locked)]);
  }

  // A clean unused buffer is recycled for a block that is not cached.
  lemma RecycleOK(bufs: seq<Buf>, disk: Disk, plain: Disk, i: nat, b: nat)
    requires BufsOK(bufs, disk, plain) && i < |bufs| && bufs[i].refcnt == 0 && b < |disk| && !Cached(bufs, b)
    ensures BufsOK(bufs[i := Buf(ROOTDEV, b, false, 1, false, bufs[i].data)], disk, plain)
  {
    var bufs' := bufs[i := Buf(ROOTDEV, b, false, 1, false, bufs[i].data)];
    assert forall j :: 0 <= j < |bufs| ==> !Holds(bufs[j], b);
    forall c | 0 <= c < |disk| ensures Cached(bufs', c) || plain[c] == disk[c] {
      if j :| 0 <= j < |bufs| && Holds(bufs[j], c) {
        if j != i { assert Holds(bufs'[j], c); }
      }
    }
  }

  // bread locks the buffer and fills it if it was not valid.
  lemma FillOK(bufs: seq<Buf>, disk: Disk, plain: Disk, i: nat)
    requires BufsOK(bufs, disk, plain) && i < |bufs| && bufs[i].dev == ROOTDEV && bufs[i].refcnt >= 1
    ensures bufs[i].blockno < |disk| == |plain|
    ensures plain[bufs[i].blockno] == if bufs[i].valid then bufs[i].data else disk[bufs[i].blockno]
    ensures BufsOK(bufs[i := bufs[i].(locked := true, valid := true, data := plain[bufs[i].blockno])], disk, plain)
  {
    CachedSame(bufs, bufs[i := bufs[i].(locked := true, valid := true, data := plain[bufs[i].blockno])]);
  }

  lemma ModifyOK(bufs: seq<Buf>, disk: Disk, plain: Disk, i: nat, data: Block)
    requires BufsOK(bufs, disk, plain) && i < |bufs| && bufs[i].locked && bufs[i].valid
    ensures bufs[i].blockno < |disk| == |plain|
    ensures BufsOK(bufs[i := bufs[i].(data := data)], disk, plain[bufs[i].blockno := data])
  {
    CachedSame(bufs, bufs[i := bufs[i].(data := data)]);
    assert Holds(bufs[i], bufs[i].blockno);
  }

  lemma WriteOK(bufs: seq<Buf>, disk: Disk, plain: Disk, i: nat)
    requires BufsOK(bufs, disk, plain) && i < |bufs| && bufs[i].locked && bufs[i].valid
    ensures bufs[i].blockno < |disk| && BufsOK(bufs, disk[bufs[i].blockno := bufs[i].data], plain)
  {
    assert Holds(bufs[i], bufs[i].blockno);
  }

  // Ordered by time of last release, latest first.
  predicate Sorted(order: seq<nat>, stamp: seq<int>, clock: int) {
    && (forall i :: 0 <= i < |order| ==> order[i] < |stamp|)
    && (forall i, j :: 0 <= i < j < |order| ==> stamp[order[i]] > stamp[order[j]])
    && (forall i :: 0 <= i < |stamp| ==> stamp[i] < clock && i in order)
  }

  lemma MovedToFront(order: seq<nat>, stamp: seq<int>, clock: int, k: nat)
    requires Sorted(order, stamp, clock) && k < |order|
    ensures Sorted([order[k]] + Without(order, k), stamp[order[k] := clock], clock + 1)
  {
    var b := order[k];
    var r, stamp' := [b] + Without(order, k), stamp[b := clock];
    forall i | 1 <= i < |r| ensures r[i] == order[if i <= k then i - 1 else i] && r[i] != b {
      var i' := if i <= k then i - 1 else i;
      assert r[i] == order[i'] && stamp[order[i']] != stamp[b];
    }
    forall i | 0 <= i < |stamp| ensures i in r {
      StillIn(order, k, i);
    }
  }

  lemma StillIn(order: seq<nat>, k: nat, i: nat)
    requires i in order && k < |order|
    ensures i in [order[k]] + Without(order, k)
  {
    var m :| 0 <= m < |order| && order[m] == i;
    assert ([order[k]] + Without(order, k))[if m < k then m + 1 else if m == k then 0 else m] == i;
  }

  lemma InOrder(order: seq<nat>, stamp: seq<int>, clock: int, j: nat)
    requires Sorted(order, stamp, clock) && j < |stamp|
    ensures j in order
  {
  }

  ghost predicate ListOK(next: seq<nat>, prev: seq<nat>, order: seq<nat>, h: nat, stamp: seq<int>, clock: int) {
    |order| == |stamp| == h && |next| == h + 1 && Linked(next, prev, order, h) && Sorted(order, stamp, clock)
  }

  // Every buffer is on the list.
  lemma OnList(next: seq<nat>, prev: seq<nat>, order: seq<nat>, h: nat, stamp: seq<int>, clock: int, i: nat)
      returns (k: nat)
    requires ListOK(next, prev, order, h, stamp, clock) && i < h
    ensures k < h && order[k] == i && |prev| == |next|
  {
    assert i in order;
    k :| 0 <= k < |order| && order[k] == i;
  }

  class BufferCache {
    const nbuf: nat
    var disk: Disk
    var bufs: seq<Buf>
    var next: seq<nat>
    var prev: seq<nat>
    ghost var plain: Disk        // what readers see
    ghost var writes: seq<Disk>  // the disk after each device write so far
    ghost var order: seq<nat>    // the ring, most recently released first
    ghost var stamp: seq<int>    // when each buffer was last released
    ghost var clock: int

    ghost predicate Valid()
      reads this
    {
      |bufs| == nbuf && |plain| == |disk| && BufsOK(bufs, disk, plain) && ListOK(next, prev, order, nbuf, stamp, clock)
    }

    // binit
    constructor (n: nat, d: Disk)
      ensures Valid() && nbuf == n && disk == d && writes == []
      ensures forall i :: 0 <= i < n ==> bufs[i].dev == 0
      ensures plain == d
    {
      nbuf, disk, plain, writes := n, d, d, [];
      bufs := seq(n, _ => Buf(0, 0, false, 0, false, ZeroBlock));
      var nx: seq<nat>, pv: seq<nat> := seq(n + 1, _ => n), seq(n + 1, _ => n);
      ghost var ord: seq<nat> := [];
      for b := 0 to n
        invariant |nx| == n + 1 && |ord| == b && Linked(nx, pv, ord, n)
        invariant forall k :: 0 <= k < b ==> ord[k] == b - 1 - k
      {
        PushFront(nx, pv, ord, n, b);
        var first := nx[n];
        nx := nx[b := first];
        pv := pv[b := n];
        pv := pv[first := b];
        nx := nx[n := b];
        ord := [b] + ord;
      }
      next, prev, order := nx, pv, ord;
      stamp, clock := seq(n, i => i), n;
      forall i | 0 <= i < n ensures i in ord {
        assert ord[n - 1 - i] == i;
      }
    }

    // bget's first search, from the most recently released buffer on
    method FindCached(b: nat) returns (r: Option<nat>)
      requires Valid()
      ensures r.None? ==> !Cached(bufs, b)
      ensures r.Some? ==> r.value < nbuf && Holds(bufs[r.value], b)
    {
      hide BufsOK, Sorted;
      var i := next[nbuf];
      ghost var k := 0;
      ghost var ring := [nbuf] + order + [nbuf];
      assert ring[0] == nbuf;
      while i != nbuf
        invariant 0 <= k <= nbuf && i == ring[k + 1]
        invariant forall j :: 0 <= j < k ==> !Holds(bufs[order[j]], b)
        decreases nbuf - k
      {
        if bufs[i].dev == ROOTDEV && bufs[i].blockno == b {
          return Some(i);
        }
        i := next[i];
        k := k + 1;
      }
      forall j | 0 <= j < nbuf ensures !Holds(bufs[j], b) {
        InOrder(order, stamp, clock, j);
      }
      r := None;
    }

    // bget's second search, from the least recently released buffer on
    method FindUnused() returns (r: Option<nat>)
      requires Valid()
      ensures r.None? ==> forall j :: 0 <= j < nbuf ==> bufs[j].refcnt != 0
      ensures r.Some? ==> r.value < nbuf && bufs[r.value].refcnt == 0
      ensures r.Some? ==> forall j :: 0 <= j < nbuf && bufs[j].refcnt == 0 ==> stamp[r.value] <= stamp[j]
    {
      hide BufsOK;
      var i := prev[nbuf];
      ghost var k := nbuf;
      ghost var ring := [nbuf] + order + [nbuf];
      assert ring[nbuf + 1] == nbuf;
      while i != nbuf
        invariant 0 <= k <= nbuf && i == ring[k]
        invariant forall j :: k <= j < nbuf ==> bufs[order[j]].refcnt != 0
        decreases k
      {
        if bufs[i].refcnt == 0 {
          forall j | 0 <= j < nbuf && bufs[j].refcnt == 0 ensures stamp[i] <= stamp[j] {
            assert j in order;
          }
          return Some(i);
        }
        i := prev[i];
        k := k - 1;
      }
      forall j | 0 <= j < nbuf ensures bufs[j].refcnt != 0 {
        assert j in order;
      }
      r := None;
    }

    // The part of bget that runs under bcache.lock; None is its panic.
    method Bget(b: nat) returns (r: Option<nat>)
      requires Valid() && b < |disk|
      modifies this`bufs
      ensures Valid()
      ensures r.None? <==> !Cached(old(bufs), b) && forall i :: 0 <= i < nbuf ==> old(bufs)[i].refcnt > 0
      ensures r.None? ==> bufs == old(bufs)
      ensures r.Some? ==> r.value < nbuf && Holds(bufs[r.value], b)
      ensures r.Some? && Cached(old(bufs), b)
              ==> bufs == old(bufs)[r.value := old(bufs)[r.value].(refcnt := old(bufs)[r.value].refcnt + 1)]
      // a miss recycles the unused buffer that was released longest ago
      ensures r.Some? && !Cached(old(bufs), b)
              ==> && old(bufs)[r.value].refcnt == 0
                  && bufs == old(bufs)[r.value := Buf(ROOTDEV, b, false, 1, false, old(bufs)[r.value].data)]
                  && forall j :: 0 <= j < nbuf && old(bufs)[j].refcnt == 0 ==> stamp[r.value] <= stamp[j]
    {
      r := FindCached(b);
      hide BufsOK, ListOK;
      if r.Some? {
        var i := r.value;
        CountOK(bufs, disk, plain, i, bufs[i].refcnt + 1, bufs[i].locked);
        bufs := bufs[i := bufs[i].(refcnt := bufs[i].refcnt + 1)];
        assert Holds(old(bufs)[i], b);
        return;
      }
      r := FindUnused();
      if r.Some? {
        RecycleOK(bufs, disk, plain, r.value, b);
        bufs := bufs[r.value := Buf(ROOTDEV, b, false, 1, false, bufs[r.value].data)];
      }
    }

    // The rest of bread: the sleep lock of a buffer one has a reference to,
    // and its block from disk if it does not hold it yet.
    method Lock(i: nat)
      requires Valid() && i < nbuf && bufs[i].refcnt >= 1 && !bufs[i].locked
      modifies this`bufs
      ensures Valid() && old(bufs)[i].dev == ROOTDEV && old(bufs)[i].blockno < |disk|
      ensures bufs == old(bufs)[i := old(bufs)[i].(locked := true, valid := true, data := plain[old(bufs)[i].blockno])]
      ensures !old(bufs)[i].valid ==> plain[old(bufs)[i].blockno] == disk[old(bufs)[i].blockno]
    {
      hide BufsOK, ListOK;
      Assigned(bufs, disk, plain, i);
      FillOK(bufs, disk, plain, i);
      var data := if bufs[i].valid then bufs[i].data else disk[bufs[i].blockno];
      bufs := bufs[i := bufs[i].(locked := true, valid := true, data := data)];
    }

    // A caller that finds the buffer locked waits; it goes on from here.
    method Bread(b: nat) returns (r: Option<nat>)
      requires Valid() && b < |disk|
      requires forall i :: 0 <= i < nbuf && Holds(bufs[i], b) ==> !bufs[i].locked
      modifies this`bufs
      ensures Valid()
      ensures r.None? <==> !Cached(old(bufs), b) && forall i :: 0 <= i < nbuf ==> old(bufs)[i].refcnt > 0
      ensures r.None? ==> bufs == old(bufs)
      ensures r.Some? ==>
        && r.value < nbuf && |bufs| == nbuf
        && bufs[r.value] == Buf(ROOTDEV, b, true, old(bufs)[r.value].refcnt + 1, true, plain[b])
        && bufs == old(bufs)[r.value := bufs[r.value]]
        && (if Cached(old(bufs), b) then Holds(old(bufs)[r.value], b) else old(bufs)[r.value].refcnt == 0)
        && (old(bufs)[r.value].refcnt == 0 ==> bufs[r.value].data == disk[b])
    {
      hide BufsOK, ListOK;
      ghost var b0 := bufs;
      r := Bget(b);
      if r.Some? {
        Assigned(b0, disk, plain, r.value);
        Lock(r.value);
      }
    }

    // The holder of buffer i changes its data.
    method Modify(i: nat, data: Block)
      requires Valid() && i < nbuf && bufs[i].locked && bufs[i].valid
      modifies this`bufs, this`plain
      ensures Valid() && bufs == old(bufs)[i := old(bufs)[i].(data := data)]
      ensures plain == old(plain)[old(bufs)[i].blockno := data]
    {
      hide BufsOK, ListOK;
      ModifyOK(bufs, disk, plain, i, data);
      plain := plain[bufs[i].blockno := data];
      bufs := bufs[i := bufs[i].(data := data)];
    }

    method Bwrite(i: nat)
      requires Valid() && i < nbuf && bufs[i].locked && bufs[i].valid
      modifies this`disk, this`writes
      ensures Valid() && disk == old(disk)[bufs[i].blockno := bufs[i].data]
      ensures writes == old(writes) + [disk]
    {
      hide BufsOK, ListOK;
      WriteOK(bufs, disk, plain, i);
      disk := disk[bufs[i].blockno := bufs[i].data];
      writes := writes + [disk];
    }

    // The list surgery of brelse.
    method MoveToFront(i: nat)
      requires Valid() && i < nbuf
      modifies this`next, this`prev, this`order, this`stamp, this`clock
      ensures Valid() && stamp == old(stamp)[i := old(clock)] && clock > old(clock)
    {
      hide BufsOK, Linked, Sorted;
      ghost var k := OnList(next, prev, order, nbuf, stamp, clock, i);
      Relink(next, prev, order, nbuf, k);
      MovedToFront(order, stamp, clock, k);
      var before, after := prev[i], next[i];
      var nx, pv := next[before := after], prev[after := before];
      var first := nx[nbuf];
      next := nx[i := first][nbuf := i];
      prev := pv[i := nbuf][first := i];
      order := [i] + Without(order, k);
      stamp := stamp[i := clock];
      clock := clock + 1;
    }

    // Whoever drops the last reference leaves the buffer as it is on disk.
    method Brelse(i: nat)
      requires Valid() && i < nbuf && bufs[i].locked
      requires bufs[i].refcnt == 1 ==> Clean(bufs[i], disk)
      modifies this`bufs, this`next, this`prev, this`order, this`stamp, this`clock
      ensures Valid()
      ensures bufs == old(bufs)[i := old(bufs)[i].(locked := false, refcnt := old(bufs)[i].refcnt - 1)]
      ensures bufs[i].refcnt > 0 ==> order == old(order) && stamp == old(stamp)
      ensures bufs[i].refcnt == 0 ==> stamp == old(stamp)[i := old(clock)] && clock > old(clock)
    {
      hide BufsOK, ListOK;
      Assigned(bufs, disk, plain, i);
      CountOK(bufs, disk, plain, i, bufs[i].refcnt - 1, false);
      bufs := bufs[i := bufs[i].(locked := false, refcnt := bufs[i].refcnt - 1)];
      if bufs[i].refcnt == 0 {
        MoveToFront(i);
      }
    }

    method Bpin(i: nat)
      requires Valid() && i < nbuf && bufs[i].dev == ROOTDEV
      modifies this`bufs
      ensures Valid()
      ensures bufs == old(bufs)[i := old(bufs)[i].(refcnt := old(bufs)[i].refcnt + 1)]
    {
      hide BufsOK, ListOK;
      CountOK(bufs, disk, plain, i, bufs[i].refcnt + 1, bufs[i].locked);
      bufs := bufs[i := bufs[i].(refcnt := bufs[i].refcnt + 1)];
    }

    method Bunpin(i: nat)
      requires Valid() && i < nbuf && bufs[i].refcnt >= 1
      requires bufs[i].refcnt == 1 ==> Clean(bufs[i], disk) && !bufs[i].locked
      modifies this`bufs
      ensures Valid()
      ensures bufs == old(bufs)[i := old(bufs)[i].(refcnt := old(bufs)[i].refcnt - 1)]
    {
      hide BufsOK, ListOK;
      Assigned(bufs, disk, plain, i);
      CountOK(bufs, disk, plain, i, bufs[i].refcnt - 1, bufs[i].locked);
      bufs := bufs[i := bufs[i].(refcnt := bufs[i].refcnt - 1)];
    }
  }
}
