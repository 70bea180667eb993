/** virtio_disk.c: the driver's critical sections under vdisk_lock, and a device
    that takes requests from the avail ring and completes them in any order. */
module Virtio {
  import opened Options
  import opened Counting
  import opened VirtioRing
  import opened VirtioHistory

  const CLEARED := Desc(Null, false, false, 0)

  // struct disk; busy are the buffers whose disk flag is set. The device
  // writes usedRing and usedIdx.
  datatype Memory = Memory(free: seq<bool>, desc: seq<Desc>, ops: seq<Op>, info: seq<Info>, busy: set<nat>,
                           availRing: seq<nat>, availIdx: nat, usedRing: seq<nat>, usedIdx: nat, seenIdx: nat)

  // How far the device has read the avail ring, and what it works on.
  datatype Device = Device(lastAvail: nat, working: set<nat>)

  // ---- what ties memory and device to the history

  ghost predicate FormedAll(d: Memory, y: History) {
    && |d.desc| == |d.ops| == |d.info| == NUM
    && forall h :: h in y.chains ==>
         y.chains[h].id < |y.posted| && Formed(d.desc, d.ops, d.info, h, y.chains[h], y.posted[y.chains[h].id])
  }

  ghost predicate AvailOK(d: Memory, dev: Device, y: History) {
    d.availIdx == |y.posted| % U16 && dev.lastAvail == y.taken % U16 && Ring(d.availRing, Heads(y.posted), y.taken)
  }

  ghost predicate UsedOK(d: Memory, y: History) {
    && (forall k :: 0 <= k < |y.completed| ==> y.completed[k] < |y.posted|)
    && d.usedIdx == |y.completed| % U16 && d.seenIdx == y.seen % U16 && Ring(d.usedRing, DoneHeads(y), y.seen)
  }

  // The device wrote status 0 for whatever it completed.
  ghost predicate StatusOK(d: Memory, y: History) {
    forall k :: y.seen <= k < |y.completed| ==>
      && y.completed[k] < |y.posted| && y.posted[y.completed[k]].head < |d.info|
      && d.info[y.posted[y.completed[k]].head].status == 0
  }

  ghost predicate WorkOK(dev: Device, y: History) {
    forall h: nat :: h in dev.working <==> AtDevice(y, h)
  }

  ghost predicate BusyOK(busy: set<nat>, y: History) {
    && (forall h :: h in y.chains ==>
          y.chains[h].id < |y.posted| && (y.posted[y.chains[h].id].buf in busy <==> !Released(y, y.chains[h].id)))
    && (forall b :: b in busy ==> exists h :: h in y.chains && Carries(y, h, b))
  }

  ghost predicate Carries(y: History, h: nat, b: nat) {
    h in y.chains && y.chains[h].id < |y.posted| && y.posted[y.chains[h].id].buf == b
  }

  ghost predicate Agree(d: Memory, dev: Device, y: History) {
    && HistoryOK(y) && FormedAll(d, y) && AvailOK(d, dev, y) && UsedOK(d, y)
    && StatusOK(d, y) && WorkOK(dev, y) && BusyOK(d.busy, y)
  }

  // ---- descriptors

  // Different descriptors that are free.
  predicate Distinct(free: seq<bool>, idx: seq<nat>) {
    && |free| == NUM && (forall k :: 0 <= k < |idx| ==> idx[k] < NUM && free[idx[k]])
    && forall j, k :: 0 <= j < k < |idx| ==> idx[j] != idx[k]
  }

  predicate TakenFrom(before: seq<bool>, free: seq<bool>, idx: seq<nat>) {
    |free| == |before| == NUM && forall i :: 0 <= i < NUM ==> (free[i] <==> before[i] && i !in idx)
  }

  // When nothing is left, no more was free than was taken.
  lemma NoMore(before: seq<bool>, free: seq<bool>, idx: seq<nat>, some: seq<nat>)
    requires TakenFrom(before, free, idx) && (forall i :: 0 <= i < NUM ==> !free[i]) && Distinct(before, some)
    ensures |some| <= |idx|
  {
    forall k | 0 <= k < |some| ensures some[k] in idx {
    }
    Pigeonhole(seq(|some|, k requires 0 <= k < |some| => IndexOf(idx, some[k])), |idx|);
  }

  // d' differs from d only in the contents of free descriptors.
  ghost predicate OnlyScrubs(d: Memory, d': Memory) {
    && d' == d.(desc := d'.desc) && |d'.desc| == |d.desc| == |d.free| == NUM
    && forall i :: 0 <= i < NUM && !d.free[i] ==> d'.desc[i] == d.desc[i]
  }

  class Disk {
    var d: Memory
    var dev: Device
    ghost var y: History
    ghost var owner: seq<Option<nat>>

    ghost predicate Valid()
      reads this
    {
      Agree(d, dev, y) && Partition(d.free, y.chains, owner, {})
    }

    constructor ()
      ensures Valid() && y == History([], 0, [], 0, map[]) && d.free == seq(NUM, _ => true)
    {
      d := Memory(seq(NUM, _ => true), seq(NUM, _ => CLEARED), seq(NUM, _ => Op(false, 0)),
          seq(NUM, _ => Info(None, 0)), {},
                  seq(NUM, _ => 0), 0, seq(NUM, _ => 0), 0, 0);
      dev := Device(0, {});
      y := History([], 0, [], 0, map[]);
      owner := seq(NUM, _ => None);
    }

    method AllocDesc() returns (i: int)
      requires |d.free| == NUM
      modifies `d
      ensures i < 0 ==> d == old(d) && forall j :: 0 <= j < NUM ==> !d.free[j]
      ensures i >= 0 ==> i < NUM && old(d).free[i] && d == old(d).(free := old(d).free[i := false])
      ensures forall j :: 0 <= j < i ==> !old(d).free[j]
    {
      i := 0;
      while i < NUM
        invariant 0 <= i <= NUM && forall j :: 0 <= j < i ==> !d.free[j]
        invariant d == old(d)
      {
        if d.free[i] {
          d := d.(free := d.free[i := false]);
          return;
        }
        i := i + 1;
      }
      i := -1;
    }

    method FreeDesc(i: nat) returns (panic: bool)
      requires |d.free| == |d.desc| == NUM
      modifies `d
      ensures panic <==> i >= NUM || old(d).free[i]
      ensures panic ==> d == old(d)
      ensures !panic ==> d == old(d).(desc := old(d).desc[i := CLEARED], free := old(d).free[i := true])
    {
      if i >= NUM || d.free[i] {
        return true;
      }
      d := d.(desc := d.desc[i := CLEARED]);
      d := d.(free := d.free[i := true]);
      panic := false;
    }

    // All or nothing; fails exactly when fewer than three descriptors are free.
    method Alloc3() returns (ok: bool, idx: seq<nat>)
      requires |d.free| == |d.desc| == NUM
      modifies `d
      ensures ok ==> |idx| == 3 && Distinct(old(d).free, idx) && TakenFrom(old(d).free, d.free, idx)
      ensures ok ==> d == old(d).(free := d.free)
      ensures !ok ==> OnlyScrubs(old(d), d) && forall some :: Distinct(d.free, some) ==> |some| < 3
    {
      idx := [];
      while |idx| < 3
        invariant |idx| <= 3 && Distinct(old(d).free, idx) && TakenFrom(old(d).free, d.free, idx)
        invariant d == old(d).(free := d.free)
        decreases 3 - |idx|
      {
        var i := AllocDesc();
        if i < 0 {
          forall some | Distinct(old(d).free, some) ensures |some| < 3 {
            NoMore(old(d).free, d.free, idx, some);
          }
          GiveBack(idx, old(d));
          return false, [];
        }
        idx := idx + [i];
      }
      ok := true;
    }

    // The inner loop of alloc3_desc: free what was allocated.
    method GiveBack(idx: seq<nat>, ghost before: Memory)
      requires |d.desc| == NUM && Distinct(before.free, idx) && TakenFrom(before.free, d.free, idx)
      requires d == before.(free := d.free)
      modifies `d
      ensures OnlyScrubs(before, d)
    {
      var j := 0;
      while j < |idx|
        invariant 0 <= j <= |idx| && |d.desc| == NUM && TakenFrom(before.free, d.free, idx[j..])
        invariant d == before.(free := d.free, desc := d.desc)
        invariant forall i :: 0 <= i < NUM && !before.free[i] ==> d.desc[i] == before.desc[i]
      {
        assert idx[j] in idx[j..] && idx[j..] == [idx[j]] + idx[j + 1..];
        var panic := FreeDesc(idx[j]);
        j := j + 1;
      }
      assert d.free == before.free;
    }

    // ---- virtio_disk_rw up to its wait

    // Fill in three descriptors and hand the chain to the device.
    method Submit(h: nat, m: nat, t: nat, b: nat, op: Op, ghost before: seq<bool>)
      requires Agree(d, dev, y) && Three(before, h, m, t) && Without(before, d.free, h, m, t)
      requires Partition(before, y.chains, owner, {}) && Unused(d, y, b)
      modifies this
      ensures Valid() && dev == old(dev)
      ensures y == Post(old(y), Request(h, b, op), m, t) && d == Posted(old(d), h, m, t, b, op) && Step(old(y), y)
    {
      hide Agree, Partition, Three, Without, Unused, HistoryOK, FormedAll, AvailOK, UsedOK, StatusOK, WorkOK, BusyOK;
      hide Ring, Formed, NewBuffer, Cell, ChainOK;
      PostAgrees(d, dev, y, h, m, t, Request(h, b, op), owner, before);
      PostSteps(d, y, h, m, t, Request(h, b, op), owner, before);
      hide Step;
      d := d.(ops := d.ops[h := op], desc := Described(d.desc, h, m, t, b, op));
      d := d.(info := d.info[h := Info(Some(b), 0xff)], busy := d.busy + {b});
      d := d.(availRing := d.availRing[d.availIdx % NUM := h]);
      d := d.(availIdx := (d.availIdx + 1) % U16);
      y := Post(y, Request(h, b, op), m, t);
      owner := Claimed(owner, h, m, t);
    }

    /** virtio_disk_rw up to its wait for the device. Without three free
        descriptors it changes nothing and sleeps. */
    method TryStart(b: nat, op: Op) returns (ok: bool, h: nat)
      requires Valid() && Unused(d, y, b)
      modifies this
      ensures Valid() && dev == old(dev)
      ensures !ok ==> y == old(y) && OnlyScrubs(old(d), d) && forall some :: Distinct(d.free, some) ==> |some| < 3
      ensures ok ==> exists m, t :: y == Post(old(y), Request(h, b, op), m, t) && d.busy == old(d).busy + {b}
      ensures ok ==> Step(old(y), y)
    {
      hide Step, HistoryOK, FormedAll, AvailOK, UsedOK, StatusOK, WorkOK, BusyOK, NewBuffer, TakenFrom, Distinct;
      Sizes(d, dev, y, owner, d.free);
      ghost var d0 := d;
      var idx;
      ok, idx := Alloc3();
      if !ok {
        ScrubAgrees(d0, d, dev, y, owner);
        return false, 0;
      }
      h := idx[0];
      AllocThree(d0.free, d.free, idx);
      AllocAgrees(d0, d, dev, y, b);
      Submit(h, idx[1], idx[2], b, op, d0.free);
    }

    // ---- the device

    /** The device takes the next request from the avail ring, if any. */
    method DeviceTake() returns (got: bool)
      requires Valid()
      modifies this
      ensures Valid() && d == old(d)
      ensures got <==> old(y).taken < |old(y).posted|
      ensures y == if got then Take(old(y)) else old(y)
      ensures got ==> Step(old(y), y)
    {
      hide HistoryOK, FormedAll, AvailOK, UsedOK, StatusOK, WorkOK, BusyOK, Partition;
      PendingAvail(d, dev, y);
      if dev.lastAvail == d.availIdx {
        return false;
      }
      TakeAgrees(d, dev, y);
      dev := Device((dev.lastAvail + 1) % U16, dev.working + {d.availRing[dev.lastAvail % NUM]});
      y := Take(y);
      got := true;
    }

    /** The device completes any request it works on. Following the chain it
        finds the operation and the buffer the caller asked for. */
    method DeviceComplete(h: nat) returns (done: (Op, nat))
      requires Valid() && h in dev.working
      modifies this
      ensures Valid() && Asked(old(y), h, done) && y == Complete(old(y), h) && Step(old(y), y)
      ensures old(Writable(d.desc, h, NUM)) == {Status(h)} + if done.0.write then {} else {Data(done.1)}
      ensures d.free == old(d).free && d.busy == old(d).busy
    {
      hide HistoryOK, FormedAll, AvailOK, UsedOK, StatusOK, WorkOK, BusyOK, Partition;
      CompleteAgrees(d, dev, y, h);
      WorkSteps(dev, y, h);
      hide Step;
      var f := Follow(d.desc, d.ops, h).value;
      done := (f.0, f.1);
      d := d.(info := d.info[f.2 := d.info[f.2].(status := 0)]);
      d := d.(usedRing := d.usedRing[d.usedIdx % NUM := h]);
      d := d.(usedIdx := (d.usedIdx + 1) % U16);
      dev := dev.(working := dev.working - {h});
      y := Complete(y, h);
    }

    // ---- virtio_disk_intr

    /** One turn of the interrupt handler's loop: the oldest completion not seen
        yet. Its status is 0, so there is no panic, and exactly the buffer of
        that request is released. */
    method IntrOne() returns (panic: bool, ghost b: nat)
      requires Valid() && d.seenIdx != d.usedIdx
      modifies this
      ensures Valid() && !panic && dev == old(dev)
      ensures old(y).seen < |old(y).completed| && y == See(old(y)) && Step(old(y), y)
      ensures ReleasesOf(old(y), b) && b in old(d).busy && d.busy == old(d).busy - {b} && d.free == old(d).free
    {
      hide HistoryOK, FormedAll, AvailOK, UsedOK, StatusOK, WorkOK, BusyOK, Partition;
      PendingUsed(d, dev, y);
      SeeAgrees(d, dev, y);
      var id := d.usedRing[d.seenIdx % NUM];
      var buf := d.info[id].b.value;
      b := buf;
      panic := d.info[id].status != 0;
      if !panic {
        d := d.(busy := d.busy - {buf});
        d := d.(seenIdx := (d.seenIdx + 1) % U16);
        y := See(y);
        assert Releases(old(y), y, old(y).completed[old(y).seen]);
      }
    }

    /** virtio_disk_intr, while the device goes on taking and completing
        requests. It ends with every completion seen. */
    method Intr() returns (panic: bool)
      requires Valid()
      modifies this
      ensures Valid() && !panic && y.seen == |y.completed|
      ensures y.posted == old(y).posted && y.chains == old(y).chains && old(y).completed <= y.completed
    {
      panic := false;
      hide HistoryOK, FormedAll, AvailOK, UsedOK, StatusOK, WorkOK, BusyOK, Partition;
      CompletedFit(y);
      while d.seenIdx != d.usedIdx
        invariant Valid() && !panic && y.posted == old(y).posted && y.chains == old(y).chains
        invariant old(y).completed <= y.completed && y.seen <= |y.posted|
        decreases |y.posted| - y.seen
      {
        PendingUsed(d, dev, y);
        if * {
          var got := DeviceTake();
        }
        if dev.working != {} {
          var h :| h in dev.working;
          if * {
            var done := DeviceComplete(h);
          }
        }
        PendingUsed(d, dev, y);
        CompletedFit(y);
        ghost var b;
        panic, b := IntrOne();
      }
      PendingUsed(d, dev, y);
    }

    // ---- the end of virtio_disk_rw

    // free_chain: none of the descriptors it frees is free already.
    method FreeChain(i: nat, ghost c: Chain) returns (panic: bool)
      requires Linked(d, i, c)
      modifies `d
      ensures !panic && d == Unlinked(old(d), i, c)
    {
      var at, more := i, true;
      panic := false;
      ghost var n := 0;
      while more
        invariant n <= 3 && !panic && (more <==> n < 3)
        invariant n < 3 ==> at == CellAt(i, c, n)
        invariant d == UnlinkedTo(old(d), i, c, n)
        decreases 3 - n
      {
        UnlinkStep(old(d), i, c, n);
        var flag, nxt := d.desc[at].next, d.desc[at].nxt;
        panic := FreeDesc(at);
        if flag {
          at := nxt;
        } else {
          more := false;
        }
        n := n + 1;
      }
    }

    /** The end of virtio_disk_rw, once b->disk is clear: the chain is freed,
        without a panic, and nothing else changes. */
    method Finish(h: nat, b: nat) returns (panic: bool)
      requires Valid() && Carries(y, h, b) && b !in d.busy
      modifies this
      ensures Valid() && !panic && dev == old(dev) && y == Drop(old(y), h) && d.busy == old(d).busy
      ensures Released(old(y), old(y).chains[h].id) && Step(old(y), y)
    {
      hide HistoryOK, FormedAll, AvailOK, UsedOK, StatusOK, WorkOK, BusyOK, Partition, Linked, UnlinkedTo;
      ghost var c := y.chains[h];
      DropAgrees(d, dev, y, owner, h, c, b);
      d := Forgot(d, h);
      panic := FreeChain(h, c);
      y := Drop(y, h);
      assert Drops(old(y), y, h);
      owner := Disowned(owner, h, c);
    }
  }

  lemma PostSteps(d: Memory, y: History, h: nat, m: nat, t: nat, q: Request, owner: seq<Option<nat>>, before: seq<bool>)
    requires Partition(before, y.chains, owner, {}) && Three(before, h, m, t) && Unused(d, y, q.buf) && q.head == h
    ensures Step(y, Post(y, q, m, t))
  {
    OtherChains(y, owner, before, h, m, t);
    assert Posts(y, Post(y, q, m, t), q, m, t);
  }

  lemma WorkSteps(dev: Device, y: History, h: nat)
    requires WorkOK(dev, y) && h in dev.working
    ensures h in y.chains && Step(y, Complete(y, h))
  {
    assert Completes(y, Complete(y, h), h);
  }

  // done is what the request in chain h asks for.
  ghost predicate Asked(y: History, h: nat, done: (Op, nat)) {
    && h in y.chains && y.chains[h].id < |y.posted|
    && done == (y.posted[y.chains[h].id].op, y.posted[y.chains[h].id].buf)
  }

  // ---- posting a request

  predicate Three(free: seq<bool>, h: nat, m: nat, t: nat) {
    |free| == NUM && h < NUM && m < NUM && t < NUM && h != m && h != t && m != t && free[h] && free[m] && free[t]
  }

  predicate Without(before: seq<bool>, free: seq<bool>, h: nat, m: nat, t: nat) {
    |free| == |before| == NUM && forall i :: 0 <= i < NUM ==> (free[i] <==> before[i] && Other(i, h, m, t))
  }

  predicate Other(i: int, h: nat, m: nat, t: nat) {
    i != h && i != m && i != t
  }

  // The caller holds the buffer's lock, so no request carries it.
  ghost predicate Unused(d: Memory, y: History, b: nat) {
    HistoryOK(y) && b !in d.busy && NewBuffer(y, b)
  }

  function Described(desc: seq<Desc>, h: nat, m: nat, t: nat, b: nat, op: Op): seq<Desc>
    requires |desc| == NUM && h < NUM && m < NUM && t < NUM
  {
    desc[h := Desc(Ops(h), true, false, m)][m := Desc(Data(b), true, !op.write, t)]
        [t := Desc(Status(h), false, true, 0)]
  }

  function Posted(d: Memory, h: nat, m: nat, t: nat, b: nat, op: Op): Memory {
    if |d.desc| == |d.ops| == |d.info| == |d.availRing| == NUM && h < NUM && m < NUM && t < NUM then
      d.(desc := Described(d.desc, h, m, t, b, op), ops := d.ops[h := op], info := d.info[h := Info(Some(b), 0xff)],
         busy := d.busy + {b}, availRing := d.availRing[d.availIdx % NUM := h], availIdx := (d.availIdx + 1) % U16)
    else d
  }

  function Claimed(owner: seq<Option<nat>>, h: nat, m: nat, t: nat): seq<Option<nat>>
    requires |owner| == NUM && h < NUM && m < NUM && t < NUM
  {
    owner[h := Some(h)][m := Some(h)][t := Some(h)]
  }

  lemma PostAgrees(d: Memory, dev: Device, y: History, h: nat, m: nat, t: nat, q: Request,
                   owner: seq<Option<nat>>, before: seq<bool>)
    requires Agree(d, dev, y) && Three(before, h, m, t) && Without(before, d.free, h, m, t)
    requires Partition(before, y.chains, owner, {}) && Unused(d, y, q.buf) && q.head == h
    ensures |d.desc| == |d.ops| == |d.info| == |d.availRing| == |owner| == NUM && h < NUM && m < NUM && t < NUM
    ensures Agree(Posted(d, h, m, t, q.buf, q.op), dev, Post(y, q, m, t))
    ensures Partition(d.free, Post(y, q, m, t).chains, Claimed(owner, h, m, t), {})
  {
    hide HistoryOK, AvailOK, UsedOK, StatusOK, WorkOK, BusyOK, Partition, Without, NewBuffer, Described, Formed;
    Sizes(d, dev, y, owner, before);
    OtherChains(y, owner, before, h, m, t);
    PostOK(y, q, m, t);
    RoomToPost(y, h);
    PostPartition(before, d.free, y.chains, owner, h, m, t, |y.posted|);
    PostStatus(d, y, h, m, t, q);
    PostFormed(d, y, h, m, t, q);
    PostRings(d, dev, y, h, m, t, q);
    PostWork(dev, y, q, m, t);
    PostBusy(d.busy, y, q, m, t);
  }

  lemma Sizes(d: Memory, dev: Device, y: History, owner: seq<Option<nat>>, free: seq<bool>)
    requires FormedAll(d, y) && AvailOK(d, dev, y) && Partition(free, y.chains, owner, {})
    ensures |d.desc| == |d.ops| == |d.info| == |d.availRing| == |owner| == |free| == NUM
  {
  }

  ghost predicate Avoids(y: History, h: nat, m: nat, t: nat) {
    forall g :: g in y.chains ==> Other(g, h, m, t) && Other(y.chains[g].mid, h, m, t)
                                  && Other(y.chains[g].tail, h, m, t)
  }

  // The chains in use are made of other descriptors.
  lemma OtherChains(y: History, owner: seq<Option<nat>>, before: seq<bool>, h: nat, m: nat, t: nat)
    requires Partition(before, y.chains, owner, {}) && Three(before, h, m, t)
    ensures Avoids(y, h, m, t) && h !in y.chains
  {
    forall g | g in y.chains
      ensures Other(g, h, m, t) && Other(y.chains[g].mid, h, m, t) && Other(y.chains[g].tail, h, m, t)
    {
      assert ChainOK(y.chains, owner, g);
    }
  }

  lemma PostPartition(before: seq<bool>, free: seq<bool>, chains: map<nat, Chain>, owner: seq<Option<nat>>,
                      h: nat, m: nat, t: nat, id: nat)
    requires Partition(before, chains, owner, {}) && Three(before, h, m, t) && Without(before, free, h, m, t)
    ensures Partition(free, chains[h := Chain(m, t, id)], Claimed(owner, h, m, t), {})
  {
    var chains', owner' := chains[h := Chain(m, t, id)], Claimed(owner, h, m, t);
    forall g | g in chains' ensures ChainOK(chains', owner', g) {
      if g != h {
        assert ChainOK(chains, owner, g);
      }
    }
    forall i | 0 <= i < NUM && owner'[i].Some? ensures !free[i] && Cell(chains', owner'[i].value, i) {
      if Other(i, h, m, t) {
        assert Cell(chains, owner[i].value, i);
        assert ChainOK(chains, owner, owner[i].value);
      }
    }
  }

  lemma PostStatus(d: Memory, y: History, h: nat, m: nat, t: nat, q: Request)
    requires HistoryOK(y) && StatusOK(d, y) && |d.info| == NUM && h < NUM && q.head == h && Avoids(y, h, m, t)
    ensures StatusOK(Posted(d, h, m, t, q.buf, q.op), Post(y, q, m, t))
  {
    forall k | y.seen <= k < |y.completed| ensures y.posted[y.completed[k]].head != h {
      UnseenLive(y, k);
    }
    hide Described;
  }

  lemma PostFormed(d: Memory, y: History, h: nat, m: nat, t: nat, q: Request)
    requires FormedAll(d, y) && |d.availRing| == NUM && h < NUM && m < NUM && t < NUM && q.head == h
    requires h != m && h != t && m != t && Avoids(y, h, m, t)
    ensures FormedAll(Posted(d, h, m, t, q.buf, q.op), Post(y, q, m, t))
  {
    var d' := Posted(d, h, m, t, q.buf, q.op);
    forall g | g in y.chains ensures Formed(d'.desc, d'.ops, d'.info, g, y.chains[g], y.posted[y.chains[g].id]) {
      assert Formed(d.desc, d.ops, d.info, g, y.chains[g], y.posted[y.chains[g].id]);
    }
  }

  lemma PostRings(d: Memory, dev: Device, y: History, h: nat, m: nat, t: nat, q: Request)
    requires HistoryOK(y) && AvailOK(d, dev, y) && UsedOK(d, y) && |y.posted| < y.taken + NUM && q.head == h
    requires |d.desc| == |d.ops| == |d.info| == NUM && h < NUM && m < NUM && t < NUM
    ensures AvailOK(Posted(d, h, m, t, q.buf, q.op), dev, Post(y, q, m, t))
    ensures UsedOK(Posted(d, h, m, t, q.buf, q.op), Post(y, q, m, t))
  {
    hide Described;
    SlotOf(|y.posted|);
    Push(d.availRing, Heads(y.posted), y.taken, q.head);
    assert Heads(y.posted + [q]) == Heads(y.posted) + [q.head];
    assert DoneHeads(Post(y, q, m, t)) == DoneHeads(y);
  }

  lemma PostWork(dev: Device, y: History, q: Request, m: nat, t: nat)
    requires HistoryOK(y) && WorkOK(dev, y) && q.head !in y.chains
    ensures WorkOK(dev, Post(y, q, m, t))
  {
    forall h: nat ensures AtDevice(Post(y, q, m, t), h) <==> AtDevice(y, h) {
    }
  }

  lemma PostBusy(busy: set<nat>, y: History, q: Request, m: nat, t: nat)
    requires HistoryOK(y) && BusyOK(busy, y) && q.head !in y.chains && NewBuffer(y, q.buf) && q.buf !in busy
    ensures BusyOK(busy + {q.buf}, Post(y, q, m, t))
  {
    var y' := Post(y, q, m, t);
    PostCarried(busy, y, q, m, t);
    assert !Released(y', |y.posted|);
    forall h | h in y'.chains && h != q.head ensures Released(y', y'.chains[h].id) <==> Released(y, y.chains[h].id) {
    }
    hide Carries;
  }

  lemma PostCarried(busy: set<nat>, y: History, q: Request, m: nat, t: nat)
    requires BusyOK(busy, y) && q.head !in y.chains
    ensures forall b :: b in busy + {q.buf}
              ==> exists h :: h in Post(y, q, m, t).chains && Carries(Post(y, q, m, t), h, b)
  {
    var y' := Post(y, q, m, t);
    forall b | b in busy + {q.buf} ensures exists h :: h in y'.chains && Carries(y', h, b) {
      if b == q.buf {
        assert Carries(y', q.head, b);
      } else {
        var h :| h in y.chains && Carries(y, h, b);
        assert Carries(y', h, b);
      }
    }
  }

  // ---- the other steps

  lemma ScrubAgrees(d: Memory, d': Memory, dev: Device, y: History, owner: seq<Option<nat>>)
    requires Agree(d, dev, y) && Partition(d.free, y.chains, owner, {}) && OnlyScrubs(d, d')
    ensures Agree(d', dev, y)
  {
    forall h | h in y.chains ensures Formed(d'.desc, d'.ops, d'.info, h, y.chains[h], y.posted[y.chains[h].id]) {
      assert ChainOK(y.chains, owner, h);
      assert Formed(d.desc, d.ops, d.info, h, y.chains[h], y.posted[y.chains[h].id]);
    }
  }

  lemma AllocThree(before: seq<bool>, free: seq<bool>, idx: seq<nat>)
    requires |idx| == 3 && Distinct(before, idx) && TakenFrom(before, free, idx)
    ensures Three(before, idx[0], idx[1], idx[2]) && Without(before, free, idx[0], idx[1], idx[2])
  {
    forall i | 0 <= i < NUM ensures i in idx <==> !Other(i, idx[0], idx[1], idx[2]) {
    }
  }

  lemma AllocAgrees(d: Memory, d': Memory, dev: Device, y: History, b: nat)
    requires Agree(d, dev, y) && Unused(d, y, b) && d' == d.(free := d'.free)
    ensures Agree(d', dev, y) && Unused(d', y, b)
  {
  }

  lemma PendingAvail(d: Memory, dev: Device, y: History)
    requires Agree(d, dev, y)
    ensures dev.lastAvail == d.availIdx <==> y.taken == |y.posted|
    ensures |d.availRing| == NUM && y.taken <= |y.posted|
  {
    SameIndex(y.taken, |y.posted|);
  }

  lemma TakeAgrees(d: Memory, dev: Device, y: History)
    requires Agree(d, dev, y) && y.taken < |y.posted| && |d.availRing| == NUM
    ensures Agree(d, Device((dev.lastAvail + 1) % U16, dev.working + {d.availRing[dev.lastAvail % NUM]}), Take(y))
  {
    hide FormedAll, UsedOK, StatusOK, BusyOK, Ring, WorkOK, AvailOK, HistoryOK;
    TakeOK(y);
    TakeRest(d, y);
    TakeNext(d, dev, y);
  }

  lemma TakeRest(d: Memory, y: History)
    requires FormedAll(d, y) && UsedOK(d, y) && StatusOK(d, y) && BusyOK(d.busy, y)
    ensures FormedAll(d, Take(y)) && UsedOK(d, Take(y)) && StatusOK(d, Take(y)) && BusyOK(d.busy, Take(y))
  {
    assert DoneHeads(Take(y)) == DoneHeads(y);
    forall b | b in d.busy ensures exists h :: h in Take(y).chains && Carries(Take(y), h, b) {
      var h :| h in y.chains && Carries(y, h, b);
      assert Carries(Take(y), h, b);
    }
  }

  lemma TakeNext(d: Memory, dev: Device, y: History)
    requires HistoryOK(y) && AvailOK(d, dev, y) && WorkOK(dev, y) && y.taken < |y.posted| && |d.availRing| == NUM
    ensures var dev' := Device((dev.lastAvail + 1) % U16, dev.working + {d.availRing[dev.lastAvail % NUM]});
            AvailOK(d, dev', Take(y)) && WorkOK(dev', Take(y))
  {
    SlotOf(y.taken);
    Pop(d.availRing, Heads(y.posted), y.taken);
    QueuedLive(y, y.taken);
    hide Ring;
    forall h: nat ensures AtDevice(Take(y), h) <==> AtDevice(y, h) || h == y.posted[y.taken].head {
    }
  }

  function Reported(d: Memory, h: nat): Memory {
    if |d.info| == |d.usedRing| == NUM && h < NUM then
      d.(info := d.info[h := d.info[h].(status := 0)], usedRing := d.usedRing[d.usedIdx % NUM := h],
         usedIdx := (d.usedIdx + 1) % U16)
    else d
  }

  lemma CompleteAgrees(d: Memory, dev: Device, y: History, h: nat)
    requires Agree(d, dev, y) && h in dev.working
    ensures h in y.chains && |d.info| == |d.usedRing| == NUM && h < NUM
    ensures var f := Follow(d.desc, d.ops, h);
      && f.Some? && Asked(y, h, (f.value.0, f.value.1)) && f.value.2 == h
      && Writable(d.desc, h, NUM) == {Status(h)} + if f.value.0.write then {} else {Data(f.value.1)}
    ensures Agree(Reported(d, h), dev.(working := dev.working - {h}), Complete(y, h))
  {
    assert AtDevice(y, h);
    CompleteOK(y, h);
    FollowFormed(d.desc, d.ops, d.info, h, y.chains[h], y.posted[y.chains[h].id]);
    CompleteUsed(d, y, h);
    CompleteStatus(d, y, h);
    CompleteFormed(d, y, h);
    CompleteSets(d, dev, y, h);
    hide FormedAll, UsedOK, StatusOK, BusyOK, WorkOK, Ring, HistoryOK;
  }

  lemma CompleteUsed(d: Memory, y: History, h: nat)
    requires HistoryOK(y) && UsedOK(d, y) && AtDevice(y, h) && |d.info| == NUM
    ensures UsedOK(Reported(d, h), Complete(y, h))
  {
    RoomToComplete(y, h);
    SlotOf(|y.completed|);
    Push(d.usedRing, DoneHeads(y), y.seen, h);
    assert DoneHeads(Complete(y, h)) == DoneHeads(y) + [h];
  }

  lemma CompleteStatus(d: Memory, y: History, h: nat)
    requires HistoryOK(y) && StatusOK(d, y) && AtDevice(y, h) && |d.info| == |d.usedRing| == NUM
    ensures StatusOK(Reported(d, h), Complete(y, h))
  {
  }

  lemma CompleteFormed(d: Memory, y: History, h: nat)
    requires FormedAll(d, y) && h in y.chains && |d.usedRing| == NUM
    ensures FormedAll(Reported(d, h), Complete(y, h))
  {
    var d' := Reported(d, h);
    forall g | g in y.chains ensures Formed(d'.desc, d'.ops, d'.info, g, y.chains[g], y.posted[y.chains[g].id]) {
      assert Formed(d.desc, d.ops, d.info, g, y.chains[g], y.posted[y.chains[g].id]);
    }
  }

  lemma CompleteSets(d: Memory, dev: Device, y: History, h: nat)
    requires HistoryOK(y) && WorkOK(dev, y) && BusyOK(d.busy, y) && AtDevice(y, h)
    ensures WorkOK(dev.(working := dev.working - {h}), Complete(y, h)) && BusyOK(d.busy, Complete(y, h))
  {
    var y' := Complete(y, h);
    forall g: nat ensures AtDevice(y', g) <==> AtDevice(y, g) && g != h {
    }
    assert y'.completed[..y.seen] == y.completed[..y.seen];
    forall b | b in d.busy ensures exists g :: g in y'.chains && Carries(y', g, b) {
      var g :| g in y.chains && Carries(y, g, b);
      assert Carries(y', g, b);
    }
  }

  // b is the buffer of the oldest completion not seen yet.
  ghost predicate ReleasesOf(y: History, b: nat) {
    y.seen < |y.completed| && y.completed[y.seen] < |y.posted| && y.posted[y.completed[y.seen]].buf == b
  }

  lemma PendingUsed(d: Memory, dev: Device, y: History)
    requires Agree(d, dev, y)
    ensures d.seenIdx == d.usedIdx <==> y.seen == |y.completed|
    ensures |d.usedRing| == |d.info| == NUM && y.seen <= |y.completed|
  {
    SameIndex(y.seen, |y.completed|);
  }

  lemma CompletedFit(y: History)
    requires HistoryOK(y)
    ensures y.seen <= |y.completed| <= |y.posted|
  {
    Pigeonhole(y.completed, |y.posted|);
  }

  lemma SeeAgrees(d: Memory, dev: Device, y: History)
    requires Agree(d, dev, y) && y.seen < |y.completed| && |d.usedRing| == |d.info| == NUM
    ensures var id := d.usedRing[d.seenIdx % NUM];
      && id < NUM && d.info[id].status == 0 && d.info[id].b.Some? && ReleasesOf(y, d.info[id].b.value)
      && d.info[id].b.value in d.busy
      && Agree(d.(busy := d.busy - {d.info[id].b.value}, seenIdx := (d.seenIdx + 1) % U16), dev, See(y))
  {
    SeeUsed(d, y);
    SeeOK(y);
    UnseenLive(y, y.seen);
    var h := y.posted[y.completed[y.seen]].head;
    assert Formed(d.desc, d.ops, d.info, h, y.chains[h], y.posted[y.chains[h].id]);
    SeeBusy(d.busy, y);
    hide FormedAll, UsedOK, StatusOK, BusyOK, WorkOK, Ring, HistoryOK, AvailOK;
    SeeRest(d, dev, y, y.posted[y.completed[y.seen]].buf);
  }

  lemma SeeUsed(d: Memory, y: History)
    requires HistoryOK(y) && UsedOK(d, y) && StatusOK(d, y) && y.seen < |y.completed| && |d.usedRing| == |d.info| == NUM
    ensures d.usedRing[d.seenIdx % NUM] == y.posted[y.completed[y.seen]].head
    ensures UsedOK(d.(seenIdx := (d.seenIdx + 1) % U16), See(y)) && StatusOK(d, See(y))
    ensures d.usedRing[d.seenIdx % NUM] < NUM && d.info[d.usedRing[d.seenIdx % NUM]].status == 0
  {
    SlotOf(y.seen);
    Pop(d.usedRing, DoneHeads(y), y.seen);
    assert DoneHeads(See(y)) == DoneHeads(y);
  }

  lemma SeeBusy(busy: set<nat>, y: History)
    requires HistoryOK(y) && BusyOK(busy, y) && y.seen < |y.completed|
    ensures var b := y.posted[y.completed[y.seen]].buf; b in busy && BusyOK(busy - {b}, See(y))
  {
    var y', r := See(y), y.completed[y.seen];
    var b := y.posted[r].buf;
    UnseenLive(y, y.seen);
    assert !Released(y, r);
    assert y'.completed[..y.seen + 1] == y.completed[..y.seen] + [r];
    forall g | g in y.chains
      ensures Released(y', y.chains[g].id) <==> Released(y, y.chains[g].id) || y.chains[g].id == r
    {
    }
    forall c | c in busy - {b} ensures exists g :: g in y'.chains && Carries(y', g, c) {
      var g :| g in y.chains && Carries(y, g, c);
      assert Carries(y', g, c);
    }
  }

  lemma SeeRest(d: Memory, dev: Device, y: History, b: nat)
    requires FormedAll(d, y) && AvailOK(d, dev, y) && WorkOK(dev, y)
    requires UsedOK(d.(seenIdx := (d.seenIdx + 1) % U16), See(y)) && StatusOK(d, See(y))
    ensures var d' := d.(busy := d.busy - {b}, seenIdx := (d.seenIdx + 1) % U16);
      && FormedAll(d', See(y)) && AvailOK(d', dev, See(y)) && WorkOK(dev, See(y))
      && UsedOK(d', See(y)) && StatusOK(d', See(y))
  {
    forall h: nat ensures AtDevice(See(y), h) <==> AtDevice(y, h) {
    }
  }

  // ---- freeing a chain

  // Three descriptors in use, linked head to tail.
  predicate Linked(d: Memory, h: nat, c: Chain) {
    && |d.free| == |d.desc| == NUM && h < NUM && c.mid < NUM && c.tail < NUM
    && h != c.mid && h != c.tail && c.mid != c.tail && !d.free[h] && !d.free[c.mid] && !d.free[c.tail]
    && d.desc[h].next && d.desc[h].nxt == c.mid && d.desc[c.mid].next && d.desc[c.mid].nxt == c.tail
       && !d.desc[c.tail].next
  }

  function CellAt(h: nat, c: Chain, n: nat): nat {
    if n == 0 then h else if n == 1 then c.mid else c.tail
  }

  // After the first n descriptors of the chain are freed.
  function UnlinkedTo(d: Memory, h: nat, c: Chain, n: nat): Memory
    requires Linked(d, h, c) && n <= 3
  {
    if n == 0 then d
    else
      var e := UnlinkedTo(d, h, c, n - 1);
      if |e.free| == |e.desc| == NUM then
        e.(desc := e.desc[CellAt(h, c, n - 1) := CLEARED], free := e.free[CellAt(h, c, n - 1) := true])
      else e
  }

  function Unlinked(d: Memory, h: nat, c: Chain): Memory
    requires Linked(d, h, c)
  {
    UnlinkedTo(d, h, c, 3)
  }

  lemma {:induction false} UnlinkStep(d: Memory, h: nat, c: Chain, n: nat)
    requires Linked(d, h, c) && n <= 3
    ensures var e := UnlinkedTo(d, h, c, n);
      && |e.free| == |e.desc| == NUM
      && forall k :: n <= k < 3 ==> !e.free[CellAt(h, c, k)] && e.desc[CellAt(h, c, k)] == d.desc[CellAt(h, c, k)]
  {
    if n > 0 {
      UnlinkStep(d, h, c, n - 1);
    }
  }

  // The request with head h is no longer in flight.
  function Forgot(d: Memory, h: nat): Memory {
    if h < |d.info| then d.(info := d.info[h := d.info[h].(b := None)]) else d
  }

  function Disowned(owner: seq<Option<nat>>, h: nat, c: Chain): seq<Option<nat>> {
    if |owner| == NUM && h < NUM && c.mid < NUM && c.tail < NUM
    then owner[h := None][c.mid := None][c.tail := None] else owner
  }

  // e is d with the cells of one chain free and scrubbed.
  ghost predicate Freed(d: Memory, e: Memory, h: nat, c: Chain) {
    && e == d.(free := e.free, desc := e.desc) && |e.free| == |e.desc| == |d.free| == |d.desc| == NUM
    && forall i :: 0 <= i < NUM ==>
         && (e.free[i] <==> d.free[i] || !Other(i, h, c.mid, c.tail))
         && (Other(i, h, c.mid, c.tail) ==> e.desc[i] == d.desc[i])
  }

  lemma UnlinkedFreed(d: Memory, h: nat, c: Chain)
    requires Linked(d, h, c)
    ensures Freed(d, Unlinked(d, h, c), h, c)
  {
    UnlinkStep(d, h, c, 0);
    UnlinkStep(d, h, c, 1);
    UnlinkStep(d, h, c, 2);
    UnlinkStep(d, h, c, 3);
  }

  lemma ChainLinked(d: Memory, y: History, owner: seq<Option<nat>>, h: nat)
    requires FormedAll(d, y) && Partition(d.free, y.chains, owner, {}) && h in y.chains
    ensures Linked(Forgot(d, h), h, y.chains[h])
  {
    assert ChainOK(y.chains, owner, h);
  }

  lemma DropAgrees(d: Memory, dev: Device, y: History, owner: seq<Option<nat>>, h: nat, c: Chain, b: nat)
    requires Agree(d, dev, y) && Partition(d.free, y.chains, owner, {}) && Carries(y, h, b) && b !in d.busy
             && c == y.chains[h]
    ensures Linked(Forgot(d, h), h, c) && Released(y, c.id) && Unlinked(Forgot(d, h), h, c).busy == d.busy
    ensures Agree(Unlinked(Forgot(d, h), h, c), dev, Drop(y, h))
    ensures Partition(Unlinked(Forgot(d, h), h, c).free, Drop(y, h).chains, Disowned(owner, h, c), {})
  {
    assert Released(y, c.id);
    hide HistoryOK, AvailOK, UsedOK, StatusOK, WorkOK, BusyOK, Linked, UnlinkedTo, Unlinked, FormedAll, Partition;
    ChainLinked(d, y, owner, h);
    UnlinkedFreed(Forgot(d, h), h, c);
    var e := Unlinked(Forgot(d, h), h, c);
    DropOK(y, h);
    DropPartition(d.free, e.free, y.chains, owner, h, c);
    DropFormed(d, e, y, owner, h, c);
    DropRest(d, e, dev, y, h);
    DropSets(d.busy, dev, y, h);
  }

  lemma DropPartition(free: seq<bool>, free': seq<bool>, chains: map<nat, Chain>, owner: seq<Option<nat>>, h: nat,
                      c: Chain)
    requires Partition(free, chains, owner, {}) && h in chains && c == chains[h] && |free'| == NUM
    requires forall i :: 0 <= i < NUM ==> (free'[i] <==> free[i] || !Other(i, h, c.mid, c.tail))
    ensures Partition(free', chains - {h}, Disowned(owner, h, c), {})
  {
    var chains', owner' := chains - {h}, Disowned(owner, h, c);
    assert ChainOK(chains, owner, h);
    forall g | g in chains' ensures ChainOK(chains', owner', g) {
      assert ChainOK(chains, owner, g);
    }
    forall i | 0 <= i < NUM && owner[i] == Some(h) ensures !Other(i, h, c.mid, c.tail) {
      assert Cell(chains, owner[i].value, i);
    }
    assert forall i :: 0 <= i < NUM ==> owner'[i] == if Other(i, h, c.mid, c.tail) then owner[i] else None;
  }

  lemma DropFormed(d: Memory, e: Memory, y: History, owner: seq<Option<nat>>, h: nat, c: Chain)
    requires FormedAll(d, y) && Partition(d.free, y.chains, owner, {}) && h in y.chains && c == y.chains[h]
    requires Freed(Forgot(d, h), e, h, c)
    ensures FormedAll(e, Drop(y, h))
  {
    assert ChainOK(y.chains, owner, h);
    hide Formed, ChainOK, Freed;
    FreedSizes(d, e, h, c);
    forall g | g in Drop(y, h).chains ensures Formed(e.desc, e.ops, e.info, g, y.chains[g], y.posted[y.chains[g].id]) {
      assert ChainOK(y.chains, owner, g);
      DropOther(d, e, y.chains, owner, h, g, y.posted[y.chains[g].id]);
    }
  }

  lemma FreedSizes(d: Memory, e: Memory, h: nat, c: Chain)
    requires Freed(Forgot(d, h), e, h, c)
    ensures |e.desc| == |d.desc| && |e.ops| == |d.ops| && |e.info| == |d.info|
  {
  }

  // The cells of another chain are untouched.
  lemma DropOther(d: Memory, e: Memory, chains: map<nat, Chain>, owner: seq<Option<nat>>, h: nat, g: nat, r: Request)
    requires h in chains && g in chains && g != h && |owner| == NUM && ChainOK(chains, owner, h)
             && ChainOK(chains, owner, g)
    requires Freed(Forgot(d, h), e, h, chains[h]) && Formed(d.desc, d.ops, d.info, g, chains[g], r)
    ensures Formed(e.desc, e.ops, e.info, g, chains[g], r)
  {
  }

  lemma DropRest(d: Memory, e: Memory, dev: Device, y: History, h: nat)
    requires AvailOK(d, dev, y) && UsedOK(d, y) && StatusOK(d, y) && e == Forgot(d, h).(free := e.free, desc := e.desc)
    ensures AvailOK(e, dev, Drop(y, h)) && UsedOK(e, Drop(y, h)) && StatusOK(e, Drop(y, h))
  {
    assert DoneHeads(Drop(y, h)) == DoneHeads(y);
  }

  lemma DropSets(busy: set<nat>, dev: Device, y: History, h: nat)
    requires HistoryOK(y) && BusyOK(busy, y) && WorkOK(dev, y) && h in y.chains && Released(y, y.chains[h].id)
    ensures BusyOK(busy, Drop(y, h)) && WorkOK(dev, Drop(y, h))
  {
    var y' := Drop(y, h);
    assert y.chains[h].id in y.completed;
    forall g: nat ensures AtDevice(y', g) <==> AtDevice(y, g) {
    }
    forall b | b in busy ensures exists g :: g in y'.chains && Carries(y', g, b) {
      var g :| g in y.chains && Carries(y, g, b);
      assert g != h && Carries(y', g, b);
    }
  }
}
