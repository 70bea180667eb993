/** The queue of virtio_disk.c as values: the descriptor table, the avail and
    used rings with 16-bit indices, and what relates them to the requests. */
module VirtioRing {
  import opened Options
  import opened Counting

  const NUM: nat := 8
  const U16: nat := 0x1_0000

  datatype Addr = Null | Ops(i: nat) | Data(buf: nat) | Status(i: nat)

  // next is the flag VRING_DESC_F_NEXT, write is VRING_DESC_F_WRITE.
  datatype Desc = Desc(addr: Addr, next: bool, write: bool, nxt: nat)

  datatype Op = Op(write: bool, block: nat)
  datatype Info = Info(b: Option<nat>, status: nat)

  // What a caller of virtio_disk_rw asked for, and the chain that carries it.
  datatype Request = Request(head: nat, buf: nat, op: Op)
  datatype Chain = Chain(mid: nat, tail: nat, id: nat)

  // ---- a ring of NUM slots with a 16-bit index

  ghost predicate Ring(ring: seq<nat>, items: seq<nat>, from: nat) {
    && |ring| == NUM && from <= |items| <= from + NUM
    && forall k :: from <= k < |items| ==> ring[k % NUM] == items[k]
  }

  // NUM divides 2^16, so a wrapped index finds its slot.
  lemma SlotOf(n: nat)
    ensures n % U16 % NUM == n % NUM
    ensures (n % U16 + 1) % U16 == (n + 1) % U16
  {
    Slot(n, NUM, U16 / NUM);
    Next(n, U16);
  }

  // Indices no more than NUM apart are equal when they are equal modulo 2^16.
  lemma SameIndex(a: nat, b: nat)
    requires a <= b <= a + NUM
    ensures a % U16 == b % U16 <==> a == b
  {
  }

  lemma Push(ring: seq<nat>, items: seq<nat>, from: nat, x: nat)
    requires Ring(ring, items, from) && |items| < from + NUM
    ensures Ring(ring[|items| % U16 % NUM := x], items + [x], from)
  {
    SlotOf(|items|);
    forall k | from <= k < |items| ensures k % NUM != |items| % NUM {
      Apart(k, |items|, NUM);
    }
  }

  lemma Pop(ring: seq<nat>, items: seq<nat>, from: nat)
    requires Ring(ring, items, from) && from < |items|
    ensures ring[from % U16 % NUM] == items[from] && Ring(ring, items, from + 1)
  {
    SlotOf(from);
  }

  // ---- the descriptor table

  predicate Cell(chains: map<nat, Chain>, h: nat, i: nat) {
    h in chains && (i == h || i == chains[h].mid || i == chains[h].tail)
  }

  // Every descriptor is free, in hand, or in the chain of its owner.
  ghost predicate Partition(free: seq<bool>, chains: map<nat, Chain>, owner: seq<Option<nat>>, hand: set<nat>) {
    && |free| == |owner| == NUM
    && (forall i :: 0 <= i < NUM ==>
          (if owner[i].Some? then !free[i] && i !in hand && Cell(chains, owner[i].value, i)
           else free[i] <==> i !in hand))
    && (forall h :: h in chains ==> ChainOK(chains, owner, h))
  }

  predicate ChainOK(chains: map<nat, Chain>, owner: seq<Option<nat>>, h: nat)
    requires h in chains && |owner| == NUM
  {
    var c := chains[h];
    && h < NUM && c.mid < NUM && c.tail < NUM && h != c.mid && h != c.tail && c.mid != c.tail
    && owner[h] == owner[c.mid] == owner[c.tail] == Some(h)
  }

  /** Free descriptors and chains partition the table: a descriptor is free
      exactly when it is in no chain, and it is never in two. */
  lemma PartitionMeans(free: seq<bool>, chains: map<nat, Chain>, owner: seq<Option<nat>>, i: nat)
    requires Partition(free, chains, owner, {}) && i < NUM
    ensures free[i] <==> !exists h: nat :: Cell(chains, h, i)
    ensures forall h, h2 :: Cell(chains, h, i) && Cell(chains, h2, i) ==> h == h2
  {
    forall h: nat | Cell(chains, h, i) ensures owner[i] == Some(h) {
      assert ChainOK(chains, owner, h);
    }
  }

  // ---- what the device finds

  // The descriptors of chain h say what request r asks.
  predicate Formed(desc: seq<Desc>, ops: seq<Op>, info: seq<Info>, h: nat, c: Chain, r: Request) {
    && |desc| == |ops| == |info| == NUM && h < NUM && c.mid < NUM && c.tail < NUM
    && r.head == h && ops[h] == r.op && info[h].b == Some(r.buf)
    && desc[h] == Desc(Ops(h), true, false, c.mid)
    && desc[c.mid] == Desc(Data(r.buf), true, !r.op.write, c.tail)
    && desc[c.tail] == Desc(Status(h), false, true, 0)
  }

  // A device follows the chain from its head: command, data, status. It only
  // reads what it may not write, and the other way round.
  function Follow(desc: seq<Desc>, ops: seq<Op>, h: nat): (r: Option<(Op, nat, nat)>) {
    if h < |desc| && desc[h].next && !desc[h].write && desc[h].addr.Ops? && desc[h].addr.i < |ops| then
      var m, op := desc[h].nxt, ops[desc[h].addr.i];
      if m < |desc| && desc[m].next && desc[m].write == !op.write && desc[m].addr.Data? then
        var t := desc[m].nxt;
        if t < |desc| && !desc[t].next && desc[t].write && desc[t].addr.Status? then
          Some((op, desc[m].addr.buf, desc[t].addr.i))
        else None
      else None
    else None
  }

  // The memory that at most n descriptors from h on let the device write.
  function Writable(desc: seq<Desc>, h: nat, n: nat): set<Addr>
    decreases n
  {
    if n == 0 || h >= |desc| then {}
    else
      (if desc[h].write then {desc[h].addr} else {}) + if desc[h].next then Writable(desc, desc[h].nxt, n - 1) else {}
  }

  /** A device finds what was asked for, and may write the buffer for a read of
      the disk only, the status byte always, and nothing else. */
  lemma FollowFormed(desc: seq<Desc>, ops: seq<Op>, info: seq<Info>, h: nat, c: Chain, r: Request)
    requires Formed(desc, ops, info, h, c, r)
    ensures Follow(desc, ops, h) == Some((r.op, r.buf, h))
    ensures Writable(desc, h, NUM) == {Status(h)} + if r.op.write then {} else {Data(r.buf)}
  {
    assert Writable(desc, c.tail, NUM - 2) == {Status(h)};
    assert Writable(desc, c.mid, NUM - 1) == Writable(desc, c.tail, NUM - 2)
                                             + if r.op.write then {} else {Data(r.buf)};
  }
}
