/** malloc, free and morecore of umalloc.c. Addresses and sizes are in units of
    one 16-byte Header; a block is named by its header, one unit below the
    pointer the caller sees. */
module Malloc {
  import opened Options
  import opened Counting
  import opened HeapRing

  const HEADER: nat := 16
  const UINT: nat := 0x1_0000_0000
  const INT_MAX: nat := 0x7fff_ffff

  // Units for nbytes, header included. The sum is done in 64 bits.
  function Units(nbytes: nat): nat {
    (nbytes + HEADER - 1) / HEADER + 1
  }

  // The smallest number of units that has room for the header and nbytes.
  lemma UnitsHold(nbytes: nat)
    ensures nbytes <= (Units(nbytes) - 1) * HEADER < nbytes + HEADER
  {
  }

  function Request(nunits: nat): nat {
    if nunits < 4096 then 4096 else nunits
  }

  // sbrk takes an int.
  function Int32(x: nat): int {
    if x % UINT > INT_MAX then x % UINT - UINT else x % UINT
  }

  // The largest request for which morecore asks for what it needs.
  const LIMIT: nat := 0x7fff_ffe0

  /** sbrk is asked for the bytes that morecore needs exactly when the request
      is at most 2^31 - 32 bytes; beyond that the argument wraps. */
  lemma AsksEnough(nbytes: nat)
    requires nbytes < UINT
    ensures Int32(Request(Units(nbytes)) * HEADER) == Request(Units(nbytes)) * HEADER <==> nbytes <= LIMIT
  {
    var n := Units(nbytes);
    if n < 4096 {
    } else {
      assert n * HEADER <= UINT + HEADER;
    }
  }

  /** For instance 2^31 - 31 bytes make it ask for a negative number of bytes. */
  lemma WrapsBeyond()
    ensures Int32(Request(Units(LIMIT + 1)) * HEADER) < 0
  {
  }

  class Heap {
    var next: map<nat, nat>  // s.ptr of each header
    var size: map<nat, nat>  // s.size of each header
    var freep: nat
    ghost var v: View

    ghost predicate Valid()
      reads this
    {
      if freep == 0 then v == View([], {}, map[]) else HeapOK(next, size, v) && freep in v.ring
    }

    constructor ()
      ensures Valid() && v == View([], {}, map[])
    {
      next, size, freep := map[], map[], 0;
      v := View([], {}, map[]);
    }

    // The loop of free: the free block after which bp belongs.
    method FindPlace(bp: nat) returns (p: nat, ghost i: nat)
      requires freep != 0 && Valid() && bp in v.live
      ensures Between(v.ring, i, bp) && p == v.ring[i]
    {
      hide LiveOK, CoverOK, OwnerOK, Sorted, Linked;
      ghost var t := Place(size, v, bp);
      p := freep;
      i := IndexOf(v.ring, p);
      RingNext(next, v.ring, i);
      while !(bp > p && bp < next[p])
        invariant i < |v.ring| && p == v.ring[i] && p in next && next[p] == Succ(v.ring, i)
        decreases Distance(i, t, |v.ring|)
      {
        StopsPlace(next, size, v, i, bp);
        if p >= next[p] && (bp > p || bp < next[p]) {
          return;
        }
        p := next[p];
        i := if i + 1 < |v.ring| then i + 1 else 0;
        RingNext(next, v.ring, i);
      }
      StopsPlace(next, size, v, i, bp);
    }

    /** free: the block leaves the blocks in use, and nothing else changes hands.
        Its units end up in one free block. */
    method Free(bp: nat)
      requires Valid() && bp in v.live
      modifies this
      ensures Valid() && freep != 0 && v.live == old(v).live - {bp} && v.owner.Keys == old(v).owner.Keys
      ensures SameSizes(old(size), size, v.live) && bp in old(size) && Room(size, v.ring, old(size)[bp])
    {
      hide LiveOK, CoverOK, OwnerOK, Sorted, Linked, Ordered, FreedView, FreedSize, FreedNext;
      ghost var i;
      var p;
      p, i := FindPlace(bp);
      FreeOK(next, size, v, i, bp);
      FreeKeeps(size, v, i, bp);
      FreeMakesRoom(size, v, i, bp);
      RingNext(next, v.ring, i);
      ghost var v' := FreedView(size, v, i, bp);
      Join(p, bp);
      freep := p;
      v := v';
      NotNull(size, v.ring);
    }

    // The pointer work of free, once the place is found.
    method Join(p: nat, bp: nat)
      requires p in next && next[p] in next && p in size && next[p] in size && bp in size
      modifies `next, `size
      ensures next == FreedNext(old(next), old(size), p, old(next)[p], bp)
      ensures size == FreedSize(old(size), p, old(next)[p], bp)
    {
      if bp + size[bp] == next[p] {
        size := size[bp := size[bp] + size[next[p]]];
        next := next[bp := next[next[p]]];
      } else {
        next := next[bp := next[p]];
      }
      if p + size[p] == bp {
        size := size[p := size[p] + size[bp]];
        next := next[p := next[bp]];
      } else {
        next := next[p := bp];
      }
    }

    // grant is what sbrk returns: the start of fresh memory above the heap.
    method Morecore(nu: nat, grant: Option<nat>) returns (p: nat)
      requires Valid() && freep != 0 && 0 < nu && (grant.Some? ==> Above(v.owner, grant.value))
      modifies this
      ensures Valid() && v.live == old(v).live && SameSizes(old(size), size, v.live)
      ensures grant.None? ==> p == 0 && v == old(v) && size == old(size) && next == old(next) && freep == old(freep)
      ensures grant.Some? ==> p == freep != 0 && Room(size, v.ring, nu)
      ensures grant.Some? ==> v.owner.Keys == Extended(old(v).owner, grant.value, Request(nu)).Keys
    {
      if grant.None? {
        LiveSizes(size, v);
        return 0;
      }
      var hp := grant.value;
      hide LiveOK, CoverOK, OwnerOK, Sorted, Linked, Ordered, Extended;
      GrowOK(next, size, v, hp, Request(nu));
      LiveSizes(size, v);
      size := size[hp := Request(nu)];
      v := View(v.ring, v.live + {hp}, Extended(v.owner, hp, Request(nu)));
      Free(hp);
      p := freep;
      RoomLess(size, v.ring, Request(nu), nu);
    }

    // malloc takes n units from the free block p, which follows prevp.
    method Carve(prevp: nat, p: nat, n: nat, ghost j: nat) returns (a: nat)
      requires Valid() && freep != 0 && 1 <= j < |v.ring| && p == v.ring[j] && prevp == v.ring[j - 1]
      requires p in size && 0 < n <= size[p]
      modifies this
      ensures Valid() && freep != 0 && Handed(old(size), size, old(v), v, a, n) && v.owner.Keys == old(v).owner.Keys
    {
      hide LiveOK, CoverOK, OwnerOK, Sorted, Linked, Ordered, Removed, Carved;
      LiveSizes(size, v);
      RemovedAt(size, v.ring, j);
      if size[p] == n {
        TakeOK(next, size, v, j);
        TakeHands(size, v, j);
        next := next[prevp := next[p]];
        a := p;
        v := View(Removed(v.ring, j), v.live + {p}, v.owner);
      } else {
        SplitOK(next, size, v, j, n);
        SplitHands(size, v, j, n);
        size := size[p := size[p] - n];
        a := p + size[p];
        size := size[a := n];
        v := View(v.ring, v.live + {a}, Carved(v.owner, a, n));
      }
      freep := prevp;
    }

    // The first call makes base a ring of its own.
    method Init()
      requires Valid()
      modifies this
      ensures Valid() && freep != 0 && v.live == old(v).live && v.owner == old(v).owner
      ensures SameSizes(old(size), size, v.live)
      ensures old(freep) != 0 ==> v == old(v) && size == old(size) && freep == old(freep)
      ensures old(freep) == 0 ==> v.ring == [BASE] && BASE in size && size[BASE] == 0
    {
      LiveSizes(size, v);
      if freep == 0 {
        next := next[BASE := BASE];
        freep := BASE;
        size := size[BASE := 0];
        v := View([BASE], {}, map[]);
      }
    }

    /** malloc. It grows the heap at most once, only when no free block is large
        enough, and fails only when it has to grow and cannot. fault means that
        sbrk is asked for the wrong number of bytes: exactly the requests beyond
        LIMIT for which no free block is large enough. */
    method Malloc(nbytes: nat, grant: Option<nat>) returns (a: nat, ghost grown: nat, fault: bool)
      requires Valid() && nbytes < UINT && (grant.Some? ==> Above(v.owner, grant.value))
      modifies this
      ensures Valid() && grown <= 1 && HeapGrew(old(v), v, grant, grown, Units(nbytes))
      ensures grown == 1 || a == 0 || fault ==> !Room(old(size), old(v).ring, Units(nbytes))
      ensures fault <==> nbytes > LIMIT && !Room(old(size), old(v).ring, Units(nbytes))
      ensures fault ==> a == 0
      ensures a == 0 && !fault ==> grant.None?
      ensures if a == 0 then v.live == old(v).live && SameSizes(old(size), size, v.live)
              else Handed(old(size), size, old(v), v, a, Units(nbytes))
      // in bytes: the request fits behind the header, with less than a unit to spare
      ensures a != 0 ==> a in size && nbytes <= (size[a] - 1) * HEADER < nbytes + HEADER
    {
      hide HeapOK, Units, Extended, Handed, Above, Room, SameSizes, HeapGrew, Searching;
      var nunits := Units(nbytes);
      UnitsPositive(nbytes);
      Init();
      InitRoom(old(size), old(v), size, v, nunits);
      InitGrew(old(v), v, grant, nunits);
      ghost var s1, v1 := size, v;
      ghost var f: nat := IndexOf(v.ring, freep);
      ghost var j: nat := After(f, |v.ring|);
      StartSearch(next, size, v, nunits, f);
      var prevp := freep;
      var p := next[prevp];
      grown, a, fault := 0, 0, false;
      while true
        invariant Valid() && freep != 0 && Searching(next, size, v, nunits, f, j, freep, prevp, p)
        invariant grown <= 1 && (grown == 0 ==> size == s1 && v == v1)
        invariant grown == 1 ==> Room(size, v.ring, nunits) && !Room(old(size), old(v).ring, nunits)
        invariant v.live == old(v).live && SameSizes(old(size), size, v.live)
                  && HeapGrew(old(v), v, grant, grown, nunits)
        invariant a == 0 && !fault && (grown == 1 ==> nbytes <= LIMIT)
        decreases 1 - grown, Distance(j, f, |v.ring|)
      {
        SearchFacts(next, size, v, nunits, f, j, freep, prevp, p);
        if size[p] >= nunits {
          ghost var s2, v2 := size, v;
          FoundRoom(size, v.ring, j, nunits);
          a := Carve(prevp, p, nunits, j);
          HandedSince(old(size), s2, size, old(v), v2, v, a, nunits);
          HandedBytes(old(size), size, old(v), v, a, nbytes);
          GrewSame(old(v), v2, v, grant, grown, nunits);
          return;
        }
        if p == freep {
          FullCircle(next, size, v, nunits, f, j, freep, prevp, p);
          if nbytes > LIMIT {
            fault := true;
            return;
          }
          p := Morecore(nunits, grant);
          SameSince(old(size), s1, size, v.live);
          if p == 0 {
            return;
          }
          GrewOnce(old(v), v1, v, grant, nunits);
          grown := 1;
          f := IndexOf(v.ring, freep);
          j := f;
          StartSearch(next, size, v, nunits, f);
        } else {
          SearchOn(next, size, v, nunits, f, j, freep, prevp, p);
        }
        prevp := p;
        p := next[p];
        j := After(j, |v.ring|);
      }
    }
  }

  // The loop of malloc stands at p, the free block after prevp; since the block
  // at freep every block was too small.
  ghost predicate Searching(next: map<nat, nat>, size: map<nat, nat>, v: View, n: nat, f: nat, j: nat, freep: nat,
                            prevp: nat, p: nat) {
    && f < |v.ring| && v.ring[f] == freep && j < |v.ring| && p == v.ring[j] && (j > 0 ==> prevp == v.ring[j - 1])
    && Small(size, v.ring, n, f, j)
  }

  lemma StartSearch(next: map<nat, nat>, size: map<nat, nat>, v: View, n: nat, f: nat)
    requires HeapOK(next, size, v) && f < |v.ring|
    ensures v.ring[f] in next
    ensures Searching(next, size, v, n, f, After(f, |v.ring|), v.ring[f], v.ring[f], next[v.ring[f]])
  {
    RingNext(next, v.ring, f);
    hide HeapOK;
  }

  lemma SearchFacts(next: map<nat, nat>, size: map<nat, nat>, v: View, n: nat, f: nat, j: nat, freep: nat, prevp: nat,
                    p: nat)
    requires HeapOK(next, size, v) && Searching(next, size, v, n, f, j, freep, prevp, p)
    ensures p in size && p in next && j < |v.ring| && p == v.ring[j] && f < |v.ring| && v.ring[f] == freep
    ensures 0 < n <= size[p] ==> j >= 1 && prevp == v.ring[j - 1]
    ensures p != freep ==> j != f
  {
  }

  lemma SearchOn(next: map<nat, nat>, size: map<nat, nat>, v: View, n: nat, f: nat, j: nat, freep: nat, prevp: nat,
                 p: nat)
    requires HeapOK(next, size, v) && Searching(next, size, v, n, f, j, freep, prevp, p) && p in size && size[p] < n
    requires p != freep
    ensures p in next && Searching(next, size, v, n, f, After(j, |v.ring|), freep, p, next[p])
  {
    hide LiveOK, CoverOK, OwnerOK, Sorted;
    RingNext(next, v.ring, j);
    SmallNext(size, v.ring, n, f, j);
  }

  lemma SmallNext(size: map<nat, nat>, ring: seq<nat>, n: nat, f: nat, j: nat)
    requires f < |ring| && j < |ring| && j != f && Small(size, ring, n, f, j) && ring[j] in size && size[ring[j]] < n
    ensures Small(size, ring, n, f, After(j, |ring|))
  {
    forall k | 0 <= k < |ring| && Arc(f, After(j, |ring|), k) ensures Arc(f, j, k) || k == j {
    }
  }

  lemma InitGrew(v: View, v': View, grant: Option<nat>, n: nat)
    requires v'.owner == v.owner
    ensures HeapGrew(v, v', grant, 0, n)
  {
  }

  lemma GrewSame(v: View, v1: View, v2: View, grant: Option<nat>, grown: nat, n: nat)
    requires HeapGrew(v, v1, grant, grown, n) && v2.owner.Keys == v1.owner.Keys
    ensures HeapGrew(v, v2, grant, grown, n)
  {
  }

  lemma GrewOnce(v: View, v1: View, v2: View, grant: Option<nat>, n: nat)
    requires v1.owner == v.owner && grant.Some? && v2.owner.Keys == Extended(v1.owner, grant.value, Request(n)).Keys
    ensures HeapGrew(v, v2, grant, 1, n)
  {
  }

  lemma SameSince(s0: map<nat, nat>, s1: map<nat, nat>, s2: map<nat, nat>, live: set<nat>)
    requires SameSizes(s0, s1, live) && SameSizes(s1, s2, live)
    ensures SameSizes(s0, s2, live)
  {
  }

  lemma LiveSizes(size: map<nat, nat>, v: View)
    requires v == View([], {}, map[]) || Partition(size, v)
    ensures SameSizes(size, size, v.live)
  {
  }

  lemma RoomLess(size: map<nat, nat>, ring: seq<nat>, n: nat, m: nat)
    requires Room(size, ring, n) && m <= n
    ensures Room(size, ring, m)
  {
    var a :| a in ring && a in size && size[a] >= n;
    assert size[a] >= m;
  }

  ghost predicate SameSizes(size: map<nat, nat>, size': map<nat, nat>, live: set<nat>) {
    forall a :: a in live ==> a in size && a in size' && size'[a] == size[a]
  }

  // Steps from i to j around a ring of n.
  function Distance(i: nat, j: nat, n: nat): int {
    if i <= j then j - i else n - i + j
  }

  lemma RingNext(next: map<nat, nat>, ring: seq<nat>, i: nat)
    requires Linked(next, ring) && i < |ring|
    ensures ring[i] in next && next[ring[i]] == Succ(ring, i)
  {
  }

  lemma Place(size: map<nat, nat>, v: View, bp: nat) returns (t: nat)
    requires Ordered(size, v.ring) && Partition(size, v) && bp in v.live
    ensures Between(v.ring, t, bp)
  {
    t := PlaceExists(size, v.ring, bp, |v.ring| - 1);
  }

  lemma StopsPlace(next: map<nat, nat>, size: map<nat, nat>, v: View, i: nat, bp: nat)
    requires HeapOK(next, size, v) && i < |v.ring| && bp in v.live && v.ring[i] in next
    ensures Stops(next, v.ring[i], bp) <==> Between(v.ring, i, bp)
  {
    StopsBetween(next, size, v.ring, i, bp);
  }

  // a is a new block of n units in use; the other blocks in use are as before.
  ghost predicate Handed(size: map<nat, nat>, size': map<nat, nat>, v: View, v': View, a: nat, n: nat) {
    && a != 0 && a !in v.live && v'.live == v.live + {a} && a in size' && size'[a] == n
       && SameSizes(size, size', v.live)
  }

  lemma RemovedAt(size: map<nat, nat>, ring: seq<nat>, j: nat)
    requires Ordered(size, ring) && 1 <= j < |ring|
    ensures ring[j - 1] in Removed(ring, j) && 0 !in ring && ring[j - 1] in ring
  {
    NotNull(size, ring);
    assert Removed(ring, j)[j - 1] == ring[j - 1];
  }

  lemma TakeHands(size: map<nat, nat>, v: View, j: nat)
    requires Ordered(size, v.ring) && Partition(size, v) && 1 <= j < |v.ring|
    ensures v.ring[j] !in v.live && v.ring[j] in size && v.ring[j] != 0
  {
  }

  lemma SplitHands(size: map<nat, nat>, v: View, j: nat, n: nat)
    requires Ordered(size, v.ring) && Partition(size, v) && j < |v.ring| && v.ring[j] in size && 0 < n < size[v.ring[j]]
    ensures var b := v.ring[j] + size[v.ring[j]] - n;
            b !in v.live && b > 0 && Carved(v.owner, b, n).Keys == v.owner.Keys
    ensures v.ring[j] !in v.live
  {
    SplitNew(size, v, j, v.ring[j] + size[v.ring[j]] - n);
  }

  // The heap holds the units it had, and those sbrk granted if it grew.
  ghost predicate HeapGrew(v: View, v': View, grant: Option<nat>, grown: nat, nunits: nat) {
    if grown == 0 then v'.owner.Keys == v.owner.Keys
    else grant.Some? && v'.owner.Keys == Extended(v.owner, grant.value, Request(nunits)).Keys
  }

  lemma UnitsPositive(nbytes: nat)
    ensures Units(nbytes) > 0
  {
  }

  lemma HandedBytes(size: map<nat, nat>, size': map<nat, nat>, v: View, v': View, a: nat, nbytes: nat)
    requires Handed(size, size', v, v', a, Units(nbytes))
    ensures a in size' && nbytes <= (size'[a] - 1) * HEADER < nbytes + HEADER
  {
    UnitsHold(nbytes);
  }

  lemma FoundRoom(size: map<nat, nat>, ring: seq<nat>, j: nat, n: nat)
    requires j < |ring| && ring[j] in size && size[ring[j]] >= n
    ensures Room(size, ring, n)
  {
    assert ring[j] in ring;
  }

  lemma InitRoom(size: map<nat, nat>, v: View, size': map<nat, nat>, v': View, n: nat)
    requires n > 0 && ((size', v') == (size, v)
             || (v.ring == [] && v'.ring == [BASE] && BASE in size' && size'[BASE] == 0))
    ensures Room(size', v'.ring, n) <==> Room(size, v.ring, n)
  {
  }

  function After(i: nat, n: nat): nat {
    if i + 1 < n then i + 1 else 0
  }

  // Index k lies strictly after f and before j on the way round.
  predicate Arc(f: nat, j: nat, k: int) {
    if f < j then f < k < j else k > f || k < j
  }

  // The blocks passed so far are too small.
  ghost predicate Small(size: map<nat, nat>, ring: seq<nat>, n: nat, f: nat, j: nat) {
    forall k :: 0 <= k < |ring| && Arc(f, j, k) ==> ring[k] in size && size[ring[k]] < n
  }

  lemma FullCircle(next: map<nat, nat>, size: map<nat, nat>, v: View, n: nat, f: nat, j: nat, freep: nat, prevp: nat,
                   p: nat)
    requires HeapOK(next, size, v) && Searching(next, size, v, n, f, j, freep, prevp, p)
    requires p == freep && p in size && size[p] < n
    ensures !Room(size, v.ring, n)
  {
    if j != f {
      Differ(size, v.ring, f, j);
    }
    hide HeapOK;
    forall a | a in v.ring && a in size ensures size[a] < n {
      var k :| 0 <= k < |v.ring| && v.ring[k] == a;
      assert k == f || Arc(f, j, k);
    }
  }

  lemma HandedSince(s0: map<nat, nat>, s1: map<nat, nat>, s2: map<nat, nat>, v0: View, v1: View, v2: View, a: nat,
                    n: nat)
    requires v1.live == v0.live && SameSizes(s0, s1, v0.live) && Handed(s1, s2, v1, v2, a, n)
    ensures Handed(s0, s2, v0, v2, a, n) && a != 0
  {
  }
}
