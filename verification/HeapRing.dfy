/** The heap of umalloc.c in units of one Header: the circular free list, in
    order of address from the static header base, and the blocks in use. */
module HeapRing {

  // &base lies below every heap address; 0 is the null pointer.
  const BASE: nat := 1

  // ring lists the headers of the free list from base on, live the headers of
  // blocks in use; owner gives the block that each unit of the heap is in.
  datatype View = View(ring: seq<nat>, live: set<nat>, owner: map<nat, nat>)

  function Succ(ring: seq<nat>, i: nat): nat
    requires i < |ring|
  {
    if i + 1 < |ring| then ring[i + 1] else ring[0]
  }

  // The pointers follow the ring.
  predicate Linked(next: map<nat, nat>, ring: seq<nat>) {
    forall i :: 0 <= i < |ring| ==> ring[i] in next && next[ring[i]] == Succ(ring, i)
  }

  // Free blocks in order of address.
  predicate Sorted(size: map<nat, nat>, ring: seq<nat>) {
    && |ring| > 0 && ring[0] == BASE
    && (forall i :: 0 <= i < |ring| ==> ring[i] in size && (size[ring[i]] == 0 <==> i == 0))
    && (forall i, j :: 0 <= i < j < |ring| ==> BASE < ring[j] && ring[i] + size[ring[i]] <= ring[j])
  }

  predicate Touch(size: map<nat, nat>, ring: seq<nat>, i: nat) {
    i + 1 < |ring| && ring[i] in size && ring[i] + size[ring[i]] == ring[i + 1]
  }

  // In order, and no two free blocks touch, except perhaps at lo..hi.
  ghost predicate OrderedBut(size: map<nat, nat>, ring: seq<nat>, lo: nat, hi: nat) {
    Sorted(size, ring) && forall i: nat :: Touch(size, ring, i) ==> lo <= i < hi
  }

  ghost predicate Ordered(size: map<nat, nat>, ring: seq<nat>) {
    OrderedBut(size, ring, 0, 0)
  }

  predicate IsBlock(v: View, a: nat) {
    a in v.live || (a in v.ring && a != BASE)
  }

  predicate Covers(size: map<nat, nat>, a: nat, u: nat) {
    a in size && a <= u < a + size[a]
  }

  predicate LiveOK(size: map<nat, nat>, v: View) {
    forall a :: a in v.live ==> a in size && size[a] > 0 && a !in v.ring && a > BASE
  }

  ghost predicate CoverOK(size: map<nat, nat>, v: View) {
    forall a, u :: IsBlock(v, a) && Covers(size, a, u) ==> u in v.owner && v.owner[u] == a
  }

  predicate OwnerOK(size: map<nat, nat>, v: View) {
    forall u :: u in v.owner ==> IsBlock(v, v.owner[u]) && Covers(size, v.owner[u], u)
  }

  // Every unit of the heap is in exactly one block, and blocks hold nothing else.
  ghost predicate Partition(size: map<nat, nat>, v: View) {
    LiveOK(size, v) && CoverOK(size, v) && OwnerOK(size, v)
  }

  ghost predicate HeapOK(next: map<nat, nat>, size: map<nat, nat>, v: View) {
    Linked(next, v.ring) && Ordered(size, v.ring) && Partition(size, v)
  }

  // ---- where a block belongs

  // bp lies between the free block ring[i] and the one after it.
  predicate Between(ring: seq<nat>, i: nat, bp: nat) {
    i < |ring| && ring[i] < bp && (i + 1 < |ring| ==> bp < ring[i + 1])
  }

  lemma {:induction false} PlaceExists(size: map<nat, nat>, ring: seq<nat>, bp: nat, n: nat) returns (i: nat)
    requires Ordered(size, ring) && bp > BASE && bp !in ring && n < |ring|
    requires n + 1 < |ring| ==> bp < ring[n + 1]
    ensures Between(ring, i, bp)
  {
    if ring[n] < bp {
      i := n;
    } else {
      assert ring[n] in ring;
      i := PlaceExists(size, ring, bp, n - 1);
    }
  }

  lemma Increasing(size: map<nat, nat>, ring: seq<nat>, i: nat, j: nat)
    requires Sorted(size, ring) && i < j < |ring|
    ensures ring[i] < ring[j]
  {
  }

  // The loop of free stops exactly there.
  predicate Stops(next: map<nat, nat>, p: nat, bp: nat)
    requires p in next
  {
    (bp > p && bp < next[p]) || (p >= next[p] && (bp > p || bp < next[p]))
  }

  lemma StopsBetween(next: map<nat, nat>, size: map<nat, nat>, ring: seq<nat>, i: nat, bp: nat)
    requires Linked(next, ring) && Ordered(size, ring) && i < |ring| && bp > BASE && bp !in ring
    ensures Stops(next, ring[i], bp) <==> Between(ring, i, bp)
  {
  }

  // Blocks in use do not overlap the free blocks around them.
  lemma Fits(size: map<nat, nat>, v: View, i: nat, bp: nat)
    requires Ordered(size, v.ring) && Partition(size, v) && bp in v.live && Between(v.ring, i, bp)
    ensures v.ring[i] + size[v.ring[i]] <= bp
    ensures i + 1 < |v.ring| ==> bp + size[bp] <= v.ring[i + 1]
  {
    assert Covers(size, bp, bp);
    if v.ring[i] + size[v.ring[i]] > bp {
      assert Covers(size, v.ring[i], bp);
    }
    if i + 1 < |v.ring| && bp + size[bp] > v.ring[i + 1] {
      assert Covers(size, bp, v.ring[i + 1]);
      assert Covers(size, v.ring[i + 1], v.ring[i + 1]);
    }
  }

  // ---- putting a block into the ring

  function Inserted(ring: seq<nat>, i: nat, bp: nat): seq<nat>
    requires i < |ring|
  {
    ring[..i + 1] + [bp] + ring[i + 1..]
  }

  lemma InsertSorted(size: map<nat, nat>, ring: seq<nat>, i: nat, bp: nat)
    requires Sorted(size, ring) && Between(ring, i, bp) && bp in size && size[bp] > 0 && ring[i] + size[ring[i]] <= bp
    requires i + 1 < |ring| ==> bp + size[bp] <= ring[i + 1]
    ensures Sorted(size, Inserted(ring, i, bp))
  {
    var r := Inserted(ring, i, bp);
    forall a, b | 0 <= a < b < |r| ensures BASE < r[b] && r[a] in size && r[a] + size[r[a]] <= r[b] {
      InsertPair(size, ring, i, bp, a, b);
    }
  }

  lemma InsertPair(size: map<nat, nat>, ring: seq<nat>, i: nat, bp: nat, a: nat, b: nat)
    requires Sorted(size, ring) && Between(ring, i, bp) && bp in size && size[bp] > 0 && ring[i] + size[ring[i]] <= bp
    requires i + 1 < |ring| ==> bp + size[bp] <= ring[i + 1]
    requires a < b <= |ring|
    ensures var r := Inserted(ring, i, bp); BASE < r[b] && r[a] in size && r[a] + size[r[a]] <= r[b]
  {
    if b == i + 1 {
      assert a < i ==> ring[a] + size[ring[a]] <= ring[i];
    } else if a == i + 1 {
      assert b > i + 2 ==> ring[i + 1] + size[ring[i + 1]] <= ring[b - 1];
    }
  }

  lemma InsertTouch(size: map<nat, nat>, ring: seq<nat>, i: nat, bp: nat, a: nat)
    requires i < |ring| && Touch(size, Inserted(ring, i, bp), a) && !(i <= a < i + 2)
    ensures Touch(size, ring, if a < i then a else a - 1)
  {
  }

  lemma InsertOrdered(size: map<nat, nat>, v: View, i: nat, bp: nat)
    requires Ordered(size, v.ring) && Partition(size, v) && bp in v.live && Between(v.ring, i, bp)
    ensures OrderedBut(size, Inserted(v.ring, i, bp), i, i + 2)
  {
    Fits(size, v, i, bp);
    InsertSorted(size, v.ring, i, bp);
    hide Inserted, Sorted;
    forall a: nat | Touch(size, Inserted(v.ring, i, bp), a) ensures i <= a < i + 2 {
      if !(i <= a < i + 2) {
        InsertTouch(size, v.ring, i, bp, a);
      }
    }
  }

  lemma InsertPartition(size: map<nat, nat>, v: View, i: nat, bp: nat)
    requires Partition(size, v) && bp in v.live && i < |v.ring|
    ensures Partition(size, View(Inserted(v.ring, i, bp), v.live - {bp}, v.owner))
  {
    var r := Inserted(v.ring, i, bp);
    forall a ensures a in r <==> a in v.ring || a == bp {
      assert v.ring == v.ring[..i + 1] + v.ring[i + 1..];
    }
  }

  // ---- merging two free blocks that touch

  function Merged(ring: seq<nat>, k: nat): seq<nat>
    requires k + 1 < |ring|
  {
    ring[..k + 1] + ring[k + 2..]
  }

  function Grown(size: map<nat, nat>, ring: seq<nat>, k: nat): map<nat, nat>
    requires k + 1 < |ring| && ring[k] in size && ring[k + 1] in size
  {
    size[ring[k] := size[ring[k]] + size[ring[k + 1]]]
  }

  function Relabelled(owner: map<nat, nat>, from: nat, into: nat): map<nat, nat> {
    map u | u in owner :: if owner[u] == from then into else owner[u]
  }

  function Skip(a: nat, k: nat): nat {
    if a <= k then a else a + 1
  }

  lemma MergeSorted(size: map<nat, nat>, ring: seq<nat>, k: nat)
    requires Sorted(size, ring) && Touch(size, ring, k) && k >= 1
    ensures Sorted(Grown(size, ring, k), Merged(ring, k))
  {
    var r, z := Merged(ring, k), Grown(size, ring, k);
    forall a | 0 <= a < |r| ensures r[a] == ring[Skip(a, k)] && (a != k ==> r[a] != ring[k]) {
      if a < k {
        Increasing(size, ring, a, k);
      } else if a > k {
        Increasing(size, ring, k, a + 1);
      }
    }
    forall a, b | 0 <= a < b < |r| ensures BASE < r[b] && r[a] + z[r[a]] <= r[b] {
      assert ring[Skip(a, k)] + size[ring[Skip(a, k)]] <= ring[Skip(b, k)];
      assert ring[k + 1] + size[ring[k + 1]] <= ring[Skip(b, k)] || b <= k;
    }
  }

  lemma MergeTouch(size: map<nat, nat>, ring: seq<nat>, k: nat, a: nat)
    requires Sorted(size, ring) && Touch(size, ring, k) && k >= 1 && Touch(Grown(size, ring, k), Merged(ring, k), a)
    ensures Touch(size, ring, Skip(a, k - 1))
  {
    var r := Merged(ring, k);
    assert r[a] == ring[Skip(a, k)] && r[a + 1] == ring[Skip(a + 1, k)];
    if a < k {
      Increasing(size, ring, a, k);
    } else if a > k {
      Increasing(size, ring, k, a + 1);
    }
  }

  lemma MergeOrdered(size: map<nat, nat>, ring: seq<nat>, k: nat, lo: nat)
    requires OrderedBut(size, ring, lo, k + 1) && lo <= k && Touch(size, ring, k) && k >= 1
    ensures OrderedBut(Grown(size, ring, k), Merged(ring, k), lo, k)
  {
    MergeSorted(size, ring, k);
    forall a: nat | Touch(Grown(size, ring, k), Merged(ring, k), a) ensures lo <= a < k {
      MergeTouch(size, ring, k, a);
    }
  }

  lemma MergePartition(size: map<nat, nat>, v: View, k: nat)
    requires Sorted(size, v.ring) && Partition(size, v) && Touch(size, v.ring, k) && k >= 1
    ensures Partition(Grown(size, v.ring, k),
                      View(Merged(v.ring, k), v.live, Relabelled(v.owner, v.ring[k + 1], v.ring[k])))
  {
    var x, y := v.ring[k], v.ring[k + 1];
    Increasing(size, v.ring, k, k + 1);
    forall a ensures a in Merged(v.ring, k) <==> a in v.ring && a != y {
      MergeMember(size, v.ring, k, a);
    }
    MergeUnits(size, Grown(size, v.ring, k), v, View(Merged(v.ring, k), v.live, Relabelled(v.owner, y, x)), x, y);
  }

  // Block x takes over the units of block y, which follows it.
  lemma MergeUnits(size: map<nat, nat>, size': map<nat, nat>, v: View, v': View, x: nat, y: nat)
    requires Partition(size, v) && IsBlock(v, x) && IsBlock(v, y) && x != y && y !in v.live && x !in v.live
    requires x in size && y in size && x + size[x] == y && size' == size[x := size[x] + size[y]]
    requires v'.live == v.live && v'.owner == Relabelled(v.owner, y, x)
    requires forall a :: a in v'.ring <==> a in v.ring && a != y
    ensures Partition(size', v')
  {
    forall a, u | IsBlock(v', a) && Covers(size', a, u) ensures u in v'.owner && v'.owner[u] == a {
      assert IsBlock(v, a);
      assert Covers(size, a, u) || (a == x && Covers(size, y, u));
    }
    forall u | u in v'.owner ensures IsBlock(v', v'.owner[u]) && Covers(size', v'.owner[u], u) {
      assert IsBlock(v, v.owner[u]) && Covers(size, v.owner[u], u);
    }
  }

  lemma MergedAt(ring: seq<nat>, k: nat)
    requires k + 1 < |ring|
    ensures |Merged(ring, k)| == |ring| - 1
    ensures forall j: nat :: j < |ring| - 1 ==> Merged(ring, k)[j] == ring[Skip(j, k)]
  {
  }

  lemma MergeMember(size: map<nat, nat>, ring: seq<nat>, k: nat, a: nat)
    requires Sorted(size, ring) && k + 1 < |ring|
    ensures a in Merged(ring, k) <==> a in ring && a != ring[k + 1]
  {
    hide Merged;
    var r := Merged(ring, k);
    MergedAt(ring, k);
    if a in ring && a != ring[k + 1] {
      var j :| 0 <= j < |ring| && ring[j] == a;
      assert r[if j <= k then j else j - 1] == a;
    }
    if a in r {
      var j :| 0 <= j < |r| && r[j] == a;
      Differ(size, ring, Skip(j, k), k + 1);
    }
  }

  lemma Differ(size: map<nat, nat>, ring: seq<nat>, i: nat, j: nat)
    requires Sorted(size, ring) && i < |ring| && j < |ring| && i != j
    ensures ring[i] != ring[j]
  {
    if i < j {
      Increasing(size, ring, i, j);
    } else {
      Increasing(size, ring, j, i);
    }
  }

  // ---- free

  ghost function MergeSize(size: map<nat, nat>, ring: seq<nat>, k: nat): map<nat, nat> {
    if Touch(size, ring, k) && ring[k + 1] in size then Grown(size, ring, k) else size
  }

  ghost function MergeView(size: map<nat, nat>, v: View, k: nat): View {
    if Touch(size, v.ring, k) then View(Merged(v.ring, k), v.live, Relabelled(v.owner, v.ring[k + 1], v.ring[k])) else v
  }

  lemma MergeIf(size: map<nat, nat>, v: View, k: nat, lo: nat)
    requires OrderedBut(size, v.ring, lo, k + 1) && Partition(size, v) && lo <= k && (Touch(size, v.ring, k) ==> k >= 1)
    ensures OrderedBut(MergeSize(size, v.ring, k), MergeView(size, v, k).ring, lo, k)
    ensures Partition(MergeSize(size, v.ring, k), MergeView(size, v, k))
  {
    if Touch(size, v.ring, k) {
      MergeOrdered(size, v.ring, k, lo);
      MergePartition(size, v, k);
    }
  }

  ghost function InsertedView(v: View, i: nat, bp: nat): View
    requires i < |v.ring|
  {
    View(Inserted(v.ring, i, bp), v.live - {bp}, v.owner)
  }

  // bp, at place i, absorbs the block after it, then the block before absorbs bp.
  ghost function FreedView(size: map<nat, nat>, v: View, i: nat, bp: nat): View
    requires i < |v.ring|
  {
    var v1 := InsertedView(v, i, bp);
    MergeView(MergeSize(size, v1.ring, i + 1), MergeView(size, v1, i + 1), i)
  }

  // free writes sizes like this ...
  function FreedSize(size: map<nat, nat>, p: nat, q: nat, bp: nat): map<nat, nat>
    requires p in size && q in size && bp in size
  {
    var z := if bp + size[bp] == q then size[bp := size[bp] + size[q]] else size;
    if p + z[p] == bp then z[p := z[p] + z[bp]] else z
  }

  // ... and pointers like this.
  function FreedNext(next: map<nat, nat>, size: map<nat, nat>, p: nat, q: nat, bp: nat): map<nat, nat>
    requires p in next && q in next && p in size && bp in size
  {
    var n := next[bp := if bp + size[bp] == q then next[q] else q];
    n[p := if p + size[p] == bp then n[bp] else bp]
  }

  // The sizes after the two merges.
  ghost function TwiceMerged(size: map<nat, nat>, v: View, i: nat, bp: nat): map<nat, nat>
    requires i < |v.ring|
  {
    var v1 := InsertedView(v, i, bp);
    MergeSize(MergeSize(size, v1.ring, i + 1), MergeView(size, v1, i + 1).ring, i)
  }

  lemma FreeMerges(size: map<nat, nat>, v: View, i: nat, bp: nat)
    requires Ordered(size, v.ring) && Partition(size, v) && bp in v.live && Between(v.ring, i, bp)
    ensures FreedView(size, v, i, bp).live == v.live - {bp}
    ensures Ordered(TwiceMerged(size, v, i, bp), FreedView(size, v, i, bp).ring)
    ensures Partition(TwiceMerged(size, v, i, bp), FreedView(size, v, i, bp))
  {
    hide Partition, Sorted, Touch, Inserted, Grown, Merged, Relabelled;
    var v1 := InsertedView(v, i, bp);
    InsertOrdered(size, v, i, bp);
    InsertPartition(size, v, i, bp);
    FreeTouches(size, v, i, bp);
    MergeIf(size, v1, i + 1, i);
    MergeIf(MergeSize(size, v1.ring, i + 1), MergeView(size, v1, i + 1), i, i);
  }

  // base is never merged.
  lemma FreeTouches(size: map<nat, nat>, v: View, i: nat, bp: nat)
    requires Sorted(size, v.ring) && Partition(size, v) && bp in v.live && Between(v.ring, i, bp)
    ensures var v1 := InsertedView(v, i, bp);
      var z, ring := MergeSize(size, v1.ring, i + 1), MergeView(size, v1, i + 1).ring;
      && i + 1 < |ring| && ring[i] == v.ring[i] && ring[i + 1] == bp && (Touch(z, ring, i) ==> i >= 1)
  {
    var v1 := InsertedView(v, i, bp);
    assert v1.ring[i] == v.ring[i] && v1.ring[i + 1] == bp;
    assert MergeView(size, v1, i + 1).ring[..i + 2] == v1.ring[..i + 2];
  }

  lemma FreeSizes(size: map<nat, nat>, v: View, i: nat, bp: nat)
    requires Ordered(size, v.ring) && Partition(size, v) && bp in v.live && Between(v.ring, i, bp)
    ensures Succ(v.ring, i) in size && v.ring[i] in size && bp in size
            && TwiceMerged(size, v, i, bp) == FreedSize(size, v.ring[i], Succ(v.ring, i), bp)
  {
    var v1 := InsertedView(v, i, bp);
    FreeTouches(size, v, i, bp);
    assert v1.ring[i + 1] == bp && (i + 1 < |v.ring| ==> v1.ring[i + 2] == v.ring[i + 1]);
    var q := Succ(v.ring, i);
    var z := if bp + size[bp] == q then size[bp := size[bp] + size[q]] else size;
    assert MergeSize(size, v1.ring, i + 1) == z;
    hide Partition, Inserted, Merged, Relabelled;
  }

  // A ring with the stretch between i and j replaced by at most bp.
  function Spliced(ring: seq<nat>, i: nat, mid: seq<nat>, j: nat): seq<nat>
    requires i < j <= |ring|
  {
    ring[..i + 1] + mid + ring[j..]
  }

  function Heir(ring: seq<nat>, j: nat): nat
    requires 0 < |ring|
  {
    if j < |ring| then ring[j] else ring[0]
  }

  lemma SplicedLinked(next: map<nat, nat>, next': map<nat, nat>, size: map<nat, nat>, ring: seq<nat>, i: nat,
                      mid: seq<nat>, j: nat, bp: nat)
    requires Linked(next, ring) && Sorted(size, ring) && i < j <= |ring| && bp !in ring && (mid == [] || mid == [bp])
    requires forall a :: a in next && a != ring[i] && a != bp ==> a in next' && next'[a] == next[a]
    requires ring[i] in next' && next'[ring[i]] == if mid == [] then Heir(ring, j) else bp
    requires mid == [bp] ==> bp in next' && next'[bp] == Heir(ring, j)
    ensures Linked(next', Spliced(ring, i, mid, j))
  {
    var r := Spliced(ring, i, mid, j);
    forall a | 0 <= a < |r| ensures r[a] in next' && next'[r[a]] == Succ(r, a) {
      if a < i {
        Increasing(size, ring, a, i);
        assert r[a] == ring[a];
      } else if a >= i + 1 + |mid| {
        var b := a - (i + 1 + |mid|) + j;
        Increasing(size, ring, i, b);
        assert r[a] == ring[b];
      }
    }
  }

  lemma FreePlace(size: map<nat, nat>, v: View, i: nat, bp: nat)
    requires Ordered(size, v.ring) && Partition(size, v) && bp in v.live && Between(v.ring, i, bp)
    ensures v.ring[i] in size && Succ(v.ring, i) in size && bp in size && bp !in v.ring && v.ring[i] < bp
            && |v.ring| > 0
    ensures bp + size[bp] == Succ(v.ring, i) <==> i + 1 < |v.ring| && bp + size[bp] == v.ring[i + 1]
    ensures Succ(v.ring, i) in v.ring
  {
  }

  lemma FreedRing(size: map<nat, nat>, v: View, i: nat, bp: nat)
    requires Ordered(size, v.ring) && Partition(size, v) && bp in v.live && Between(v.ring, i, bp)
    ensures var p := v.ring[i];
      && p in size && bp in size
      && var j := if bp + size[bp] == Succ(v.ring, i) then i + 2 else i + 1;
         j <= |v.ring|
         && FreedView(size, v, i, bp).ring == Spliced(v.ring, i, if p + size[p] == bp then [] else [bp], j)
  {
    hide LiveOK, CoverOK, OwnerOK, Sorted, Relabelled, Spliced, Inserted, Merged;
    FreePlace(size, v, i, bp);
    InsertedAt(v.ring, i, bp);
    if i + 1 < |v.ring| {
      MergedSplice(v.ring, i, bp, i + 2);
    }
    MergedSplice(v.ring, i, bp, i + 1);
  }

  lemma InsertedAt(ring: seq<nat>, i: nat, bp: nat)
    requires i < |ring|
    ensures var r := Inserted(ring, i, bp);
      && |r| == |ring| + 1 && r[i] == ring[i] && r[i + 1] == bp && (i + 1 < |ring| ==> r[i + 2] == ring[i + 1])
      && r == Spliced(ring, i, [bp], i + 1) && (i + 1 < |ring| ==> Merged(r, i + 1) == Spliced(ring, i, [bp], i + 2))
  {
  }

  lemma MergedSplice(ring: seq<nat>, i: nat, bp: nat, j: nat)
    requires i < j <= |ring|
    ensures var r := Spliced(ring, i, [bp], j);
      |r| > i + 1 && r[i] == ring[i] && r[i + 1] == bp && Merged(r, i) == Spliced(ring, i, [], j)
  {
  }

  lemma FreedLinked(next: map<nat, nat>, size: map<nat, nat>, v: View, i: nat, bp: nat)
    requires Linked(next, v.ring) && Ordered(size, v.ring) && Partition(size, v) && bp in v.live
             && Between(v.ring, i, bp)
    ensures Succ(v.ring, i) in next && v.ring[i] in next && v.ring[i] in size && bp in size
    ensures Linked(FreedNext(next, size, v.ring[i], Succ(v.ring, i), bp), FreedView(size, v, i, bp).ring)
    ensures v.ring[i] in FreedView(size, v, i, bp).ring
  {
    hide FreedView, Partition, Sorted;
    FreePlace(size, v, i, bp);
    FreedRing(size, v, i, bp);
    var p, q := v.ring[i], Succ(v.ring, i);
    var j := if bp + size[bp] == q then i + 2 else i + 1;
    assert j == i + 2 ==> next[q] == Heir(v.ring, i + 2);
    var mid := if p + size[p] == bp then [] else [bp];
    SplicedLinked(next, FreedNext(next, size, p, q, bp), size, v.ring, i, mid, j, bp);
    assert FreedView(size, v, i, bp).ring[i] == p;
  }

  /** free keeps the heap in order: the block joins the ring, merged with its
      neighbours, and every unit is still in exactly one block. */
  lemma FreeOK(next: map<nat, nat>, size: map<nat, nat>, v: View, i: nat, bp: nat)
    requires HeapOK(next, size, v) && bp in v.live && Between(v.ring, i, bp)
    ensures var p, q, v' := v.ring[i], Succ(v.ring, i), FreedView(size, v, i, bp);
      && p in next && q in next && p in size && q in size && bp in size
      && HeapOK(FreedNext(next, size, p, q, bp), FreedSize(size, p, q, bp), v') && v'.live == v.live - {bp}
         && p in v'.ring
  {
    hide Partition, TwiceMerged, FreedView, Ordered, Linked, FreedNext, FreedSize;
    FreedLinked(next, size, v, i, bp);
    FreeMerges(size, v, i, bp);
    FreeSizes(size, v, i, bp);
  }

  // Nothing else changes: the same units, and the other blocks in use.
  lemma FreeKeeps(size: map<nat, nat>, v: View, i: nat, bp: nat)
    requires Ordered(size, v.ring) && Partition(size, v) && bp in v.live && Between(v.ring, i, bp)
    ensures FreedView(size, v, i, bp).owner.Keys == v.owner.Keys
    ensures Succ(v.ring, i) in size && v.ring[i] in size && bp in size
    ensures var z := FreedSize(size, v.ring[i], Succ(v.ring, i), bp);
      forall a :: a in v.live && a != bp ==> a in z && a in size && z[a] == size[a]
  {
    FreePlace(size, v, i, bp);
    FreedKeys(size, v, i, bp);
    hide FreedView, Sorted;
    forall a | a in v.live ensures a != v.ring[i] && a in size {
      assert v.ring[i] in v.ring;
    }
  }

  lemma FreedKeys(size: map<nat, nat>, v: View, i: nat, bp: nat)
    requires i < |v.ring|
    ensures FreedView(size, v, i, bp).owner.Keys == v.owner.Keys
  {
    hide Touch, Inserted, Merged, Grown;
    var v1 := InsertedView(v, i, bp);
    assert MergeView(size, v1, i + 1).owner.Keys == v.owner.Keys;
  }

  // ---- malloc takes a whole free block

  function Removed(ring: seq<nat>, i: nat): seq<nat>
    requires i < |ring|
  {
    ring[..i] + ring[i + 1..]
  }

  lemma RemoveOrdered(size: map<nat, nat>, ring: seq<nat>, i: nat)
    requires Ordered(size, ring) && 1 <= i < |ring|
    ensures Ordered(size, Removed(ring, i))
  {
    var r := Removed(ring, i);
    assert forall j: nat :: j < |r| ==> r[j] == ring[Skip(j, i - 1)];
    assert ring[i - 1] + size[ring[i - 1]] <= ring[i] && (i + 1 < |ring| ==> ring[i] + size[ring[i]] <= ring[i + 1]);
    forall j: nat | Touch(size, r, j) ensures Touch(size, ring, Skip(j, i - 1)) {
    }
  }

  lemma TakeOK(next: map<nat, nat>, size: map<nat, nat>, v: View, i: nat)
    requires HeapOK(next, size, v) && 1 <= i < |v.ring|
    ensures v.ring[i] in next && v.ring[i - 1] in next
    ensures HeapOK(next[v.ring[i - 1] := next[v.ring[i]]], size,
            View(Removed(v.ring, i), v.live + {v.ring[i]}, v.owner))
  {
    hide LiveOK, CoverOK, OwnerOK, Sorted, OrderedBut;
    RemoveOrdered(size, v.ring, i);
    TakeLinked(next, size, v.ring, i);
    TakePartition(size, v, i);
  }

  lemma TakeLinked(next: map<nat, nat>, size: map<nat, nat>, ring: seq<nat>, i: nat)
    requires Linked(next, ring) && Ordered(size, ring) && 1 <= i < |ring|
    ensures ring[i] in next && ring[i - 1] in next && Linked(next[ring[i - 1] := next[ring[i]]], Removed(ring, i))
  {
    hide Sorted;
    NotNull(size, ring);
    assert Removed(ring, i) == Spliced(ring, i - 1, [], i + 1);
    SplicedLinked(next, next[ring[i - 1] := next[ring[i]]], size, ring, i - 1, [], i + 1, 0);
  }

  lemma NotNull(size: map<nat, nat>, ring: seq<nat>)
    requires Ordered(size, ring)
    ensures 0 !in ring
  {
  }

  lemma TakePartition(size: map<nat, nat>, v: View, i: nat)
    requires Ordered(size, v.ring) && Partition(size, v) && 1 <= i < |v.ring|
    ensures Partition(size, View(Removed(v.ring, i), v.live + {v.ring[i]}, v.owner))
  {
    var v' := View(Removed(v.ring, i), v.live + {v.ring[i]}, v.owner);
    forall a ensures a in v'.ring <==> a in v.ring && a != v.ring[i] {
      assert Removed(v.ring, i) == Merged(v.ring, i - 1);
      MergeMember(size, v.ring, i - 1, a);
    }
    forall a ensures IsBlock(v', a) <==> IsBlock(v, a) {
    }
  }

  // ---- malloc takes the end of a free block

  function Carved(owner: map<nat, nat>, b: nat, n: nat): map<nat, nat> {
    map u | u in owner :: if b <= u < b + n then b else owner[u]
  }

  function SplitSize(size: map<nat, nat>, a: nat, n: nat): map<nat, nat>
    requires a in size && size[a] >= n
  {
    size[a := size[a] - n][a + size[a] - n := n]
  }

  lemma SplitOK(next: map<nat, nat>, size: map<nat, nat>, v: View, i: nat, n: nat)
    requires HeapOK(next, size, v) && i < |v.ring| && v.ring[i] in size && 0 < n < size[v.ring[i]]
    ensures var b := v.ring[i] + size[v.ring[i]] - n;
      HeapOK(next, SplitSize(size, v.ring[i], n), View(v.ring, v.live + {b}, Carved(v.owner, b, n)))
  {
    hide Sorted, Partition, SplitSize, Carved, OrderedBut;
    var b := v.ring[i] + size[v.ring[i]] - n;
    SplitNew(size, v, i, b);
    SplitOrdered(size, v.ring, i, n);
    SplitPartition(size, v, v.ring[i], n);
  }

  // The new header lies inside the block, so it is not one already.
  lemma SplitNew(size: map<nat, nat>, v: View, i: nat, b: nat)
    requires Ordered(size, v.ring) && Partition(size, v) && i < |v.ring| && v.ring[i] in size
    requires v.ring[i] < b < v.ring[i] + size[v.ring[i]]
    ensures b !in v.ring && b !in v.live && b > BASE && IsBlock(v, v.ring[i])
  {
    assert IsBlock(v, v.ring[i]) && Covers(size, v.ring[i], b);
    if b in v.live || b in v.ring {
      assert IsBlock(v, b) && Covers(size, b, b);
    }
  }

  lemma SplitOrdered(size: map<nat, nat>, ring: seq<nat>, i: nat, n: nat)
    requires Ordered(size, ring) && i < |ring| && ring[i] in size && 0 < n < size[ring[i]]
    requires ring[i] + size[ring[i]] - n !in ring
    ensures Ordered(SplitSize(size, ring[i], n), ring)
  {
    var z := SplitSize(size, ring[i], n);
    forall j | 0 <= j < |ring|
      ensures ring[j] in z && z[ring[j]] == if j == i then size[ring[j]] - n else size[ring[j]]
    {
      if j != i {
        Differ(size, ring, i, j);
      }
    }
    forall j: nat | Touch(z, ring, j) ensures false {
      assert j != i ==> Touch(size, ring, j);
    }
  }

  lemma SplitPartition(size: map<nat, nat>, v: View, a: nat, n: nat)
    requires Partition(size, v) && IsBlock(v, a) && a in v.ring && a in size && 0 < n < size[a]
    requires var b := a + size[a] - n; b !in v.ring && b !in v.live && b > BASE
    ensures var b := a + size[a] - n;
            Partition(SplitSize(size, a, n), View(v.ring, v.live + {b}, Carved(v.owner, b, n)))
  {
    hide SplitSize, Covers, LiveOK;
    var b := a + size[a] - n;
    var z, v' := SplitSize(size, a, n), View(v.ring, v.live + {b}, Carved(v.owner, b, n));
    SplitLive(size, v, v', a, n);
    forall x, u | IsBlock(v', x) && Covers(z, x, u) ensures u in v'.owner && v'.owner[u] == x {
      SplitCover(size, v, a, n, x, u);
    }
    forall u | u in v'.owner ensures IsBlock(v', v'.owner[u]) && Covers(z, v'.owner[u], u) {
      SplitOwner(size, v, a, n, u);
    }
  }

  lemma SplitLive(size: map<nat, nat>, v: View, v': View, a: nat, n: nat)
    requires LiveOK(size, v) && a in v.ring && a in size && 0 < n < size[a]
    requires var b := a + size[a] - n; b !in v.ring && b > BASE && v'.live == v.live + {b} && v'.ring == v.ring
    ensures LiveOK(SplitSize(size, a, n), v')
  {
  }

  lemma SplitCover(size: map<nat, nat>, v: View, a: nat, n: nat, x: nat, u: nat)
    requires Partition(size, v) && IsBlock(v, a) && a in size && 0 < n < size[a]
    requires (x == a + size[a] - n || IsBlock(v, x)) && Covers(SplitSize(size, a, n), x, u)
    ensures u in v.owner && Carved(v.owner, a + size[a] - n, n)[u] == x
  {
    var b := a + size[a] - n;
    if x == b {
      assert Covers(size, a, u);
    } else {
      assert Covers(size, x, u);
    }
  }

  lemma SplitOwner(size: map<nat, nat>, v: View, a: nat, n: nat, u: nat)
    requires Partition(size, v) && IsBlock(v, a) && a in size && 0 < n < size[a] && u in v.owner
    requires !IsBlock(v, a + size[a] - n)
    ensures var b, x := a + size[a] - n, Carved(v.owner, a + size[a] - n, n)[u];
      (x == b || IsBlock(v, x)) && Covers(SplitSize(size, a, n), x, u)
  {
    var b := a + size[a] - n;
    assert IsBlock(v, v.owner[u]) && Covers(size, v.owner[u], u);
    if b <= u < b + n {
      assert Covers(size, a, u);
    }
  }

  // ---- morecore

  ghost predicate Above(owner: map<nat, nat>, at: nat) {
    at > BASE && forall u :: u in owner ==> u < at
  }

  predicate InSpan(at: nat, n: nat, u: int) {
    at <= u < at + n
  }

  ghost function Extended(owner: map<nat, nat>, at: nat, n: nat): map<nat, nat> {
    owner + map u: nat | at <= u < at + n && InSpan(at, n, u) :: at
  }

  // A fresh region above the heap, seen as one block in use.
  lemma GrowOK(next: map<nat, nat>, size: map<nat, nat>, v: View, at: nat, n: nat)
    requires HeapOK(next, size, v) && Above(v.owner, at) && n > 0
    ensures at !in v.ring && at !in v.live
    ensures HeapOK(next, size[at := n], View(v.ring, v.live + {at}, Extended(v.owner, at, n)))
  {
    AboveBlocks(size, v, at);
    GrowPartition(size, v, at, n);
    hide Partition;
    var z := size[at := n];
    forall j | 0 <= j < |v.ring| ensures v.ring[j] in size && z[v.ring[j]] == size[v.ring[j]] {
      assert v.ring[j] in v.ring;
    }
    forall j: nat | Touch(z, v.ring, j) ensures Touch(size, v.ring, j) {
    }
  }

  lemma AboveBlocks(size: map<nat, nat>, v: View, at: nat)
    requires Sorted(size, v.ring) && Partition(size, v) && Above(v.owner, at)
    ensures at !in v.ring && at !in v.live
  {
    if at in v.ring || at in v.live {
      assert IsBlock(v, at) && Covers(size, at, at);
    }
  }

  lemma GrowPartition(size: map<nat, nat>, v: View, at: nat, n: nat)
    requires Partition(size, v) && Above(v.owner, at) && n > 0 && at !in v.ring && at !in v.live
    ensures Partition(size[at := n], View(v.ring, v.live + {at}, Extended(v.owner, at, n)))
  {
    var z, v' := size[at := n], View(v.ring, v.live + {at}, Extended(v.owner, at, n));
    forall x, u | IsBlock(v', x) && Covers(z, x, u) ensures u in v'.owner && v'.owner[u] == x {
      assert x != at ==> IsBlock(v, x) && Covers(size, x, u);
    }
    forall u | u in v'.owner ensures IsBlock(v', v'.owner[u]) && Covers(z, v'.owner[u], u) {
      assert u in v.owner ==> IsBlock(v, v.owner[u]) && Covers(size, v.owner[u], u);
    }
  }

  // ---- the freed units end up in one free block

  ghost predicate Room(size: map<nat, nat>, ring: seq<nat>, n: nat) {
    exists a :: a in ring && a in size && size[a] >= n
  }

  lemma FreedTogether(size: map<nat, nat>, v: View, i: nat, bp: nat, u: nat)
    requires i < |v.ring| && u in v.owner && v.owner[u] == bp && bp !in v.ring
    ensures var v' := FreedView(size, v, i, bp);
      u in v'.owner && v'.owner[u] == if Touch(MergeSize(size, Inserted(v.ring, i, bp), i + 1),
          MergeView(size, InsertedView(v, i, bp), i + 1).ring, i) then v.ring[i] else bp
  {
    InsertedAt(v.ring, i, bp);
    MergedSplice(v.ring, i, bp, i + 1);
    if i + 1 < |v.ring| {
      MergedSplice(v.ring, i, bp, i + 2);
    }
    hide Inserted, Merged, Spliced, Grown;
  }

  lemma FreeMakesRoom(size: map<nat, nat>, v: View, i: nat, bp: nat)
    requires Ordered(size, v.ring) && Partition(size, v) && bp in v.live && Between(v.ring, i, bp)
    ensures Succ(v.ring, i) in size && v.ring[i] in size && bp in size
    ensures Room(FreedSize(size, v.ring[i], Succ(v.ring, i), bp), FreedView(size, v, i, bp).ring, size[bp])
  {
    FreePlace(size, v, i, bp);
    FreeMerges(size, v, i, bp);
    FreeSizes(size, v, i, bp);
    var v' := FreedView(size, v, i, bp);
    var z := TwiceMerged(size, v, i, bp);
    var last := bp + size[bp] - 1;
    assert IsBlock(v, bp) && Covers(size, bp, bp) && Covers(size, bp, last);
    FreedTogether(size, v, i, bp, bp);
    FreedTogether(size, v, i, bp, last);
    hide FreedView, TwiceMerged, MergeSize, MergeView;
    var a := v'.owner[bp];
    assert v'.owner[last] == a && Covers(z, a, bp) && Covers(z, a, last);
    assert IsBlock(v', a) && v.ring[i] in v.ring;
  }
}
