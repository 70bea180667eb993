/** kalloc.c and vm.c: the page free list and the operations on user page
    tables. Virtual addresses are page numbers; sizes are in bytes. */
module Vm {
  import opened Options
  import Counting
  import opened PageTable

  type Content = seq<nat>

  function Filled(v: nat): Content { seq(PGSIZE, _ => v) }

  ghost predicate Listed(free: seq<nat>, owner: map<nat, Owner>) {
    && (forall i :: 0 <= i < |free| ==> Page(free[i]) && free[i] !in owner)
    && (forall i, j :: 0 <= i < j < |free| ==> free[i] != free[j])
  }

  // The pages that are free or owned by some address space.
  ghost function Pool(free: seq<nat>, owner: map<nat, Owner>): set<nat> {
    (set p | p in free) + owner.Keys
  }

  ghost predicate SameRoots(t: Tables, owner: map<nat, Owner>, t': Tables, owner': map<nat, Owner>) {
    forall r :: IsRoot(t', owner', r) <==> IsRoot(t, owner, r)
  }

  // Leaves agree except for pages lo to hi of r.
  ghost predicate SameOutside(t: Tables, owner: map<nat, Owner>, t': Tables, r: nat, lo: nat, hi: nat) {
    forall q, v :: IsRoot(t, owner, q) && 0 <= v < MAXVPN && !(q == r && lo <= v < hi)
        ==> Leaf(t', q, v) == Leaf(t, q, v)
  }

  // User pages keep their contents.
  ghost predicate SameData(owner: map<nat, Owner>, data: map<nat, Content>, data': map<nat, Content>) {
    forall q :: q in owner && owner[q].User? && q in data ==> q in data' && data'[q] == data[q]
  }

  // The free list only shrinks, and only pages that were on it change.
  ghost predicate HandKept(f: seq<nat>, data: map<nat, Content>, f': seq<nat>, data': map<nat, Content>) {
    && (forall p :: p in f' ==> p in f)
    && forall q :: q in data && q !in f ==> q in data' && data'[q] == data[q]
  }

  lemma HandTrans(f0: seq<nat>, d0: map<nat, Content>, f1: seq<nat>, d1: map<nat, Content>, f2: seq<nat>,
                  d2: map<nat, Content>)
    requires HandKept(f0, d0, f1, d1) && HandKept(f1, d1, f2, d2)
    ensures HandKept(f0, d0, f2, d2)
  {
  }

  // Roots, translations, user data and owners so far all stay.
  ghost predicate Kept(t: Tables, owner: map<nat, Owner>, data: map<nat, Content>, t': Tables, owner': map<nat, Owner>,
                       data': map<nat, Content>) {
    && SameRoots(t, owner, t', owner') && SameOutside(t, owner, t', 0, 0, 0) && SameData(owner, data, data')
    && MoreOwned(owner, owner')
  }

  ghost predicate MoreOwned(owner: map<nat, Owner>, owner': map<nat, Owner>) {
    forall x :: x in owner ==> x in owner' && owner'[x] == owner[x]
  }

  lemma KeptTrans(t0: Tables, o0: map<nat, Owner>, d0: map<nat, Content>, t1: Tables, o1: map<nat, Owner>,
                  d1: map<nat, Content>, t2: Tables, o2: map<nat, Owner>, d2: map<nat, Content>)
    requires Kept(t0, o0, d0, t1, o1, d1) && Kept(t1, o1, d1, t2, o2, d2)
    ensures Kept(t0, o0, d0, t2, o2, d2)
  {
    hide Leaf;
  }

  lemma KeptSame(t: Tables, owner: map<nat, Owner>, data: map<nat, Content>)
    ensures Kept(t, owner, data, t, owner, data)
  {
    hide Leaf;
  }

  lemma GrowKept(t: Tables, owner: map<nat, Owner>, top: nat, p: nat, k: nat, n: nat, data: map<nat, Content>,
                 data': map<nat, Content>)
    requires CanGrow(t, owner, p, k, n) && Space(t, owner, top)
    requires forall q :: q in data && q != n ==> q in data' && data'[q] == data[q]
    ensures Space(Grown(t, p, k, n), GrownOwner(owner, p, k, n), top)
    ensures Kept(t, owner, data, Grown(t, p, k, n), GrownOwner(owner, p, k, n), data')
  {
    GrowSpace(t, owner, top, p, k, n);
    GrowRoots(t, owner, p, k, n);
    hide Leaf, LeafOK, TreeOK, Grown, GrownOwner;
  }

  // A page of level 1 or 2.
  ghost predicate Upper(t: Tables, owner: map<nat, Owner>, p: nat) {
    p in t && p in owner && owner[p].Table? && !owner[p].role.Low?
  }

  // q is the page that entry k of p leads to in t', and no other entry of a
  // page of t is different in t'.
  ghost predicate Stepped(t: Tables, t': Tables, owner: map<nat, Owner>, p: nat, k: nat, q: nat) {
    && q == Next(t', p, k)
    && (q != 0 ==> q in t' && q in owner && Upper(t', owner, p)
                   && owner[q] == Table(owner[p].root, Kid(owner[p].role, k)))
    && forall x, j: nat :: x in t && (x != p || j != k) ==> Entry(t', x, j) == Entry(t, x, j)
  }

  lemma GrowPlace(t: Tables, owner: map<nat, Owner>, p: nat, k: nat, n: nat)
    requires CanGrow(t, owner, p, k, n)
    ensures Stepped(t, Grown(t, p, k, n), GrownOwner(owner, p, k, n), p, k, n)
  {
    GrowEntries(t, owner, p, k, n);
    hide Next, Entry;
  }

  lemma MapPool(free: seq<nat>, owner: map<nat, Owner>, top: nat, r: nat, vpn: nat, pa: nat)
    requires Listed(free, owner) && (vpn < top ==> pa !in owner && pa !in free)
    ensures Listed(free, MapOwner(owner, top, r, vpn, pa))
    ensures Pool(free, MapOwner(owner, top, r, vpn, pa)) == Pool(free, owner) + if vpn < top then {pa} else {}
  {
    if vpn < top { assert MapOwner(owner, top, r, vpn, pa).Keys == owner.Keys + {pa}; }
  }

  lemma GrowPool(free: seq<nat>, owner: map<nat, Owner>, p: nat, k: nat, n: nat)
    requires p in owner && owner[p].Table? && !owner[p].role.Low? && Listed(free, owner) && n !in free
    ensures Pool(free, GrownOwner(owner, p, k, n)) == Pool(free, owner) + {n}
            && Listed(free, GrownOwner(owner, p, k, n))
  {
    assert GrownOwner(owner, p, k, n).Keys == owner.Keys + {n};
  }

  // Pages lo to hi of r now map pa and the pages after it; nothing else
  // is translated differently.
  ghost predicate Ranged(t: Tables, owner: map<nat, Owner>, t': Tables, owner': map<nat, Owner>, r: nat, lo: nat,
                         hi: nat, pa: nat, perm: nat) {
    && hi <= MAXVPN && SameRoots(t, owner, t', owner') && SameOutside(t, owner, t', r, lo, hi)
    && forall v :: lo <= v < hi ==> Leaf(t', r, v) == MkPte(pa + (v - lo) * PGSIZE, perm)
  }

  lemma RangedTranslates(t: Tables, owner: map<nat, Owner>, t': Tables, owner': map<nat, Owner>, r: nat, lo: nat,
                         hi: nat, pa: nat, perm: nat, q: nat, v: nat)
    requires Ranged(t, owner, t', owner', r, lo, hi, pa, perm) && pa % PGSIZE == 0 && perm < 1024
             && IsRoot(t, owner, q) && v < MAXVPN
    ensures Translate(t', q, v)
            == if q == r && lo <= v < hi then Some((pa + (v - lo) * PGSIZE, WithV(perm))) else Translate(t, q, v)
  {
    hide Leaf;
    if q == r && lo <= v < hi { MkPteFields(pa + (v - lo) * PGSIZE, perm); }
    hide MkPte, Pa, Flags, V;
  }

  // What walkaddr gives for page v of r.
  ghost function UserPage(t: Tables, r: nat, v: nat): nat
    requires v < MAXVPN
  {
    if V(Leaf(t, r, v)) && U(Leaf(t, r, v)) then Pa(Leaf(t, r, v)) else 0
  }

  /** walkaddr finds a page that was mapped exactly if it was mapped for users. */
  lemma RangedUser(t: Tables, owner: map<nat, Owner>, t': Tables, owner': map<nat, Owner>, r: nat, lo: nat, hi: nat,
                   pa: nat, perm: nat, v: nat)
    requires Ranged(t, owner, t', owner', r, lo, hi, pa, perm) && pa % PGSIZE == 0 && perm < 1024 && lo <= v < hi
    ensures UserPage(t', r, v) == if HasUser(perm) then pa + (v - lo) * PGSIZE else 0
  {
    hide Leaf;
    MkPteFields(pa + (v - lo) * PGSIZE, perm);
    UserBit(MkPte(pa + (v - lo) * PGSIZE, perm));
    UserWithV(perm);
    hide MkPte, Pa, Flags, V, U, HasUser, WithV;
  }

  // Pages lo to hi of r are no longer mapped.
  ghost predicate Cleared(t: Tables, owner: map<nat, Owner>, t': Tables, owner': map<nat, Owner>, r: nat, lo: nat,
                          hi: nat) {
    && hi <= MAXVPN && SameRoots(t, owner, t', owner') && SameOutside(t, owner, t', r, lo, hi)
    && forall v :: lo <= v < hi ==> Leaf(t', r, v) == 0
  }

  ghost predicate Unmapped(t: Tables, r: nat, lo: nat, hi: nat) {
    hi <= MAXVPN && forall v :: lo <= v < hi ==> !V(Leaf(t, r, v))
  }

  ghost predicate Mapped(t: Tables, r: nat, lo: nat, hi: nat) {
    hi <= MAXVPN && forall v :: lo <= v < hi ==> V(Leaf(t, r, v))
  }

  lemma MapOneOK(t0: Tables, o0: map<nat, Owner>, d0: map<nat, Content>, t: Tables, owner: map<nat, Owner>,
                 data: map<nat, Content>, top: nat, r: nat, vpn: nat, pa: nat, perm: nat)
    requires Kept(t0, o0, d0, t, owner, data) && Space(t, owner, top) && IsRoot(t0, o0, r) && vpn < MAXVPN
    requires !V(Leaf(t0, r, vpn)) && LowOf(t, r, vpn) != 0
    requires pa % PGSIZE == 0 && perm < 1024 && Rwx(perm) && (vpn < top ==> Page(pa) && pa !in owner)
    ensures var t', owner' := Put(t, r, vpn, MkPte(pa, perm)), MapOwner(owner, top, r, vpn, pa);
            Space(t', owner', top) && Ranged(t0, o0, t', owner', r, vpn, vpn + 1, pa, perm)
  {
    hide Leaf, Put, MkPte, V, Rwx, LowOf, TreeOK, LeafOK, Pa;
    assert IsRoot(t, owner, r) && Leaf(t, r, vpn) == Leaf(t0, r, vpn) && HasLow(t, owner, r, vpn);
    MapLeaf(t, owner, top, r, vpn, pa, perm);
    var t', owner' := Put(t, r, vpn, MkPte(pa, perm)), MapOwner(owner, top, r, vpn, pa);
    PutTree(t, owner, r, vpn, MkPte(pa, perm));
    MapRoots(t', owner, top, r, vpn, pa);
    hide Space, MapOwner;
    forall q, v | IsRoot(t0, o0, q) && 0 <= v < MAXVPN
      ensures Leaf(t', q, v) == if q == r && v == vpn then MkPte(pa, perm) else Leaf(t0, q, v)
    {
      PutLeaf(t, owner, r, vpn, MkPte(pa, perm), q, v);
    }
  }

  lemma MapRoots(t: Tables, owner: map<nat, Owner>, top: nat, r: nat, vpn: nat, pa: nat)
    requires vpn < top ==> pa !in owner
    ensures forall q :: IsRoot(t, MapOwner(owner, top, r, vpn, pa), q) <==> IsRoot(t, owner, q)
  {
  }

  // The pages from pa on that back the first n pages from vpn, if below top.
  function PagesTo(pa: nat, vpn: nat, n: nat, top: nat): (r: set<nat>)
    ensures forall p :: p in r ==> p < pa + n * PGSIZE
  {
    if n == 0 then {} else
    PagesTo(pa, vpn, n - 1, top) + if vpn + n - 1 < top then {pa + (n - 1) * PGSIZE} else {}
  }

  lemma RangedMore(t0: Tables, o0: map<nat, Owner>, t1: Tables, o1: map<nat, Owner>, t2: Tables, o2: map<nat, Owner>,
                   r: nat, lo: nat, hi: nat, pa: nat, perm: nat)
    requires Ranged(t0, o0, t1, o1, r, lo, hi, pa, perm) && lo <= hi
    requires Ranged(t1, o1, t2, o2, r, hi, hi + 1, pa + (hi - lo) * PGSIZE, perm) && IsRoot(t0, o0, r)
    ensures Ranged(t0, o0, t2, o2, r, lo, hi + 1, pa, perm)
  {
    hide Leaf, MkPte;
  }

  lemma RangedNone(t: Tables, owner: map<nat, Owner>, r: nat, lo: nat, pa: nat, perm: nat)
    requires lo <= MAXVPN
    ensures Ranged(t, owner, t, owner, r, lo, lo, pa, perm)
  {
    hide Leaf;
  }

  lemma StillUnmapped(t0: Tables, o0: map<nat, Owner>, t: Tables, owner: map<nat, Owner>, r: nat, lo: nat, hi: nat,
                      a: nat, pa: nat, perm: nat)
    requires Ranged(t0, o0, t, owner, r, lo, a, pa, perm) && Unmapped(t0, r, lo, hi) && lo <= a < hi
             && IsRoot(t0, o0, r)
    ensures !V(Leaf(t, r, a)) && IsRoot(t, owner, r)
  {
    hide Leaf, V;
  }

  lemma RangedKept(t0: Tables, o0: map<nat, Owner>, t1: Tables, o1: map<nat, Owner>, d1: map<nat, Content>, t2: Tables,
                   o2: map<nat, Owner>, d2: map<nat, Content>, r: nat, lo: nat, hi: nat, pa: nat, perm: nat)
    requires Ranged(t0, o0, t1, o1, r, lo, hi, pa, perm) && Kept(t1, o1, d1, t2, o2, d2) && IsRoot(t0, o0, r)
    ensures Ranged(t0, o0, t2, o2, r, lo, hi, pa, perm)
  {
    hide Leaf, MkPte;
  }

  lemma DataTrans(o0: map<nat, Owner>, d0: map<nat, Content>, o1: map<nat, Owner>, d1: map<nat, Content>,
                  d2: map<nat, Content>)
    requires SameData(o0, d0, d1) && MoreOwned(o0, o1) && SameData(o1, d1, d2)
    ensures SameData(o0, d0, d2)
  {
  }

  // The pages to map are aligned and in the caller's hands.
  ghost predicate InHand(pool: set<nat>, pa: nat, vpn: nat, n: nat, top: nat) {
    pa % PGSIZE == 0
    && forall v :: vpn <= v < vpn + n && v < top ==> PageAt(pa, vpn, v) > 0 && PageAt(pa, vpn, v) !in pool
  }

  function PageAt(pa: nat, vpn: nat, v: int): int {
    pa + (v - vpn) * PGSIZE
  }

  lemma LeafFacts(t: Tables, owner: map<nat, Owner>, top: nat, r: nat, vpn: nat)
    requires Space(t, owner, top) && IsRoot(t, owner, r) && vpn < MAXVPN && V(Leaf(t, r, vpn))
    ensures HasLow(t, owner, r, vpn) && Flags(Leaf(t, r, vpn)) != PTE_V
    ensures vpn < top ==> Pa(Leaf(t, r, vpn)) in owner && owner[Pa(Leaf(t, r, vpn))] == User(r, vpn)
                          && Page(Pa(Leaf(t, r, vpn)))
  {
    if LowOf(t, r, vpn) == 0 { NoLow(t, owner, top, r, vpn); }
    OwnerPages(t, owner);
    hide TreeOK, LowOf, Leaf, V, Pa, Flags, Rwx;
    assert LeafAt(t, owner, top, r, vpn);
    RwxFlags(Leaf(t, r, vpn));
  }

  lemma UnmapRoots(t: Tables, owner: map<nat, Owner>, top: nat, r: nat, vpn: nat, t': Tables)
    requires vpn < MAXVPN && (vpn < top ==> Pa(Leaf(t, r, vpn)) in owner && owner[Pa(Leaf(t, r, vpn))] == User(r, vpn))
    ensures forall q :: IsRoot(t', UnmapOwner(t, owner, top, r, vpn), q) <==> IsRoot(t', owner, q)
  {
    hide Leaf, Pa;
  }

  lemma UnmapOneOK(t: Tables, owner: map<nat, Owner>, top: nat, r: nat, vpn: nat)
    requires Space(t, owner, top) && IsRoot(t, owner, r) && vpn < MAXVPN && V(Leaf(t, r, vpn))
    ensures var t', owner' := Put(t, r, vpn, 0), UnmapOwner(t, owner, top, r, vpn);
            Space(t', owner', top) && Cleared(t, owner, t', owner', r, vpn, vpn + 1)
  {
    hide Space, Leaf, Put, V, LowOf, TreeOK, Pa, Flags, UnmapOwner;
    LeafFacts(t, owner, top, r, vpn);
    UnmapLeaf(t, owner, top, r, vpn);
    PutTree(t, owner, r, vpn, 0);
    var t' := Put(t, r, vpn, 0);
    UnmapRoots(t, owner, top, r, vpn, t');
    forall q, v | IsRoot(t, owner, q) && 0 <= v < MAXVPN
      ensures Leaf(t', q, v) == if q == r && v == vpn then 0 else Leaf(t, q, v)
    {
      PutLeaf(t, owner, r, vpn, 0, q, v);
    }
  }

  // *pte, and the assignment to it.
  lemma PutIs(t: Tables, r: nat, vpn: nat, e: nat, l: nat)
    requires vpn < MAXVPN && l == LowOf(t, r, vpn) && l in t && |t[l]| == ENTRIES
    ensures t[l][Px(0, vpn)] == Leaf(t, r, vpn)
    ensures var page: seq<nat> := t[l][Px(0, vpn) := e]; t[l := page] == Put(t, r, vpn, e)
  {
    hide Px, LowOf;
  }

  lemma RwxFlags(e: nat)
    ensures Rwx(e) ==> Flags(e) != PTE_V
  {
  }

  // Freed or not, the page of the leaf leaves its owner.
  lemma UnmapPool(free: seq<nat>, t: Tables, owner: map<nat, Owner>, top: nat, r: nat, vpn: nat)
    requires Listed(free, owner) && vpn < MAXVPN
    requires vpn < top ==> Pa(Leaf(t, r, vpn)) in owner && Page(Pa(Leaf(t, r, vpn)))
    ensures var owner', pa := UnmapOwner(t, owner, top, r, vpn), Pa(Leaf(t, r, vpn));
            && Listed(free, owner')
            && (vpn < top ==> pa !in free && pa !in owner' && Listed([pa] + free, owner')
                              && Pool([pa] + free, owner') == Pool(free, owner))
            && Pool(free, owner') <= Pool(free, owner) && (vpn >= top ==> owner' == owner)
  {
    hide Leaf, Pa;
    var owner', pa := UnmapOwner(t, owner, top, r, vpn), Pa(Leaf(t, r, vpn));
    if vpn < top { assert owner.Keys == owner'.Keys + {pa}; }
  }

  lemma UnmapDropped(t: Tables, owner: map<nat, Owner>, top: nat, r: nat, vpn: nat)
    requires vpn < MAXVPN && (vpn < top ==> Pa(Leaf(t, r, vpn)) in owner && owner[Pa(Leaf(t, r, vpn))] == User(r, vpn))
    ensures Dropped(owner, UnmapOwner(t, owner, top, r, vpn), r, vpn, vpn + 1)
  {
    hide Leaf, Pa;
  }

  // Only user pages lo to hi of r lose their owner.
  ghost predicate Dropped(o0: map<nat, Owner>, o1: map<nat, Owner>, r: nat, lo: nat, hi: nat) {
    MoreOwned(o1, o0) && forall x :: x in o0 && !(o0[x].User? && o0[x].root == r && lo <= o0[x].vpn < hi) ==> x in o1
  }

  lemma ClearedMore(t0: Tables, o0: map<nat, Owner>, t1: Tables, o1: map<nat, Owner>, t2: Tables, o2: map<nat, Owner>,
                    r: nat, lo: nat, hi: nat)
    requires Cleared(t0, o0, t1, o1, r, lo, hi) && lo <= hi && Cleared(t1, o1, t2, o2, r, hi, hi + 1)
             && IsRoot(t0, o0, r)
    ensures Cleared(t0, o0, t2, o2, r, lo, hi + 1)
  {
    hide Leaf;
  }

  lemma ClearedNone(t: Tables, owner: map<nat, Owner>, data: map<nat, Content>, r: nat, lo: nat)
    requires lo <= MAXVPN
    ensures Cleared(t, owner, t, owner, r, lo, lo) && SameData(owner, data, data) && MoreOwned(owner, owner)
  {
    hide Leaf;
  }

  lemma StillMapped(t0: Tables, o0: map<nat, Owner>, t: Tables, owner: map<nat, Owner>, r: nat, lo: nat, hi: nat,
                    a: nat)
    requires Cleared(t0, o0, t, owner, r, lo, a) && Mapped(t0, r, lo, hi) && lo <= a < hi && IsRoot(t0, o0, r)
    ensures V(Leaf(t, r, a)) && IsRoot(t, owner, r)
  {
    hide Leaf, V;
  }

  lemma EntryFree(t: Tables, owner: map<nat, Owner>, top: nat, p: nat, k: nat)
    requires Space(t, owner, top) && Upper(t, owner, p) && k < ENTRIES && Next(t, p, k) == 0
             && (owner[p].role.Root? ==> k < 256)
    ensures forall n :: Page(n) && n !in owner ==> CanGrow(t, owner, p, k, n)
  {
    hide LeafOK;
    assert Down(t, owner, p, k);
    assert 0 !in owner;
  }

  lemma EntryRead(t: Tables, owner: map<nat, Owner>, top: nat, p: nat, k: nat)
    requires Space(t, owner, top) && Upper(t, owner, p) && k < ENTRIES
    ensures |t[p]| == ENTRIES && Stepped(t, t, owner, p, k, if V(t[p][k]) then Pa(t[p][k]) else 0)
    ensures V(t[p][k]) <==> Next(t, p, k) != 0
  {
    hide LeafOK;
    assert Down(t, owner, p, k);
    assert 0 !in owner;
  }

  // Permissions and contents of a page to be mapped.
  datatype Want = Want(perm: nat, content: Content)

  // Pages lo to hi of r map fresh pages of their own, as wanted.
  ghost predicate Grew(t: Tables, owner: map<nat, Owner>, t': Tables, owner': map<nat, Owner>,
                       data': map<nat, Content>, r: nat, lo: nat, hi: nat, want: seq<Want>) {
    && lo <= hi <= MAXVPN && hi - lo <= |want|
    && SameRoots(t, owner, t', owner') && SameOutside(t, owner, t', r, lo, hi) && MoreOwned(owner, owner')
    && forall v :: lo <= v < hi ==> Fresh(owner, owner', data', r, v, Leaf(t', r, v), want[v - lo])
  }

  ghost predicate Fresh(owner: map<nat, Owner>, owner': map<nat, Owner>, data': map<nat, Content>, r: nat, v: nat,
                        e: nat, w: Want) {
    && V(e) && Flags(e) == WithV(w.perm) && Pa(e) !in owner && Pa(e) in owner' && owner'[Pa(e)] == User(r, v)
    && Pa(e) in data' && data'[Pa(e)] == w.content
  }

  /** It finds every page that uvmalloc gave to a process, and no other
      process's page. */
  lemma GrewUser(t: Tables, owner: map<nat, Owner>, t': Tables, owner': map<nat, Owner>, data': map<nat, Content>,
                 r: nat, lo: nat, hi: nat, xperm: nat, v: nat)
    requires xperm in {0, 4, 8, 12} && lo <= v < hi
    requires Grew(t, owner, t', owner', data', r, lo, hi, Zeros(hi - lo, 18 + xperm))
    ensures UserPage(t', r, v) in owner' && owner'[UserPage(t', r, v)] == User(r, v)
    ensures UserPage(t', r, v) in data' && data'[UserPage(t', r, v)] == Filled(0)
  {
    hide Leaf;
    var e := Leaf(t', r, v);
    assert Fresh(owner, owner', data', r, v, e, Want(18 + xperm, Filled(0)));
    UserBit(e);
    UserWithV(18 + xperm);
  }

  lemma GrewMore(t0: Tables, o0: map<nat, Owner>, t1: Tables, o1: map<nat, Owner>, d1: map<nat, Content>, t2: Tables,
                 o2: map<nat, Owner>, d2: map<nat, Content>, r: nat, lo: nat, hi: nat, want: seq<Want>, pa: nat)
    requires Grew(t0, o0, t1, o1, d1, r, lo, hi, want) && hi - lo < |want| && IsRoot(t0, o0, r) && pa % PGSIZE == 0
             && want[hi - lo].perm < 1024
    requires Ranged(t1, o1, t2, o2, r, hi, hi + 1, pa, want[hi - lo].perm) && MoreOwned(o1, o2) && SameData(o1, d1, d2)
    requires pa !in o1 && pa in o2 && o2[pa] == User(r, hi) && pa in d2 && d2[pa] == want[hi - lo].content
    ensures Grew(t0, o0, t2, o2, d2, r, lo, hi + 1, want)
  {
    MkPteFields(pa, want[hi - lo].perm);
    hide Leaf, MkPte, V, Pa, Flags, WithV;
    forall v | lo <= v < hi + 1 ensures Fresh(o0, o2, d2, r, v, Leaf(t2, r, v), want[v - lo]) {
      if v < hi { assert Fresh(o0, o1, d1, r, v, Leaf(t1, r, v), want[v - lo]); }
    }
  }

  // After the new pages are unmapped again, everything is as at the start.
  ghost predicate Restored(t: Tables, owner: map<nat, Owner>, data: map<nat, Content>, t': Tables,
                           owner': map<nat, Owner>, data': map<nat, Content>) {
    && SameRoots(t, owner, t', owner') && SameData(owner, data, data') && MoreOwned(owner, owner')
    && (forall q, v :: IsRoot(t, owner, q) && 0 <= v < MAXVPN ==> Translate(t', q, v) == Translate(t, q, v))
    && forall q :: q in owner' && owner'[q].User? ==> q in owner
  }

  lemma GrewNone(t: Tables, owner: map<nat, Owner>, data: map<nat, Content>, r: nat, lo: nat, want: seq<Want>)
    requires lo <= MAXVPN
    ensures Grew(t, owner, t, owner, data, r, lo, lo, want) && SameData(owner, data, data)
  {
    hide Leaf;
  }

  lemma GrewKept(t0: Tables, o0: map<nat, Owner>, t1: Tables, o1: map<nat, Owner>, d1: map<nat, Content>, t2: Tables,
                 o2: map<nat, Owner>, d2: map<nat, Content>, r: nat, lo: nat, hi: nat, want: seq<Want>, a: nat,
                 pa: nat, p: nat)
    requires Grew(t0, o0, t1, o1, d1, r, lo, hi, want) && IsRoot(t0, o0, r)
    requires Ranged(t1, o1, t2, o2, r, a, a, pa, p) && MoreOwned(o1, o2) && SameData(o1, d1, d2)
    ensures Grew(t0, o0, t2, o2, d2, r, lo, hi, want)
  {
    hide Leaf, V, Pa, Flags, WithV, MkPte;
    forall v | lo <= v < hi ensures Fresh(o0, o2, d2, r, v, Leaf(t2, r, v), want[v - lo]) {
      assert Fresh(o0, o1, d1, r, v, Leaf(t1, r, v), want[v - lo]);
    }
  }

  lemma GrewMapped(t0: Tables, o0: map<nat, Owner>, t1: Tables, o1: map<nat, Owner>, d1: map<nat, Content>, r: nat,
                   lo: nat, hi: nat, want: seq<Want>)
    requires Grew(t0, o0, t1, o1, d1, r, lo, hi, want) && IsRoot(t0, o0, r)
    ensures Mapped(t1, r, lo, hi) && IsRoot(t1, o1, r)
  {
    hide Leaf, V, Pa, Flags, WithV;
    forall v | lo <= v < hi ensures V(Leaf(t1, r, v)) {
      assert Fresh(o0, o1, d1, r, v, Leaf(t1, r, v), want[v - lo]);
    }
  }

  lemma GrewUnmapped(t0: Tables, o0: map<nat, Owner>, t1: Tables, o1: map<nat, Owner>, d1: map<nat, Content>, r: nat,
                     lo: nat, a: nat, hi: nat, want: seq<Want>)
    requires Grew(t0, o0, t1, o1, d1, r, lo, a, want) && IsRoot(t0, o0, r) && Unmapped(t0, r, lo, hi) && a < hi
    ensures Unmapped(t1, r, a, a + 1) && IsRoot(t1, o1, r)
  {
    hide Leaf, V, Fresh;
  }

  lemma OwnedLeaf(t: Tables, owner: map<nat, Owner>, top: nat, r: nat, v: nat)
    requires Space(t, owner, top) && IsRoot(t, owner, r) && v < top && V(Leaf(t, r, v))
    ensures Pa(Leaf(t, r, v)) in owner && owner[Pa(Leaf(t, r, v))] == User(r, v)
  {
    hide TreeOK, Leaf, V, Pa, Rwx;
    assert LeafAt(t, owner, top, r, v);
  }

  lemma NewOwner(t: Tables, owner: map<nat, Owner>, top: nat, r: nat, v: nat, pa: nat, perm: nat)
    requires Space(t, owner, top) && IsRoot(t, owner, r) && v < top && Leaf(t, r, v) == MkPte(pa, perm)
             && pa % PGSIZE == 0 && perm < 1024
    ensures pa in owner && owner[pa] == User(r, v)
  {
    MkPteFields(pa, perm);
    OwnedLeaf(t, owner, top, r, v);
  }

  lemma NoOwner(t: Tables, owner: map<nat, Owner>, top: nat, r: nat, v: nat, q: nat)
    requires Space(t, owner, top) && v < MAXVPN && q in owner && owner[q] == User(r, v)
    ensures V(Leaf(t, r, v)) && Pa(Leaf(t, r, v)) == q && v < top && IsRoot(t, owner, r)
  {
    hide TreeOK, Leaf, V, Pa, Rwx;
    assert UserAt(t, owner, top, q);
  }

  // Undoing a growth: the new pages were unmapped and freed.
  lemma Undo(t0: Tables, o0: map<nat, Owner>, d0: map<nat, Content>, t1: Tables, o1: map<nat, Owner>,
             d1: map<nat, Content>, t2: Tables, o2: map<nat, Owner>, d2: map<nat, Content>, top: nat, r: nat, lo: nat,
             hi: nat)
    requires Space(t0, o0, top) && Space(t2, o2, top) && IsRoot(t0, o0, r) && lo <= hi && Unmapped(t0, r, lo, hi)
    requires SameRoots(t0, o0, t1, o1) && SameOutside(t0, o0, t1, r, lo, hi) && MoreOwned(o0, o1)
             && SameData(o0, d0, d1)
    requires Cleared(t1, o1, t2, o2, r, lo, hi) && Dropped(o1, o2, r, lo, hi) && SameData(o2, d1, d2)
    ensures Restored(t0, o0, d0, t2, o2, d2)
  {
    hide Space;
    UndoTranslates(t0, o0, t1, o1, t2, o2, r, lo, hi);
    hide Leaf, V, Translate, SameOutside;
    forall x | x in o0 ensures x in o2 && o2[x] == o0[x] {
      if o0[x].User? && o0[x].root == r && lo <= o0[x].vpn < hi { NoOwner(t0, o0, top, r, o0[x].vpn, x); }
    }
    forall q | q in o2 && o2[q].User? ensures q in o0 {
      UserBack(t0, o0, t2, o2, top, q);
    }
  }

  lemma UndoTranslates(t0: Tables, o0: map<nat, Owner>, t1: Tables, o1: map<nat, Owner>, t2: Tables,
                       o2: map<nat, Owner>, r: nat, lo: nat, hi: nat)
    requires IsRoot(t0, o0, r) && lo <= hi && Unmapped(t0, r, lo, hi)
    requires SameRoots(t0, o0, t1, o1) && SameOutside(t0, o0, t1, r, lo, hi) && Cleared(t1, o1, t2, o2, r, lo, hi)
    ensures forall q, v :: IsRoot(t0, o0, q) && 0 <= v < MAXVPN ==> Translate(t2, q, v) == Translate(t0, q, v)
  {
    assert !V(0);
    hide Leaf, V, Pa, Flags;
    forall q, v | IsRoot(t0, o0, q) && 0 <= v < MAXVPN ensures Translate(t2, q, v) == Translate(t0, q, v) {
      assert Leaf(t2, q, v) == if q == r && lo <= v < hi then 0 else Leaf(t0, q, v);
    }
  }

  lemma UserBack(t0: Tables, o0: map<nat, Owner>, t2: Tables, o2: map<nat, Owner>, top: nat, q: nat)
    requires Space(t0, o0, top) && Space(t2, o2, top) && SameRoots(t0, o0, t2, o2) && q in o2 && o2[q].User?
    requires forall r, v :: IsRoot(t0, o0, r) && 0 <= v < MAXVPN ==> Translate(t2, r, v) == Translate(t0, r, v)
    ensures q in o0
  {
    hide TreeOK, Leaf, V, Pa, Rwx, Flags;
    var r, v := o2[q].root, o2[q].vpn;
    assert UserAt(t2, o2, top, q);
    assert Translate(t2, r, v) == Translate(t0, r, v);
    OwnedLeaf(t0, o0, top, r, v);
  }

  // PGROUNDUP(sz) / PGSIZE
  function Pages(sz: nat): nat { (sz + PGSIZE - 1) / PGSIZE }

  function Zeros(n: nat, perm: nat): seq<Want> {
    seq(n, _ => Want(perm, Filled(0)))
  }

  // PTE_R | PTE_U | xperm
  lemma UserPerm(xperm: nat)
    requires xperm in {0, 4, 8, 12}
    ensures Rwx(18 + xperm)
  {
  }

  // What uvmcopy wants of each page: flags and contents of the parent's page.
  ghost function CopyOf(t: Tables, data: map<nat, Content>, r: nat, n: nat): (want: seq<Want>)
    requires n <= MAXVPN && HasData(t, data, r, n)
    ensures |want| == n
    ensures forall v :: 0 <= v < n ==> want[v] == Want(Flags(Leaf(t, r, v)), data[Pa(Leaf(t, r, v))])
  {
    hide Leaf, Flags, Pa;
    seq(n, v requires 0 <= v < n => Want(Flags(Leaf(t, r, v)), data[Pa(Leaf(t, r, v))]))
  }

  ghost predicate HasData(t: Tables, data: map<nat, Content>, r: nat, n: nat) {
    n <= MAXVPN && forall v :: 0 <= v < n ==> Pa(Leaf(t, r, v)) in data
  }

  lemma FlagsRwx(e: nat)
    ensures Rwx(Flags(e)) == Rwx(e) && Flags(e) < 1024 && (V(e) ==> WithV(Flags(e)) == Flags(e))
  {
  }

  // While the child grows, the parent's page v stays as it was.
  lemma ParentKept(t0: Tables, o0: map<nat, Owner>, d0: map<nat, Content>, t: Tables, owner: map<nat, Owner>,
                   data: map<nat, Content>, top: nat, p: nat, c: nat, a: nat, want: seq<Want>, n: nat)
    requires Space(t0, o0, top) && IsRoot(t0, o0, p) && p != c && a < n <= top && Mapped(t0, p, 0, n)
             && HasData(t0, d0, p, n)
    requires Grew(t0, o0, t, owner, data, c, 0, a, want) && SameData(o0, d0, data)
    ensures IsRoot(t, owner, p) && Leaf(t, p, a) == Leaf(t0, p, a) && V(Leaf(t, p, a))
    ensures Pa(Leaf(t0, p, a)) in data && data[Pa(Leaf(t0, p, a))] == d0[Pa(Leaf(t0, p, a))]
    ensures Rwx(Flags(Leaf(t0, p, a))) && Flags(Leaf(t0, p, a)) < 1024
  {
    hide Leaf, V, Pa, Flags, Rwx, TreeOK, Fresh;
    FlagsRwx(Leaf(t0, p, a));
    assert LeafAt(t0, o0, top, p, a);
  }

  lemma PageNumber(k: nat)
    ensures k * PGSIZE % PGSIZE == 0 && k * PGSIZE / PGSIZE == k
  {
    Counting.ModUnique(k * PGSIZE, PGSIZE, k, 0);
  }

  lemma WholePage(start: nat, end: nat, lo: nat, k: nat, q: nat)
    requires start > 0 && lo == (start + PGSIZE - 1) / PGSIZE && k >= lo && (k == lo || k * PGSIZE <= end)
             && (k + 1) * PGSIZE > end
    ensures q % PGSIZE == 0 && lo <= q / PGSIZE < k <==> Page(q) && start <= q && q + PGSIZE <= end
  {
    if q % PGSIZE == 0 {
      var n := q / PGSIZE;
      assert q == n * PGSIZE;
    }
  }

  lemma FreedPool(free: seq<nat>, owner: map<nat, Owner>, pa: nat)
    requires Page(pa) && pa !in free
    ensures Listed(free, owner) ==> Listed([pa] + free, owner - {pa})
    ensures Pool([pa] + free, owner - {pa}) == Pool(free, owner) + {pa}
  {
    assert (owner - {pa}).Keys + {pa} == owner.Keys + {pa};
    assert forall q :: q in [pa] + free <==> q == pa || q in free;
  }

  // Success takes at most n pages, and failure means there were fewer.
  predicate Spent(free: seq<nat>, free': seq<nat>, ok: bool, n: int) {
    if ok then |free'| + n >= |free| else |free| < n
  }

  class Memory {
    const top: nat                     // TRAPFRAME / PGSIZE
    var freelist: seq<nat>             // kmem.freelist, first page first
    var tables: Tables                 // the pages in use as page tables
    var data: map<nat, Content>        // the contents of other pages
    ghost var owner: map<nat, Owner>

    ghost predicate Valid()
      reads this
    {
      Space(tables, owner, top) && Listed(freelist, owner)
    }

    constructor (top: nat)
      requires top <= MAXVPN
      ensures Valid() && this.top == top && freelist == [] && owner == map[]
    {
      this.top, freelist, tables, data, owner := top, [], map[], map[], map[];
    }

    /** The page goes from its owner, if it had one, to the front of the list:
        pages that were free or owned stay so, none twice, and pa joins them. */
    method Kfree(pa: nat)
      requires Page(pa) && pa !in freelist
      modifies this`freelist, this`data
      ensures freelist == [pa] + old(freelist) && data == old(data)[pa := Filled(1)]
      ensures Listed(old(freelist), owner) ==> Listed(freelist, owner - {pa})
      ensures Pool(freelist, owner - {pa}) == Pool(old(freelist), owner) + {pa}
    {
      FreedPool(freelist, owner, pa);
      hide Listed, Pool;
      data := data[pa := Filled(1)];
      freelist := [pa] + freelist;
    }

    /** freerange, as kinit calls it: exactly the whole pages between the two
        addresses become free. */
    method Freerange(start: nat, end: nat)
      requires Valid() && freelist == [] && owner == map[] && start > 0
      modifies this`freelist, this`data
      ensures Valid() && forall q: nat :: q in freelist <==> Page(q) && start <= q && q + PGSIZE <= end
    {
      hide Space;
      var k := (start + PGSIZE - 1) / PGSIZE;
      ghost var lo := k;
      while (k + 1) * PGSIZE <= end
        invariant k >= lo >= 1 && Listed(freelist, map[]) && owner == map[] && Space(tables, owner, top)
        invariant forall q :: q in freelist <==> q % PGSIZE == 0 && lo <= q / PGSIZE < k
        invariant k == lo || k * PGSIZE <= end
        decreases end - k * PGSIZE
      {
        PageNumber(k);
        Kfree(k * PGSIZE);
        k := k + 1;
      }
      forall q: nat ensures q % PGSIZE == 0 && lo <= q / PGSIZE < k <==> Page(q) && start <= q && q + PGSIZE <= end {
        WholePage(start, end, lo, k, q);
      }
    }

    method Kalloc() returns (pa: nat)
      requires Valid()
      modifies this`freelist, this`data
      ensures Valid()
      ensures pa == 0 <==> old(freelist) == []
      ensures pa == 0 ==> unchanged(this)
      ensures pa != 0 ==> pa == old(freelist)[0] && freelist == old(freelist)[1..] && data == old(data)[pa := Filled(5)]
      ensures pa != 0 ==> Page(pa) && pa !in owner && pa !in freelist
      ensures pa != 0 ==> Pool(freelist, owner) + {pa} == old(Pool(freelist, owner)) && pa !in Pool(freelist, owner)
    {
      if freelist == [] {
        return 0;
      }
      pa := freelist[0];
      assert freelist == [pa] + freelist[1..];
      freelist := freelist[1..];
      data := data[pa := Filled(5)];
    }

    // A new empty page-table page at entry k of p, or 0.
    method NewTable(p: nat, k: nat) returns (q: nat)
      requires Valid() && Upper(tables, owner, p) && k < ENTRIES && (owner[p].role.Root? ==> k < 256)
               && Next(tables, p, k) == 0
      modifies this`freelist, this`tables, this`data, this`owner
      ensures Valid() && Pool(freelist, owner) == old(Pool(freelist, owner))
      ensures Kept(old(tables), old(owner), old(data), tables, owner, data)
              && HandKept(old(freelist), old(data), freelist, data)
      ensures Stepped(old(tables), tables, owner, p, k, q)
      ensures Spent(old(freelist), freelist, q != 0, 1)
    {
      EntryFree(tables, owner, top, p, k);
      hide Space, Next, Entry, Kept, Stepped;
      q := Kalloc();
      if q != 0 {
        GrowKept(tables, owner, top, p, k, q, old(data), data);
        GrowPlace(tables, owner, p, k, q);
        GrowPool(freelist, owner, p, k, q);
        hide CanGrow, Grown, GrownOwner, Stepped, Pool, Listed;
        tables := Grown(tables, p, k, q);
        owner := GrownOwner(owner, p, k, q);
      } else {
        KeptSame(tables, owner, data);
      }
    }

    // One round of walk's loop, at page p of a tree.
    method Descend(p: nat, k: nat, alloc: bool) returns (q: nat)
      requires Valid() && Upper(tables, owner, p) && k < ENTRIES && (owner[p].role.Root? ==> k < 256)
      modifies this`freelist, this`tables, this`data, this`owner
      ensures Valid() && Pool(freelist, owner) == old(Pool(freelist, owner))
      ensures Kept(old(tables), old(owner), old(data), tables, owner, data)
              && HandKept(old(freelist), old(data), freelist, data)
      ensures Stepped(old(tables), tables, owner, p, k, q)
      ensures !alloc || Next(old(tables), p, k) != 0 ==> unchanged(this)
      ensures Spent(old(freelist), freelist, !alloc || q != 0, 1)
    {
      EntryRead(tables, owner, top, p, k);
      KeptSame(tables, owner, data);
      hide Space, Next, Entry, Kept, Stepped;
      var e := tables[p][k];
      if V(e) {
        return Pa(e);
      }
      if !alloc {
        return 0;
      }
      q := NewTable(p, k);
    }

    /** walk(): finds, and with alloc creates, the level-0 page for vpn. No
        translation changes, and no page is lost even if memory runs out. */
    method Walk(r: nat, vpn: nat, alloc: bool) returns (l: nat)
      requires Valid() && IsRoot(tables, owner, r) && vpn < MAXVPN
      modifies this`freelist, this`tables, this`data, this`owner
      ensures Valid() && Pool(freelist, owner) == old(Pool(freelist, owner))
      ensures Kept(old(tables), old(owner), old(data), tables, owner, data)
              && HandKept(old(freelist), old(data), freelist, data)
      ensures l == LowOf(tables, r, vpn) && (l != 0 ==> l in tables && |tables[l]| == ENTRIES)
      ensures !alloc ==> unchanged(this)
      ensures Spent(old(freelist), freelist, !alloc || l != 0, 2)
    {
      hide Space, Listed, SameOutside, SameData, Next, Entry, LowOf, Px, Pool;
      ghost var t0, o0, d0 := tables, owner, data;
      KeptSame(t0, o0, d0);
      RootFacts(tables, owner, top, r);
      l := Descend(r, Px(2, vpn), alloc);
      if l == 0 {
        NoMid(tables, owner, top, r, vpn);
        return;
      }
      ghost var t1, o1, d1, f1 := tables, owner, data, freelist;
      ghost var m := l;
      RootFacts(tables, owner, top, r);
      assert Upper(tables, owner, l);
      l := Descend(l, Px(1, vpn), alloc);
      KeptTrans(t0, o0, d0, t1, o1, d1, tables, owner, data);
      HandTrans(old(freelist), d0, f1, d1, freelist, data);
      PathFacts(t1, o1, tables, owner, top, r, vpn, m, l);
      RootFacts(tables, owner, top, r);
    }

    // One round of mappages' loop.
    method MapOne(r: nat, vpn: nat, pa: nat, perm: nat) returns (ok: bool)
      requires Valid() && IsRoot(tables, owner, r) && vpn < MAXVPN && !V(Leaf(tables, r, vpn))  // panics on a remap
      requires pa % PGSIZE == 0 && perm < 1024 && Rwx(perm)
      requires vpn < top ==> Page(pa) && pa !in Pool(freelist, owner)
      modifies this`freelist, this`tables, this`data, this`owner
      ensures Valid() && SameData(old(owner), old(data), data) && MoreOwned(old(owner), owner)
      ensures HandKept(old(freelist), old(data), freelist, data)
      ensures ok ==> Ranged(old(tables), old(owner), tables, owner, r, vpn, vpn + 1, pa, perm)
      ensures ok ==> Pool(freelist, owner) == old(Pool(freelist, owner)) + if vpn < top then {pa} else {}
      ensures !ok ==> Kept(old(tables), old(owner), old(data), tables, owner, data)
      ensures Spent(old(freelist), freelist, ok, 2)
      ensures !ok ==> Pool(freelist, owner) == old(Pool(freelist, owner))
    {
      hide Space, Leaf, LowOf, SameOutside;
      ghost var t0, o0, d0 := tables, owner, data;
      var l := Walk(r, vpn, true);
      ok := l != 0;
      if ok {
        assert vpn < top ==> pa !in owner && pa !in freelist;
        MapOneOK(t0, o0, d0, tables, owner, data, top, r, vpn, pa, perm);
        MapPool(freelist, owner, top, r, vpn, pa);
        PutIs(tables, r, vpn, MkPte(pa, perm), l);
        var page: seq<nat> := tables[l][Px(0, vpn) := MkPte(pa, perm)];
        hide Put, Ranged, MapOwner, Listed, Pool;
        tables := tables[l := page];
        owner := MapOwner(owner, top, r, vpn, pa);
      }
    }

    /** mappages(): on success exactly the n pages from vpn on gain a mapping.
        If page-table pages run out, a prefix of done pages has been mapped. */
    method Mappages(r: nat, vpn: nat, n: nat, pa: nat, perm: nat) returns (ok: bool, ghost done: nat)
      requires Valid() && IsRoot(tables, owner, r) && n >= 1 && Unmapped(tables, r, vpn, vpn + n)
      requires perm < 1024 && Rwx(perm) && InHand(Pool(freelist, owner), pa, vpn, n, top)
      modifies this`freelist, this`tables, this`data, this`owner
      ensures Valid() && SameData(old(owner), old(data), data) && MoreOwned(old(owner), owner)
      ensures HandKept(old(freelist), old(data), freelist, data)
      ensures done <= n && (ok <==> done == n) && Spent(old(freelist), freelist, ok, 2 * n)
      ensures Ranged(old(tables), old(owner), tables, owner, r, vpn, vpn + done, pa, perm)
      ensures Pool(freelist, owner) == old(Pool(freelist, owner)) + PagesTo(pa, vpn, done, top)
    {
      hide Space, Leaf, Pool, SameOutside, SameData, MkPte, Rwx, V, Listed;
      ghost var t0, o0, d0 := tables, owner, data;
      KeptSame(tables, owner, data);
      var a := vpn;
      var p := pa;
      done := 0;
      RangedNone(t0, o0, r, vpn, pa, perm);
      while true
        invariant Valid() && done < n && a == vpn + done && p == pa + done * PGSIZE
        invariant SameData(o0, d0, data) && MoreOwned(o0, owner) && HandKept(old(freelist), d0, freelist, data)
        invariant Ranged(t0, o0, tables, owner, r, vpn, a, pa, perm)
        invariant Pool(freelist, owner) == old(Pool(freelist, owner)) + PagesTo(pa, vpn, done, top)
        invariant Spent(old(freelist), freelist, true, 2 * done)
        decreases n - done
      {
        ghost var t1, o1, d1, f1 := tables, owner, data, freelist;
        StillUnmapped(t0, o0, tables, owner, r, vpn, vpn + n, a, pa, perm);
        assert a < top ==> PageAt(pa, vpn, a) == p > 0;
        ok := MapOne(r, a, p, perm);
        DataTrans(o0, d0, o1, d1, data);
        HandTrans(old(freelist), d0, f1, d1, freelist, data);
        if !ok {
          RangedKept(t0, o0, t1, o1, d1, tables, owner, data, r, vpn, a, pa, perm);
          return;
        }
        RangedMore(t0, o0, t1, o1, tables, owner, r, vpn, a, pa, perm);
        done := done + 1;
        if a == vpn + n - 1 {
          break;
        }
        a, p := a + 1, p + PGSIZE;
      }
    }

    // One round of uvmunmap's loop.
    method UnmapOne(r: nat, vpn: nat, doFree: bool)
      requires Valid() && IsRoot(tables, owner, r) && vpn < MAXVPN && V(Leaf(tables, r, vpn)) && (doFree ==> vpn < top)
      modifies this`freelist, this`tables, this`data, this`owner
      ensures Valid() && SameData(owner, old(data), data) && Dropped(old(owner), owner, r, vpn, vpn + 1)
      ensures Cleared(old(tables), old(owner), tables, owner, r, vpn, vpn + 1)
      ensures if doFree || vpn >= top then Pool(freelist, owner) == old(Pool(freelist, owner))
              else Pool(freelist, owner) <= old(Pool(freelist, owner))
    {
      hide Put, Space, Leaf, LowOf, Pool, Listed, UnmapOwner, Cleared, Pa, Px;
      LeafFacts(tables, owner, top, r, vpn);
      UnmapOneOK(tables, owner, top, r, vpn);
      UnmapPool(freelist, tables, owner, top, r, vpn);
      UnmapDropped(tables, owner, top, r, vpn);
      ghost var owner' := UnmapOwner(tables, owner, top, r, vpn);
      var l := Walk(r, vpn, false);
      PutIs(tables, r, vpn, 0, l);
      if doFree {
        Kfree(Pa(tables[l][Px(0, vpn)]));
      }
      var page: seq<nat> := tables[l][Px(0, vpn) := 0];
      tables := tables[l := page];
      owner := owner';
    }

    /** uvmunmap(): exactly the n mappings from vpn on go away. With doFree
        their pages become free, each once. */
    method Uvmunmap(r: nat, vpn: nat, n: nat, doFree: bool)
      requires Valid() && IsRoot(tables, owner, r) && Mapped(tables, r, vpn, vpn + n)  // panics on a missing page
      requires doFree ==> vpn + n <= top
      modifies this`freelist, this`tables, this`data, this`owner
      ensures Valid() && SameData(owner, old(data), data) && Dropped(old(owner), owner, r, vpn, vpn + n)
      ensures Cleared(old(tables), old(owner), tables, owner, r, vpn, vpn + n)
      ensures if doFree || vpn >= top then Pool(freelist, owner) == old(Pool(freelist, owner))
              else Pool(freelist, owner) <= old(Pool(freelist, owner))
    {
      hide Space, Leaf, Pool, SameOutside, V, Listed;
      ghost var t0, o0, d0 := tables, owner, data;
      ClearedNone(t0, o0, d0, r, vpn);
      var a := vpn;
      while a < vpn + n
        invariant Valid() && vpn <= a <= vpn + n
        invariant SameData(owner, d0, data) && Dropped(o0, owner, r, vpn, a)
        invariant Cleared(t0, o0, tables, owner, r, vpn, a)
        invariant if doFree || vpn >= top then Pool(freelist, owner) == old(Pool(freelist, owner))
                  else Pool(freelist, owner) <= old(Pool(freelist, owner))
      {
        ghost var t1, o1 := tables, owner;
        StillMapped(t0, o0, tables, owner, r, vpn, vpn + n, a);
        UnmapOne(r, a, doFree);
        ClearedMore(t0, o0, t1, o1, tables, owner, r, vpn, a);
        a := a + 1;
      }
    }

    method Uvmdealloc(r: nat, oldsz: nat, newsz: nat) returns (sz: nat)
      requires Valid() && IsRoot(tables, owner, r) && Pages(oldsz) <= top
               && Mapped(tables, r, Pages(newsz), Pages(oldsz))
      modifies this`freelist, this`tables, this`data, this`owner
      ensures Valid() && sz == if newsz >= oldsz then oldsz else newsz
      ensures Pages(newsz) >= Pages(oldsz) ==> unchanged(this)
      ensures Pages(newsz) < Pages(oldsz)
              ==> Cleared(old(tables), old(owner), tables, owner, r, Pages(newsz), Pages(oldsz))
      ensures Pages(newsz) < Pages(oldsz) ==> SameData(owner, old(data), data)
                                              && Dropped(old(owner), owner, r, Pages(newsz), Pages(oldsz))
      ensures Pool(freelist, owner) == old(Pool(freelist, owner))
    {
      if newsz >= oldsz {
        return oldsz;
      }
      hide Space, Leaf, Pool, Listed;
      if Pages(newsz) < Pages(oldsz) {
        Uvmunmap(r, Pages(newsz), Pages(oldsz) - Pages(newsz), true);
      }
      return newsz;
    }

    // kalloc, memset or memmove, and mappages of one page.
    method AllocOne(r: nat, a: nat, w: Want) returns (ok: bool, ghost mem: nat)
      requires Valid() && IsRoot(tables, owner, r) && a < top && Unmapped(tables, r, a, a + 1) && w.perm < 1024
               && Rwx(w.perm)
      modifies this`freelist, this`tables, this`data, this`owner
      ensures Valid() && SameData(old(owner), old(data), data) && MoreOwned(old(owner), owner)
      ensures Pool(freelist, owner) == old(Pool(freelist, owner))
      ensures Ranged(old(tables), old(owner), tables, owner, r, a, if ok then a + 1 else a, mem, w.perm)
      ensures ok ==> mem % PGSIZE == 0 && mem !in old(owner) && mem in owner && owner[mem] == User(r, a) && mem in data
                     && data[mem] == w.content
      ensures Spent(old(freelist), freelist, ok, 3)
    {
      hide Space, Leaf, SameOutside, MkPte, Rwx, V, Filled;
      KeptSame(tables, owner, data);
      RangedNone(tables, owner, r, a, 0, w.perm);
      var page := Kalloc();
      mem := page;
      if page == 0 {
        return false, 0;
      }
      data := data[page := w.content];
      ok := MapOrFree(r, a, page, w.perm);
    }

    // mappages of one page in hand; kfree if that fails.
    method MapOrFree(r: nat, a: nat, page: nat, perm: nat) returns (ok: bool)
      requires Valid() && IsRoot(tables, owner, r) && a < top && Unmapped(tables, r, a, a + 1) && perm < 1024
               && Rwx(perm)
      requires Page(page) && page !in Pool(freelist, owner) && page in data
      modifies this`freelist, this`tables, this`data, this`owner
      ensures Valid() && SameData(old(owner), old(data), data) && MoreOwned(old(owner), owner)
      ensures Pool(freelist, owner) == old(Pool(freelist, owner)) + {page}
      ensures Ranged(old(tables), old(owner), tables, owner, r, a, if ok then a + 1 else a, page, perm)
      ensures ok ==> page in owner && owner[page] == User(r, a) && page in data && data[page] == old(data)[page]
      ensures Spent(old(freelist), freelist, ok, 2)
    {
      hide Space, Leaf, SameOutside, MkPte, Rwx, V, Filled;
      assert InHand(Pool(freelist, owner), page, a, 1, top);
      assert page !in freelist && page !in owner;
      ghost var done;
      ok, done := Mappages(r, a, 1, page, perm);
      if ok {
        NewOwner(tables, owner, top, r, a, page, perm);
      } else {
        assert page !in Pool(freelist, owner);
        Kfree(page);
      }
    }

    /** uvmalloc(): grows r to newsz with fresh zero pages, or undoes what it
        did. No page is lost either way, and other pages do not change. */
    method Uvmalloc(r: nat, oldsz: nat, newsz: nat, xperm: nat) returns (sz: nat)
      requires Valid() && IsRoot(tables, owner, r) && Pages(newsz) <= top
               && Unmapped(tables, r, Pages(oldsz), Pages(newsz))
      requires xperm in {0, 4, 8, 12}  // PTE_W, PTE_X
      modifies this`freelist, this`tables, this`data, this`owner
      ensures Valid() && Pool(freelist, owner) == old(Pool(freelist, owner))
      ensures newsz < oldsz ==> sz == oldsz && unchanged(this)
      ensures newsz >= oldsz ==> sz == newsz || sz == 0
      ensures newsz >= oldsz && sz == newsz ==>
                Grew(old(tables), old(owner), tables, owner, data, r, Pages(oldsz), Pages(newsz),
                    Zeros(Pages(newsz) - Pages(oldsz), 18 + xperm))
                && SameData(old(owner), old(data), data)
      ensures newsz >= oldsz && sz != newsz ==>
                Restored(old(tables), old(owner), old(data), tables, owner, data)
                    && |old(freelist)| < 3 * (Pages(newsz) - Pages(oldsz))
    {
      hide Space, Leaf, Pool, Listed, Grew, Restored, SameData, Unmapped, Rwx, Zeros, IsRoot;
      if newsz < oldsz {
        return oldsz;
      }
      UserPerm(xperm);
      var lo, hi := Pages(oldsz), Pages(newsz);
      var ok := AllocRange(r, lo, hi, 18 + xperm);
      sz := if ok then newsz else 0;
    }

    // The loop of uvmalloc over the pages lo to hi.
    method AllocRange(r: nat, lo: nat, hi: nat, perm: nat) returns (ok: bool)
      requires Valid() && IsRoot(tables, owner, r) && lo <= hi <= top && Unmapped(tables, r, lo, hi) && perm < 1024
               && Rwx(perm)
      modifies this`freelist, this`tables, this`data, this`owner
      ensures Valid() && Pool(freelist, owner) == old(Pool(freelist, owner))
      ensures ok ==> Grew(old(tables), old(owner), tables, owner, data, r, lo, hi, Zeros(hi - lo, perm))
                     && SameData(old(owner), old(data), data)
      ensures !ok ==> Restored(old(tables), old(owner), old(data), tables, owner, data)
                      && |old(freelist)| < 3 * (hi - lo)
    {
      hide Space, Leaf, SameOutside, Rwx, V, Pool, Listed, Filled, SameData;
      ghost var t0, o0, d0, want := tables, owner, data, Zeros(hi - lo, perm);
      GrewNone(t0, o0, d0, r, lo, want);
      var a := lo;
      while a < hi
        invariant lo <= a <= hi && Valid() && Pool(freelist, owner) == old(Pool(freelist, owner))
        invariant Grew(t0, o0, tables, owner, data, r, lo, a, want) && SameData(o0, d0, data)
        invariant Spent(old(freelist), freelist, true, 3 * (a - lo))
      {
        ghost var t1, o1, d1 := tables, owner, data;
        GrewUnmapped(t0, o0, t1, o1, d1, r, lo, a, hi, want);
        ghost var mem;
        ok, mem := AllocOne(r, a, Want(perm, Filled(0)));
        DataTrans(o0, d0, o1, d1, data);
        if !ok {
          GrewKept(t0, o0, t1, o1, d1, tables, owner, data, r, lo, a, want, a, mem, perm);
          UndoGrowth(r, lo, a, want, t0, o0, d0);
          return;
        }
        GrewMore(t0, o0, t1, o1, d1, tables, owner, data, r, lo, a, want, mem);
        a := a + 1;
      }
      ok := true;
    }

    // uvmunmap of the pages mapped so far.
    method UndoGrowth(r: nat, lo: nat, a: nat, ghost want: seq<Want>, ghost t0: Tables, ghost o0: map<nat, Owner>,
                      ghost d0: map<nat, Content>)
      requires Valid() && Space(t0, o0, top) && IsRoot(t0, o0, r) && lo <= a <= top && Unmapped(t0, r, lo, a)
      requires Grew(t0, o0, tables, owner, data, r, lo, a, want) && SameData(o0, d0, data)
      modifies this`freelist, this`tables, this`data, this`owner
      ensures Valid() && Pool(freelist, owner) == old(Pool(freelist, owner))
      ensures Restored(t0, o0, d0, tables, owner, data)
    {
      hide Space, Leaf, SameOutside, V, Pool, Listed, SameData, Restored, Dropped, Cleared, Mapped;
      ghost var t1, o1, d1 := tables, owner, data;
      GrewMapped(t0, o0, t1, o1, d1, r, lo, a, want);
      Uvmunmap(r, lo, a - lo, true);
      Undo(t0, o0, d0, t1, o1, d1, tables, owner, data, top, r, lo, a);
    }

    /** uvmcopy(): the child c gets pages of its own with the parent's flags and
        contents, or is left as it was; the parent's translations stay. */
    method Uvmcopy(p: nat, c: nat, size: nat) returns (ok: bool)
      requires Valid() && IsRoot(tables, owner, p) && IsRoot(tables, owner, c) && p != c
      requires Pages(size) <= top && Mapped(tables, p, 0, Pages(size)) && HasData(tables, data, p, Pages(size))
               && Unmapped(tables, c, 0, Pages(size))
      modifies this`freelist, this`tables, this`data, this`owner
      ensures Valid() && Pool(freelist, owner) == old(Pool(freelist, owner))
      ensures ok ==> Grew(old(tables), old(owner), tables, owner, data, c, 0, Pages(size),
              CopyOf(old(tables), old(data), p, Pages(size)))
                     && SameData(old(owner), old(data), data)
      ensures !ok ==> Restored(old(tables), old(owner), old(data), tables, owner, data)
                      && |old(freelist)| < 3 * Pages(size)
    {
      hide Space, Leaf, SameOutside, Rwx, V, Pool, Listed, SameData, Flags, Pa, Px, LowOf, HasData, Mapped;
      var n := Pages(size);
      ghost var t0, o0, d0, want := tables, owner, data, CopyOf(tables, data, p, n);
      GrewNone(t0, o0, d0, c, 0, want);
      var i := 0;
      while i < n
        invariant 0 <= i <= n && Valid() && Pool(freelist, owner) == old(Pool(freelist, owner))
        invariant Grew(t0, o0, tables, owner, data, c, 0, i, want) && SameData(o0, d0, data)
        invariant Spent(old(freelist), freelist, true, 3 * i)
      {
        ghost var t1, o1, d1 := tables, owner, data;
        ParentKept(t0, o0, d0, t1, o1, d1, top, p, c, i, want, n);
        GrewUnmapped(t0, o0, t1, o1, d1, c, 0, i, n, want);
        ghost var mem;
        ok, mem := CopyOne(p, c, i, want[i]);
        DataTrans(o0, d0, o1, d1, data);
        if !ok {
          GrewKept(t0, o0, t1, o1, d1, tables, owner, data, c, 0, i, want, i, mem, want[i].perm);
          UndoGrowth(c, 0, i, want, t0, o0, d0);
          return;
        }
        GrewMore(t0, o0, t1, o1, d1, tables, owner, data, c, 0, i, want, mem);
        i := i + 1;
      }
      ok := true;
    }

    // One round of uvmcopy's loop.
    method CopyOne(p: nat, c: nat, v: nat, ghost w: Want) returns (ok: bool, ghost mem: nat)
      requires Valid() && IsRoot(tables, owner, p) && IsRoot(tables, owner, c) && v < top && V(Leaf(tables, p, v))
               && Unmapped(tables, c, v, v + 1)
      requires Pa(Leaf(tables, p, v)) in data && w == Want(Flags(Leaf(tables, p, v)), data[Pa(Leaf(tables, p, v))])
               && Rwx(w.perm)
      modifies this`freelist, this`tables, this`data, this`owner
      ensures Valid() && SameData(old(owner), old(data), data) && MoreOwned(old(owner), owner)
      ensures Pool(freelist, owner) == old(Pool(freelist, owner))
      ensures Ranged(old(tables), old(owner), tables, owner, c, v, if ok then v + 1 else v, mem, w.perm)
      ensures ok ==> mem % PGSIZE == 0 && mem !in old(owner) && mem in owner && owner[mem] == User(c, v) && mem in data
                     && data[mem] == w.content
      ensures Spent(old(freelist), freelist, ok, 3)
    {
      hide Space, Leaf, SameOutside, Rwx, V, Pool, Listed, SameData, Flags, Pa, Px, LowOf;
      LeafFacts(tables, owner, top, p, v);
      var l := Walk(p, v, false);
      PutIs(tables, p, v, 0, l);
      var e := tables[l][Px(0, v)];
      FlagsRwx(e);
      ok, mem := AllocOne(c, v, Want(Flags(e), data[Pa(e)]));
    }

    method Walkaddr(r: nat, va: nat) returns (pa: nat)
      requires Valid() && IsRoot(tables, owner, r)
      modifies this`freelist, this`tables, this`data, this`owner
      ensures unchanged(this)
      ensures va >= MAXVPN * PGSIZE ==> pa == 0
      ensures va < MAXVPN * PGSIZE ==>
                pa == UserPage(tables, r, va / PGSIZE)
    {
      if va >= MAXVPN * PGSIZE {
        return 0;
      }
      var l := Walk(r, va / PGSIZE, false);
      if l == 0 {
        NoLow(tables, owner, top, r, va / PGSIZE);
        return 0;
      }
      var pte := tables[l][Px(0, va / PGSIZE)];
      assert pte == Leaf(tables, r, va / PGSIZE);
      if !V(pte) { return 0; }
      if !U(pte) { return 0; }
      pa := Pa(pte);
    }
  }

  // Page m at level 1 stays in place when only its own entry changes.
  lemma PathFacts(t: Tables, owner: map<nat, Owner>, t': Tables, owner': map<nat, Owner>, top: nat, r: nat, vpn: nat,
                  m: nat, l: nat)
    requires Space(t, owner, top) && IsRoot(t, owner, r) && vpn < MAXVPN && m == Next(t, r, Px(2, vpn)) != 0
    requires Stepped(t, t', owner', m, Px(1, vpn), l)
    ensures l == LowOf(t', r, vpn)
  {
    hide LeafOK;
    assert Down(t, owner, r, Px(2, vpn));
    assert Entry(t', r, Px(2, vpn)) == Entry(t, r, Px(2, vpn));
  }

  lemma RootFacts(t: Tables, owner: map<nat, Owner>, top: nat, r: nat)
    requires Space(t, owner, top) && IsRoot(t, owner, r)
    ensures r in t && r in owner && owner[r] == Table(r, Root) && 0 !in t
    ensures forall p :: p in t ==> |t[p]| == ENTRIES && p in owner
  {
    hide LeafOK, Up, Down;
    assert 0 !in owner;
  }

  lemma NoLow(t: Tables, owner: map<nat, Owner>, top: nat, r: nat, vpn: nat)
    requires Space(t, owner, top) && vpn < MAXVPN && LowOf(t, r, vpn) == 0
    ensures !V(Leaf(t, r, vpn))
  {
    hide LeafOK, Up, Down, LowOf;
    assert 0 !in owner;
  }

  lemma NoMid(t: Tables, owner: map<nat, Owner>, top: nat, r: nat, vpn: nat)
    requires Space(t, owner, top) && vpn < MAXVPN && Next(t, r, Px(2, vpn)) == 0
    ensures LowOf(t, r, vpn) == 0
  {
    hide LeafOK, Up, Down;
    assert 0 !in owner;
  }
}
