/** The three-level Sv39 page table as pages of entries in physical memory, the
    owner of every page in use, and the translation a table stands for. */
module PageTable {
  import opened Options
  import opened Counting

  const PGSIZE: nat := 4096
  const ENTRIES: nat := 512
  const MAXVPN: nat := 0x400_0000  // MAXVA / PGSIZE

  // ---- page-table entries (kernel/riscv.h)

  const PTE_V: nat := 1

  function Pa2Pte(pa: nat): nat { pa / 4096 * 1024 }

  // PTE2PA
  function Pa(pte: nat): nat { pte / 1024 * 4096 }

  // PTE_FLAGS
  function Flags(pte: nat): nat { pte % 1024 }

  predicate V(pte: nat) { pte % 2 == 1 }

  predicate U(pte: nat) { pte / 16 % 2 == 1 }

  // pte & (PTE_R|PTE_W|PTE_X)
  predicate Rwx(pte: nat) { pte / 2 % 8 != 0 }

  // perm | PTE_V
  function WithV(perm: nat): nat { if perm % 2 == 1 then perm else perm + 1 }

  // PA2PTE(pa) | perm | PTE_V
  function MkPte(pa: nat, perm: nat): nat { Pa2Pte(pa) + WithV(perm) }

  lemma MkPteFields(pa: nat, perm: nat)
    requires pa % PGSIZE == 0 && perm < 1024
    ensures Pa(MkPte(pa, perm)) == pa && Flags(MkPte(pa, perm)) == WithV(perm) && V(MkPte(pa, perm))
    ensures Rwx(MkPte(pa, perm)) == Rwx(perm) && !V(0)
  {
    var q, w := pa / 4096, WithV(perm);
    var x := q * 1024 + w;
    ModUnique(x, 1024, q, w);
    ModUnique(x, 2, q * 512 + w / 2, w % 2);
    ModUnique(q * 512 + w / 2, 8, q * 64 + w / 2 / 8, w / 2 % 8);
  }

  // Bit 4 of a set of flags.
  predicate HasUser(perm: nat) {
    perm % 32 >= 16
  }

  lemma UserBit(e: nat)
    ensures U(e) <==> HasUser(Flags(e))
  {
    var a, b := e / 1024, e % 1024;
    var c, d := b / 32, b % 32;
    assert e == (a * 64 + c * 2) * 16 + d;
    ModUnique(e, 16, a * 64 + c * 2 + d / 16, d % 16);
    ModUnique(e / 16, 2, a * 32 + c, d / 16);
  }

  lemma UserWithV(perm: nat)
    ensures HasUser(WithV(perm)) <==> HasUser(perm)
  {
    var c, d := perm / 32, perm % 32;
    assert perm == c * 32 + d && perm % 2 == d % 2;
    if perm % 2 == 0 {
      ModUnique(perm + 1, 32, c, d + 1);
    }
  }

  // ---- virtual addresses

  // PX(level, va)
  function PX(level: nat, va: nat): nat
    requires level < 3
  {
    (if level == 0 then va / 0x1000 else if level == 1 then va / 0x20_0000 else va / 0x4000_0000) % 512
  }

  // The same for a page number.
  function Px(level: nat, vpn: nat): (k: nat)
    requires level < 3 && vpn < MAXVPN
    ensures k < ENTRIES && (level == 2 ==> k < 256)
  {
    if level == 0 then vpn % 512 else if level == 1 then vpn / 512 % 512 else vpn / 0x4_0000
  }

  lemma PxAgrees(level: nat, va: nat)
    requires level < 3 && va < MAXVPN * PGSIZE
    ensures PX(level, va) == Px(level, va / PGSIZE)
  {
  }

  function Vpn(i: nat, j: nat, k: nat): nat { i * 0x4_0000 + j * 512 + k }

  // A page number is its three indices.
  lemma VpnIndices(vpn: nat)
    requires vpn < MAXVPN
    ensures Vpn(Px(2, vpn), Px(1, vpn), Px(0, vpn)) == vpn
  {
  }

  // ---- the tree

  type Tables = map<nat, seq<nat>>

  // A page-table page is the root, the level-1 page for index i, or the
  // level-0 page for indices i and j.
  datatype Role = Root | Mid(i: nat) | Low(i: nat, j: nat)

  datatype Owner = Table(root: nat, role: Role) | User(root: nat, vpn: nat)

  function Entry(t: Tables, p: nat, k: nat): nat {
    if p in t && k < |t[p]| then t[p][k] else 0
  }

  function Next(t: Tables, p: nat, k: nat): nat {
    if V(Entry(t, p, k)) then Pa(Entry(t, p, k)) else 0
  }

  // The pages walk() passes through, 0 where there is none.
  function MidOf(t: Tables, r: nat, vpn: nat): nat
    requires vpn < MAXVPN
  {
    Next(t, r, Px(2, vpn))
  }

  function LowOf(t: Tables, r: nat, vpn: nat): nat
    requires vpn < MAXVPN
  {
    Next(t, MidOf(t, r, vpn), Px(1, vpn))
  }

  // The level-0 entry for vpn, 0 where there is none.
  function Leaf(t: Tables, r: nat, vpn: nat): nat
    requires vpn < MAXVPN
  {
    Entry(t, LowOf(t, r, vpn), Px(0, vpn))
  }

  /** The partial map from pages to (physical page, flags) the table refines. */
  function Translate(t: Tables, r: nat, vpn: nat): Option<(nat, nat)>
    requires vpn < MAXVPN
  {
    var e := Leaf(t, r, vpn);
    if V(e) then Some((Pa(e), Flags(e))) else None
  }

  predicate Page(p: nat) { p > 0 && p % PGSIZE == 0 }

  function Kid(role: Role, k: nat): Role
    requires !role.Low?
  {
    if role.Root? then Mid(k) else Low(role.i, k)
  }

  ghost predicate Down(t: Tables, owner: map<nat, Owner>, p: nat, k: nat)
    requires p in owner && owner[p].Table? && !owner[p].role.Low?
  {
    var e := Entry(t, p, k);
    V(e) ==> !Rwx(e) && Pa(e) in owner && owner[Pa(e)] == Table(owner[p].root, Kid(owner[p].role, k))
  }

  // The entry that points to page p.
  ghost predicate Up(t: Tables, owner: map<nat, Owner>, p: nat)
    requires p in owner && owner[p].Table?
  {
    var r := owner[p].root;
    match owner[p].role
    case Root => r == p
    case Mid(i) => i < 256 && Next(t, r, i) == p
    case Low(i, j) => i < 256 && j < ENTRIES && Next(t, Next(t, r, i), j) == p
  }

  /** Table pages form one tree per root: every valid upper entry points to
      the page that has the role of that place, and back. */
  ghost predicate TreeOK(t: Tables, owner: map<nat, Owner>) {
    && (forall p :: p in owner ==> Page(p))
    && (forall p :: p in t <==> p in owner && owner[p].Table?)
    && (forall p :: p in t ==> |t[p]| == ENTRIES && Up(t, owner, p))
    && (forall p, k :: p in t && 0 <= k < ENTRIES && !owner[p].role.Low? ==> Down(t, owner, p, k))
    && (forall p :: p in t ==> owner[p].root in t && owner[owner[p].root] == Table(owner[p].root, Root))
  }

  ghost predicate IsRoot(t: Tables, owner: map<nat, Owner>, r: nat) {
    r in t && r in owner && owner[r] == Table(r, Root)
  }

  // A leaf looks like a leaf; below top it maps a page of its own.
  ghost predicate LeafAt(t: Tables, owner: map<nat, Owner>, top: nat, r: nat, vpn: nat)
    requires vpn < MAXVPN
  {
    var e := Leaf(t, r, vpn);
    V(e) ==> Rwx(e) && (vpn < top ==> Pa(e) in owner && owner[Pa(e)] == User(r, vpn))
  }

  // A user page is mapped where its owner says.
  ghost predicate UserAt(t: Tables, owner: map<nat, Owner>, top: nat, q: nat)
    requires q in owner && owner[q].User? && top <= MAXVPN
  {
    var r, vpn := owner[q].root, owner[q].vpn;
    vpn < top && IsRoot(t, owner, r) && V(Leaf(t, r, vpn)) && Pa(Leaf(t, r, vpn)) == q
  }

  ghost predicate LeafOK(t: Tables, owner: map<nat, Owner>, top: nat) {
    && top <= MAXVPN
    && (forall r, vpn :: IsRoot(t, owner, r) && 0 <= vpn < MAXVPN ==> LeafAt(t, owner, top, r, vpn))
    && (forall q :: q in owner && owner[q].User? ==> UserAt(t, owner, top, q))
  }

  // The pages on the way to a leaf have their roles.
  lemma PathRoles(t: Tables, owner: map<nat, Owner>, r: nat, vpn: nat)
    requires TreeOK(t, owner) && IsRoot(t, owner, r) && vpn < MAXVPN
    ensures var m := MidOf(t, r, vpn); m != 0 ==> m in t && owner[m] == Table(r, Mid(Px(2, vpn)))
    ensures var l := LowOf(t, r, vpn); l != 0 ==> l in t && owner[l] == Table(r, Low(Px(2, vpn), Px(1, vpn)))
    ensures 0 !in t
  {
    var m := MidOf(t, r, vpn);
    if m != 0 {
      assert Down(t, owner, r, Px(2, vpn));
      var l := LowOf(t, r, vpn);
      if l != 0 { assert Down(t, owner, m, Px(1, vpn)); }
    }
    assert 0 !in owner;
  }

  function EmptyPage(): (r: seq<nat>)
    ensures |r| == ENTRIES && forall k :: 0 <= k < ENTRIES ==> r[k] == 0
  {
    seq(ENTRIES, _ => 0)
  }

  // t with a new empty page n at entry k of page p.
  function Grown(t: Tables, p: nat, k: nat, n: nat): Tables
    requires p in t && k < |t[p]|
  {
    t[n := EmptyPage()][p := t[p][k := MkPte(n, 0)]]
  }

  ghost function GrownOwner(owner: map<nat, Owner>, p: nat, k: nat, n: nat): map<nat, Owner>
    requires p in owner && owner[p].Table? && !owner[p].role.Low?
  {
    owner[n := Table(owner[p].root, Kid(owner[p].role, k))]
  }

  // An upper entry of p is empty and there is a fresh page n for it.
  ghost predicate CanGrow(t: Tables, owner: map<nat, Owner>, p: nat, k: nat, n: nat) {
    && TreeOK(t, owner) && p in t && !owner[p].role.Low? && k < ENTRIES && !V(Entry(t, p, k))
    && (owner[p].role.Root? ==> k < 256)  // below MAXVA
    && Page(n) && n !in owner
  }

  lemma GrowEntries(t: Tables, owner: map<nat, Owner>, p: nat, k: nat, n: nat)
    requires CanGrow(t, owner, p, k, n)
    ensures forall q: nat, j: nat :: Next(Grown(t, p, k, n), q, j) == if q == p && j == k then n else Next(t, q, j)
    ensures forall q: nat, j: nat :: (q != p || j != k) && q != n ==> Entry(Grown(t, p, k, n), q, j) == Entry(t, q, j)
    ensures forall j: nat :: Entry(Grown(t, p, k, n), n, j) == 0
    ensures Entry(Grown(t, p, k, n), p, k) == MkPte(n, 0)
    ensures V(MkPte(n, 0)) && !Rwx(MkPte(n, 0)) && Pa(MkPte(n, 0)) == n && !V(0)
    ensures Next(t, p, k) == 0 && forall j: nat :: Next(t, 0, j) == 0
  {
    assert 0 !in owner;
    MkPteFields(n, 0);
    hide MkPte, Pa;
  }

  lemma GrowUp(t: Tables, owner: map<nat, Owner>, p: nat, k: nat, n: nat, q: nat)
    requires CanGrow(t, owner, p, k, n) && q in Grown(t, p, k, n)
    ensures Up(Grown(t, p, k, n), GrownOwner(owner, p, k, n), q)
  {
    hide V, Pa, MkPte, Rwx, Entry, Next;
    GrowEntries(t, owner, p, k, n);
    assert Up(t, owner, if q == n then p else q);
    assert Up(t, owner, p);
    assert 0 !in owner;
  }

  lemma GrowDown(t: Tables, owner: map<nat, Owner>, p: nat, k: nat, n: nat, q: nat, j: nat)
    requires CanGrow(t, owner, p, k, n) && q in Grown(t, p, k, n) && j < ENTRIES
             && !GrownOwner(owner, p, k, n)[q].role.Low?
    ensures Down(Grown(t, p, k, n), GrownOwner(owner, p, k, n), q, j)
  {
    hide V, Pa, MkPte, Rwx, Entry, Next, Up;
    GrowEntries(t, owner, p, k, n);
    if q != n { assert Down(t, owner, q, j); }
  }

  lemma GrowTree(t: Tables, owner: map<nat, Owner>, p: nat, k: nat, n: nat)
    requires CanGrow(t, owner, p, k, n)
    ensures TreeOK(Grown(t, p, k, n), GrownOwner(owner, p, k, n))
  {
    var t', owner' := Grown(t, p, k, n), GrownOwner(owner, p, k, n);
    forall q | q in t' ensures |t'[q]| == ENTRIES && Up(t', owner', q) {
      GrowUp(t, owner, p, k, n, q);
    }
    forall q, j | q in t' && 0 <= j < ENTRIES && !owner'[q].role.Low? ensures Down(t', owner', q, j) {
      GrowDown(t, owner, p, k, n, q, j);
    }
    hide Up, Down, MkPte;
  }

  // A new empty page changes no translation.
  lemma GrowLeaf(t: Tables, owner: map<nat, Owner>, p: nat, k: nat, n: nat, r: nat, vpn: nat)
    requires CanGrow(t, owner, p, k, n) && vpn < MAXVPN
    requires IsRoot(t, owner, r)
    ensures Leaf(Grown(t, p, k, n), r, vpn) == Leaf(t, r, vpn)
  {
    GrowEntries(t, owner, p, k, n);
    PathRoles(t, owner, r, vpn);
    assert 0 !in owner;
    hide V, Pa, MkPte, Rwx, Px, TreeOK;
  }

  // ---- writing a leaf

  function Put(t: Tables, r: nat, vpn: nat, e: nat): Tables
    requires vpn < MAXVPN
  {
    var l, k := LowOf(t, r, vpn), Px(0, vpn);
    if l in t && k < |t[l]| then
      var entries: seq<nat> := t[l][k := e]; t[l := entries]
    else t
  }

  ghost predicate HasLow(t: Tables, owner: map<nat, Owner>, r: nat, vpn: nat)
    requires vpn < MAXVPN
  {
    TreeOK(t, owner) && IsRoot(t, owner, r) && LowOf(t, r, vpn) != 0
  }

  // Upper entries stay, and so do other leaf entries.
  lemma PutEntries(t: Tables, owner: map<nat, Owner>, r: nat, vpn: nat, e: nat)
    requires vpn < MAXVPN && HasLow(t, owner, r, vpn)
    ensures var l := LowOf(t, r, vpn); l in t && owner[l] == Table(r, Low(Px(2, vpn), Px(1, vpn)))
    ensures forall q: nat, j: nat :: q != LowOf(t, r, vpn) || j != Px(0, vpn)
              ==> Entry(Put(t, r, vpn, e), q, j) == Entry(t, q, j)
    ensures Entry(Put(t, r, vpn, e), LowOf(t, r, vpn), Px(0, vpn)) == e
    ensures forall q: nat, j: nat :: q in owner && owner[q].Table? && !owner[q].role.Low?
              ==> Next(Put(t, r, vpn, e), q, j) == Next(t, q, j)
    ensures forall q :: q in Put(t, r, vpn, e) <==> q in t
    ensures forall q :: q in t ==> |Put(t, r, vpn, e)[q]| == |t[q]|
  {
    PathRoles(t, owner, r, vpn);
    hide V, Pa, Px;
  }

  lemma PutTree(t: Tables, owner: map<nat, Owner>, r: nat, vpn: nat, e: nat)
    requires vpn < MAXVPN && HasLow(t, owner, r, vpn)
    ensures TreeOK(Put(t, r, vpn, e), owner) && forall q :: IsRoot(Put(t, r, vpn, e), owner, q) <==> IsRoot(t, owner, q)
  {
    var t' := Put(t, r, vpn, e);
    PutEntries(t, owner, r, vpn, e);
    forall p | p in t' ensures Up(t', owner, p) {
      PutUp(t, owner, r, vpn, e, p);
    }
    forall p, k | p in t' && 0 <= k < ENTRIES && !owner[p].role.Low? ensures Down(t', owner, p, k) {
      assert Down(t, owner, p, k);
      assert Entry(t', p, k) == Entry(t, p, k);
    }
    hide Up, V, Pa, Px, Put;
  }

  lemma PutUp(t: Tables, owner: map<nat, Owner>, r: nat, vpn: nat, e: nat, p: nat)
    requires vpn < MAXVPN && HasLow(t, owner, r, vpn) && p in t
    ensures Up(Put(t, r, vpn, e), owner, p)
  {
    PutEntries(t, owner, r, vpn, e);
    assert Up(t, owner, p) && 0 !in owner;
    var o := owner[p];
    if o.role.Low? {
      assert Down(t, owner, o.root, o.role.i);
      var m := Next(t, o.root, o.role.i);
      assert m != 0 ==> m in owner && owner[m] == Table(o.root, Mid(o.role.i));
    }
    hide V, Pa, Px, Put, Entry, Rwx;
  }

  /** Writing the leaf of (r, vpn) changes exactly that one. */
  lemma PutLeaf(t: Tables, owner: map<nat, Owner>, r: nat, vpn: nat, e: nat, r': nat, vpn': nat)
    requires vpn < MAXVPN && HasLow(t, owner, r, vpn) && vpn' < MAXVPN && IsRoot(t, owner, r')
    ensures Leaf(Put(t, r, vpn, e), r', vpn') == if r' == r && vpn' == vpn then e else Leaf(t, r', vpn')
    ensures LowOf(Put(t, r, vpn, e), r', vpn') == LowOf(t, r', vpn')
  {
    PutEntries(t, owner, r, vpn, e);
    PathRoles(t, owner, r', vpn');
    PathRoles(t, owner, r, vpn);
    VpnIndices(vpn);
    VpnIndices(vpn');
    hide V, Pa, Px, Put, TreeOK;
  }

  // ---- the whole invariant

  ghost predicate Space(t: Tables, owner: map<nat, Owner>, top: nat) {
    TreeOK(t, owner) && LeafOK(t, owner, top)
  }

  // Owners of table pages agree.
  ghost predicate SameTables(a: map<nat, Owner>, b: map<nat, Owner>) {
    && (forall p :: p in a && a[p].Table? ==> p in b && b[p] == a[p])
    && (forall p :: p in b && b[p].Table? ==> p in a && a[p] == b[p])
    && (forall p :: p in b ==> Page(p))
  }

  lemma TreeSameTables(t: Tables, a: map<nat, Owner>, b: map<nat, Owner>)
    requires TreeOK(t, a) && SameTables(a, b)
    ensures TreeOK(t, b) && forall r :: IsRoot(t, a, r) <==> IsRoot(t, b, r)
  {
    forall p | p in t ensures Up(t, b, p) {
      assert Up(t, a, p);
    }
    forall p, k | p in t && 0 <= k < ENTRIES && !b[p].role.Low? ensures Down(t, b, p, k) {
      assert Down(t, a, p, k);
    }
    hide Up, Down;
  }

  // Where the leaves of t' and t agree, except at (r, vpn), and user pages
  // agree except for the page of that leaf, the invariant carries over.
  lemma LeafFrame(t: Tables, owner: map<nat, Owner>, t': Tables, owner': map<nat, Owner>, top: nat, r: nat, vpn: nat)
    requires LeafOK(t, owner, top) && vpn < MAXVPN
    requires forall q :: IsRoot(t', owner', q) <==> IsRoot(t, owner, q)
    requires forall q, v :: IsRoot(t, owner, q) && 0 <= v < MAXVPN && (q != r || v != vpn)
               ==> Leaf(t', q, v) == Leaf(t, q, v)
    requires forall q :: q in owner && owner[q].User? && owner[q] != User(r, vpn)
               ==> q in owner' && owner'[q] == owner[q]
    requires forall q :: q in owner' && owner'[q].User? && owner'[q] != User(r, vpn)
               ==> q in owner && owner[q] == owner'[q]
    requires IsRoot(t', owner', r) ==> LeafAt(t', owner', top, r, vpn)
    requires forall q :: q in owner' && owner'[q] == User(r, vpn) ==> UserAt(t', owner', top, q)
    ensures LeafOK(t', owner', top)
  {
    hide V, Pa, Rwx, Leaf;
    forall q, v | IsRoot(t', owner', q) && 0 <= v < MAXVPN ensures LeafAt(t', owner', top, q, v) {
      assert LeafAt(t, owner, top, q, v);
    }
    forall q | q in owner' && owner'[q].User? ensures UserAt(t', owner', top, q) {
      if owner'[q] != User(r, vpn) { assert UserAt(t, owner, top, q); }
    }
  }

  lemma OwnerPages(t: Tables, owner: map<nat, Owner>)
    requires TreeOK(t, owner)
    ensures forall p :: p in owner ==> Page(p)
  {
  }

  ghost function MapOwner(owner: map<nat, Owner>, top: nat, r: nat, vpn: nat, pa: nat): map<nat, Owner> {
    if vpn < top then owner[pa := User(r, vpn)] else owner
  }

  lemma MapLeaf(t: Tables, owner: map<nat, Owner>, top: nat, r: nat, vpn: nat, pa: nat, perm: nat)
    requires Space(t, owner, top) && vpn < MAXVPN && HasLow(t, owner, r, vpn) && !V(Leaf(t, r, vpn))
    requires pa % PGSIZE == 0 && perm < 1024 && Rwx(perm) && (vpn < top ==> Page(pa) && pa !in owner)
    ensures Space(Put(t, r, vpn, MkPte(pa, perm)), MapOwner(owner, top, r, vpn, pa), top)
  {
    hide V, Pa, MkPte, Rwx, Px, Put, Leaf, TreeOK;
    var e := MkPte(pa, perm);
    var t', owner' := Put(t, r, vpn, e), MapOwner(owner, top, r, vpn, pa);
    MkPteFields(pa, perm);
    PutTree(t, owner, r, vpn, e);
    OwnerPages(t, owner);
    TreeSameTables(t', owner, owner');
    PutLeaf(t, owner, r, vpn, e, r, vpn);
    forall q | q in owner && owner[q].User? ensures owner[q] != User(r, vpn) {
      assert UserAt(t, owner, top, q);
    }
    forall q, v | IsRoot(t, owner, q) && 0 <= v < MAXVPN && (q != r || v != vpn)
      ensures Leaf(t', q, v) == Leaf(t, q, v)
    {
      PutLeaf(t, owner, r, vpn, e, q, v);
    }
    LeafFrame(t, owner, t', owner', top, r, vpn);
  }

  ghost function UnmapOwner(t: Tables, owner: map<nat, Owner>, top: nat, r: nat, vpn: nat): map<nat, Owner>
    requires vpn < MAXVPN
  {
    if vpn < top then owner - {Pa(Leaf(t, r, vpn))} else owner
  }

  lemma DropUser(owner: map<nat, Owner>, q: nat)
    requires q in owner && owner[q].User? && forall p :: p in owner ==> Page(p)
    ensures SameTables(owner, owner - {q})
    ensures forall p :: p in owner - {q} <==> p in owner && p != q
    ensures forall p :: p in owner - {q} ==> (owner - {q})[p] == owner[p]
  {
  }

  lemma UnmapLeaf(t: Tables, owner: map<nat, Owner>, top: nat, r: nat, vpn: nat)
    requires Space(t, owner, top) && vpn < MAXVPN && HasLow(t, owner, r, vpn) && V(Leaf(t, r, vpn))
    ensures Space(Put(t, r, vpn, 0), UnmapOwner(t, owner, top, r, vpn), top)
    ensures vpn < top ==> Pa(Leaf(t, r, vpn)) in owner && owner[Pa(Leaf(t, r, vpn))] == User(r, vpn)
  {
    assert !V(0);
    hide V, Pa, Rwx, Px, Put, Leaf, TreeOK;
    var t', owner' := Put(t, r, vpn, 0), UnmapOwner(t, owner, top, r, vpn);
    assert LeafAt(t, owner, top, r, vpn);
    PutTree(t, owner, r, vpn, 0);
    OwnerPages(t, owner);
    if vpn < top { DropUser(owner, Pa(Leaf(t, r, vpn))); }
    TreeSameTables(t', owner, owner');
    PutLeaf(t, owner, r, vpn, 0, r, vpn);
    hide SameTables;
    forall q | q in owner && owner[q] == User(r, vpn) ensures q == Pa(Leaf(t, r, vpn)) && vpn < top {
      assert UserAt(t, owner, top, q);
    }
    forall q, v | IsRoot(t, owner, q) && 0 <= v < MAXVPN && (q != r || v != vpn)
      ensures Leaf(t', q, v) == Leaf(t, q, v)
    {
      PutLeaf(t, owner, r, vpn, 0, q, v);
    }
    LeafFrame(t, owner, t', owner', top, r, vpn);
  }

  lemma GrowRoots(t: Tables, owner: map<nat, Owner>, p: nat, k: nat, n: nat)
    requires CanGrow(t, owner, p, k, n)
    ensures forall r :: IsRoot(Grown(t, p, k, n), GrownOwner(owner, p, k, n), r) <==> IsRoot(t, owner, r)
    ensures forall q :: q in owner ==> q in GrownOwner(owner, p, k, n) && GrownOwner(owner, p, k, n)[q] == owner[q]
    ensures forall q :: q in GrownOwner(owner, p, k, n) && q != n ==> q in owner
    ensures GrownOwner(owner, p, k, n)[n].Table?
  {
  }

  lemma GrowSpace(t: Tables, owner: map<nat, Owner>, top: nat, p: nat, k: nat, n: nat)
    requires CanGrow(t, owner, p, k, n) && Space(t, owner, top)
    ensures Space(Grown(t, p, k, n), GrownOwner(owner, p, k, n), top)
    ensures forall r :: IsRoot(Grown(t, p, k, n), GrownOwner(owner, p, k, n), r) <==> IsRoot(t, owner, r)
    ensures forall r, v :: IsRoot(t, owner, r) && 0 <= v < MAXVPN ==> Leaf(Grown(t, p, k, n), r, v) == Leaf(t, r, v)
  {
    GrowTree(t, owner, p, k, n);
    GrowRoots(t, owner, p, k, n);
    forall r, v | IsRoot(t, owner, r) && 0 <= v < MAXVPN ensures Leaf(Grown(t, p, k, n), r, v) == Leaf(t, r, v) {
      GrowLeaf(t, owner, p, k, n, r, v);
    }
    LeafCarries(t, owner, Grown(t, p, k, n), GrownOwner(owner, p, k, n), top);
    hide *;
  }

  lemma LeafCarries(t: Tables, owner: map<nat, Owner>, t': Tables, owner': map<nat, Owner>, top: nat)
    requires LeafOK(t, owner, top)
    requires forall r :: IsRoot(t', owner', r) <==> IsRoot(t, owner, r)
    requires forall r, v :: IsRoot(t, owner, r) && 0 <= v < MAXVPN ==> Leaf(t', r, v) == Leaf(t, r, v)
    requires forall q :: q in owner ==> q in owner' && owner'[q] == owner[q]
    requires forall q :: q in owner' && owner'[q].User? ==> q in owner
    ensures LeafOK(t', owner', top)
  {
    hide V, Pa, Rwx, Leaf;
    forall r, v | IsRoot(t', owner', r) && 0 <= v < MAXVPN ensures LeafAt(t', owner', top, r, v) {
      assert LeafAt(t, owner, top, r, v);
    }
    forall q | q in owner' && owner'[q].User? ensures UserAt(t', owner', top, q) {
      assert UserAt(t, owner, top, q);
    }
  }
}
