/** Creating a page table and freeing it again: freewalk and uvmfree. */
module VmFree {
  import opened PageTable
  import opened Vm

  // x is role itself, or below it in the tree.
  predicate Under(role: Role, x: Role) {
    match role
    case Root => true
    case Mid(i) => x == Mid(i) || (x.Low? && x.i == i)
    case Low(i, j) => x == role
  }

  // The index, in a page of the given role, of the branch that x is in.
  function Branch(role: Role, x: Role): nat {
    if role.Root? then (if x.Mid? || x.Low? then x.i else 0) else if x.Low? then x.j else 0
  }

  ghost predicate InTree(owner: map<nat, Owner>, r: nat, role: Role, x: nat) {
    x in owner && owner[x].Table? && owner[x].root == r && Under(role, owner[x].role)
  }

  // Pages strictly below role in the branches before i.
  ghost predicate Before(owner: map<nat, Owner>, r: nat, role: Role, i: nat, x: nat) {
    InTree(owner, r, role, x) && owner[x].role != role && Branch(role, owner[x].role) < i
  }

  // No level-0 page of r has a valid entry.
  ghost predicate NoLeaf(t: Tables, owner: map<nat, Owner>, r: nat) {
    forall q, k :: q in t && q in owner && owner[q].Table? && owner[q].root == r && owner[q].role.Low?
                   && 0 <= k < ENTRIES
                   ==> !V(Entry(t, q, k))
  }

  lemma OneOfRole(t: Tables, owner: map<nat, Owner>, p: nat, x: nat)
    requires TreeOK(t, owner) && p in t && x in t && owner[x] == owner[p]
    ensures x == p
  {
    assert Up(t, owner, p) && Up(t, owner, x);
  }

  // A branch with pages in it hangs on a valid entry.
  lemma BranchEntry(t: Tables, owner: map<nat, Owner>, p: nat, x: nat)
    requires TreeOK(t, owner) && p in t && !owner[p].role.Low?
    requires InTree(owner, owner[p].root, owner[p].role, x) && owner[x].role != owner[p].role
    ensures V(Entry(t, p, Branch(owner[p].role, owner[x].role)))
  {
    assert !V(0);
    hide V, Pa, Rwx;
    assert x in t && Up(t, owner, x) && Up(t, owner, p) && 0 !in owner;
  }

  lemma BranchBounds(t: Tables, owner: map<nat, Owner>, p: nat, x: nat)
    requires TreeOK(t, owner) && p in t && InTree(owner, owner[p].root, owner[p].role, x)
             && owner[x].role != owner[p].role
    ensures Branch(owner[p].role, owner[x].role) < ENTRIES && !owner[p].role.Low?
  {
    assert x in t && Up(t, owner, x);
  }

  // The next branch is the tree of the page that entry i points to.
  lemma NextBranch(t: Tables, owner: map<nat, Owner>, p: nat, i: nat, x: nat)
    requires TreeOK(t, owner) && p in t && i < ENTRIES && !owner[p].role.Low?
    ensures var r, role := owner[p].root, owner[p].role;
            Before(owner, r, role, i + 1, x) <==> Before(owner, r, role, i, x)
                                                  || (V(Entry(t, p, i)) && InTree(owner, r, Kid(role, i), x))
  {
    hide V, Pa, Rwx;
    var r, role := owner[p].root, owner[p].role;
    if Before(owner, r, role, i + 1, x) {
      BranchEntry(t, owner, p, x);
    }
  }

  // ---- freewalk

  ghost predicate Distinct(s: seq<nat>) {
    forall i, j :: 0 <= i < j < |s| ==> s[i] != s[j]
  }

  // From (t, f) to (t', f'), exactly the pages in P moved from tables to the
  // free list.
  ghost predicate Moved(t: Tables, f: seq<nat>, t': Tables, f': seq<nat>, P: iset<nat>) {
    && Distinct(f')
    && (forall q :: q in t' <==> q in t && q !in P)
    && (forall q :: q in t' ==> t'[q] == t[q])
    && (forall x :: x in f' <==> x in f || x in P)
  }

  ghost function TreeSet(owner: map<nat, Owner>, r: nat, role: Role): iset<nat> {
    iset x | InTree(owner, r, role, x)
  }

  function Rank(role: Role): nat {
    match role case Root => 2 case Mid(_) => 1 case Low(_, _) => 0
  }

  // The tree of role is still as in t, and none of it is free yet.
  ghost predicate Intact(t: Tables, owner: map<nat, Owner>, tables: Tables, f: seq<nat>, r: nat, role: Role) {
    forall x :: InTree(owner, r, role, x) ==> x in t && x in tables && tables[x] == t[x] && x !in f
  }

  // While freewalk is at entry i of p: the branches before i are gone and
  // entries of p may have been cleared.
  ghost predicate AtEntry(t: Tables, owner: map<nat, Owner>, t0: Tables, f0: seq<nat>, tables: Tables, f: seq<nat>,
                          p: nat, i: nat) {
    && p in owner && owner[p].Table? && p in tables && p in t && |tables[p]| == |t[p]| == ENTRIES
    && Distinct(f)
    && (forall k :: i <= k < ENTRIES ==> tables[p][k] == t[p][k])
    && (forall q :: q in tables <==> q in t0 && !Before(owner, owner[p].root, owner[p].role, i, q))
    && (forall q :: q in tables && q != p ==> tables[q] == t0[q])
    && (forall x :: x in f <==> x in f0 || Before(owner, owner[p].root, owner[p].role, i, x))
  }

  // Nothing is before entry 0.
  lemma AtStart(t: Tables, owner: map<nat, Owner>, tables: Tables, f: seq<nat>, p: nat)
    requires TreeOK(t, owner) && p in t && Distinct(f) && Intact(t, owner, tables, f, owner[p].root, owner[p].role)
    ensures AtEntry(t, owner, tables, f, tables, f, p, 0)
  {
    assert InTree(owner, owner[p].root, owner[p].role, p);
    hide Branch;
  }

  // A valid entry i: its subtree has been moved, and the entry cleared.
  lemma AfterBranch(t: Tables, owner: map<nat, Owner>, t0: Tables, f0: seq<nat>, t1: Tables, f1: seq<nat>, t2: Tables,
                    f2: seq<nat>, p: nat, i: nat)
    requires TreeOK(t, owner) && AtEntry(t, owner, t0, f0, t1, f1, p, i) && i < ENTRIES && V(Entry(t, p, i))
             && !owner[p].role.Low?
    requires Intact(t, owner, t0, f0, owner[p].root, owner[p].role)
    requires Moved(t1, f1, t2, f2, TreeSet(owner, owner[p].root, Kid(owner[p].role, i)))
    ensures p in t2 && |t2[p]| == ENTRIES
    ensures var page: seq<nat> := t2[p][i := 0]; AtEntry(t, owner, t0, f0, t2[p := page], f2, p, i + 1)
  {
    hide V;
    forall x ensures Before(owner, owner[p].root, owner[p].role, i + 1, x) <==>
                     Before(owner, owner[p].root, owner[p].role, i, x)
                         || InTree(owner, owner[p].root, Kid(owner[p].role, i), x)
    {
      NextBranch(t, owner, p, i, x);
    }
    assert !InTree(owner, owner[p].root, Kid(owner[p].role, i), p);
    hide InTree, Before, TreeOK;
  }

  // An invalid entry i, or one of a level-0 page.
  lemma SkipBranch(t: Tables, owner: map<nat, Owner>, t0: Tables, f0: seq<nat>, tables: Tables, f: seq<nat>, p: nat,
                   i: nat)
    requires TreeOK(t, owner) && AtEntry(t, owner, t0, f0, tables, f, p, i) && i < ENTRIES && !V(Entry(t, p, i))
    ensures AtEntry(t, owner, t0, f0, tables, f, p, i + 1)
  {
    hide V;
    forall x
      ensures Before(owner, owner[p].root, owner[p].role, i + 1, x)
              <==> Before(owner, owner[p].root, owner[p].role, i, x)
    {
      if owner[p].role.Low? { } else { NextBranch(t, owner, p, i, x); }
    }
    hide InTree, Before, TreeOK;
  }

  // All branches are gone and p goes too.
  lemma AtEnd(t: Tables, owner: map<nat, Owner>, t0: Tables, f0: seq<nat>, tables: Tables, f: seq<nat>, p: nat)
    requires TreeOK(t, owner) && AtEntry(t, owner, t0, f0, tables, f, p, ENTRIES)
    requires Intact(t, owner, t0, f0, owner[p].root, owner[p].role)
    ensures p !in f && Moved(t0, f0, tables - {p}, [p] + f, TreeSet(owner, owner[p].root, owner[p].role))
  {
    var r, role := owner[p].root, owner[p].role;
    forall x ensures InTree(owner, r, role, x) <==> x == p || Before(owner, r, role, ENTRIES, x) {
      if InTree(owner, r, role, x) {
        if owner[x].role == role { OneOfRole(t, owner, p, x); } else { BranchBounds(t, owner, p, x); }
      }
    }
    assert InTree(owner, r, role, p) && !Before(owner, r, role, ENTRIES, p);
    hide InTree, Before, TreeOK;
  }

  lemma EntryKid(t: Tables, owner: map<nat, Owner>, p: nat, i: nat)
    requires TreeOK(t, owner) && p in t && i < ENTRIES && NoLeaf(t, owner, owner[p].root) && V(Entry(t, p, i))
    ensures !owner[p].role.Low? && !Rwx(Entry(t, p, i)) && Page(Pa(Entry(t, p, i)))
    ensures Pa(Entry(t, p, i)) in t && owner[Pa(Entry(t, p, i))] == Table(owner[p].root, Kid(owner[p].role, i))
  {
    hide V, Pa, Rwx;
    assert !owner[p].role.Low? ==> Down(t, owner, p, i);
  }

  // The subtree of a kid is part of the tree, and not yet freed.
  lemma KidIntact(t: Tables, owner: map<nat, Owner>, t0: Tables, f0: seq<nat>, tables: Tables, f: seq<nat>, p: nat,
                  i: nat)
    requires TreeOK(t, owner) && AtEntry(t, owner, t0, f0, tables, f, p, i) && i < ENTRIES && !owner[p].role.Low?
    requires Intact(t, owner, t0, f0, owner[p].root, owner[p].role)
    ensures Intact(t, owner, tables, f, owner[p].root, Kid(owner[p].role, i))
  {
    hide TreeOK;
    forall x | InTree(owner, owner[p].root, Kid(owner[p].role, i), x)
      ensures x in t && x in tables && tables[x] == t[x] && x !in f
    {
      assert InTree(owner, owner[p].root, owner[p].role, x) && !Before(owner, owner[p].root, owner[p].role, i, x)
             && x != p;
    }
  }

  /** freewalk(): the page p and every page below it leave the tables and join
      the free list, each once. t and owner describe the tree at the start of
      the outermost call. */
  method Freewalk(m: Memory, p: nat, ghost t: Tables, ghost owner: map<nat, Owner>)
    requires TreeOK(t, owner) && p in t && NoLeaf(t, owner, owner[p].root)  // panics on a leaf
    requires Distinct(m.freelist) && Intact(t, owner, m.tables, m.freelist, owner[p].root, owner[p].role)
    modifies m`freelist, m`tables, m`data
    ensures Moved(old(m.tables), old(m.freelist), m.tables, m.freelist, TreeSet(owner, owner[p].root, owner[p].role))
    ensures forall q :: q in old(m.data) && !InTree(owner, owner[p].root, owner[p].role, q)
              ==> q in m.data && m.data[q] == old(m.data)[q]
    decreases Rank(owner[p].role)
  {
    hide TreeOK, NoLeaf, Intact, V, Rwx, Pa, AtEntry;
    ghost var t0, f0, d0 := m.tables, m.freelist, m.data;
    TablePage(t, owner, p);
    AtStart(t, owner, t0, f0, p);
    for i := 0 to ENTRIES
      invariant AtEntry(t, owner, t0, f0, m.tables, m.freelist, p, i)
      invariant forall q :: q in d0 && !InTree(owner, owner[p].root, owner[p].role, q)
                  ==> q in m.data && m.data[q] == d0[q]
    {
      EntryNow(t, owner, t0, f0, m.tables, m.freelist, p, i);
      var pte := m.tables[p][i];
      if V(pte) && !Rwx(pte) {
        EntryKid(t, owner, p, i);
        KidIntact(t, owner, t0, f0, m.tables, m.freelist, p, i);
        ghost var t1, f1 := m.tables, m.freelist;
        Freewalk(m, Pa(pte), t, owner);
        AfterBranch(t, owner, t0, f0, t1, f1, m.tables, m.freelist, p, i);
        var page: seq<nat> := m.tables[p][i := 0];
        m.tables := m.tables[p := page];
      } else {
        if V(pte) { EntryKid(t, owner, p, i); }
        SkipBranch(t, owner, t0, f0, m.tables, m.freelist, p, i);
      }
    }
    AtEnd(t, owner, t0, f0, m.tables, m.freelist, p);
    m.Kfree(p);
    m.tables := m.tables - {p};
  }

  lemma TablePage(t: Tables, owner: map<nat, Owner>, p: nat)
    requires TreeOK(t, owner) && p in t
    ensures Page(p) && p in owner && owner[p].Table? && InTree(owner, owner[p].root, owner[p].role, p)
  {
  }

  lemma EntryNow(t: Tables, owner: map<nat, Owner>, t0: Tables, f0: seq<nat>, tables: Tables, f: seq<nat>, p: nat,
                 i: nat)
    requires AtEntry(t, owner, t0, f0, tables, f, p, i) && i < ENTRIES
    ensures p in tables && |tables[p]| == ENTRIES && tables[p][i] == Entry(t, p, i) && Distinct(f)
  {
  }

  // ---- uvmcreate and uvmfree

  // With no page of r mapped there is no leaf in its tree.
  lemma UnmappedNoLeaf(t: Tables, owner: map<nat, Owner>, r: nat)
    requires TreeOK(t, owner) && IsRoot(t, owner, r) && Unmapped(t, r, 0, MAXVPN)
    ensures NoLeaf(t, owner, r)
  {
    forall q, k | q in t && q in owner && owner[q].Table? && owner[q].root == r && owner[q].role.Low?
        && 0 <= k < ENTRIES
      ensures !V(Entry(t, q, k))
    {
      var i, j := owner[q].role.i, owner[q].role.j;
      assert Up(t, owner, q);
      VpnBack(i, j, k);
      hide V, Pa, Px, TreeOK;
      assert LowOf(t, r, Vpn(i, j, k)) == q;
      assert Leaf(t, r, Vpn(i, j, k)) == Entry(t, q, k);
    }
  }

  lemma VpnBack(i: nat, j: nat, k: nat)
    requires i < 256 && j < ENTRIES && k < ENTRIES
    ensures Vpn(i, j, k) < MAXVPN && Px(2, Vpn(i, j, k)) == i && Px(1, Vpn(i, j, k)) == j && Px(0, Vpn(i, j, k)) == k
  {
  }

  ghost function WithoutRoot(owner: map<nat, Owner>, r: nat): map<nat, Owner> {
    map x | x in owner && owner[x].root != r :: owner[x]
  }

  // t' is t without the pages of r.
  ghost predicate Removed(t: Tables, owner: map<nat, Owner>, t': Tables, r: nat) {
    && (forall q :: q in t' <==> q in t && q in owner && owner[q].root != r)
    && (forall q :: q in t' ==> t'[q] == t[q])
  }

  lemma RemoveTree(t: Tables, owner: map<nat, Owner>, t': Tables, r: nat)
    requires TreeOK(t, owner) && Removed(t, owner, t', r)
    ensures TreeOK(t', WithoutRoot(owner, r))
    ensures forall q :: IsRoot(t', WithoutRoot(owner, r), q) <==> IsRoot(t, owner, q) && q != r
  {
    var owner' := WithoutRoot(owner, r);
    assert forall q, k: nat :: q in t' ==> Entry(t', q, k) == Entry(t, q, k);
    forall p | p in t' ensures Up(t', owner', p) {
      RemoveUp(t, owner, t', r, p);
    }
    forall p, k | p in t' && 0 <= k < ENTRIES && !owner'[p].role.Low? ensures Down(t', owner', p, k) {
      assert Down(t, owner, p, k);
    }
    forall q ensures IsRoot(t', owner', q) <==> IsRoot(t, owner, q) && q != r {
      if IsRoot(t', owner', q) { assert q in t; }
    }
    hide Up, Down, V, Pa, Rwx;
  }

  lemma RemoveUp(t: Tables, owner: map<nat, Owner>, t': Tables, r: nat, p: nat)
    requires TreeOK(t, owner) && Removed(t, owner, t', r) && p in t'
    ensures p in WithoutRoot(owner, r) && Up(t', WithoutRoot(owner, r), p)
  {
    var o := owner[p];
    assert Up(t, owner, p) && 0 !in owner;
    assert o.root in t' by { assert o.root in t && owner[o.root] == Table(o.root, Root); }
    if o.role.Low? {
      assert Down(t, owner, o.root, o.role.i);
      var m := Next(t, o.root, o.role.i);
      assert m in t';
    }
  }

  lemma RemoveSpace(t: Tables, owner: map<nat, Owner>, top: nat, t': Tables, r: nat)
    requires Space(t, owner, top) && Removed(t, owner, t', r)
    ensures Space(t', WithoutRoot(owner, r), top)
    ensures forall q, v :: IsRoot(t, owner, q) && q != r && 0 <= v < MAXVPN ==> Leaf(t', q, v) == Leaf(t, q, v)
  {
    var owner' := WithoutRoot(owner, r);
    RemoveTree(t, owner, t', r);
    forall q, v | IsRoot(t, owner, q) && q != r && 0 <= v < MAXVPN ensures Leaf(t', q, v) == Leaf(t, q, v) {
      RemoveLeaf(t, owner, t', r, q, v);
    }
    hide TreeOK, Leaf, V, Pa, Rwx;
    forall q, v | IsRoot(t', owner', q) && 0 <= v < MAXVPN ensures LeafAt(t', owner', top, q, v) {
      assert LeafAt(t, owner, top, q, v);
    }
    forall q | q in owner' && owner'[q].User? ensures UserAt(t', owner', top, q) {
      assert UserAt(t, owner, top, q);
    }
  }

  lemma RemoveLeaf(t: Tables, owner: map<nat, Owner>, t': Tables, r: nat, q: nat, v: nat)
    requires TreeOK(t, owner) && Removed(t, owner, t', r) && IsRoot(t, owner, q) && q != r && v < MAXVPN
    ensures Leaf(t', q, v) == Leaf(t, q, v)
  {
    PathRoles(t, owner, q, v);
    assert !V(0);
    hide V, Pa, Px, TreeOK;
  }

  // Adding an empty root.
  lemma AddRoot(t: Tables, owner: map<nat, Owner>, top: nat, n: nat)
    requires Space(t, owner, top) && Page(n) && n !in owner
    ensures Space(t[n := EmptyPage()], owner[n := Table(n, Root)], top)
    ensures Unmapped(t[n := EmptyPage()], n, 0, MAXVPN) && IsRoot(t[n := EmptyPage()], owner[n := Table(n, Root)], n)
    ensures forall q, v :: IsRoot(t, owner, q) && 0 <= v < MAXVPN ==> Leaf(t[n := EmptyPage()], q, v) == Leaf(t, q, v)
  {
    var t', owner' := t[n := EmptyPage()], owner[n := Table(n, Root)];
    AddRootTree(t, owner, n);
    AddRootLeaf(t, owner, n, t');
    assert !V(0);
    hide TreeOK, Leaf, V, Pa, Rwx, EmptyPage;
    forall q, v | IsRoot(t', owner', q) && 0 <= v < MAXVPN ensures LeafAt(t', owner', top, q, v) {
      if q != n { assert LeafAt(t, owner, top, q, v); }
    }
    forall q | q in owner' && owner'[q].User? ensures UserAt(t', owner', top, q) {
      assert UserAt(t, owner, top, q);
    }
  }

  lemma AddRootLeaf(t: Tables, owner: map<nat, Owner>, n: nat, t': Tables)
    requires TreeOK(t, owner) && Page(n) && n !in owner && t' == t[n := EmptyPage()]
    ensures forall q, v :: IsRoot(t, owner, q) && 0 <= v < MAXVPN ==> Leaf(t', q, v) == Leaf(t, q, v)
    ensures forall v :: 0 <= v < MAXVPN ==> Leaf(t', n, v) == 0
  {
    assert !V(0) && n !in t && 0 !in owner;
    assert forall q, k: nat :: q in t ==> Entry(t', q, k) == Entry(t, q, k);
    assert forall k: nat :: Entry(t', n, k) == 0;
    hide V, Pa, Rwx, Up, Down, Px;
    forall q, v | IsRoot(t, owner, q) && 0 <= v < MAXVPN ensures Leaf(t', q, v) == Leaf(t, q, v) {
      PathRoles(t, owner, q, v);
    }
  }

  lemma AddRootTree(t: Tables, owner: map<nat, Owner>, n: nat)
    requires TreeOK(t, owner) && Page(n) && n !in owner
    ensures TreeOK(t[n := EmptyPage()], owner[n := Table(n, Root)])
  {
    var t', owner' := t[n := EmptyPage()], owner[n := Table(n, Root)];
    assert !V(0) && n !in t && 0 !in owner;
    hide V, Pa, Rwx;
    assert forall q, k: nat :: q in t ==> Entry(t', q, k) == Entry(t, q, k);
    assert forall k: nat :: Entry(t', n, k) == 0;
    forall p | p in t' ensures Up(t', owner', p) {
      if p != n {
        assert Up(t, owner, p);
        if owner[p].role.Low? { assert Down(t, owner, owner[p].root, owner[p].role.i); }
      }
    }
    forall p, k | p in t' && 0 <= k < ENTRIES && !owner'[p].role.Low? ensures Down(t', owner', p, k) {
      if p != n { assert Down(t, owner, p, k); }
    }
  }

  // An empty user page table, or 0.
  method Uvmcreate(m: Memory) returns (r: nat)
    requires m.Valid()
    modifies m`freelist, m`tables, m`data, m`owner
    ensures m.Valid() && Pool(m.freelist, m.owner) == old(Pool(m.freelist, m.owner))
    ensures r == 0 <==> old(m.freelist) == []
    ensures r != 0 ==> IsRoot(m.tables, m.owner, r) && r !in old(m.owner) && Unmapped(m.tables, r, 0, MAXVPN)
    ensures SameOutside(old(m.tables), old(m.owner), m.tables, 0, 0, 0)
  {
    KeptSame(m.tables, m.owner, m.data);
    hide Space, Leaf, SameOutside;
    r := m.Kalloc();
    if r != 0 {
      AddRoot(m.tables, m.owner, m.top, r);
      assert SameOutside(m.tables, m.owner, m.tables[r := EmptyPage()], 0, 0, 0) by {
        SameLeaves(m.tables, m.owner, m.tables[r := EmptyPage()]);
      }
      m.tables := m.tables[r := EmptyPage()];
      ghost var owner' := m.owner[r := Table(r, Root)];
      assert owner'.Keys == m.owner.Keys + {r};
      m.owner := owner';
    }
  }

  lemma SameLeaves(t: Tables, owner: map<nat, Owner>, t': Tables)
    requires forall q, v :: IsRoot(t, owner, q) && 0 <= v < MAXVPN ==> Leaf(t', q, v) == Leaf(t, q, v)
    ensures SameOutside(t, owner, t', 0, 0, 0)
  {
  }

  // The tree of r has moved to the free list.
  lemma TreeFreed(t: Tables, owner: map<nat, Owner>, top: nat, f: seq<nat>, t': Tables, f': seq<nat>, r: nat)
    requires Space(t, owner, top) && Listed(f, owner) && IsRoot(t, owner, r) && Unmapped(t, r, 0, MAXVPN)
    requires Moved(t, f, t', f', TreeSet(owner, r, Root))
    ensures Space(t', WithoutRoot(owner, r), top) && Listed(f', WithoutRoot(owner, r))
    ensures Pool(f', WithoutRoot(owner, r)) == Pool(f, owner)
    ensures forall q, v :: IsRoot(t, owner, q) && q != r && 0 <= v < MAXVPN ==> Leaf(t', q, v) == Leaf(t, q, v)
  {
    hide Space, TreeOK, Leaf, InTree, Unmapped, Removed, Listed, Pool;
    TreeRemoved(t, owner, top, f, t', f', r);
    RemoveSpace(t, owner, top, t', r);
    FreedList(t, owner, top, f, t', f', r);
  }

  lemma TreeRemoved(t: Tables, owner: map<nat, Owner>, top: nat, f: seq<nat>, t': Tables, f': seq<nat>, r: nat)
    requires Space(t, owner, top) && IsRoot(t, owner, r) && Unmapped(t, r, 0, MAXVPN)
             && Moved(t, f, t', f', TreeSet(owner, r, Root))
    ensures Removed(t, owner, t', r)
    ensures forall x :: x in f' <==> x in f || (x in owner && owner[x].root == r)
  {
    forall x | x in owner && owner[x].root == r ensures x in t && InTree(owner, r, Root, x) {
      RootOwns(t, owner, top, r, x);
    }
    forall q | q in t ensures q in owner && (InTree(owner, r, Root, q) <==> owner[q].root == r) {
      RootTables(t, owner, top, q);
    }
  }

  lemma FreedList(t: Tables, owner: map<nat, Owner>, top: nat, f: seq<nat>, t': Tables, f': seq<nat>, r: nat)
    requires Space(t, owner, top) && Listed(f, owner) && Moved(t, f, t', f', TreeSet(owner, r, Root))
    requires forall x :: x in f' <==> x in f || (x in owner && owner[x].root == r)
    ensures Listed(f', WithoutRoot(owner, r)) && Pool(f', WithoutRoot(owner, r)) == Pool(f, owner)
  {
    OwnerPages(t, owner);
    hide Space, TreeOK, Leaf, InTree;
  }

  lemma RootOwns(t: Tables, owner: map<nat, Owner>, top: nat, r: nat, x: nat)
    requires Space(t, owner, top) && Unmapped(t, r, 0, MAXVPN) && x in owner && owner[x].root == r
    ensures x in t && InTree(owner, r, Root, x)
  {
    hide Leaf, V, Pa;
    assert owner[x].User? ==> UserAt(t, owner, top, x);
  }

  lemma RootTables(t: Tables, owner: map<nat, Owner>, top: nat, q: nat)
    requires Space(t, owner, top) && q in t
    ensures q in owner && forall r :: InTree(owner, r, Root, q) <==> owner[q].root == r
  {
  }

  lemma AllUnmapped(t0: Tables, o0: map<nat, Owner>, t1: Tables, o1: map<nat, Owner>, r: nat, n: nat)
    requires IsRoot(t0, o0, r) && Cleared(t0, o0, t1, o1, r, 0, n) && Unmapped(t0, r, n, MAXVPN)
    ensures Unmapped(t1, r, 0, MAXVPN) && IsRoot(t1, o1, r)
    ensures forall q, v :: IsRoot(t0, o0, q) && q != r && 0 <= v < MAXVPN
              ==> Leaf(t1, q, v) == Leaf(t0, q, v) && IsRoot(t1, o1, q)
  {
    assert !V(0);
    hide Leaf, V;
    forall v | 0 <= v < MAXVPN ensures !V(Leaf(t1, r, v)) {
      if v >= n { assert Leaf(t1, r, v) == Leaf(t0, r, v); }
    }
  }

  lemma FreewalkReady(t: Tables, owner: map<nat, Owner>, top: nat, f: seq<nat>, r: nat)
    requires Space(t, owner, top) && Listed(f, owner) && IsRoot(t, owner, r) && Unmapped(t, r, 0, MAXVPN)
    ensures TreeOK(t, owner) && r in t && owner[r] == Table(r, Root) && NoLeaf(t, owner, r)
    ensures Distinct(f) && Intact(t, owner, t, f, r, Root)
  {
    UnmappedNoLeaf(t, owner, r);
    hide Leaf, V, LeafOK;
  }

  lemma NoPages()
    ensures Pages(0) == 0
  {
  }

  lemma SameRest(o0: map<nat, Owner>, o1: map<nat, Owner>, r: nat, lo: nat, hi: nat)
    requires Dropped(o0, o1, r, lo, hi)
    ensures WithoutRoot(o1, r) == WithoutRoot(o0, r)
  {
  }

  /** uvmfree(): the user pages of r and every page of its tree become free,
      each once; other address spaces do not change. */
  method Uvmfree(m: Memory, r: nat, size: nat)
    requires m.Valid() && IsRoot(m.tables, m.owner, r) && Pages(size) <= m.top
    requires Mapped(m.tables, r, 0, Pages(size)) && Unmapped(m.tables, r, Pages(size), MAXVPN)
    modifies m`freelist, m`tables, m`data, m`owner
    ensures m.Valid() && Pool(m.freelist, m.owner) == old(Pool(m.freelist, m.owner))
    ensures m.owner == WithoutRoot(old(m.owner), r)
    ensures forall q, v :: IsRoot(old(m.tables), old(m.owner), q) && q != r && 0 <= v < MAXVPN
              ==> Leaf(m.tables, q, v) == Leaf(old(m.tables), q, v)
  {
    hide Space, Leaf, V, Pool, SameOutside, SameData, Pages;
    ghost var t0, o0 := m.tables, m.owner;
    if size > 0 {
      m.Uvmunmap(r, 0, Pages(size), true);
    } else {
      ClearedNone(t0, o0, m.data, r, 0);
      assert Pages(0) == 0 by { NoPages(); }
    }
    ghost var t1, o1, f1 := m.tables, m.owner, m.freelist;
    AllUnmapped(t0, o0, t1, o1, r, Pages(size));
    FreewalkReady(t1, o1, m.top, f1, r);
    hide Listed, Unmapped, Intact, NoLeaf, TreeOK;
    Freewalk(m, r, t1, o1);
    TreeFreed(t1, o1, m.top, f1, m.tables, m.freelist, r);
    m.owner := WithoutRoot(o1, r);
    SameRest(o0, o1, r, 0, Pages(size));
  }
}
