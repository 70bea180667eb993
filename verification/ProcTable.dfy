/** The process table of proc.c as a forest: slots, pids and parent pointers,
    and the two walks along them, log_trap and child_processes. */
module ProcTable {
  import opened Options
  import opened Counting

  // Live stands for RUNNABLE, RUNNING and SLEEPING.
  datatype Status = Unused | Used | Live | Zombie

  datatype Entry = Entry(status: Status, pid: nat, parent: Option<nat>)

  datatype Table = Table(procs: seq<Entry>, nextpid: nat, init: nat)

  predicate InTable(t: Table, i: nat) {
    i < |t.procs| && !t.procs[i].status.Unused?
  }

  function With(t: Table, i: nat, e: Entry): Table
    requires i < |t.procs|
  {
    t.(procs := t.procs[i := e])
  }

  // ---- the operations, each with the test the code makes

  // allocproc
  function Alloc(t: Table, i: nat): Table
    requires i < |t.procs|
  {
    With(t, i, Entry(Used, t.nextpid, t.procs[i].parent)).(nextpid := t.nextpid + 1)
  }

  // Process i gets p as its parent.
  function Adopt(t: Table, p: nat, i: nat): Table
    requires i < |t.procs|
  {
    With(t, i, t.procs[i].(parent := Some(p)))
  }

  function SetStatus(t: Table, i: nat, status: Status): Table
    requires i < |t.procs|
  {
    With(t, i, t.procs[i].(status := status))
  }

  // freeproc
  function Free(t: Table, i: nat): Table
    requires i < |t.procs|
  {
    With(t, i, Entry(Unused, 0, None))
  }

  predicate HasChild(t: Table, p: nat) {
    exists i :: 0 <= i < |t.procs| && t.procs[i].parent == Some(p)
  }

  predicate HasZombie(t: Table, p: nat) {
    exists i :: 0 <= i < |t.procs| && t.procs[i].parent == Some(p) && t.procs[i].status.Zombie?
  }

  // ---- the forest

  predicate EntryOK(t: Table, i: nat)
    requires i < |t.procs|
  {
    var e := t.procs[i];
    if e.status.Unused? then e.pid == 0 && e.parent.None?
    else
      && 0 < e.pid < t.nextpid
      && (i != t.init && e.parent.None? ==> e.status.Used?)
      && (e.parent.Some? ==> i != t.init && LiveBelow(t, e.parent.value, e.pid))
      && (i != t.init ==> LiveBelow(t, t.init, e.pid))
  }

  predicate LiveBelow(t: Table, q: nat, pid: nat) {
    q < |t.procs| && t.procs[q].status.Live? && t.procs[q].pid < pid
  }

  // Parents are live and have smaller pids; pids are distinct.
  predicate Forest(t: Table) {
    && t.init < |t.procs| && t.procs[t.init].status.Live?
    && (forall i :: 0 <= i < |t.procs| ==> EntryOK(t, i))
    && (forall i, j :: 0 <= i < j < |t.procs| && !t.procs[i].status.Unused? ==> t.procs[i].pid != t.procs[j].pid)
  }

  lemma AllocForest(t: Table, i: nat)
    requires Forest(t) && i < |t.procs| && t.procs[i].status.Unused?
    ensures Forest(Alloc(t, i))
  {
    assert EntryOK(t, t.init);
    forall j | 0 <= j < |t.procs| ensures EntryOK(Alloc(t, i), j) && t.procs[j].pid < t.nextpid {
      assert EntryOK(t, j);
    }
  }

  lemma AdoptForest(t: Table, p: nat, i: nat)
    requires Forest(t) && InTable(t, i) && i != t.init && LiveBelow(t, p, t.procs[i].pid)
    ensures Forest(Adopt(t, p, i))
  {
    forall j | 0 <= j < |t.procs| ensures EntryOK(Adopt(t, p, i), j) {
      assert EntryOK(t, j);
    }
  }

  lemma ReadyForest(t: Table, i: nat)
    requires Forest(t) && i < |t.procs| && t.procs[i].status.Used? && t.procs[i].parent.Some?
    ensures Forest(SetStatus(t, i, Live))
  {
    forall j | 0 <= j < |t.procs| ensures EntryOK(SetStatus(t, i, Live), j) {
      assert EntryOK(t, j) && EntryOK(t, i);
    }
  }

  // A process dies only after its children have been given away.
  lemma ZombieForest(t: Table, i: nat)
    requires Forest(t) && InTable(t, i) && t.procs[i].status.Live? && i != t.init && !HasChild(t, i)
    ensures Forest(SetStatus(t, i, Zombie))
  {
    forall j | 0 <= j < |t.procs| ensures EntryOK(SetStatus(t, i, Zombie), j) {
      assert EntryOK(t, j) && EntryOK(t, i);
      assert t.procs[j].parent != Some(i);
    }
  }

  lemma FreeForest(t: Table, i: nat)
    requires Forest(t) && InTable(t, i) && !t.procs[i].status.Live?
    ensures Forest(Free(t, i))
  {
    forall j | 0 <= j < |t.procs| ensures EntryOK(Free(t, i), j) {
      assert EntryOK(t, j);
    }
    forall j, k | 0 <= j < k < |t.procs| && !Free(t, i).procs[j].status.Unused?
      ensures Free(t, i).procs[j].pid != Free(t, i).procs[k].pid
    {
      assert EntryOK(t, j);
    }
  }

  // ---- ancestors

  // The slots on the way from i to its root, nearest first.
  ghost function Ancestors(t: Table, i: nat): seq<nat>
    requires Forest(t) && i < |t.procs|
    decreases t.procs[i].pid, 1
  {
    assert EntryOK(t, i);
    From(t, t.procs[i].parent, t.procs[i].pid)
  }

  // The same, starting at a parent pointer.
  ghost function From(t: Table, parent: Option<nat>, pid: nat): seq<nat>
    requires Forest(t) && (parent.Some? ==> LiveBelow(t, parent.value, pid))
    decreases pid, 0
  {
    match parent
    case None => []
    case Some(q) => [q] + Ancestors(t, q)
  }

  ghost predicate Falling(t: Table, r: seq<nat>, pid: nat) {
    && (forall k :: 0 <= k < |r| ==> LiveBelow(t, r[k], pid))
    && (forall j, k :: 0 <= j < k < |r| ==> r[j] != r[k])
  }

  lemma {:induction false} AncestorsFall(t: Table, i: nat)
    requires Forest(t) && i < |t.procs|
    ensures Falling(t, Ancestors(t, i), t.procs[i].pid)
    decreases t.procs[i].pid
  {
    assert EntryOK(t, i);
    if t.procs[i].parent.Some? {
      var q := t.procs[i].parent.value;
      AncestorsFall(t, q);
      assert Ancestors(t, i) == [q] + Ancestors(t, q);
    }
  }

  /** The forest has one root: every line of ancestors ends in init. */
  lemma {:induction false} RootIsInit(t: Table, i: nat)
    requires Forest(t) && i < |t.procs| && i != t.init && (t.procs[i].status.Live? || t.procs[i].status.Zombie?)
    ensures var r := Ancestors(t, i); |r| > 0 && r[|r| - 1] == t.init
    decreases t.procs[i].pid
  {
    assert EntryOK(t, i);
    var q := t.procs[i].parent.value;
    assert Ancestors(t, i) == [q] + Ancestors(t, q);
    if q == t.init {
      assert EntryOK(t, q);
    } else {
      RootIsInit(t, q);
    }
  }

  /** A process has fewer ancestors than the table has slots. */
  lemma AncestorsFit(t: Table, i: nat)
    requires Forest(t) && i < |t.procs|
    ensures |Ancestors(t, i)| < |t.procs|
  {
    AncestorsFall(t, i);
    Pigeonhole([i] + Ancestors(t, i), |t.procs|);
  }

  // ---- the walks

  // seen are the ancestors of p met so far, and parent is the next one.
  ghost predicate Walked(t: Table, p: nat, seen: seq<nat>, parent: Option<nat>) {
    && Forest(t) && p < |t.procs|
    && (parent.Some? ==> LiveBelow(t, parent.value, t.procs[p].pid))
    && Ancestors(t, p) == seen + From(t, parent, t.procs[p].pid)
  }

  lemma WalkOn(t: Table, p: nat, seen: seq<nat>, q: nat)
    requires Walked(t, p, seen, Some(q))
    ensures Walked(t, p, seen + [q], t.procs[q].parent)
    ensures |seen| < |Ancestors(t, p)| && Ancestors(t, p)[|seen|] == q
  {
    assert EntryOK(t, q);
    assert seen + ([q] + Ancestors(t, q)) == (seen + [q]) + Ancestors(t, q);
    FromAny(t, t.procs[q].parent, t.procs[q].pid, t.procs[p].pid);
  }

  lemma FromAny(t: Table, parent: Option<nat>, a: nat, b: nat)
    requires Forest(t) && a <= b && (parent.Some? ==> LiveBelow(t, parent.value, a))
    ensures From(t, parent, a) == From(t, parent, b)
  {
  }

  ghost predicate PidsOf(t: Table, slots: seq<nat>, pids: seq<nat>) {
    |slots| <= |pids| && forall k :: 0 <= k < |slots| ==> slots[k] < |t.procs| && pids[k] == t.procs[slots[k]].pid
  }

  /** log_trap: the walk to the root stays inside r.ancestors, an array of
      NPROC slots, and stores exactly the pids of the ancestors. */
  method LogTrap(t: Table, p: nat, ancestors: array<nat>) returns (ac: nat)
    requires Forest(t) && InTable(t, p) && ancestors.Length == |t.procs|
    modifies ancestors
    ensures ac == |Ancestors(t, p)| < ancestors.Length
    ensures PidsOf(t, Ancestors(t, p), ancestors[..])
  {
    AncestorsFit(t, p);
    assert EntryOK(t, p);
    var parent := t.procs[p].parent;
    ghost var seen: seq<nat> := [];
    ac := 0;
    hide Forest, Ancestors, From;
    StartWalk(t, p);
    while parent.Some?
      invariant Walked(t, p, seen, parent) && ac == |seen|
      invariant PidsOf(t, seen, ancestors[..])
      decreases |Ancestors(t, p)| - ac
    {
      var q := parent.value;
      WalkOn(t, p, seen, q);
      ancestors[ac] := t.procs[q].pid;
      parent := t.procs[q].parent;
      seen := seen + [q];
      ac := ac + 1;
    }
    EndWalk(t, p, seen);
  }

  lemma StartWalk(t: Table, p: nat)
    requires Forest(t) && p < |t.procs|
    ensures Walked(t, p, [], t.procs[p].parent)
  {
    assert EntryOK(t, p);
  }

  lemma EndWalk(t: Table, p: nat, seen: seq<nat>)
    requires Walked(t, p, seen, None)
    ensures Ancestors(t, p) == seen
  {
  }

  // p is below current in the forest.
  ghost predicate Descends(t: Table, p: nat, current: nat)
    requires Forest(t) && p < |t.procs|
  {
    current in Ancestors(t, p)
  }

  /** The inner loop of child_processes decides descent. */
  method IsBelow(t: Table, p: nat, current: nat) returns (below: bool)
    requires Forest(t) && InTable(t, p)
    ensures below <==> Descends(t, p, current)
  {
    var parent := t.procs[p].parent;
    ghost var seen: seq<nat> := [];
    below := false;
    StartWalk(t, p);
    hide Forest, Ancestors, From;
    while parent.Some?
      invariant Walked(t, p, seen, parent) && !below && current !in seen
      decreases |Ancestors(t, p)| - |seen|
    {
      var q := parent.value;
      WalkOn(t, p, seen, q);
      if q == current {
        return true;
      }
      parent := t.procs[q].parent;
      seen := seen + [q];
    }
    EndWalk(t, p, seen);
  }

  datatype Info = Info(pid: nat, ppid: nat, status: Status)

  // slots, in increasing order, are exactly the descendants below n.
  ghost predicate Lists(t: Table, current: nat, slots: seq<nat>, n: nat)
    requires Forest(t) && n <= |t.procs|
  {
    && (forall k :: 0 <= k < |slots| ==> slots[k] < n && InTable(t, slots[k]) && Descends(t, slots[k], current))
    && (forall j, k :: 0 <= j < k < |slots| ==> slots[j] < slots[k])
    && (forall p: nat :: p < n && InTable(t, p) && Descends(t, p, current) ==> p in slots)
  }

  ghost predicate Reports(t: Table, slots: seq<nat>, infos: seq<Info>) {
    && |infos| == |slots|
    && forall k :: 0 <= k < |slots| ==>
         && slots[k] < |t.procs| && t.procs[slots[k]].parent.Some? && t.procs[slots[k]].parent.value < |t.procs|
         && infos[k].pid == t.procs[slots[k]].pid && infos[k].status == t.procs[slots[k]].status
         && infos[k].ppid == t.procs[t.procs[slots[k]].parent.value].pid
  }

  lemma HasParent(t: Table, p: nat, current: nat)
    requires Forest(t) && InTable(t, p) && Descends(t, p, current)
    ensures t.procs[p].parent.Some? && t.procs[p].parent.value < |t.procs|
  {
    if t.procs[p].parent.None? {
      Rootless(t, p);
    }
    assert EntryOK(t, p);
  }

  lemma Rootless(t: Table, p: nat)
    requires Forest(t) && p < |t.procs| && t.procs[p].parent.None?
    ensures Ancestors(t, p) == []
  {
    assert From(t, t.procs[p].parent, t.procs[p].pid) == [];
  }

  lemma Append(t: Table, current: nat, slots: seq<nat>, p: nat)
    requires Forest(t) && InTable(t, p) && Lists(t, current, slots, p) && Descends(t, p, current)
    ensures Lists(t, current, slots + [p], p + 1)
    ensures t.procs[p].parent.Some? && t.procs[p].parent.value < |t.procs|
  {
    HasParent(t, p, current);
    hide Descends;
    var slots' := slots + [p];
    forall q: nat | q < p + 1 && InTable(t, q) && Descends(t, q, current) ensures q in slots' {
      if q < p {
        assert q in slots;
      } else {
        assert slots'[|slots|] == p;
      }
    }
  }

  lemma Skip(t: Table, current: nat, slots: seq<nat>, p: nat)
    requires Forest(t) && p < |t.procs| && Lists(t, current, slots, p) && !(InTable(t, p) && Descends(t, p, current))
    ensures Lists(t, current, slots, p + 1)
  {
    hide Descends;
  }

  /** child_processes reports every descendant of the caller exactly once. */
  method ChildProcesses(t: Table, current: nat) returns (infos: seq<Info>, slots: seq<nat>)
    requires Forest(t) && InTable(t, current)
    ensures Lists(t, current, slots, |t.procs|) && Reports(t, slots, infos)
    ensures |infos| < |t.procs|
  {
    infos, slots := [], [];
    hide Forest, Descends;
    for p := 0 to |t.procs|
      invariant Lists(t, current, slots, p) && Reports(t, slots, infos)
    {
      if t.procs[p].status.Unused? {
        Skip(t, current, slots, p);
      } else {
        var below := IsBelow(t, p, current);
        if below {
          Append(t, current, slots, p);
          infos := infos + [Info(t.procs[p].pid, t.procs[t.procs[p].parent.value].pid, t.procs[p].status)];
          slots := slots + [p];
        } else {
          Skip(t, current, slots, p);
        }
      }
    }
    NotBelowItself(t, current);
    Pigeonhole(slots + [current], |t.procs|);
  }

  lemma NotBelowItself(t: Table, p: nat)
    requires Forest(t) && p < |t.procs|
    ensures !Descends(t, p, p)
  {
    AncestorsFall(t, p);
  }
}
