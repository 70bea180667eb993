/** fork, exit, reparent and wait of proc.c as steps of the processes of one
    table, on top of the sleep/wakeup machine, whose lk is wait_lock. A
    process waits on its own address, so channel p is slot p. */
module WaitExit {
  import opened Options
  import opened SleepWakeup
  import T = ProcTable

  datatype Job =
    | Idle
    | Forking(np: nat)     // fork_core, child allocated
    | Adopting(np: nat)    // holds wait_lock, the child has no parent yet
    | Adopted(np: nat)     // after it
    | Starting(np: nat)    // lock released, before np becomes RUNNABLE
    | Exiting(k: nat)      // exit: reparent's loop at slot k
    | Gave(k: nat)         // slot k was given to init, who is not woken yet
    | Dying                // the parent has been woken
    | Dead                 // ZOMBIE, wait_lock still held
    | Gone                 // ZOMBIE, switched away for good
    | Waiting              // wait: head of its loop
    | Done                 // wait: about to release and return

  // exited: pids that became ZOMBIE; reaped: pids freed by wait, in order.
  datatype State = State(sys: Sys, t: T.Table, jobs: seq<Job>, exited: set<nat>, reaped: seq<nat>)

  ghost function GoodSet(t: T.Table): iset<Chan> {
    iset c: Chan | !T.HasZombie(t, c)
  }

  predicate Here(s: State, p: nat, job: Job) {
    Has(s, p, job) && Is(s.sys, p, Holding)
  }

  // p is a live process at this point of its code.
  predicate Has(s: State, p: nat, job: Job) {
    && p < |s.jobs| == |s.t.procs| == |s.sys.procs| && s.t.init < |s.jobs|
    && s.jobs[p] == job && !s.t.procs[p].status.Unused?
  }

  function Turn(s: State, p: nat, job: Job): State
    requires p < |s.jobs|
  {
    s.(jobs := s.jobs[p := job])
  }

  ghost function Change(s: State, t: T.Table): State {
    s.(t := t, sys := s.sys.(good := GoodSet(t)))
  }

  ghost predicate Enter(s: State, s': State, p: nat, job: Job, job': Job) {
    Has(s, p, job) && Acquire(s.sys, s'.sys, p) && s' == Turn(s, p, job').(sys := s'.sys)
  }

  predicate Leave(s: State, s': State, p: nat, job: Job, job': Job) {
    Here(s, p, job) && s' == Turn(s, p, job').(sys := Goto(s.sys, p, Outside).(lk := None))
  }

  // ---- fork_core

  ghost predicate ForkAlloc(s: State, s': State, p: nat, np: nat) {
    && Has(s, p, Idle) && Is(s.sys, p, Outside) && s.t.procs[p].status.Live?
    && np < |s.jobs| && s.t.procs[np].status.Unused?
    && s' == Turn(Change(s, T.Alloc(s.t, np)), p, Forking(np))
  }

  ghost predicate ForkFail(s: State, s': State, p: nat, np: nat) {
    Has(s, p, Forking(np)) && np < |s.jobs| && s' == Turn(Change(s, T.Free(s.t, np)), p, Idle)
  }

  ghost predicate ForkAdopt(s: State, s': State, p: nat, np: nat) {
    Here(s, p, Adopting(np)) && np < |s.jobs| && s' == Turn(Change(s, T.Adopt(s.t, p, np)), p, Adopted(np))
  }

  ghost predicate ForkStart(s: State, s': State, p: nat, np: nat) {
    Has(s, p, Starting(np)) && np < |s.jobs| && s' == Turn(Change(s, T.SetStatus(s.t, np, T.Live)), p, Idle)
  }

  ghost predicate Fork(s: State, s': State, p: nat, np: nat) {
    || ForkAlloc(s, s', p, np) || ForkFail(s, s', p, np) || Enter(s, s', p, Forking(np), Adopting(np))
    || ForkAdopt(s, s', p, np) || Leave(s, s', p, Adopted(np), Starting(np)) || ForkStart(s, s', p, np)
  }

  // ---- exit

  ghost predicate ExitEnter(s: State, s': State, p: nat) {
    Enter(s, s', p, Idle, Exiting(0)) && s.t.procs[p].status.Live? && p != s.t.init
  }

  predicate ReparentSkip(s: State, s': State, p: nat, k: nat) {
    Here(s, p, Exiting(k)) && k < |s.jobs| && s.t.procs[k].parent != Some(p) && s' == Turn(s, p, Exiting(k + 1))
  }

  // The child in slot k goes to init, who is owed a wakeup if it is a ZOMBIE.
  ghost predicate ReparentGive(s: State, s': State, p: nat, k: nat) {
    && Here(s, p, Exiting(k)) && k < |s.jobs| && s.t.procs[k].parent == Some(p)
    && var s1 := Turn(Change(s, T.Adopt(s.t, s.t.init, k)), p, Gave(k));
       s' == s1.(sys := s1.sys.(debt := s.sys.debt + iset{s.t.init}))
  }

  predicate ReparentWake(s: State, s': State, p: nat, k: nat) {
    && Here(s, p, Gave(k))
    && StartWakeup(s.sys, s'.sys, p, s.t.init) && s' == Turn(s, p, Exiting(k + 1)).(sys := s'.sys)
  }

  predicate WakeParent(s: State, s': State, p: nat) {
    && Here(s, p, Exiting(|s.jobs|)) && s.t.procs[p].parent.Some?
    && StartWakeup(s.sys, s'.sys, p, s.t.procs[p].parent.value) && s' == Turn(s, p, Dying).(sys := s'.sys)
  }

  ghost predicate Die(s: State, s': State, p: nat) {
    && Here(s, p, Dying)
    && s' == Turn(Change(s, T.SetStatus(s.t, p, T.Zombie)), p, Dead).(exited := s.exited + {s.t.procs[p].pid})
  }

  ghost predicate Exit(s: State, s': State, p: nat, k: nat) {
    || ExitEnter(s, s', p) || ReparentSkip(s, s', p, k) || ReparentGive(s, s', p, k) || ReparentWake(s, s', p, k)
    || WakeParent(s, s', p) || Die(s, s', p) || Leave(s, s', p, Dead, Gone)
  }

  // ---- wait

  // The scan holds pp->lock, so it finds a ZOMBIE only once it has switched away.
  ghost predicate Reap(s: State, s': State, p: nat, k: nat) {
    && Here(s, p, Waiting) && k < |s.jobs|
    && s.t.procs[k].parent == Some(p) && s.t.procs[k].status.Zombie? && s.jobs[k].Gone?
    && s' == Turn(Turn(Change(s, T.Free(s.t, k)), k, Idle), p, Done).(reaped := s.reaped + [s.t.procs[k].pid])
  }

  // copyout failed, or there is nothing to wait for, or p was killed.
  predicate GiveUp(s: State, s': State, p: nat) {
    Here(s, p, Waiting) && s' == Turn(s, p, Done)
  }

  ghost predicate WaitSleep(s: State, s': State, p: nat) {
    && Here(s, p, Waiting) && !T.HasZombie(s.t, p) && T.HasChild(s.t, p)
    && s' == s.(sys := Goto(s.sys, p, Sleep1(p)).(clean := s.sys.clean - iset{p}))
  }

  ghost predicate Wait(s: State, s': State, p: nat, k: nat) {
    || (Enter(s, s', p, Idle, Waiting) && s.t.procs[p].status.Live?) || Reap(s, s', p, k) || GiveUp(s, s', p)
    || WaitSleep(s, s', p) || Leave(s, s', p, Done, Idle)
  }

  ghost predicate Inside(s: State, s': State) {
    s' == s.(sys := s'.sys) && Internal(s.sys, s'.sys)
  }

  ghost predicate Step(s: State, s': State) {
    || Inside(s, s')
    || (exists p, k :: Fork(s, s', p, k)) || (exists p, k :: Exit(s, s', p, k)) || (exists p, k :: Wait(s, s', p, k))
  }

  // After userinit: init alone, with pid 1.
  ghost predicate Start(s: State) {
    && Initial(s.sys) && |s.jobs| == |s.t.procs| == |s.sys.procs| && s.t.init < |s.jobs|
    && s.t.nextpid == 2 && s.t.procs[s.t.init] == T.Entry(T.Live, 1, None)
    && (forall p :: 0 <= p < |s.jobs| ==> s.jobs[p].Idle?)
    && (forall p :: 0 <= p < |s.jobs| && p != s.t.init ==> s.t.procs[p] == T.Entry(T.Unused, 0, None))
    && s.sys.good == GoodSet(s.t) && s.exited == {} && s.reaped == []
  }

  ghost predicate Run(run: seq<State>) {
    |run| > 0 && Start(run[0]) && forall k :: 0 <= k < |run| - 1 ==> Step(run[k], run[k + 1])
  }

  // ---- the invariant

  // A process and the sleep/wakeup machine.
  ghost predicate PcOK(s: State, p: nat)
    requires p < |s.jobs| == |s.sys.procs| == |s.t.procs|
  {
    var job, pc := s.jobs[p], s.sys.procs[p].pc;
    match job
    case Idle => pc.Outside?
    case Forking(_) => pc.Outside?
    case Starting(_) => pc.Outside?
    case Gone => pc.Outside?
    case Exiting(_) => Resting(s, pc) || Calling(s, pc, s.t.init)
    case Gave(_) => pc.Holding? && s.sys.debt <= iset{s.t.init}
    case Dying =>
      && s.t.procs[p].parent.Some?
      && var q := s.t.procs[p].parent.value;
         (Resting(s, pc) && q in s.sys.clean) || Calling(s, pc, q)
    case Waiting => Resting(s, pc) || (InSleep(pc) && pc.c == p)
    case _ => Resting(s, pc)
  }

  ghost predicate Resting(s: State, pc: Pc) {
    pc.Holding? && s.sys.debt == iset{}
  }

  ghost predicate Calling(s: State, pc: Pc, c: Chan) {
    InWakeup(pc) && pc.c == c && s.sys.debt <= iset{c}
  }

  // None of the first k slots holds a child of p.
  predicate NoChild(t: T.Table, p: nat, k: nat) {
    k <= |t.procs| && forall j :: 0 <= j < k ==> t.procs[j].parent != Some(p)
  }

  // A process and the table.
  predicate RowOK(s: State, p: nat)
    requires p < |s.jobs| == |s.sys.procs| == |s.t.procs|
  {
    var job, me := s.jobs[p], s.t.procs[p];
    match job
    case Idle => !me.status.Zombie?
    case Forking(np) => me.status.Live? && Embryo(s.t, p, np, None)
    case Adopting(np) => me.status.Live? && Embryo(s.t, p, np, None)
    case Adopted(np) => me.status.Live? && Embryo(s.t, p, np, Some(p))
    case Starting(np) => me.status.Live? && Embryo(s.t, p, np, Some(p))
    case Exiting(k) => me.status.Live? && p != s.t.init && NoChild(s.t, p, k)
    case Gave(k) => me.status.Live? && p != s.t.init && NoChild(s.t, p, k + 1)
    case Dying => me.status.Live? && p != s.t.init && NoChild(s.t, p, |s.jobs|)
    case Dead => me.status.Zombie?
    case Gone => me.status.Zombie?
    case _ => me.status.Live?
  }

  predicate Embryo(t: T.Table, p: nat, np: nat, parent: Option<nat>)
    requires p < |t.procs|
  {
    && np < |t.procs| && np != p && np != t.init && t.procs[np].status.Used? && t.procs[np].parent == parent
    && t.procs[p].pid < t.procs[np].pid
  }

  predicate Forks(job: Job) {
    job.Forking? || job.Adopting? || job.Adopted? || job.Starting?
  }

  // Every slot being filled has one filler.
  predicate OneForker(s: State) {
    forall p, q :: 0 <= p < q < |s.jobs| && Forks(s.jobs[p]) && Forks(s.jobs[q]) ==> s.jobs[p].np != s.jobs[q].np
  }

  // The history of exits and reaps.
  predicate LogOK(t: T.Table, exited: set<nat>, reaped: seq<nat>) {
    && (forall k :: 0 <= k < |reaped| ==> reaped[k] in exited)
    && (forall j, k :: 0 <= j < k < |reaped| ==> reaped[j] != reaped[k])
    && (forall pid :: pid in exited ==> 0 < pid < t.nextpid)
    && (forall i :: 0 <= i < |t.procs| && !t.procs[i].status.Unused? ==>
          t.procs[i].pid !in reaped && (t.procs[i].status.Zombie? <==> t.procs[i].pid in exited))
  }

  ghost predicate Shape(s: State) {
    0 < |s.jobs| == |s.sys.procs| == |s.t.procs| && s.sys.good == GoodSet(s.t)
  }

  ghost predicate Sound(s: State) {
    && Shape(s) && SleepWakeup.Inv(s.sys) && T.Forest(s.t) && OneForker(s) && LogOK(s.t, s.exited, s.reaped)
    && (forall p :: 0 <= p < |s.jobs| ==> PcOK(s, p))
    && (forall p :: 0 <= p < |s.jobs| ==> RowOK(s, p))
  }

  // ---- fork keeps it

  // Slots that are not ZOMBIE may change freely without changing what is good.
  lemma SameGood(t: T.Table, t': T.Table, i: nat)
    requires i < |t.procs| == |t'.procs| && forall j :: 0 <= j < |t.procs| && j != i ==> t'.procs[j] == t.procs[j]
    requires !t.procs[i].status.Zombie? && !t'.procs[i].status.Zombie?
    ensures GoodSet(t') == GoodSet(t)
  {
    forall c: Chan ensures T.HasZombie(t', c) <==> T.HasZombie(t, c) {
      if j :| 0 <= j < |t.procs| && t.procs[j].parent == Some(c) && t.procs[j].status.Zombie? {
        assert t'.procs[j] == t.procs[j];
      }
      if j :| 0 <= j < |t.procs| && t'.procs[j].parent == Some(c) && t'.procs[j].status.Zombie? {
        assert t'.procs[j] == t.procs[j];
      }
    }
  }

  // The fork steps that touch the table.
  ghost predicate ForkTable(s: State, s': State, p: nat, np: nat) {
    ForkAlloc(s, s', p, np) || ForkFail(s, s', p, np) || ForkAdopt(s, s', p, np) || ForkStart(s, s', p, np)
  }

  lemma ForkTableForest(s: State, s': State, p: nat, np: nat)
    requires Sound(s) && ForkTable(s, s', p, np)
    ensures T.Forest(s'.t) && s'.sys == s.sys && Shape(s')
  {
    assert RowOK(s, p);
    SameGood(s.t, s'.t, np);
    if ForkAlloc(s, s', p, np) {
      T.AllocForest(s.t, np);
    } else if ForkFail(s, s', p, np) {
      T.FreeForest(s.t, np);
    } else if ForkAdopt(s, s', p, np) {
      T.AdoptForest(s.t, p, np);
    } else {
      T.ReadyForest(s.t, np);
    }
  }

  lemma ForkTableRows(s: State, s': State, p: nat, np: nat)
    requires Sound(s) && ForkTable(s, s', p, np)
    ensures forall q :: 0 <= q < |s'.jobs| ==> RowOK(s', q)
  {
    hide LogOK, PcOK, SleepWakeup.Inv, GoodSet, RowOK;
    forall q | 0 <= q < |s'.jobs| ensures RowOK(s', q) {
      if q == p {
        ForkOwnRow(s, s', p, np);
      } else {
        ForkOtherRow(s, s', p, np, q);
      }
    }
  }

  lemma ForkOwnRow(s: State, s': State, p: nat, np: nat)
    requires Sound(s) && ForkTable(s, s', p, np)
    ensures RowOK(s', p)
  {
    hide LogOK, PcOK, SleepWakeup.Inv, GoodSet;
    assert RowOK(s, p) && T.EntryOK(s.t, np) && T.EntryOK(s.t, p);
  }

  // Other processes do not notice a change of slot i.
  lemma RowFrame(s: State, s': State, i: nat, q: nat)
    requires q < |s.jobs| == |s.sys.procs| == |s.t.procs| && |s'.jobs| == |s'.sys.procs| == |s'.t.procs| == |s.jobs|
    requires s'.jobs[q] == s.jobs[q] && RowOK(s, q) && s'.t.init == s.t.init
    requires i < |s.jobs| && forall j :: 0 <= j < |s.jobs| && j != i ==> s'.t.procs[j] == s.t.procs[j]
    requires Forks(s.jobs[q]) ==> s.jobs[q].np != i
    requires i == q ==> s.jobs[q].Idle? && !s'.t.procs[i].status.Zombie?
    requires s'.t.procs[i].parent == Some(q) ==> s.t.procs[i].parent == Some(q) || q == s.t.init
    ensures RowOK(s', q)
  {
  }

  lemma ForkOtherRow(s: State, s': State, p: nat, np: nat, q: nat)
    requires Sound(s) && ForkTable(s, s', p, np) && q < |s.jobs| && q != p
    ensures RowOK(s', q)
  {
    hide LogOK, PcOK, SleepWakeup.Inv, GoodSet;
    assert RowOK(s, p) && RowOK(s, q) && T.EntryOK(s.t, np);
    RowFrame(s, s', np, q);
  }

  lemma ForkTableOne(s: State, s': State, p: nat, np: nat)
    requires Sound(s) && ForkTable(s, s', p, np)
    ensures OneForker(s')
  {
    hide LogOK, PcOK, SleepWakeup.Inv, T.Forest, GoodSet;
    forall q | 0 <= q < |s.jobs| && s.t.procs[np].status.Unused? && Forks(s.jobs[q]) ensures s.jobs[q].np != np {
      assert RowOK(s, q);
    }
  }

  lemma ForkTableLog(s: State, s': State, p: nat, np: nat)
    requires Sound(s) && ForkTable(s, s', p, np)
    ensures LogOK(s'.t, s'.exited, s'.reaped)
  {
    assert RowOK(s, p);
    assert T.EntryOK(s.t, s.t.init);
  }

  lemma ForkTablePcs(s: State, s': State, p: nat, np: nat)
    requires Sound(s) && ForkTable(s, s', p, np) && s'.sys == s.sys && Shape(s')
    ensures forall q :: 0 <= q < |s'.jobs| ==> PcOK(s', q)
  {
    assert RowOK(s, p) && PcOK(s, p);
    forall q | 0 <= q < |s'.jobs| ensures PcOK(s', q) {
      assert PcOK(s, q) && RowOK(s, q);
    }
  }

  lemma ForkTableSound(s: State, s': State, p: nat, np: nat)
    requires Sound(s) && ForkTable(s, s', p, np)
    ensures Sound(s')
  {
    hide ForkTable, T.Forest, RowOK, PcOK, LogOK, OneForker, SleepWakeup.Inv;
    ForkTableForest(s, s', p, np);
    ForkTableRows(s, s', p, np);
    ForkTableOne(s, s', p, np);
    ForkTableLog(s, s', p, np);
    ForkTablePcs(s, s', p, np);
  }

  // ---- steps that leave the table alone

  ghost predicate Quiet(s: State, s': State, p: nat) {
    && p < |s.jobs| && Shape(s') && |s'.jobs| == |s.jobs| == |s.sys.procs|
    && s'.t == s.t && s'.exited == s.exited && s'.reaped == s.reaped
    && (s.sys.lk == None || s.sys.lk == Some(p))
    && (Forks(s'.jobs[p]) ==> Forks(s.jobs[p]) && s.jobs[p].np == s'.jobs[p].np)
    && (forall q :: 0 <= q < |s.jobs| && q != p ==> s'.jobs[q] == s.jobs[q] && s'.sys.procs[q] == s.sys.procs[q])
  }

  lemma QuietSound(s: State, s': State, p: nat)
    requires Sound(s) && Quiet(s, s', p) && SleepWakeup.Inv(s'.sys) && PcOK(s', p) && RowOK(s', p)
    ensures Sound(s')
  {
    hide T.Forest;
    forall q | 0 <= q < |s'.jobs| ensures PcOK(s', q) && RowOK(s', q) {
      assert PcOK(s, q) && RowOK(s, q);
    }
  }

  lemma InsidePc(s: State, s': State, p: nat, q: nat)
    requires s' == s.(sys := s'.sys) && LkOK(s.sys) && |s.jobs| == |s.sys.procs| == |s.t.procs| == |s'.sys.procs|
    requires Moved(s.sys, s'.sys, p) && q < |s.jobs| && PcOK(s, p) && PcOK(s, q)
    ensures PcOK(s', q)
  {
  }

  lemma InsideSound(s: State, s': State)
    requires Sound(s) && Inside(s, s')
    ensures Sound(s')
  {
    hide T.Forest, LogOK, PcOK, GoodSet, Moved, ProcOK, Owed;
    InternalKeeps(s.sys, s'.sys);
    var p := InternalMoves(s.sys, s'.sys);
    MovedShape(s.sys, s'.sys, p);
    forall q | 0 <= q < |s'.jobs| ensures PcOK(s', q) {
      InsidePc(s, s', p, q);
    }
    forall q | 0 <= q < |s'.jobs| ensures RowOK(s', q) {
      assert RowOK(s, q);
    }
  }

  lemma MovedShape(s: Sys, s': Sys, p: nat)
    requires Moved(s, s', p)
    ensures p < |s.procs| == |s'.procs| && s'.good == s.good
  {
  }

  // p takes wait_lock.
  ghost predicate Enters(s: State, s': State, p: nat, np: nat) {
    || Enter(s, s', p, Forking(np), Adopting(np)) || ExitEnter(s, s', p)
    || (Enter(s, s', p, Idle, Waiting) && s.t.procs[p].status.Live?)
  }

  // p drops wait_lock.
  predicate Drops(s: State, s': State, p: nat, np: nat) {
    || Leave(s, s', p, Adopted(np), Starting(np)) || Leave(s, s', p, Dead, Gone) || Leave(s, s', p, Done, Idle)
  }

  lemma EntersSound(s: State, s': State, p: nat, np: nat)
    requires Sound(s) && Enters(s, s', p, np)
    ensures Sound(s')
  {
    hide T.Forest, LogOK;
    assert PcOK(s, p) && RowOK(s, p);
    ClientKeeps(s.sys, s'.sys, p, 0);
    QuietSound(s, s', p);
  }

  lemma DropsSound(s: State, s': State, p: nat, np: nat)
    requires Sound(s) && Drops(s, s', p, np)
    ensures Sound(s')
  {
    hide T.Forest, LogOK;
    assert PcOK(s, p) && RowOK(s, p);
    ClientKeeps(s.sys, s'.sys, p, 0);
    QuietSound(s, s', p);
  }

  // p goes on in its loop, or calls wakeup or sleep.
  ghost predicate Goes(s: State, s': State, p: nat, k: nat) {
    || ReparentSkip(s, s', p, k) || ReparentWake(s, s', p, k) || WakeParent(s, s', p)
    || GiveUp(s, s', p) || WaitSleep(s, s', p)
  }

  lemma GoesSound(s: State, s': State, p: nat, k: nat)
    requires Sound(s) && Goes(s, s', p, k)
    ensures Sound(s')
  {
    hide T.Forest, LogOK;
    assert PcOK(s, p) && RowOK(s, p);
    if ReparentWake(s, s', p, k) {
      ClientKeeps(s.sys, s'.sys, p, s.t.init);
    } else if WakeParent(s, s', p) {
      ClientKeeps(s.sys, s'.sys, p, s.t.procs[p].parent.value);
    } else if WaitSleep(s, s', p) {
      ClientKeeps(s.sys, s'.sys, p, p);
    }
    QuietSound(s, s', p);
  }

  // ---- steps that change a parent, a status or free a slot

  // The zombies of the other processes stay where they are.
  lemma GoodShrinks(t: T.Table, t': T.Table, i: nat, lost: Chan)
    requires i < |t.procs| == |t'.procs| && forall j :: 0 <= j < |t.procs| && j != i ==> t'.procs[j] == t.procs[j]
    requires t'.procs[i].status.Zombie? ==> t'.procs[i].parent == Some(lost) || t'.procs[i].parent.None?
    ensures forall c :: c in GoodSet(t) && c != lost ==> c in GoodSet(t')
  {
    forall c: Chan | T.HasZombie(t', c) && c != lost ensures T.HasZombie(t, c) {
      var j :| 0 <= j < |t'.procs| && t'.procs[j].parent == Some(c) && t'.procs[j].status.Zombie?;
      assert t'.procs[j] == t.procs[j];
    }
  }

  lemma GiveSys(s: State, s': State, p: nat, k: nat)
    requires Sound(s) && ReparentGive(s, s', p, k)
    ensures SleepWakeup.Inv(s'.sys) && Shape(s') && T.Forest(s'.t) && PcOK(s', p)
  {
    hide LogOK, OneForker;
    assert PcOK(s, p) && RowOK(s, p) && T.EntryOK(s.t, k);
    GoodShrinks(s.t, s'.t, k, s.t.init);
    ClientKeeps(s.sys, s'.sys, p, 0);
    T.AdoptForest(s.t, s.t.init, k);
  }

  lemma DieSys(s: State, s': State, p: nat)
    requires Sound(s) && Die(s, s', p)
    ensures SleepWakeup.Inv(s'.sys) && Shape(s') && T.Forest(s'.t) && PcOK(s', p)
  {
    hide LogOK, OneForker;
    assert PcOK(s, p) && RowOK(s, p);
    GoodShrinks(s.t, s'.t, p, s.t.procs[p].parent.value);
    ClientKeeps(s.sys, s'.sys, p, 0);
    T.ZombieForest(s.t, p);
  }

  lemma ReapSys(s: State, s': State, p: nat, k: nat)
    requires Sound(s) && Reap(s, s', p, k)
    ensures SleepWakeup.Inv(s'.sys) && Shape(s') && T.Forest(s'.t) && PcOK(s', p) && PcOK(s', k)
  {
    hide LogOK, OneForker;
    assert PcOK(s, p) && RowOK(s, p) && PcOK(s, k);
    GoodShrinks(s.t, s'.t, k, |s.jobs|);
    NotGoodOutside(s.t, s'.t, k);
    ClientKeeps(s.sys, s'.sys, p, 0);
    T.FreeForest(s.t, k);
  }

  lemma NotGoodOutside(t: T.Table, t': T.Table, i: nat)
    requires i < |t.procs| == |t'.procs| && forall j :: 0 <= j < |t.procs| && j != i ==> t'.procs[j] == t.procs[j]
    requires t'.procs[i].status.Unused?
    ensures GoodSet(t) <= GoodSet(t')
  {
    GoodShrinks(t, t', i, 0);
    GoodShrinks(t, t', i, 1);
  }

  // The table steps made under wait_lock, at slot k.
  ghost predicate Edits(s: State, s': State, p: nat, k: nat) {
    ReparentGive(s, s', p, k) || (Die(s, s', p) && k == p) || Reap(s, s', p, k)
  }

  lemma EditsOwnRow(s: State, s': State, p: nat, k: nat)
    requires Sound(s) && Edits(s, s', p, k) && |s'.sys.procs| == |s'.jobs|
    ensures RowOK(s', p) && RowOK(s', k)
  {
    hide LogOK, PcOK, SleepWakeup.Inv, GoodSet, OneForker;
    assert RowOK(s, p) && RowOK(s, k) && T.EntryOK(s.t, k);
  }

  lemma EditsOtherRow(s: State, s': State, p: nat, k: nat, q: nat)
    requires Sound(s) && Edits(s, s', p, k) && q < |s.jobs| && |s'.sys.procs| == |s'.jobs| && q != p && q != k
    ensures RowOK(s', q)
  {
    hide LogOK, PcOK, SleepWakeup.Inv, GoodSet, OneForker;
    assert RowOK(s, p) && RowOK(s, q) && T.EntryOK(s.t, k);
    RowFrame(s, s', k, q);
  }

  lemma EditsPcs(s: State, s': State, p: nat, k: nat, q: nat)
    requires Sound(s) && Edits(s, s', p, k) && q < |s.jobs| && q != p && (Reap(s, s', p, k) ==> q != k)
    requires |s'.sys.procs| == |s'.jobs|
    ensures PcOK(s', q)
  {
    hide LogOK, T.Forest, GoodSet, OneForker;
    assert PcOK(s, p) && PcOK(s, q);
  }

  lemma EditsLog(s: State, s': State, p: nat, k: nat)
    requires Sound(s) && Edits(s, s', p, k)
    ensures LogOK(s'.t, s'.exited, s'.reaped) && OneForker(s')
  {
    hide PcOK, SleepWakeup.Inv, GoodSet;
    assert RowOK(s, p) && T.EntryOK(s.t, p) && T.EntryOK(s.t, k);
  }

  lemma EditsSound(s: State, s': State, p: nat, k: nat)
    requires Sound(s) && Edits(s, s', p, k)
    ensures Sound(s')
  {
    if ReparentGive(s, s', p, k) {
      GiveSys(s, s', p, k);
    } else if Reap(s, s', p, k) {
      ReapSys(s, s', p, k);
    } else {
      DieSys(s, s', p);
    }
    hide LogOK, OneForker, PcOK, RowOK, T.Forest, SleepWakeup.Inv, GoodSet;
    EditsLog(s, s', p, k);
    forall q | 0 <= q < |s'.jobs| ensures PcOK(s', q) && RowOK(s', q) {
      if q == p || q == k {
        EditsOwnRow(s, s', p, k);
      } else {
        EditsOtherRow(s, s', p, k, q);
      }
      if q != p && (Reap(s, s', p, k) ==> q != k) {
        EditsPcs(s, s', p, k, q);
      }
    }
  }

  // ---- every run

  lemma ForkSound(s: State, s': State, p: nat, np: nat)
    requires Sound(s) && Fork(s, s', p, np)
    ensures Sound(s')
  {
    hide Sound;
    if ForkTable(s, s', p, np) {
      ForkTableSound(s, s', p, np);
    } else if Enters(s, s', p, np) {
      EntersSound(s, s', p, np);
    } else {
      DropsSound(s, s', p, np);
    }
  }

  lemma ExitSound(s: State, s': State, p: nat, k: nat)
    requires Sound(s) && Exit(s, s', p, k)
    ensures Sound(s')
  {
    hide Sound, ExitEnter, ReparentSkip, ReparentWake, ReparentGive, WakeParent, Die, Leave;
    if ExitEnter(s, s', p) {
      EntersSound(s, s', p, k);
    } else if Leave(s, s', p, Dead, Gone) {
      DropsSound(s, s', p, k);
    } else if ReparentGive(s, s', p, k) {
      EditsSound(s, s', p, k);
    } else if Die(s, s', p) {
      EditsSound(s, s', p, p);
    } else {
      GoesSound(s, s', p, k);
    }
  }

  lemma WaitSound(s: State, s': State, p: nat, k: nat)
    requires Sound(s) && Wait(s, s', p, k)
    ensures Sound(s')
  {
    hide Sound, Reap, GiveUp, WaitSleep, Leave;
    if Enter(s, s', p, Idle, Waiting) && s.t.procs[p].status.Live? {
      EntersSound(s, s', p, k);
    } else if Leave(s, s', p, Done, Idle) {
      DropsSound(s, s', p, k);
    } else if Reap(s, s', p, k) {
      EditsSound(s, s', p, k);
    } else {
      GoesSound(s, s', p, k);
    }
  }

  lemma StepSound(s: State, s': State)
    requires Sound(s) && Step(s, s')
    ensures Sound(s')
  {
    hide Sound, Inside, Fork, Exit, Wait;
    if Inside(s, s') {
      InsideSound(s, s');
    } else if p, k :| Fork(s, s', p, k) {
      ForkSound(s, s', p, k);
    } else if p, k :| Exit(s, s', p, k) {
      ExitSound(s, s', p, k);
    } else {
      var p, k :| Wait(s, s', p, k);
      WaitSound(s, s', p, k);
    }
  }

  lemma StartSound(s: State)
    requires Start(s)
    ensures Sound(s)
  {
    InitialInv(s.sys);
    assert forall i :: 0 <= i < |s.t.procs| ==> T.EntryOK(s.t, i);
  }

  lemma {:induction false} RunSound(run: seq<State>, k: nat)
    requires Run(run) && k < |run|
    ensures Sound(run[k])
  {
    hide Sound, Step, Start;
    if k == 0 {
      StartSound(run[0]);
    } else {
      RunSound(run, k - 1);
      StepSound(run[k - 1], run[k]);
    }
  }

  /** In every run, while wait_lock is free, a SLEEPING process sleeps in wait,
      on itself, and has no ZOMBIE child; init is no exception. */
  lemma NoZombieUnnoticed(run: seq<State>, k: nat, p: nat)
    requires Run(run) && k < |run| && p < |run[k].sys.procs|
    requires run[k].sys.lk.None? && run[k].sys.procs[p].state == Sleeping
    ensures run[k].sys.procs[p].chan == Some(p) && !T.HasZombie(run[k].t, p)
  {
    RunSound(run, k);
    hide Run, T.Forest;
    assert PcOK(run[k], p) && ProcOK(run[k].sys, p);
    NoLostWakeup(run[k].sys, p);
  }

  /** Parent pointers form a forest at every point of every run. */
  lemma ForestAlways(run: seq<State>, k: nat)
    requires Run(run) && k < |run|
    ensures T.Forest(run[k].t)
  {
    RunSound(run, k);
  }

  // Process p, holding wait_lock, frees its ZOMBIE child in slot c.
  ghost predicate FreesChild(s: State, s': State, p: nat, c: nat) {
    && s.sys.lk == Some(p) && c < |s.t.procs| == |s'.t.procs|
    && s.t.procs[c].status.Zombie? && s.t.procs[c].parent == Some(p) && s'.t.procs[c].status.Unused?
    && s.t.procs[c].pid in s.exited && s.t.procs[c].pid !in s.reaped && s'.reaped == s.reaped + [s.t.procs[c].pid]
  }

  // The slot of a process stops being a ZOMBIE's.
  predicate Freed(s: State, s': State, c: nat) {
    c < |s.t.procs| == |s'.t.procs| && s.t.procs[c].status.Zombie? && !s'.t.procs[c].status.Zombie?
  }

  // fork_core and exit touch no ZOMBIE's slot, but for its parent pointer.
  lemma ForkSpares(s: State, s': State, p: nat, np: nat, c: nat)
    requires Sound(s) && Fork(s, s', p, np) && c < |s.t.procs|
    ensures |s'.t.procs| == |s.t.procs| && !Freed(s, s', c) && s'.reaped == s.reaped
    ensures s.t.procs[c].status.Live? ==> s'.t.procs[c].status.Live?
  {
    hide LogOK, PcOK, SleepWakeup.Inv, GoodSet, T.Forest, OneForker, Acquire;
    assert RowOK(s, p);
  }

  lemma ExitSpares(s: State, s': State, p: nat, k: nat, c: nat)
    requires Sound(s) && Exit(s, s', p, k) && c < |s.t.procs|
    ensures |s'.t.procs| == |s.t.procs| && !Freed(s, s', c) && s'.reaped == s.reaped
    ensures s.t.procs[c].status.Live? ==> !s'.t.procs[c].status.Unused?
  {
    hide LogOK, PcOK, SleepWakeup.Inv, GoodSet, T.Forest, OneForker, Acquire, StartWakeup;
    assert RowOK(s, p);
  }

  lemma WaitFrees(s: State, s': State, p: nat, k: nat, c: nat)
    requires Sound(s) && Wait(s, s', p, k) && c < |s.t.procs|
    ensures |s'.t.procs| == |s.t.procs| && s.reaped <= s'.reaped
    ensures s.t.procs[c].status.Live? ==> s'.t.procs[c].status.Live?
    ensures Freed(s, s', c) ==> FreesChild(s, s', p, c)
  {
    hide PcOK, SleepWakeup.Inv, GoodSet, T.Forest, OneForker, Acquire, RowOK;
    if Reap(s, s', p, k) { HolderHas(s, p); }
  }

  // Whoever is in the critical section has wait_lock.
  lemma HolderHas(s: State, p: nat)
    requires Sound(s) && p < |s.jobs| && Is(s.sys, p, Holding)
    ensures s.sys.lk == Some(p)
  {
    assert ProcOK(s.sys, p);
  }

  /** In every run, a ZOMBIE's slot is given up only by the parent it has at
      that moment, in wait and under wait_lock, and a running process's slot
      not at all; fork_core's clean-up frees no process that ever ran. */
  lemma FreedByParent(run: seq<State>, k: nat, c: nat) returns (p: nat)
    requires Run(run) && k + 1 < |run| && c < |run[k].t.procs|
    ensures |run[k + 1].t.procs| == |run[k].t.procs| && run[k].reaped <= run[k + 1].reaped
    ensures Freed(run[k], run[k + 1], c) ==> FreesChild(run[k], run[k + 1], p, c)
    ensures run[k].t.procs[c].status.Live? ==> !run[k + 1].t.procs[c].status.Unused?
  {
    RunSound(run, k);
    var s, s' := run[k], run[k + 1];
    assert Step(s, s');
    hide Run, Sound, Internal, Fork, Exit, Wait;
    p := 0;
    if q, i :| Fork(s, s', q, i) {
      ForkSpares(s, s', q, i, c);
    } else if q, i :| Exit(s, s', q, i) {
      ExitSpares(s, s', q, i, c);
    } else if q, i :| Wait(s, s', q, i) {
      WaitFrees(s, s', q, i, c);
      p := q;
    }
  }

  // Process p, holding wait_lock, changes the parent of c: it forked c and
  // becomes its parent, or it exits and c goes to init, or it waited and c is
  // gone.
  ghost predicate Reparents(s: State, s': State, p: nat, c: nat) {
    && c < |s.t.procs| == |s'.t.procs| && p < |s.jobs| && s.sys.lk == Some(p)
    && var a, b := s.t.procs[c].parent, s'.t.procs[c].parent;
       || (s.jobs[p] == Adopting(c) && a.None? && b == Some(p))
       || (s.jobs[p] == Exiting(c) && a == Some(p) && b == Some(s.t.init))
       || (s.jobs[p] == Waiting && a == Some(p) && b.None? && s.t.procs[c].status.Zombie?)
  }

  lemma ForkParents(s: State, s': State, p: nat, np: nat, c: nat)
    requires Sound(s) && Fork(s, s', p, np) && c < |s.t.procs|
    ensures |s'.t.procs| == |s.t.procs|
    ensures s'.t.procs[c].parent == s.t.procs[c].parent || Reparents(s, s', p, c)
  {
    hide LogOK, PcOK, SleepWakeup.Inv, GoodSet, T.Forest, OneForker, Acquire;
    assert RowOK(s, p);
    if ForkAdopt(s, s', p, np) { HolderHas(s, p); }
  }

  lemma ExitParents(s: State, s': State, p: nat, k: nat, c: nat)
    requires Sound(s) && Exit(s, s', p, k) && c < |s.t.procs|
    ensures |s'.t.procs| == |s.t.procs|
    ensures s'.t.procs[c].parent == s.t.procs[c].parent || Reparents(s, s', p, c)
  {
    hide LogOK, PcOK, SleepWakeup.Inv, GoodSet, T.Forest, OneForker, Acquire, StartWakeup, RowOK;
    if ReparentGive(s, s', p, k) { HolderHas(s, p); }
  }

  lemma WaitParents(s: State, s': State, p: nat, k: nat, c: nat)
    requires Sound(s) && Wait(s, s', p, k) && c < |s.t.procs|
    ensures |s'.t.procs| == |s.t.procs|
    ensures s'.t.procs[c].parent == s.t.procs[c].parent || Reparents(s, s', p, c)
  {
    hide LogOK, PcOK, SleepWakeup.Inv, GoodSet, T.Forest, OneForker, Acquire, RowOK;
    if Reap(s, s', p, k) { HolderHas(s, p); }
  }

  /** In every run, a parent pointer changes only when its process is forked,
      when its parent exits, and when it is reaped. */
  lemma ParentChanges(run: seq<State>, k: nat, c: nat) returns (p: nat)
    requires Run(run) && k + 1 < |run| && c < |run[k].t.procs|
    ensures |run[k + 1].t.procs| == |run[k].t.procs|
    ensures run[k + 1].t.procs[c].parent == run[k].t.procs[c].parent || Reparents(run[k], run[k + 1], p, c)
  {
    RunSound(run, k);
    var s, s' := run[k], run[k + 1];
    assert Step(s, s');
    hide Run, Sound, Internal, Fork, Exit, Wait, Reparents;
    p := 0;
    if q, i :| Fork(s, s', q, i) {
      ForkParents(s, s', q, i, c);
      p := q;
    } else if q, i :| Exit(s, s', q, i) {
      ExitParents(s, s', q, i, c);
      p := q;
    } else if q, i :| Wait(s, s', q, i) {
      WaitParents(s, s', q, i, c);
      p := q;
    }
  }

  lemma HasSlots(run: seq<State>, k: nat)
    requires Run(run) && k < |run|
    ensures 0 < |run[k].t.procs|
  {
    hide Run, LogOK, PcOK, RowOK, OneForker, T.Forest, SleepWakeup.Inv;
    RunSound(run, k);
  }

  lemma {:induction false} ReapedGrows(run: seq<State>, i: nat, j: nat)
    requires Run(run) && i <= j < |run|
    ensures run[i].reaped <= run[j].reaped
    decreases j
  {
    hide Run, Sound, Freed, FreesChild;
    if i < j {
      ReapedGrows(run, i, j - 1);
      HasSlots(run, j - 1);
      var _ := FreedByParent(run, j - 1, 0);
    }
  }

  /** In every run, no process is freed twice, whatever slot holds it. */
  lemma FreedOnce(run: seq<State>, i: nat, c: nat, j: nat, d: nat)
    requires Run(run) && i < j && j + 1 < |run| && Freed(run[i], run[i + 1], c) && Freed(run[j], run[j + 1], d)
    ensures run[i].t.procs[c].pid != run[j].t.procs[d].pid
  {
    var p := FreedByParent(run, i, c);
    var q := FreedByParent(run, j, d);
    ReapedGrows(run, i + 1, j);
    hide Run;
    assert run[i].t.procs[c].pid in run[i + 1].reaped;
  }
}
