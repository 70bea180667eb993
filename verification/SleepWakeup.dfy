/** sleep() and wakeup() of proc.c, step by step, for any number of processes
    that share one spinlock lk. Clients of this machine change the data that
    lk protects; all it knows of that data is the set good of channels on
    which a process may rightly sleep. */
module SleepWakeup {
  import opened Options

  // A channel is an address.
  type Chan = nat

  // SLEEPING, RUNNABLE or RUNNING, as far as sleep and wakeup are concerned.
  datatype RunState = Sleeping | Runnable | Running

  datatype Pc =
    | Outside               // holds nothing
    | Holding               // holds lk
    | Sleep1(c: Chan)          // in sleep(c, lk), about to acquire p->lock
    | Sleep2(c: Chan)          // about to release lk
    | Sleep3(c: Chan)          // about to set p->chan and p->state
    | Sleep4(c: Chan)          // in sched(), before the switch
    | Asleep(c: Chan)          // switched out
    | Awake(c: Chan)           // switched in again, holds p->lock
    | Back(c: Chan)            // about to acquire lk again
    | Waking(c: Chan, i: nat)  // in wakeup(c), about to look at process i
    | At(c: Chan, i: nat)      // holds the lock of process i

  datatype Proc = Proc(state: RunState, chan: Option<Chan>, pc: Pc)

  // locks[i] is the holder of proc[i].lock: a process, or the number of
  // processes for anyone else.
  datatype Sys = Sys(lk: Option<nat>, procs: seq<Proc>, locks: seq<Option<nat>>,
                     good: iset<Chan>, debt: iset<Chan>, clean: iset<Chan>)

  predicate HasLk(pc: Pc) {
    pc.Holding? || pc.Sleep1? || pc.Sleep2? || pc.Waking? || pc.At?
  }

  // Process p is on its way to sleep on c, or asleep and not yet woken.
  predicate Committed(p: Proc, c: Chan) {
    match p.pc
    case Sleep1(d) => d == c
    case Sleep2(d) => d == c
    case Sleep3(d) => d == c
    case Sleep4(d) => d == c
    case Asleep(d) => d == c && p.state == Sleeping
    case _ => false
  }

  predicate Is(s: Sys, p: nat, pc: Pc) {
    p < |s.procs| && s.procs[p].pc == pc
  }

  function Goto(s: Sys, p: nat, pc: Pc): Sys
    requires p < |s.procs|
  {
    s.(procs := s.procs[p := s.procs[p].(pc := pc)])
  }

  // ---- the steps

  ghost predicate Acquire(s: Sys, s': Sys, p: nat) {
    Is(s, p, Outside) && s.lk.None? && s' == Goto(s, p, Holding).(lk := Some(p), debt := iset{}, clean := iset{})
  }

  ghost predicate Release(s: Sys, s': Sys, p: nat) {
    Is(s, p, Holding) && s.debt == iset{} && s' == Goto(s, p, Outside).(lk := None)
  }

  // The holder of lk changes the data. A channel that stops being good is one
  // it has already woken in this critical section, or owes a wakeup from now on.
  ghost predicate Modify(s: Sys, s': Sys, p: nat) {
    && Is(s, p, Holding) && s' == s.(good := s'.good, debt := s'.debt)
    && s.debt <= s'.debt && s.good <= s'.good + s.clean + s'.debt
  }

  ghost predicate StartSleep(s: Sys, s': Sys, p: nat, c: Chan) {
    Is(s, p, Holding) && c in s.good && s.debt == iset{} && s' == Goto(s, p, Sleep1(c)).(clean := s.clean - iset{c})
  }

  predicate LockOwn(s: Sys, s': Sys, p: nat, c: Chan) {
    Is(s, p, Sleep1(c)) && p < |s.locks| && s.locks[p].None?
        && s' == Goto(s, p, Sleep2(c)).(locks := s.locks[p := Some(p)])
  }

  predicate DropLk(s: Sys, s': Sys, p: nat, c: Chan) {
    Is(s, p, Sleep2(c)) && s' == Goto(s, p, Sleep3(c)).(lk := None)
  }

  predicate SetSleeping(s: Sys, s': Sys, p: nat, c: Chan) {
    Is(s, p, Sleep3(c)) && s' == s.(procs := s.procs[p := Proc(Sleeping, Some(c), Sleep4(c))])
  }

  // The scheduler releases p->lock after the switch.
  predicate SwitchOut(s: Sys, s': Sys, p: nat, c: Chan) {
    Is(s, p, Sleep4(c)) && p < |s.locks| && s' == Goto(s, p, Asleep(c)).(locks := s.locks[p := None])
  }

  predicate SwitchIn(s: Sys, s': Sys, p: nat, c: Chan) {
    && Is(s, p, Asleep(c)) && s.procs[p].state == Runnable && p < |s.locks| && s.locks[p].None?
    && s' == s.(procs := s.procs[p := s.procs[p].(state := Running, pc := Awake(c))], locks := s.locks[p := Some(p)])
  }

  predicate TidyUp(s: Sys, s': Sys, p: nat, c: Chan) {
    && Is(s, p, Awake(c)) && p < |s.locks|
    && s' == s.(procs := s.procs[p := s.procs[p].(chan := None, pc := Back(c))], locks := s.locks[p := None])
  }

  ghost predicate Reacquire(s: Sys, s': Sys, p: nat, c: Chan) {
    Is(s, p, Back(c)) && s.lk.None? && s' == Goto(s, p, Holding).(lk := Some(p), debt := iset{}, clean := iset{})
  }

  predicate StartWakeup(s: Sys, s': Sys, p: nat, c: Chan) {
    Is(s, p, Holding) && s' == Goto(s, p, Waking(c, 0))
  }

  predicate SkipSelf(s: Sys, s': Sys, p: nat, c: Chan) {
    Is(s, p, Waking(c, p)) && s' == Goto(s, p, Waking(c, p + 1))
  }

  predicate LockOther(s: Sys, s': Sys, p: nat, c: Chan, i: nat) {
    && Is(s, p, Waking(c, i)) && i != p && i < |s.locks| && s.locks[i].None?
    && s' == Goto(s, p, At(c, i)).(locks := s.locks[i := Some(p)])
  }

  predicate WakeOther(s: Sys, s': Sys, p: nat, c: Chan, i: nat) {
    && Is(s, p, At(c, i)) && i < |s.procs| && i < |s.locks| && i != p
    && var q := s.procs[i];
       var q' := if q.state == Sleeping && q.chan == Some(c) then q.(state := Runnable) else q;
       s' == s.(procs := s.procs[i := q'][p := s.procs[p].(pc := Waking(c, i + 1))], locks := s.locks[i := None])
  }

  ghost predicate EndWakeup(s: Sys, s': Sys, p: nat, c: Chan) {
    && Is(s, p, Waking(c, |s.procs|))
    && s' == Goto(s, p, Holding).(debt := s.debt - iset{c}, clean := s.clean + iset{c})
  }

  // kill() and the like wake a sleeper without regard to its channel.
  predicate Kill(s: Sys, s': Sys, i: nat) {
    && i < |s.procs| && i < |s.locks| && s.locks[i].None? && s.procs[i].state == Sleeping
    && s' == s.(procs := s.procs[i := s.procs[i].(state := Runnable)])
  }

  // Anyone else takes or drops the lock of a process.
  predicate Foreign(s: Sys, s': Sys, i: nat) {
    && i < |s.locks|
    && ((s.locks[i].None? && s' == s.(locks := s.locks[i := Some(|s.procs|)]))
        || (s.locks[i] == Some(|s.procs|) && s' == s.(locks := s.locks[i := None])))
  }

  // Steps inside sleep and wakeup, which a client does not choose.
  ghost predicate Sleeps(s: Sys, s': Sys, p: nat, c: Chan) {
    || LockOwn(s, s', p, c) || DropLk(s, s', p, c) || SetSleeping(s, s', p, c) || SwitchOut(s, s', p, c)
    || SwitchIn(s, s', p, c) || TidyUp(s, s', p, c) || Reacquire(s, s', p, c)
  }

  ghost predicate Scans(s: Sys, s': Sys, p: nat, c: Chan, i: nat) {
    SkipSelf(s, s', p, c) || EndWakeup(s, s', p, c) || LockOther(s, s', p, c, i) || WakeOther(s, s', p, c, i)
  }

  predicate Others(s: Sys, s': Sys, i: nat) {
    Kill(s, s', i) || Foreign(s, s', i)
  }

  ghost predicate Internal(s: Sys, s': Sys) {
    || (exists p, c :: Sleeps(s, s', p, c)) || (exists p, c, i :: Scans(s, s', p, c, i))
       || (exists i :: Others(s, s', i))
  }

  // What a client does with lk.
  ghost predicate Client(s: Sys, s': Sys, p: nat, c: Chan) {
    || Acquire(s, s', p) || Release(s, s', p) || Modify(s, s', p)
    || StartSleep(s, s', p, c) || StartWakeup(s, s', p, c)
  }

  ghost predicate Step(s: Sys, s': Sys) {
    Internal(s, s') || exists p, c :: Client(s, s', p, c)
  }

  // ---- the invariant

  // The holder of lk, and only it, is at a place where lk is held.
  ghost predicate LkOK(s: Sys) {
    && |s.locks| == |s.procs|
    && (s.lk.Some? ==> s.lk.value < |s.procs|)
    && forall p :: 0 <= p < |s.procs| ==> (HasLk(s.procs[p].pc) <==> s.lk == Some(p))
  }

  // Who holds process i's own lock.
  ghost predicate LockAt(s: Sys, i: nat)
    requires i < |s.procs| == |s.locks|
  {
    var pc := s.procs[i].pc;
    (pc.Sleep2? || pc.Sleep3? || pc.Sleep4? || pc.Awake?) ==> s.locks[i] == Some(i)
  }

  ghost predicate ScanAt(s: Sys, p: nat)
    requires p < |s.procs| == |s.locks|
  {
    var pc := s.procs[p].pc;
    && (pc.At? ==> pc.i < |s.procs| && pc.i != p && s.locks[pc.i] == Some(p))
    && (pc.Waking? ==> pc.i <= |s.procs|)
    && (pc.Sleep1? || pc.Sleep2? ==> s.debt == iset{} && pc.c in s.good && pc.c !in s.clean)
  }

  ghost predicate StateAt(s: Sys, i: nat)
    requires i < |s.procs|
  {
    var q := s.procs[i];
    && (q.state == Sleeping ==> (q.pc.Sleep4? || q.pc.Asleep?) && q.chan == Some(q.pc.c))
    && (q.pc.Sleep4? ==> q.state == Sleeping)
    && (q.pc.Asleep? ==> q.chan == Some(q.pc.c))
  }

  ghost predicate ProcOK(s: Sys, i: nat)
    requires i < |s.procs| == |s.locks|
  {
    LockAt(s, i) && ScanAt(s, i) && StateAt(s, i)
  }

  // The channel being scanned by the holder, and how far.
  ghost predicate Passed(s: Sys, c: Chan, p: nat) {
    && s.lk.Some? && s.lk.value < |s.procs|
    && (c in s.clean
        || (s.procs[s.lk.value].pc.Waking? && s.procs[s.lk.value].pc.c == c && p < s.procs[s.lk.value].pc.i)
        || (s.procs[s.lk.value].pc.At? && s.procs[s.lk.value].pc.c == c && p < s.procs[s.lk.value].pc.i))
  }

  // A process committed to c sleeps rightly, or is owed a wakeup that has
  // not passed it.
  ghost predicate Owed(s: Sys, p: nat, c: Chan)
    requires p < |s.procs|
  {
    Committed(s.procs[p], c) ==> (c in s.good || (s.lk.Some? && c in s.debt)) && !Passed(s, c, p)
  }

  ghost predicate Inv(s: Sys) {
    && LkOK(s)
    && (forall i :: 0 <= i < |s.procs| ==> ProcOK(s, i))
    && (forall p, c :: 0 <= p < |s.procs| ==> Owed(s, p, c))
  }

  // ---- every step keeps the invariant

  lemma ClientKeeps(s: Sys, s': Sys, p: nat, c: Chan)
    requires Inv(s) && Client(s, s', p, c)
    ensures Inv(s')
  {
    forall q, d | 0 <= q < |s'.procs| ensures Owed(s', q, d) {
      assert Owed(s, q, d);
    }
    forall q | 0 <= q < |s'.procs| ensures ProcOK(s', q) {
      assert ProcOK(s, q);
    }
  }

  lemma SleepsKeeps(s: Sys, s': Sys, p: nat, c: Chan)
    requires Inv(s) && Sleeps(s, s', p, c)
    ensures Inv(s')
  {
    assert ProcOK(s, p);
    forall q, d | 0 <= q < |s'.procs| ensures Owed(s', q, d) {
      assert Owed(s, q, d);
    }
    forall q | 0 <= q < |s'.procs| ensures ProcOK(s', q) {
      assert ProcOK(s, q);
    }
  }

  // A process that the scan has passed is not on its way to sleep.
  lemma ScansKeeps(s: Sys, s': Sys, p: nat, c: Chan, i: nat)
    requires Inv(s) && Scans(s, s', p, c, i)
    ensures Inv(s')
  {
    assert ProcOK(s, p);
    assert i < |s.procs| ==> ProcOK(s, i);
    forall q, d | 0 <= q < |s'.procs| ensures Owed(s', q, d) {
      assert Owed(s, q, d);
    }
    forall q | 0 <= q < |s'.procs| ensures ProcOK(s', q) {
      assert ProcOK(s, q);
    }
  }

  lemma OthersKeeps(s: Sys, s': Sys, i: nat)
    requires Inv(s) && Others(s, s', i)
    ensures Inv(s')
  {
    forall q, d | 0 <= q < |s'.procs| ensures Owed(s', q, d) {
      assert Owed(s, q, d);
    }
    forall q | 0 <= q < |s'.procs| ensures ProcOK(s', q) {
      assert ProcOK(s, q);
    }
  }

  // A release that skips the wakeups it owes is harmless exactly when nobody
  // is committed to a channel that is no longer good.
  lemma EarlyRelease(s: Sys, s': Sys, p: nat)
    requires Inv(s) && Is(s, p, Holding) && s' == Goto(s, p, Outside).(lk := None)
    ensures Inv(s') <==> forall q, c :: 0 <= q < |s.procs| && Committed(s.procs[q], c) ==> c in s.good
  {
    if forall q, c :: 0 <= q < |s.procs| && Committed(s.procs[q], c) ==> c in s.good {
      forall q, d | 0 <= q < |s'.procs| ensures Owed(s', q, d) {
        assert Owed(s, q, d);
      }
      forall q | 0 <= q < |s'.procs| ensures ProcOK(s', q) {
        assert ProcOK(s, q);
      }
    } else {
      var q, c :| 0 <= q < |s.procs| && Committed(s.procs[q], c) && c !in s.good;
      assert !Owed(s', q, c);
    }
  }

  /** Every step of sleep, wakeup and their clients keeps the invariant. */
  lemma StepKeeps(s: Sys, s': Sys)
    requires Inv(s) && Step(s, s')
    ensures Inv(s')
  {
    hide Inv, Internal, Client;
    if Internal(s, s') {
      InternalKeeps(s, s');
    } else {
      var p, c :| Client(s, s', p, c);
      ClientKeeps(s, s', p, c);
    }
  }

  lemma InternalKeeps(s: Sys, s': Sys)
    requires Inv(s) && Internal(s, s')
    ensures Inv(s')
  {
    hide Inv, Sleeps, Scans, Others;
    if p, c :| Sleeps(s, s', p, c) {
      SleepsKeeps(s, s', p, c);
    } else if p, c, i :| Scans(s, s', p, c, i) {
      ScansKeeps(s, s', p, c, i);
    } else {
      var i :| Others(s, s', i);
      OthersKeeps(s, s', i);
    }
  }

  /** No lost wakeup: while lk is free, whoever sleeps on c does so rightly. */
  lemma NoLostWakeup(s: Sys, p: nat)
    requires Inv(s) && s.lk.None? && p < |s.procs| && s.procs[p].state == Sleeping
    ensures s.procs[p].chan.Some? && s.procs[p].chan.value in s.good
  {
    assert ProcOK(s, p);
    assert Owed(s, p, s.procs[p].pc.c);
  }

  // ---- what a client sees of the internal steps

  predicate InSleep(pc: Pc) {
    pc.Sleep1? || pc.Sleep2? || pc.Sleep3? || pc.Sleep4? || pc.Asleep? || pc.Awake? || pc.Back?
  }

  predicate InWakeup(pc: Pc) {
    pc.Waking? || pc.At?
  }

  // One process moves on inside sleep or wakeup, or returns from it.
  ghost predicate Moved(s: Sys, s': Sys, p: nat) {
    && p < |s.procs| == |s'.procs| && s'.good == s.good
    && (forall q :: 0 <= q < |s.procs| && q != p ==> s'.procs[q].pc == s.procs[q].pc)
    && var a, b := s.procs[p].pc, s'.procs[p].pc;
       || (a == b && Same(s, s'))
       || (InSleep(a) && InSleep(b) && a.c == b.c && Same(s, s'))
       || (InWakeup(a) && InWakeup(b) && a.c == b.c && Same(s, s'))
       || (InWakeup(a) && b.Holding? && s'.debt == s.debt - iset{a.c} && s'.clean == s.clean + iset{a.c})
       || (a.Back? && b.Holding? && s.lk.None? && s'.debt == iset{} && s'.clean == iset{})
  }

  ghost predicate Same(s: Sys, s': Sys) {
    s'.debt == s.debt && s'.clean == s.clean
  }

  lemma SleepMoves(s: Sys, s': Sys, p: nat, c: Chan)
    requires Sleeps(s, s', p, c)
    ensures Moved(s, s', p)
  {
  }

  lemma WakeupMoves(s: Sys, s': Sys, p: nat, c: Chan, i: nat)
    requires Scans(s, s', p, c, i)
    ensures Moved(s, s', p)
  {
  }

  lemma ForeignMoves(s: Sys, s': Sys, i: nat)
    requires 0 < |s.procs| && Others(s, s', i)
    ensures Moved(s, s', 0)
  {
  }

  lemma InternalMoves(s: Sys, s': Sys) returns (p: nat)
    requires Internal(s, s') && 0 < |s.procs|
    ensures Moved(s, s', p)
  {
    hide Moved, Sleeps, Scans, Others;
    if q, c :| Sleeps(s, s', q, c) {
      SleepMoves(s, s', q, c);
      p := q;
    } else if q, c, i :| Scans(s, s', q, c, i) {
      WakeupMoves(s, s', q, c, i);
      p := q;
    } else {
      var i :| Others(s, s', i);
      ForeignMoves(s, s', i);
      p := 0;
    }
  }

  // Nobody is in the kernel yet.
  ghost predicate Initial(s: Sys) {
    && |s.locks| == |s.procs| && s.lk.None?
    && forall i :: 0 <= i < |s.procs| ==> s.locks[i].None? && s.procs[i].pc.Outside? && s.procs[i].state != Sleeping
  }

  lemma InitialInv(s: Sys)
    requires Initial(s)
    ensures Inv(s)
  {
  }
}
