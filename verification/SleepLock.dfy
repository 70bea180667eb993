/** acquiresleep and releasesleep of sleeplock.c as steps of any number of
    processes, on top of the sleep/wakeup machine, whose lk is lk->lk. */
module SleepLock {
  import opened Options
  import opened SleepWakeup

  // The address of the sleep lock is its channel.
  const LOCK: Chan := 0

  datatype Job =
    | Idle
    | Acquiring   // head of acquiresleep's loop
    | Acquired    // locked and pid are set, lk->lk still held
    | Owner       // returned from acquiresleep
    | Releasing   // in releasesleep, before the fields are cleared
    | Cleared     // after, before the wakeup
    | Ending      // the wakeup before release

  datatype State = State(sys: Sys, locked: bool, pid: nat, jobs: seq<Job>)

  ghost function GoodSet(locked: bool): iset<Chan> {
    if locked then iset{LOCK} else iset{}
  }

  predicate Here(s: State, p: nat, job: Job) {
    p < |s.jobs| && s.jobs[p] == job && Is(s.sys, p, Holding)
  }

  function Turn(s: State, p: nat, job: Job): State
    requires p < |s.jobs|
  {
    s.(jobs := s.jobs[p := job])
  }

  ghost predicate Enter(s: State, s': State, p: nat) {
    && p < |s.jobs| && (s.jobs[p].Idle? || s.jobs[p].Owner?)
    && Acquire(s.sys, s'.sys, p)
    && s' == Turn(s, p, if s.jobs[p].Idle? then Acquiring else Releasing).(sys := s'.sys)
  }

  ghost predicate Wait(s: State, s': State, p: nat) {
    && Here(s, p, Acquiring) && s.locked
    && s' == s.(sys := Goto(s.sys, p, Sleep1(LOCK)).(clean := s.sys.clean - iset{LOCK}))
  }

  ghost predicate TakeIt(s: State, s': State, p: nat) {
    && Here(s, p, Acquiring) && !s.locked
    && s' == Turn(s, p, Acquired).(locked := true, pid := p, sys := s.sys.(good := GoodSet(true)))
  }

  ghost predicate Clear(s: State, s': State, p: nat) {
    && Here(s, p, Releasing)
    && s' == Turn(s, p, Cleared).(locked := false, pid := 0,
                                  sys := s.sys.(good := GoodSet(false), debt := s.sys.debt + iset{LOCK}))
  }

  predicate Wake(s: State, s': State, p: nat) {
    Here(s, p, Cleared) && StartWakeup(s.sys, s'.sys, p, LOCK) && s' == Turn(s, p, Ending).(sys := s'.sys)
  }

  predicate Leave(s: State, s': State, p: nat) {
    && (Here(s, p, Acquired) || Here(s, p, Ending))
    && s' == Turn(s, p, if s.jobs[p].Acquired? then Owner else Idle).(sys := Goto(s.sys, p, Outside).(lk := None))
  }

  ghost predicate Inside(s: State, s': State) {
    s' == s.(sys := s'.sys) && Internal(s.sys, s'.sys)
  }

  ghost predicate Acts(s: State, s': State, p: nat) {
    Enter(s, s', p) || Wait(s, s', p) || TakeIt(s, s', p) || Clear(s, s', p) || Wake(s, s', p) || Leave(s, s', p)
  }

  ghost predicate Step(s: State, s': State) {
    Inside(s, s') || exists p :: Acts(s, s', p)
  }

  ghost predicate Start(s: State) {
    && Initial(s.sys) && s.sys.good == GoodSet(false) && !s.locked && 0 < |s.jobs| == |s.sys.procs|
    && forall p :: 0 <= p < |s.jobs| ==> s.jobs[p].Idle?
  }

  ghost predicate Run(run: seq<State>) {
    |run| > 0 && Start(run[0]) && forall k :: 0 <= k < |run| - 1 ==> Step(run[k], run[k + 1])
  }

  // ---- the invariant

  predicate Owns(job: Job) {
    job.Acquired? || job.Owner? || job.Releasing?
  }

  ghost predicate JobOK(s: State, p: nat)
    requires p < |s.jobs| && p < |s.sys.procs|
  {
    var job, pc := s.jobs[p], s.sys.procs[p].pc;
    && (Owns(job) <==> s.locked && s.pid == p)
    && if pc.Outside? then job.Idle? || job.Owner?
       else if pc.Holding? then
         && !job.Idle? && !job.Owner?
         && (forall c :: c in s.sys.debt ==> job.Cleared? && c == LOCK)
       else if InWakeup(pc) then job.Ending? && pc.c == LOCK && s.sys.debt <= iset{LOCK}
       else job.Acquiring? && pc.c == LOCK
  }

  ghost predicate Sound(s: State) {
    && SleepWakeup.Inv(s.sys) && s.sys.good == GoodSet(s.locked) && 0 < |s.jobs| == |s.sys.procs|
    && (s.locked ==> s.pid < |s.jobs|)
    && forall p :: 0 <= p < |s.jobs| ==> JobOK(s, p)
  }

  lemma InsideSound(s: State, s': State)
    requires Sound(s) && Inside(s, s')
    ensures Sound(s')
  {
    InternalKeeps(s.sys, s'.sys);
    var p := InternalMoves(s.sys, s'.sys);
    forall q | 0 <= q < |s'.jobs| ensures JobOK(s', q) {
      assert JobOK(s, q) && JobOK(s, p);
    }
  }

  lemma ActsKeep(s: State, s': State, p: nat)
    requires Sound(s) && Acts(s, s', p)
    ensures SleepWakeup.Inv(s'.sys)
  {
    assert JobOK(s, p);
    if Enter(s, s', p) {
      ClientKeeps(s.sys, s'.sys, p, 0);
    } else if Wait(s, s', p) {
      ClientKeeps(s.sys, s'.sys, p, LOCK);
    } else if TakeIt(s, s', p) || Clear(s, s', p) {
      ClientKeeps(s.sys, s'.sys, p, 0);
    } else if Wake(s, s', p) {
      ClientKeeps(s.sys, s'.sys, p, LOCK);
    } else {
      ClientKeeps(s.sys, s'.sys, p, 0);
    }
  }

  lemma ActsSound(s: State, s': State, p: nat)
    requires Sound(s) && Acts(s, s', p)
    ensures Sound(s')
  {
    ActsKeep(s, s', p);
    assert JobOK(s, p);
    forall q | 0 <= q < |s'.jobs| ensures JobOK(s', q) {
      assert JobOK(s, q);
    }
  }

  lemma {:induction false} RunSound(run: seq<State>, k: nat)
    requires Run(run) && k < |run|
    ensures Sound(run[k])
  {
    if k == 0 {
      InitialInv(run[0].sys);
    } else {
      RunSound(run, k - 1);
      hide Sound, Acts, Inside, Start;
      if Inside(run[k - 1], run[k]) {
        InsideSound(run[k - 1], run[k]);
      } else {
        var p :| Acts(run[k - 1], run[k], p);
        ActsSound(run[k - 1], run[k], p);
      }
    }
  }

  /** In every run at most one process owns the sleep lock, and then it is
      locked with that process's pid. */
  lemma MutualExclusion(run: seq<State>, k: nat, p: nat, q: nat)
    requires Run(run) && k < |run| && p < |run[k].jobs| && q < |run[k].jobs|
    requires Owns(run[k].jobs[p])
    ensures run[k].locked && run[k].pid == p
    ensures Owns(run[k].jobs[q]) ==> q == p
  {
    RunSound(run, k);
    assert JobOK(run[k], p) && JobOK(run[k], q);
  }

  /** In every run, while lk->lk is free an unlocked sleep lock has no
      process SLEEPING on it. */
  lemma NoSleeperOnUnlocked(run: seq<State>, k: nat, p: nat)
    requires Run(run) && k < |run| && p < |run[k].jobs| == |run[k].sys.procs|
    requires run[k].sys.lk.None? && !run[k].locked
    ensures run[k].sys.procs[p].state != Sleeping
  {
    RunSound(run, k);
    if run[k].sys.procs[p].state == Sleeping {
      NoLostWakeup(run[k].sys, p);
    }
  }
}
