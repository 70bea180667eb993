/** pipewrite, piperead and pipeclose of pipe.c as steps of any number of
    processes, on top of the sleep/wakeup machine, whose lk is pi->lock. */
module Pipes {
  import opened Options
  import opened Blocks
  import opened SleepWakeup
  import opened PipeRing

  // The channels &pi->nread and &pi->nwrite.
  const NREAD: Chan := 0
  const NWRITE: Chan := 1

  // Where a process is in the pipe code, apart from sleep and wakeup.
  datatype Job =
    | Idle
    | Write(src: seq<byte>, i: nat, dirty: bool)  // head of pipewrite's loop; dirty: wrote since the last wakeup
    | WriteFull(src: seq<byte>, i: nat)           // wakeup(&pi->nread) before sleeping on a full pipe
    | Read(n: nat)                                // head of piperead's waiting loop
    | Copy(i: nat, buf: seq<Option<byte>>, lost: seq<byte>, at: nat)  // head of piperead's copy loop
    | Close(writable: bool)                       // pipeclose, before the flag is cleared
    | Closed(writable: bool)                      // after the flag is cleared
    | Ending(c: Chan)                             // the last wakeup before release

  // In the copy loop, buf is the reader's memory from addr on, as far as
  // copyout has stored into it; lost is the byte whose copyout failed; at is
  // how many bytes had been read from the pipe when the loop began.

  // How a pipewrite ended: with all bytes written, by a failed copyin, or with
  // -1 because the read end was closed or the writer killed.
  datatype End = Done | Fault | Gone

  // A pipewrite of src that put n bytes into the pipe.
  datatype Call = Call(src: seq<byte>, n: nat, end: End)

  // A piperead by p that returned n, when sent bytes had been written in all.
  datatype Served = Served(p: nat, at: nat, buf: seq<Option<byte>>, n: nat, lost: seq<byte>, sent: nat)

  // sent and got: all bytes ever written to and read from the pipe; writers
  // says who wrote each. asked are the buffers each process gave to pipewrite,
  // calls its pipewrites that ended; wants are the lengths it gave to piperead,
  // ended those of its pipereads that ended, and served the ones that copied.
  datatype State = State(sys: Sys, pipe: Pipe, jobs: seq<Job>, killed: seq<bool>, sent: seq<byte>, got: seq<byte>,
                         writers: seq<nat>, asked: seq<seq<seq<byte>>>, calls: seq<seq<Call>>, served: seq<Served>,
                         wants: seq<seq<nat>>, ended: seq<seq<nat>>)

  // When sleeping on a channel is right.
  predicate Good(pipe: Pipe, c: Chan) {
    || (c == NREAD && Empty(pipe) && pipe.writeopen)
    || (c == NWRITE && Full(pipe) && pipe.readopen)
  }

  ghost function GoodSet(pipe: Pipe): iset<Chan> {
    iset c: Chan | Good(pipe, c)
  }

  predicate Here(s: State, p: nat, job: Job) {
    p < |s.jobs| && p < |s.killed| && s.jobs[p] == job && Is(s.sys, p, Holding) && |s.pipe.data| == PIPESIZE
  }

  function Turn(s: State, p: nat, job: Job): State
    requires p < |s.jobs|
  {
    s.(jobs := s.jobs[p := job])
  }

  // One more entry in the list of p.
  function Add<T>(lists: seq<seq<T>>, p: nat, x: T): seq<seq<T>> {
    if p < |lists| then lists[p := lists[p] + [x]] else lists
  }

  // The holder of the lock changes the pipe, and owes c a wakeup.
  ghost function Change(s: State, p: nat, job: Job, pipe: Pipe, c: Chan): State
    requires p < |s.jobs|
  {
    Turn(s, p, job).(pipe := pipe, sys := s.sys.(good := GoodSet(pipe), debt := s.sys.debt + iset{c}))
  }

  ghost predicate Begin(s: State, s': State, p: nat, job: Job) {
    && p < |s.jobs| && s.jobs[p].Idle?
    && (job.Read? || job.Close? || (job.Write? && job.i == 0 && !job.dirty))
    && Acquire(s.sys, s'.sys, p)
    && s' == Turn(s, p, job).(sys := s'.sys, asked := if job.Write? then Add(s.asked, p, job.src) else s.asked,
                              wants := if job.Read? then Add(s.wants, p, job.n) else s.wants)
  }

  // ---- pipewrite

  // The read end is closed or the writer was killed: release and return -1.
  ghost predicate Abort(s: State, s': State, p: nat, job: Job) {
    && Here(s, p, job) && job.Write? && job.i < |job.src| && (!s.pipe.readopen || s.killed[p])
    && s' == Turn(s, p, Idle).(sys := Goto(s.sys, p, Outside).(lk := None),
                               calls := Add(s.calls, p, Call(job.src, job.i, Gone)))
  }

  predicate CanWrite(s: State, p: nat, job: Job) {
    Here(s, p, job) && job.Write? && job.i < |job.src| && s.pipe.readopen && !s.killed[p]
  }

  ghost predicate FoundFull(s: State, s': State, p: nat, job: Job) {
    && CanWrite(s, p, job) && Full(s.pipe)
    && StartWakeup(s.sys, s'.sys, p, NREAD) && s' == Turn(s, p, WriteFull(job.src, job.i)).(sys := s'.sys)
  }

  ghost predicate SleepFull(s: State, s': State, p: nat, job: Job) {
    && Here(s, p, job) && job.WriteFull?
    && s' == Turn(s, p, Write(job.src, job.i, false)).(
         sys := Goto(s.sys, p, Sleep1(NWRITE)).(clean := s.sys.clean - iset{NWRITE}))
  }

  ghost predicate WriteByte(s: State, s': State, p: nat, job: Job) {
    && CanWrite(s, p, job) && !Full(s.pipe)
    && var ch := job.src[job.i];
       s' == Change(s, p, Write(job.src, job.i + 1, true), Put(s.pipe, ch), NREAD).(
               sent := s.sent + [ch], writers := s.writers + [p])
  }

  // All bytes are written, or copyin failed.
  ghost predicate StopWrite(s: State, s': State, p: nat, job: Job) {
    && Here(s, p, job) && job.Write? && (job.i == |job.src| || (CanWrite(s, p, job) && !Full(s.pipe)))
    && StartWakeup(s.sys, s'.sys, p, NREAD)
    && var end := if job.i == |job.src| then Done else Fault;
       s' == Turn(s, p, Ending(NREAD)).(sys := s'.sys, calls := Add(s.calls, p, Call(job.src, job.i, end)))
  }

  // ---- piperead

  predicate MustWait(s: State, p: nat, job: Job) {
    Here(s, p, job) && job.Read? && Empty(s.pipe) && s.pipe.writeopen
  }

  ghost predicate ReadAbort(s: State, s': State, p: nat, job: Job) {
    && MustWait(s, p, job) && s.killed[p]
    && s' == Turn(s, p, Idle).(sys := Goto(s.sys, p, Outside).(lk := None), ended := Add(s.ended, p, job.n))
  }

  ghost predicate SleepEmpty(s: State, s': State, p: nat, job: Job) {
    && MustWait(s, p, job) && !s.killed[p]
    && s' == s.(sys := Goto(s.sys, p, Sleep1(NREAD)).(clean := s.sys.clean - iset{NREAD}))
  }

  predicate StartCopy(s: State, s': State, p: nat, job: Job) {
    && Here(s, p, job) && job.Read? && !MustWait(s, p, job)
    && s' == Turn(s, p, Copy(0, seq(job.n, _ => None), [], |s.got|))
  }

  // The next byte goes to addr + i, or its copyout fails and it is lost.
  ghost predicate ReadByte(s: State, s': State, p: nat, job: Job) {
    && Here(s, p, job) && job.Copy? && job.i < |job.buf| && !Empty(s.pipe) && job.lost == []
    && var ch := Front(s.pipe);
       || s' == Change(s, p, job.(i := job.i + 1, buf := job.buf[job.i := Some(ch)]), Take(s.pipe), NWRITE).(
                  got := s.got + [ch])
       || s' == Change(s, p, job.(lost := [ch]), Take(s.pipe), NWRITE).(got := s.got + [ch])
  }

  // The buffer is full, the pipe is empty, or the last copyout failed.
  ghost predicate StopRead(s: State, s': State, p: nat, job: Job) {
    && Here(s, p, job) && job.Copy? && (job.i == |job.buf| || Empty(s.pipe) || job.lost != [])
    && StartWakeup(s.sys, s'.sys, p, NWRITE)
    && s' == Turn(s, p, Ending(NWRITE)).(sys := s'.sys, ended := Add(s.ended, p, |job.buf|),
               served := s.served + [Served(p, job.at, job.buf, job.i, job.lost, |s.sent|)])
  }

  // ---- pipeclose

  ghost predicate ClearFlag(s: State, s': State, p: nat, job: Job) {
    && Here(s, p, job) && job.Close?
    && s' == if job.writable then Change(s, p, Closed(true), s.pipe.(writeopen := false), NREAD)
             else Change(s, p, Closed(false), s.pipe.(readopen := false), NWRITE)
  }

  ghost predicate CloseWakeup(s: State, s': State, p: nat, job: Job) {
    && Here(s, p, job) && job.Closed?
    && var c := if job.writable then NREAD else NWRITE;
       StartWakeup(s.sys, s'.sys, p, c) && s' == Turn(s, p, Ending(c)).(sys := s'.sys)
  }

  ghost predicate Finish(s: State, s': State, p: nat, job: Job) {
    Here(s, p, job) && job.Ending? && s' == Turn(s, p, Idle).(sys := Goto(s.sys, p, Outside).(lk := None))
  }

  // ---- everything else

  // kill(): the flag is set for good, and a sleeper is made runnable.
  ghost predicate KillProc(s: State, s': State, p: nat) {
    && p < |s.killed| && s' == s.(killed := s.killed[p := true], sys := s'.sys)
    && (Kill(s.sys, s'.sys, p) || s'.sys == s.sys)
  }

  ghost predicate Inside(s: State, s': State) {
    s' == s.(sys := s'.sys) && Internal(s.sys, s'.sys)
  }

  ghost predicate Changes(s: State, s': State, p: nat, job: Job) {
    WriteByte(s, s', p, job) || ReadByte(s, s', p, job) || ClearFlag(s, s', p, job) || StartCopy(s, s', p, job)
  }

  ghost predicate Calls(s: State, s': State, p: nat, job: Job) {
    || FoundFull(s, s', p, job) || StopWrite(s, s', p, job) || StopRead(s, s', p, job) || CloseWakeup(s, s', p, job)
    || SleepFull(s, s', p, job) || SleepEmpty(s, s', p, job)
  }

  ghost predicate Leaves(s: State, s': State, p: nat, job: Job) {
    ReadAbort(s, s', p, job) || Finish(s, s', p, job)
  }

  ghost predicate Step(s: State, s': State) {
    || Inside(s, s')
    || (exists p :: KillProc(s, s', p))
    || (exists p, job :: Begin(s, s', p, job))
    || (exists p, job :: Changes(s, s', p, job))
    || (exists p, job :: Calls(s, s', p, job))
    || (exists p, job :: Leaves(s, s', p, job))
    || (exists p, job :: Abort(s, s', p, job))
  }

  ghost predicate Start(s: State) {
    && Initial(s.sys) && s.sys.good == GoodSet(s.pipe) && 0 < |s.jobs| == |s.killed| == |s.sys.procs|
    && (forall p :: 0 <= p < |s.jobs| ==> s.jobs[p].Idle?)
    && |s.pipe.data| == PIPESIZE && s.pipe.nread == s.pipe.nwrite == 0 && s.sent == s.got == []
    && |s.asked| == |s.calls| == |s.wants| == |s.ended| == |s.jobs| && s.writers == [] && s.served == []
    && forall p :: 0 <= p < |s.jobs| ==> s.asked[p] == [] && s.calls[p] == [] && s.wants[p] == s.ended[p] == []
  }

  ghost predicate Run(run: seq<State>) {
    |run| > 0 && Start(run[0]) && forall k :: 0 <= k < |run| - 1 ==> Step(run[k], run[k + 1])
  }

  // ---- order of bytes

  ghost predicate InOrder(s: State) {
    s.got <= s.sent && Holds(s.pipe, s.sent, |s.got|)
  }

  lemma ChangesInOrder(s: State, s': State, p: nat, job: Job)
    requires InOrder(s) && Changes(s, s', p, job)
    ensures InOrder(s')
  {
    hide GoodSet;
    if WriteByte(s, s', p, job) {
      PutHolds(s.pipe, s.sent, |s.got|, job.src[job.i]);
    } else if ReadByte(s, s', p, job) {
      TakeHolds(s.pipe, s.sent, |s.got|);
    }
  }

  // Only these steps touch the pipe.
  lemma OthersInOrder(s: State, s': State)
    requires Step(s, s') && !exists p, job :: Changes(s, s', p, job)
    ensures s'.pipe == s.pipe && s'.sent == s.sent && s'.got == s.got
  {
    hide Acquire, StartWakeup, Goto, Kill, Internal, Full, Empty, Changes;
  }

  lemma StepInOrder(s: State, s': State)
    requires InOrder(s) && Step(s, s')
    ensures InOrder(s')
  {
    hide Step, Changes, Holds;
    if p, job :| Changes(s, s', p, job) {
      ChangesInOrder(s, s', p, job);
    } else {
      OthersInOrder(s, s');
    }
  }

  /** In every run the bytes read are a prefix of the bytes written, in order,
      and at most PIPESIZE of them are pending, however often the counters wrap. */
  lemma {:induction false} PipeOrder(run: seq<State>, k: nat)
    requires Run(run) && k < |run|
    ensures InOrder(run[k])
    ensures run[k].got <= run[k].sent && |run[k].sent| - |run[k].got| <= PIPESIZE
  {
    if k > 0 {
      PipeOrder(run, k - 1);
      StepInOrder(run[k - 1], run[k]);
    }
  }

  // ---- no lost wakeup

  // The channels a process may owe a wakeup at this point of its code.
  function Owes(job: Job): set<Chan> {
    match job
    case Write(_, _, dirty) => if dirty then {NREAD} else {}
    case Copy(_, _, _, _) => {NWRITE}
    case Closed(writable) => if writable then {NREAD} else {NWRITE}
    case _ => {}
  }

  // What the job knows of the pipe while it holds the lock.
  predicate Knows(job: Job, pipe: Pipe) {
    match job
    case Write(_, _, dirty) => dirty ==> pipe.readopen && !Empty(pipe)
    case WriteFull(_, _) => pipe.readopen && Full(pipe)
    case _ => true
  }

  ghost predicate JobOK(s: State, p: nat)
    requires p < |s.jobs| && p < |s.sys.procs|
  {
    var job, pc := s.jobs[p], s.sys.procs[p].pc;
    if pc.Outside? then job.Idle?
    else if pc.Holding? then !job.Idle? && Knows(job, s.pipe) && forall c :: c in s.sys.debt ==> c in Owes(job)
    else if InWakeup(pc) then
      (job == Ending(pc.c) || (job.WriteFull? && pc.c == NREAD)) && Knows(job, s.pipe) && s.sys.debt <= iset{pc.c}
    else (job.Write? && !job.dirty && pc.c == NWRITE) || (job.Read? && pc.c == NREAD)
  }

  ghost predicate Sound(s: State) {
    && SleepWakeup.Inv(s.sys) && s.sys.good == GoodSet(s.pipe) && InOrder(s)
    && 0 < |s.jobs| == |s.killed| == |s.sys.procs|
    && forall p :: 0 <= p < |s.jobs| ==> JobOK(s, p)
  }

  // A step of p leaves what it knows of the other processes true.
  ghost predicate OnlyMoves(s: State, s': State, p: nat) {
    && |s'.jobs| == |s.jobs| == |s'.killed| == |s.killed| == |s'.sys.procs| == |s.sys.procs| && p < |s.jobs|
    && (s.sys.lk == None || s.sys.lk == Some(p))
    && forall q :: 0 <= q < |s.jobs| && q != p ==> s'.jobs[q] == s.jobs[q] && s'.sys.procs[q] == s.sys.procs[q]
  }

  lemma SoundAfter(s: State, s': State, p: nat)
    requires Sound(s) && OnlyMoves(s, s', p) && JobOK(s', p)
    requires SleepWakeup.Inv(s'.sys) && s'.sys.good == GoodSet(s'.pipe) && InOrder(s')
    ensures Sound(s')
  {
    forall q | 0 <= q < |s'.jobs| ensures JobOK(s', q) {
      assert JobOK(s, q);
    }
  }

  lemma InsideSound(s: State, s': State)
    requires Sound(s) && Inside(s, s')
    ensures Sound(s')
  {
    InternalKeeps(s.sys, s'.sys);
    var p := InternalMoves(s.sys, s'.sys);
    forall q | 0 <= q < |s'.jobs| ensures JobOK(s', q) {
      assert JobOK(s, q) && JobOK(s, p);
    }
  }

  lemma KillSound(s: State, s': State, p: nat)
    requires Sound(s) && KillProc(s, s', p)
    ensures Sound(s')
  {
    if Kill(s.sys, s'.sys, p) {
      OthersKeeps(s.sys, s'.sys, p);
      forall q | 0 <= q < |s'.jobs| ensures JobOK(s', q) {
        assert JobOK(s, q);
      }
    } else {
      forall q | 0 <= q < |s'.jobs| ensures JobOK(s', q) {
        assert JobOK(s, q);
      }
    }
  }

  lemma BeginSound(s: State, s': State, p: nat, job: Job)
    requires Sound(s) && Begin(s, s', p, job)
    ensures Sound(s')
  {
    ClientKeeps(s.sys, s'.sys, p, 0);
    SoundAfter(s, s', p);
  }

  lemma ChangesSound(s: State, s': State, p: nat, job: Job)
    requires Sound(s) && Changes(s, s', p, job)
    ensures Sound(s')
  {
    ChangesModify(s, s', p, job);
    ChangesMoves(s, s', p, job);
    ChangesJob(s, s', p, job);
    hide Changes, JobOK, GoodSet, SleepWakeup.Inv, InOrder;
    SoundAfter(s, s', p);
  }

  lemma ChangesModify(s: State, s': State, p: nat, job: Job)
    requires Sound(s) && Changes(s, s', p, job)
    ensures SleepWakeup.Inv(s'.sys) && s'.sys.good == GoodSet(s'.pipe) && InOrder(s')
  {
    StepInOrder(s, s');
    hide SleepWakeup.Inv, InOrder, JobOK;
    if !StartCopy(s, s', p, job) {
      assert Modify(s.sys, s'.sys, p);
      ClientKeeps(s.sys, s'.sys, p, 0);
    }
  }

  lemma HolderHas(s: State, p: nat)
    requires Sound(s) && Is(s.sys, p, Holding)
    ensures s.sys.lk == Some(p)
  {
  }

  lemma ChangesMoves(s: State, s': State, p: nat, job: Job)
    requires Sound(s) && Changes(s, s', p, job)
    ensures OnlyMoves(s, s', p)
  {
    HolderHas(s, p);
    hide SleepWakeup.Inv, InOrder, JobOK, GoodSet, Front, Put, Take, Full, Empty;
  }

  lemma ChangesJob(s: State, s': State, p: nat, job: Job)
    requires Sound(s) && Changes(s, s', p, job) && InOrder(s') && OnlyMoves(s, s', p)
    ensures JobOK(s', p)
  {
    assert JobOK(s, p);
    hide SleepWakeup.Inv, GoodSet, Front;
    if WriteByte(s, s', p, job) {
      Tests(s'.pipe, s'.sent, |s'.got|);
      hide InOrder;
    }
  }

  lemma CallsSound(s: State, s': State, p: nat, job: Job)
    requires Sound(s) && Calls(s, s', p, job)
    ensures Sound(s')
  {
    assert JobOK(s, p);
    if SleepFull(s, s', p, job) {
      ClientKeeps(s.sys, s'.sys, p, NWRITE);
    } else if SleepEmpty(s, s', p, job) {
      ClientKeeps(s.sys, s'.sys, p, NREAD);
    } else {
      var c := s'.sys.procs[p].pc.c;
      ClientKeeps(s.sys, s'.sys, p, c);
    }
    SoundAfter(s, s', p);
  }

  lemma LeavesSound(s: State, s': State, p: nat, job: Job)
    requires Sound(s) && Leaves(s, s', p, job)
    ensures Sound(s')
  {
    assert JobOK(s, p);
    ClientKeeps(s.sys, s'.sys, p, 0);
    SoundAfter(s, s', p);
  }

  // Whoever is committed to sleep while the lock is free does so rightly.
  ghost predicate SleepRight(s: State) {
    s.sys.lk.None? ==>
      forall p, c :: 0 <= p < |s.sys.procs| && Committed(s.sys.procs[p], c) ==> Good(s.pipe, c)
  }

  // A killed writer returns without announcing bytes that a reader waits for.
  ghost predicate Silent(s: State, s': State) {
    exists p, job, q :: Abort(s, s', p, job) && job.dirty && 0 <= q < |s.sys.procs| && Committed(s.sys.procs[q], NREAD)
  }

  lemma AbortSound(s: State, s': State, p: nat, job: Job)
    requires Sound(s) && Abort(s, s', p, job)
    ensures if Silent(s, s') then !SleepRight(s') else Sound(s')
  {
    assert JobOK(s, p);
    if q :| job.dirty && 0 <= q < |s.sys.procs| && Committed(s.sys.procs[q], NREAD) {
      assert s'.sys.procs[q] == s.sys.procs[q] && !Good(s'.pipe, NREAD);
    } else {
      forall q, c | 0 <= q < |s.sys.procs| && Committed(s.sys.procs[q], c) ensures c in s.sys.good {
        assert Owed(s.sys, q, c);
      }
      EarlyRelease(s.sys, s'.sys, p);
      SoundAfter(s, s', p);
    }
  }

  lemma StepSound(s: State, s': State)
    requires Sound(s) && Step(s, s')
    ensures if Silent(s, s') then !SleepRight(s') else Sound(s')
  {
    hide Inside, KillProc, Begin, Changes, Calls, Leaves, Abort, Sound, SleepRight;
    if p, job :| Abort(s, s', p, job) {
      AbortSound(s, s', p, job);
    } else if Inside(s, s') {
      InsideSound(s, s');
    } else if p :| KillProc(s, s', p) {
      KillSound(s, s', p);
    } else if p, job :| Begin(s, s', p, job) {
      BeginSound(s, s', p, job);
    } else if p, job :| Changes(s, s', p, job) {
      ChangesSound(s, s', p, job);
    } else if p, job :| Calls(s, s', p, job) {
      CallsSound(s, s', p, job);
    } else {
      var p, job :| Leaves(s, s', p, job);
      LeavesSound(s, s', p, job);
    }
  }

  lemma StartSound(s: State)
    requires Start(s)
    ensures Sound(s)
  {
    InitialInv(s.sys);
  }

  lemma {:induction false} RunSound(run: seq<State>, k: nat)
    requires Run(run) && k < |run|
    requires forall j :: 0 <= j < k ==> !Silent(run[j], run[j + 1])
    ensures Sound(run[k])
  {
    hide Step, Start, Silent, Sound, SleepRight;
    if k == 0 {
      StartSound(run[0]);
    } else {
      RunSound(run, k - 1);
      StepSound(run[k - 1], run[k]);
    }
  }

  lemma SoundSleep(s: State)
    requires Sound(s)
    ensures SleepRight(s)
  {
    forall p, c | s.sys.lk.None? && 0 <= p < |s.sys.procs| && Committed(s.sys.procs[p], c) ensures Good(s.pipe, c) {
      assert Owed(s.sys, p, c);
    }
  }

  /** No lost wakeup, exactly: every sleeper of a run sleeps rightly whenever
      the pipe lock is free, if and only if no killed writer kept silent. */
  lemma NoLostWakeupIff(run: seq<State>)
    requires Run(run)
    ensures (forall k :: 0 <= k < |run| - 1 ==> !Silent(run[k], run[k + 1]))
       <==> (forall k :: 0 <= k < |run| ==> SleepRight(run[k]))
  {
    hide Step, Start, Silent, Sound, SleepRight;
    if forall k :: 0 <= k < |run| - 1 ==> !Silent(run[k], run[k + 1]) {
      forall k | 0 <= k < |run| ensures SleepRight(run[k]) {
        RunSound(run, k);
        SoundSleep(run[k]);
      }
    } else {
      var j :| 0 <= j < |run| - 1 && Silent(run[j], run[j + 1]);
      var k := FirstSilent(run, j);
      RunSound(run, k);
      StepSound(run[k], run[k + 1]);
    }
  }

  lemma {:induction false} FirstSilent(run: seq<State>, j: nat) returns (k: nat)
    requires j < |run| - 1 && Silent(run[j], run[j + 1])
    ensures k < |run| - 1 && Silent(run[k], run[k + 1])
    ensures forall i :: 0 <= i < k ==> !Silent(run[i], run[i + 1])
    decreases j
  {
    hide Silent;
    if i :| 0 <= i < j && Silent(run[i], run[i + 1]) {
      k := FirstSilent(run, i);
    } else {
      k := j;
    }
  }

  /** What that means for a process that is SLEEPING. */
  lemma Sleepers(run: seq<State>, k: nat, p: nat)
    requires Run(run) && k < |run| && forall j :: 0 <= j < |run| - 1 ==> !Silent(run[j], run[j + 1])
    requires run[k].sys.lk.None? && p < |run[k].sys.procs| && run[k].sys.procs[p].state == Sleeping
    ensures || (run[k].sys.procs[p].chan == Some(NREAD) && Empty(run[k].pipe) && run[k].pipe.writeopen)
            || (run[k].sys.procs[p].chan == Some(NWRITE) && Full(run[k].pipe) && run[k].pipe.readopen)
  {
    RunSound(run, k);
    hide Run, Step, Start, Silent;
    NoLostWakeup(run[k].sys, p);
  }

  // ---- a run in which a reader sleeps although a byte is pending

  lemma Extend(run: seq<State>, s: State)
    requires Run(run) && Step(run[|run| - 1], s)
    ensures Run(run + [s])
  {
    hide Step, Start;
    var next := run + [s];
    forall k | 0 <= k < |next| - 1 ensures Step(next[k], next[k + 1]) {
      if k < |run| - 1 {
        assert Step(run[k], run[k + 1]);
      }
    }
  }

  ghost function Parked(pc: Pc, state: RunState, chan: Option<Chan>, lk: Option<nat>, lock: Option<nat>): State {
    var pipe := Pipe(seq(PIPESIZE, _ => 0), 0, 0, true, true);
    State(Sys(lk, [Proc(state, chan, pc), Proc(Running, None, Outside)], [lock, None], GoodSet(pipe), iset{}, iset{}),
          pipe, [if pc.Outside? then Idle else Read(1), Idle], [false, false], [], [], [], [[], []], [[], []], [],
          if pc.Outside? then [[], []] else Add([[], []], 0, 1), [[], []])
  }

  // Process 0 goes on inside sleep.
  lemma GoesOn(run: seq<State>, s: State, s': State) returns (run': seq<State>)
    requires Run(run) && run[|run| - 1] == s && s' == s.(sys := s'.sys) && Sleeps(s.sys, s'.sys, 0, NREAD)
    ensures Run(run') && run'[|run'| - 1] == s'
  {
    hide Sleeps;
    assert Internal(s.sys, s'.sys);
    assert Inside(s, s');
    Extend(run, s');
    run' := run + [s'];
  }

  lemma ReaderParks() returns (run: seq<State>)
    ensures Run(run) && run[|run| - 1] == Parked(Asleep(NREAD), Sleeping, Some(NREAD), None, None)
  {
    var s0 := Parked(Outside, Running, None, None, None);
    var s1 := Parked(Holding, Running, None, Some(0), None);
    var s2 := Parked(Sleep1(NREAD), Running, None, Some(0), None);
    run := [s0];
    assert Begin(s0, s1, 0, Read(1));
    Extend(run, s1);
    run := run + [s1];
    assert SleepEmpty(s1, s2, 0, Read(1));
    assert Calls(s1, s2, 0, Read(1));
    Extend(run, s2);
    run := run + [s2];
    run := ReaderSleeps(run);
  }

  lemma ReaderSleeps(run: seq<State>) returns (run': seq<State>)
    requires Run(run) && run[|run| - 1] == Parked(Sleep1(NREAD), Running, None, Some(0), None)
    ensures Run(run') && run'[|run'| - 1] == Parked(Asleep(NREAD), Sleeping, Some(NREAD), None, None)
  {
    hide Step, Start;
    var s2 := run[|run| - 1];
    var s3 := Parked(Sleep2(NREAD), Running, None, Some(0), Some(0));
    var s4 := Parked(Sleep3(NREAD), Running, None, None, Some(0));
    var s5 := Parked(Sleep4(NREAD), Sleeping, Some(NREAD), None, Some(0));
    var s6 := Parked(Asleep(NREAD), Sleeping, Some(NREAD), None, None);
    assert LockOwn(s2.sys, s3.sys, 0, NREAD);
    run' := GoesOn(run, s2, s3);
    assert DropLk(s3.sys, s4.sys, 0, NREAD);
    run' := GoesOn(run', s3, s4);
    assert SetSleeping(s4.sys, s5.sys, 0, NREAD);
    run' := GoesOn(run', s4, s5);
    assert SwitchOut(s5.sys, s6.sys, 0, NREAD);
    run' := GoesOn(run', s5, s6);
  }

  /** Two processes suffice: the reader sleeps, the writer puts one of two
      bytes, is killed, and returns -1 without a wakeup. */
  lemma KilledWriterLosesWakeup() returns (run: seq<State>)
    ensures Run(run) && !SleepRight(run[|run| - 1])
  {
    run := ReaderParks();
    var job := Write([7, 7], 0, false);
    var s := run[|run| - 1];
    var s1 := Turn(s, 1, job).(sys := Goto(s.sys, 1, Holding).(lk := Some(1)), asked := Add(s.asked, 1, job.src));
    assert Begin(s, s1, 1, job);
    Extend(run, s1);
    run := run + [s1];
    var s2 := Change(s1, 1, Write([7, 7], 1, true), Put(s1.pipe, 7), NREAD).(sent := [7], writers := [1]);
    assert WriteByte(s1, s2, 1, job);
    assert Changes(s1, s2, 1, job);
    Extend(run, s2);
    run := run + [s2];
    run := WriterDies(run, s2);
  }

  lemma WriterDies(run: seq<State>, s: State) returns (run': seq<State>)
    requires Run(run) && run[|run| - 1] == s && Here(s, 1, Write([7, 7], 1, true)) && s.pipe.nread == 0
             && s.pipe.nwrite == 1
    requires Committed(s.sys.procs[0], NREAD)
    ensures Run(run') && !SleepRight(run'[|run'| - 1])
  {
    var s1 := s.(killed := s.killed[1 := true]);
    assert KillProc(s, s1, 1);
    Extend(run, s1);
    run' := run + [s1];
    var s2 := Turn(s1, 1, Idle).(sys := Goto(s1.sys, 1, Outside).(lk := None),
                                 calls := Add(s1.calls, 1, Call([7, 7], 1, Gone)));
    assert Abort(s1, s2, 1, Write([7, 7], 1, true));
    Extend(run', s2);
    run' := run' + [s2];
    assert s2.sys.procs[0] == s.sys.procs[0] && !Good(s2.pipe, NREAD);
  }
}
