/** Whose bytes go through a pipe, and where they end up: what every run of
    pipewrite and piperead does with the buffers of its callers. */
module PipeTrace {
  import opened Options
  import opened Blocks
  import opened SleepWakeup
  import opened PipeRing
  import opened Pipes

  // ---- writers

  // The bytes that p wrote, in the order they went into the pipe.
  function Mine(sent: seq<byte>, writers: seq<nat>, p: nat): seq<byte>
    requires |sent| == |writers|
  {
    if sent == [] then [] else
    var n := |sent| - 1;
    Mine(sent[..n], writers[..n], p) + if writers[n] == p then [sent[n]] else []
  }

  function Prefix(src: seq<byte>, n: nat): seq<byte> {
    if n <= |src| then src[..n] else src
  }

  // The first n bytes of the buffer of each call, one call after the other.
  function Taken(calls: seq<Call>): seq<byte> {
    if calls == [] then [] else
    var c := calls[|calls| - 1];
    Taken(calls[..|calls| - 1]) + Prefix(c.src, c.n)
  }

  function Buffers(calls: seq<Call>): seq<seq<byte>> {
    seq(|calls|, k requires 0 <= k < |calls| => calls[k].src)
  }

  // The call that a process is in: its buffer and the bytes of it written.
  function Current(job: Job): seq<(seq<byte>, nat)> {
    if job.Write? || job.WriteFull? then [(job.src, job.i)] else []
  }

  function Now(job: Job): seq<byte> {
    if Current(job) == [] then [] else Prefix(Current(job)[0].0, Current(job)[0].1)
  }

  function Given(job: Job): seq<seq<byte>> {
    if Current(job) == [] then [] else [Current(job)[0].0]
  }

  ghost predicate Sized(s: State) {
    |s.sent| == |s.writers| && |s.calls| == |s.asked| == |s.jobs| == |s.killed|
  }

  // Ends that were closed stay closed, and the killed stay killed.
  ghost predicate Later(s: State, s': State) {
    && (s'.pipe.readopen ==> s.pipe.readopen) && (s'.pipe.writeopen ==> s.pipe.writeopen)
    && |s'.killed| == |s.killed| && forall p :: 0 <= p < |s.killed| && s.killed[p] ==> s'.killed[p]
  }

  /** The bytes of p in the pipe are those of its buffers, call by call and in
      order. A call that ended normally put all its bytes, any other only a
      proper prefix, and -1 means a closed read end or a killed writer. */
  ghost predicate Writer(s: State, p: nat)
    requires Sized(s) && p < |s.jobs|
  {
    && Mine(s.sent, s.writers, p) == Taken(s.calls[p]) + Now(s.jobs[p])
    && Buffers(s.calls[p]) + Given(s.jobs[p]) == s.asked[p]
    && (forall c :: c in s.calls[p] ==> c.n <= |c.src| && (c.end.Done? <==> c.n == |c.src|))
    && (forall c :: c in s.calls[p] && c.end.Gone? ==> !s.pipe.readopen || s.killed[p])
    && (Current(s.jobs[p]) != [] ==> Current(s.jobs[p])[0].1 <= |Current(s.jobs[p])[0].0|)
  }

  ghost predicate Writers(s: State) {
    Sized(s) && forall p :: 0 <= p < |s.jobs| ==> Writer(s, p)
  }

  // Nothing that concerns writers changes.
  ghost predicate Unwritten(s: State, s': State) {
    && s'.sent == s.sent && s'.writers == s.writers && s'.calls == s.calls && s'.asked == s.asked
    && |s'.jobs| == |s.jobs| && forall q :: 0 <= q < |s.jobs| ==> Current(s'.jobs[q]) == Current(s.jobs[q])
  }

  lemma UnwrittenWriters(s: State, s': State)
    requires Writers(s) && Unwritten(s, s') && Later(s, s')
    ensures Writers(s')
  {
    forall q | 0 <= q < |s'.jobs| ensures Writer(s', q) {
      assert Writer(s, q);
    }
  }

  lemma EndWriters(s: State, s': State, p: nat, end: End)
    requires Writers(s) && p < |s.jobs| && Current(s.jobs[p]) != []
    requires var (src, i) := Current(s.jobs[p])[0];
             s'.calls == Add(s.calls, p, Call(src, i, end)) && (end.Done? <==> i == |src|)
    requires |s'.jobs| == |s.jobs| && Current(s'.jobs[p]) == []
    requires forall q :: 0 <= q < |s.jobs| && q != p ==> s'.jobs[q] == s.jobs[q]
    requires s'.sent == s.sent && s'.writers == s.writers && s'.asked == s.asked && Later(s, s')
    requires end.Gone? ==> !s'.pipe.readopen || s'.killed[p]
    ensures Writers(s')
  {
    var (src, i) := Current(s.jobs[p])[0];
    forall q | 0 <= q < |s'.jobs| ensures Writer(s', q) {
      assert Writer(s, q);
      if q == p {
        var calls, calls' := s.calls[p], s'.calls[p];
        assert calls'[..|calls|] == calls;
        assert Taken(calls') == Taken(calls) + Prefix(src, i);
        assert Buffers(calls') == Buffers(calls) + [src];
      }
    }
  }

  lemma MineSnoc(sent: seq<byte>, writers: seq<nat>, ch: byte, w: nat, p: nat)
    requires |sent| == |writers|
    ensures Mine(sent + [ch], writers + [w], p) == Mine(sent, writers, p) + if w == p then [ch] else []
  {
    assert (sent + [ch])[..|sent|] == sent && (writers + [w])[..|sent|] == writers;
  }

  lemma PutWriters(s: State, s': State, p: nat, job: Job)
    requires Writers(s) && WriteByte(s, s', p, job)
    ensures Writers(s')
  {
    hide GoodSet, Put, Full, Mine, Taken, Buffers;
    forall q | 0 <= q < |s'.jobs| ensures Writer(s', q) {
      assert Writer(s, q);
      MineSnoc(s.sent, s.writers, job.src[job.i], p, q);
      if q == p {
        assert Prefix(job.src, job.i + 1) == Prefix(job.src, job.i) + [job.src[job.i]];
      }
    }
  }

  lemma BeginWriters(s: State, s': State, p: nat, job: Job)
    requires Writers(s) && Begin(s, s', p, job)
    ensures Writers(s')
  {
    hide Acquire, Mine, Taken, Buffers;
    forall q | 0 <= q < |s'.jobs| ensures Writer(s', q) {
      assert Writer(s, q);
    }
  }

  lemma CallsWriters(s: State, s': State, p: nat, job: Job)
    requires Writers(s) && (Calls(s, s', p, job) || Leaves(s, s', p, job) || Abort(s, s', p, job))
    ensures Writers(s')
  {
    hide Writers, StartWakeup, Goto, Full, Empty;
    if StopWrite(s, s', p, job) {
      EndWriters(s, s', p, if job.i == |job.src| then Done else Fault);
    } else if Abort(s, s', p, job) {
      EndWriters(s, s', p, Gone);
    } else {
      UnwrittenWriters(s, s');
    }
  }

  lemma TakeUnwritten(s: State, s': State, p: nat, job: Job)
    requires Changes(s, s', p, job) && !WriteByte(s, s', p, job)
    ensures Unwritten(s, s') && Later(s, s')
  {
    hide WriteByte, GoodSet, Front, Full, Empty;
  }

  lemma ChangesWriters(s: State, s': State, p: nat, job: Job)
    requires Writers(s) && Changes(s, s', p, job)
    ensures Writers(s')
  {
    hide Writers, Changes, WriteByte, Unwritten, Later;
    if WriteByte(s, s', p, job) {
      PutWriters(s, s', p, job);
    } else {
      TakeUnwritten(s, s', p, job);
      UnwrittenWriters(s, s');
    }
  }

  lemma StepWriters(s: State, s': State)
    requires Writers(s) && Pipes.Step(s, s')
    ensures Writers(s')
  {
    hide Writers, Internal, Kill, Begin, Changes, Calls, Leaves, Abort;
    if p, job :| Begin(s, s', p, job) {
      BeginWriters(s, s', p, job);
    } else if p, job :| Changes(s, s', p, job) {
      ChangesWriters(s, s', p, job);
    } else if p, job :| Calls(s, s', p, job) || Leaves(s, s', p, job) || Abort(s, s', p, job) {
      CallsWriters(s, s', p, job);
    } else {
      UnwrittenWriters(s, s');
    }
  }

  /** At every point of every run, for every process. */
  lemma {:induction false} WriterBytes(run: seq<State>, k: nat)
    requires Run(run) && k < |run|
    ensures Sized(run[k]) && forall p :: 0 <= p < |run[k].jobs| ==> Writer(run[k], p)
  {
    hide Pipes.Step;
    if k == 0 {
      assert Writers(run[0]);
    } else {
      WriterBytes(run, k - 1);
      StepWriters(run[k - 1], run[k]);
    }
  }

  // ---- readers

  // The length given to the piperead that a process is in.
  function Want(job: Job): seq<nat> {
    if job.Read? then [job.n] else if job.Copy? then [|job.buf|] else []
  }

  // The buffer of each piperead of p has the length it was given.
  ghost predicate Wants(s: State, p: nat) {
    p < |s.jobs| && p < |s.wants| && p < |s.ended| && s.ended[p] + Want(s.jobs[p]) == s.wants[p]
  }

  lemma ChangesWants(s: State, s': State, p: nat, job: Job, q: nat)
    requires Wants(s, q) && Changes(s, s', p, job)
    ensures Wants(s', q)
  {
    hide GoodSet, Put, Take, Front, Full, Empty;
  }

  lemma CallsWants(s: State, s': State, p: nat, job: Job, q: nat)
    requires Wants(s, q) && (Calls(s, s', p, job) || Leaves(s, s', p, job) || Abort(s, s', p, job))
    ensures Wants(s', q)
  {
    hide StartWakeup, Goto, Full, Empty;
  }

  lemma StepWants(s: State, s': State, q: nat)
    requires Wants(s, q) && Pipes.Step(s, s')
    ensures Wants(s', q)
  {
    hide Internal, Kill, Acquire, Changes, Calls, Leaves, Abort;
    if p, job :| Changes(s, s', p, job) {
      ChangesWants(s, s', p, job, q);
    } else if p, job :| Calls(s, s', p, job) || Leaves(s, s', p, job) || Abort(s, s', p, job) {
      CallsWants(s, s', p, job, q);
    }
  }

  lemma {:induction false} ReaderLengths(run: seq<State>, k: nat, p: nat)
    requires Run(run) && k < |run| && p < |run[0].jobs|
    ensures Wants(run[k], p)
  {
    hide Pipes.Step;
    if k > 0 {
      ReaderLengths(run, k - 1, p);
      StepWants(run[k - 1], run[k], p);
    }
  }

  // What a piperead that started after at bytes has taken: the next n are in
  // its buffer in order and nothing else is, and a lost one follows them.
  ghost predicate Slice(got: seq<byte>, at: nat, n: nat, buf: seq<Option<byte>>, lost: seq<byte>) {
    && n <= |buf| && |lost| <= 1 && at + n + |lost| <= |got| && got[at + n..at + n + |lost|] == lost
    && forall k :: 0 <= k < |buf| ==> buf[k] == if k < n then Some(got[at + k]) else None
  }

  // How many bytes the pipereads that ended have taken.
  function Total(served: seq<Served>): nat {
    if served == [] then 0 else var r := served[|served| - 1]; r.at + r.n + |r.lost|
  }

  /** Piperead number k took the bytes after those of the one before. It came
      short only when the pipe was empty or a copyout failed, and returned
      nothing only at the end of the data. */
  ghost predicate Reader(s: State, k: nat)
    requires k < |s.served|
  {
    var r := s.served[k];
    && r.at == Total(s.served[..k]) && Slice(s.got, r.at, r.n, r.buf, r.lost)
    && (r.n < |r.buf| && r.lost == [] ==> r.at + r.n == r.sent)
    && (r.n == 0 < |r.buf| && r.lost == [] ==> !s.pipe.writeopen)
  }

  // A piperead in its copy loop holds the lock, so it is alone there.
  ghost predicate Copying(s: State, p: nat)
    requires p < |s.jobs| == |s.sys.procs|
  {
    var job := s.jobs[p];
    job.Copy? ==>
      && s.sys.procs[p].pc.Holding? && job.at == Total(s.served) && Slice(s.got, job.at, job.i, job.buf, job.lost)
      && job.at + job.i + |job.lost| == |s.got|
      && (job.i == 0 && job.lost == [] ==> !Empty(s.pipe) || !s.pipe.writeopen)
  }

  ghost predicate Readers(s: State) {
    && LkOK(s.sys) && |s.jobs| == |s.sys.procs|
    && (forall k :: 0 <= k < |s.served| ==> Reader(s, k))
    && (forall p :: 0 <= p < |s.jobs| ==> Copying(s, p))
    && ((forall p :: 0 <= p < |s.jobs| ==> !s.jobs[p].Copy?) ==> Total(s.served) == |s.got|)
  }

  lemma SleepsLk(s: Sys, s': Sys, p: nat, c: Chan)
    requires LkOK(s) && Sleeps(s, s', p, c)
    ensures LkOK(s')
  {
  }

  lemma ScansLk(s: Sys, s': Sys, p: nat, c: Chan, i: nat)
    requires LkOK(s) && Scans(s, s', p, c, i)
    ensures LkOK(s')
  {
  }

  lemma InternalLk(s: Sys, s': Sys)
    requires LkOK(s) && Internal(s, s')
    ensures LkOK(s')
  {
    hide LkOK, Sleeps, Scans;
    if p, c :| Sleeps(s, s', p, c) {
      SleepsLk(s, s', p, c);
    } else if p, c, i :| Scans(s, s', p, c, i) {
      ScansLk(s, s', p, c, i);
    } else {
      var i :| Others(s, s', i);
      assert LkOK(s') by { OthersLk(s, s', i); }
    }
  }

  lemma OthersLk(s: Sys, s': Sys, i: nat)
    requires LkOK(s) && Others(s, s', i)
    ensures LkOK(s')
  {
  }

  // The holder of the lock keeps it, or lets it go.
  ghost predicate Held(s: Sys, s': Sys, p: nat) {
    && Is(s, p, Holding) && |s'.procs| == |s.procs| && s'.locks == s.locks
    && s'.lk == (if HasLk(s'.procs[p].pc) then s.lk else None)
    && forall q :: 0 <= q < |s.procs| && q != p ==> s'.procs[q] == s.procs[q]
  }

  lemma HeldLk(s: Sys, s': Sys, p: nat)
    requires LkOK(s) && Held(s, s', p)
    ensures LkOK(s')
  {
  }

  // What a step of the pipe code by p leaves alone.
  ghost predicate Own(s: State, s': State, p: nat, job: Job) {
    && Here(s, p, job) && Held(s.sys, s'.sys, p) && |s'.jobs| == |s.jobs|
    && forall q :: 0 <= q < |s.jobs| && q != p ==> s'.jobs[q] == s.jobs[q]
  }

  lemma ChangesOwn(s: State, s': State, p: nat, job: Job)
    requires LkOK(s.sys) && Changes(s, s', p, job)
    ensures Own(s, s', p, job) && s'.sys.procs == s.sys.procs && LkOK(s'.sys)
  {
    hide LkOK, GoodSet, Put, Take, Full, Empty, Front;
    HeldLk(s.sys, s'.sys, p);
  }

  lemma CallsOwn(s: State, s': State, p: nat, job: Job)
    requires LkOK(s.sys) && (Calls(s, s', p, job) || Leaves(s, s', p, job) || Abort(s, s', p, job))
    ensures Own(s, s', p, job) && LkOK(s'.sys)
  {
    hide LkOK, Full, Empty;
    HeldLk(s.sys, s'.sys, p);
  }

  // The lock holder is alone in the copy loop.
  lemma Alone(s: State, p: nat)
    requires Readers(s) && p < |s.jobs| && Is(s.sys, p, Holding)
    ensures forall q :: 0 <= q < |s.jobs| && q != p ==> !s.jobs[q].Copy?
    ensures !s.jobs[p].Copy? ==> Total(s.served) == |s.got|
  {
    forall q | 0 <= q < |s.jobs| && q != p ensures !s.jobs[q].Copy? {
      assert Copying(s, q);
    }
  }

  // A step that takes no byte and touches no piperead in its copy loop.
  lemma UnreadReaders(s: State, s': State)
    requires Readers(s) && LkOK(s'.sys) && |s'.jobs| == |s.jobs| == |s'.sys.procs|
    requires s'.got == s.got && s'.served == s.served && Later(s, s')
    requires forall q :: 0 <= q < |s.jobs| && (s.jobs[q].Copy? || s'.jobs[q].Copy?) ==>
               s'.jobs[q] == s.jobs[q] && s'.sys.procs[q].pc == s.sys.procs[q].pc && s'.pipe == s.pipe
    ensures Readers(s')
  {
    hide LkOK, Slice, Total;
    forall k | 0 <= k < |s'.served| ensures Reader(s', k) {
      assert Reader(s, k);
    }
    forall q | 0 <= q < |s'.jobs| ensures Copying(s', q) {
      assert Copying(s, q);
    }
  }

  lemma InsideReaders(s: State, s': State)
    requires Readers(s) && Inside(s, s')
    ensures Readers(s')
  {
    InternalLk(s.sys, s'.sys);
    if |s.jobs| > 0 {
      var p := InternalMoves(s.sys, s'.sys);
      hide Internal, LkOK;
      assert Copying(s, p);
      forall q | 0 <= q < |s.jobs| && s.jobs[q].Copy? ensures s'.sys.procs[q].pc == s.sys.procs[q].pc {
        assert Copying(s, q);
      }
    }
    UnreadReaders(s, s');
  }

  lemma StartReaders(s: State, s': State, p: nat, job: Job)
    requires Readers(s) && StartCopy(s, s', p, job)
    ensures Readers(s')
  {
    Alone(s, p);
    forall k | 0 <= k < |s'.served| ensures Reader(s', k) {
      assert Reader(s, k);
    }
  }

  // got has grown by a byte.
  lemma SliceGrows(got: seq<byte>, ch: byte, at: nat, n: nat, buf: seq<Option<byte>>, lost: seq<byte>)
    requires Slice(got, at, n, buf, lost)
    ensures Slice(got + [ch], at, n, buf, lost)
    ensures at + n == |got| && lost == [] && n < |buf| ==>
              && Slice(got + [ch], at, n + 1, buf[n := Some(ch)], [])
              && Slice(got + [ch], at, n, buf, [ch])
  {
    assert (got + [ch])[at + n..at + n + |lost|] == got[at + n..at + n + |lost|];
  }

  lemma TakeReaders(s: State, s': State, p: nat, job: Job)
    requires Readers(s) && ReadByte(s, s', p, job)
    ensures Readers(s')
  {
    ChangesOwn(s, s', p, job);
    hide LkOK, GoodSet, Empty, Front, Slice;
    Alone(s, p);
    assert Copying(s, p);
    SliceGrows(s.got, Front(s.pipe), job.at, job.i, job.buf, job.lost);
    forall k | 0 <= k < |s'.served| ensures Reader(s', k) {
      assert Reader(s, k);
      var r := s.served[k];
      SliceGrows(s.got, Front(s.pipe), r.at, r.n, r.buf, r.lost);
    }
    assert s'.jobs[p].Copy? && Copying(s', p);
  }

  lemma StopReaders(s: State, s': State, p: nat, job: Job)
    requires Readers(s) && InOrder(s) && StopRead(s, s', p, job)
    ensures Readers(s')
  {
    CallsOwn(s, s', p, job);
    hide LkOK, Slice, StartWakeup, Holds;
    Alone(s, p);
    assert Copying(s, p);
    Tests(s.pipe, s.sent, |s.got|);
    forall k | 0 <= k < |s'.served| ensures Reader(s', k) {
      if k < |s.served| {
        assert Reader(s, k);
        assert s'.served[..k] == s.served[..k];
      } else {
        assert s'.served[..k] == s.served;
      }
    }
  }

  lemma ChangesReaders(s: State, s': State, p: nat, job: Job)
    requires Readers(s) && Changes(s, s', p, job)
    ensures Readers(s')
  {
    if StartCopy(s, s', p, job) {
      StartReaders(s, s', p, job);
    } else if ReadByte(s, s', p, job) {
      TakeReaders(s, s', p, job);
    } else {
      ChangesOwn(s, s', p, job);
      Alone(s, p);
      hide Readers, LkOK, GoodSet, Full, Empty;
      UnreadReaders(s, s');
    }
  }

  lemma CallsReaders(s: State, s': State, p: nat, job: Job)
    requires Readers(s) && InOrder(s)
    requires Calls(s, s', p, job) || Leaves(s, s', p, job) || Abort(s, s', p, job)
    ensures Readers(s')
  {
    if StopRead(s, s', p, job) {
      StopReaders(s, s', p, job);
    } else {
      CallsOwn(s, s', p, job);
      Alone(s, p);
      hide Readers, LkOK, Held, Full, Empty, Goto, StartWakeup;
      UnreadReaders(s, s');
    }
  }

  lemma BeginReaders(s: State, s': State, p: nat, job: Job)
    requires Readers(s) && Begin(s, s', p, job)
    ensures Readers(s')
  {
    UnreadReaders(s, s');
  }

  lemma KillReaders(s: State, s': State, p: nat)
    requires Readers(s) && KillProc(s, s', p)
    ensures Readers(s')
  {
    UnreadReaders(s, s');
  }

  lemma StepReaders(s: State, s': State)
    requires Readers(s) && InOrder(s) && Pipes.Step(s, s')
    ensures Readers(s')
  {
    hide Readers, InOrder, Inside, KillProc, Begin, Changes, Calls, Leaves, Abort;
    if Inside(s, s') {
      InsideReaders(s, s');
    } else if p :| KillProc(s, s', p) {
      KillReaders(s, s', p);
    } else if p, job :| Begin(s, s', p, job) {
      BeginReaders(s, s', p, job);
    } else if p, job :| Changes(s, s', p, job) {
      ChangesReaders(s, s', p, job);
    } else {
      var p, job :| Calls(s, s', p, job) || Leaves(s, s', p, job) || Abort(s, s', p, job);
      CallsReaders(s, s', p, job);
    }
  }

  lemma {:induction false} RunReaders(run: seq<State>, k: nat)
    requires Run(run) && k < |run|
    ensures Readers(run[k])
  {
    hide Pipes.Step, InOrder;
    if k > 0 {
      RunReaders(run, k - 1);
      PipeOrder(run, k - 1);
      StepReaders(run[k - 1], run[k]);
    }
  }

  /** At every point of every run: the pipereads that ended, and the one in its
      copy loop, have split the bytes written between them. Each has the next
      bytes in its own buffer, in order. */
  lemma ReaderBytes(run: seq<State>, k: nat)
    requires Run(run) && k < |run|
    ensures forall j :: 0 <= j < |run[k].served| ==>
              var r := run[k].served[j];
              && r.at == Total(run[k].served[..j]) && Slice(run[k].sent, r.at, r.n, r.buf, r.lost)
              && (r.n < |r.buf| && r.lost == [] ==> r.at + r.n == r.sent)
              && (r.n == 0 < |r.buf| && r.lost == [] ==> !run[k].pipe.writeopen)
    ensures forall p :: 0 <= p < |run[k].jobs| && run[k].jobs[p].Copy? ==>
              var job := run[k].jobs[p];
              && job.at == Total(run[k].served) && Slice(run[k].sent, job.at, job.i, job.buf, job.lost)
              && job.at + job.i + |job.lost| == |run[k].got|
    ensures (forall p :: 0 <= p < |run[k].jobs| ==> !run[k].jobs[p].Copy?) ==>
              Total(run[k].served) == |run[k].got|
  {
    hide Run, InOrder, Slice, Total;
    RunReaders(run, k);
    PipeOrder(run, k);
    var s := run[k];
    forall j | 0 <= j < |s.served|
      ensures Reader(s, j) && var r := s.served[j]; Slice(s.sent, r.at, r.n, r.buf, r.lost)
    {
      var r := s.served[j];
      assert Reader(s, j);
      SlicePrefix(s.got, s.sent, r.at, r.n, r.buf, r.lost);
    }
    forall p | 0 <= p < |s.jobs| && s.jobs[p].Copy?
      ensures var job := s.jobs[p]; Copying(s, p) && Slice(s.sent, job.at, job.i, job.buf, job.lost)
    {
      var job := s.jobs[p];
      assert Copying(s, p);
      SlicePrefix(s.got, s.sent, job.at, job.i, job.buf, job.lost);
    }
  }

  lemma SlicePrefix(got: seq<byte>, sent: seq<byte>, at: nat, n: nat, buf: seq<Option<byte>>, lost: seq<byte>)
    requires Slice(got, at, n, buf, lost) && got <= sent
    ensures Slice(sent, at, n, buf, lost)
  {
    assert sent[at + n..at + n + |lost|] == got[at + n..at + n + |lost|];
  }
}
