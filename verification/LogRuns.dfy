/** Whole runs of the log: transactions, crashes between any two block writes
    of a commit or of a recovery, and recoveries, in any order. */
module LogRuns {
  import opened Blocks
  import opened LogDisk

  // Between events the machine is up with an idle log, or down after a crash.
  datatype Machine = Up(disk: Disk) | Down(disk: Disk)

  datatype Event =
    | Commit(t: Txn)                   // commit() runs to its end
    | CrashIdle                        // crash with no commit in progress
    | CrashCommit(t: Txn, k: nat)      // crash after k block writes of commit()
    | Recover                          // recover_from_log() runs to its end
    | CrashRecovery(k: nat)            // crash after k block writes of recovery

  ghost predicate Enabled(m: Machine, e: Event, l: Layout) {
    match e
    case Commit(t) => m.Up? && Clear(m.disk, l) && ValidTxn(l, |m.disk|, t)
    case CrashIdle => m.Up?
    case CrashCommit(t, k) => m.Up? && Clear(m.disk, l) && ValidTxn(l, |m.disk|, t) && t != [] && k <= 2 * |t| + 2
    case Recover => m.Down? && Recoverable(m.disk, l)
    case CrashRecovery(k) => m.Down? && Recoverable(m.disk, l) && k <= HeaderCount(m.disk, l) + 1
  }

  ghost function Next(m: Machine, e: Event, l: Layout): Machine
    requires Enabled(m, e, l)
  {
    match e
    case Commit(t) => if t == [] then m else Up(CommitDisk(m.disk, l, t, 2 * |t| + 2))
    case CrashIdle => Down(m.disk)
    case CrashCommit(t, k) => Down(CommitDisk(m.disk, l, t, k))
    case Recover => Up(Recovered(m.disk, l))
    case CrashRecovery(k) => Down(RecoverDisk(m.disk, l, k))
  }

  // es is a run from d: every event is enabled where it happens.
  ghost predicate Run(d: Disk, l: Layout, es: seq<Event>)
    decreases |es|, 0
  {
    es == [] || (Run(d, l, es[..|es| - 1]) && Enabled(After(d, l, es[..|es| - 1]), es[|es| - 1], l))
  }

  ghost function After(d: Disk, l: Layout, es: seq<Event>): Machine
    requires Run(d, l, es)
    decreases |es|, 1
  {
    if es == [] then Up(d) else Next(After(d, l, es[..|es| - 1]), es[|es| - 1], l)
  }

  // The transactions of a run whose nonzero header write reached the disk.
  function Durable(es: seq<Event>): seq<Txn> {
    if es == [] then [] else
    var ts, e := Durable(es[..|es| - 1]), es[|es| - 1];
    if e.Commit? || (e.CrashCommit? && e.k > |e.t|) then ts + [e.t] else ts
  }

  ghost predicate AllWithin(ts: seq<Txn>, n: nat) {
    forall i, j :: 0 <= i < |ts| && 0 <= j < |ts[i]| ==> ts[i][j].home < n
  }

  ghost function Replay(d: Disk, ts: seq<Txn>): (r: Disk)
    requires AllWithin(ts, |d|)
    ensures |r| == |d|
    decreases |ts|
  {
    if ts == [] then d else Apply(Replay(d, ts[..|ts| - 1]), ts[|ts| - 1])
  }

  lemma {:induction false} ApplySameHome(a: Disk, b: Disk, l: Layout, t: Txn)
    requires SameHome(a, b, l) && forall i :: 0 <= i < |t| ==> t[i].home < |a|
    ensures SameHome(Apply(a, t), Apply(b, t), l)
    decreases |t|
  {
    if t != [] { ApplySameHome(a, b, l, t[..|t| - 1]); }
  }

  lemma ReplaySnoc(d: Disk, ts: seq<Txn>, t: Txn)
    requires AllWithin(ts, |d|) && forall j :: 0 <= j < |t| ==> t[j].home < |d|
    ensures AllWithin(ts + [t], |d|) && Replay(d, ts + [t]) == Apply(Replay(d, ts), t)
  {
    assert (ts + [t])[..|ts|] == ts;
  }

  /** Crash atomicity. At every point of every run the disk recovers to the
      home blocks of exactly the durable transactions, in their order; a
      machine that is up shows them already. */
  lemma {:induction false} CrashAtomicity(d: Disk, l: Layout, es: seq<Event>)
    requires Clear(d, l) && Run(d, l, es)
    ensures var m := After(d, l, es);
            AllWithin(Durable(es), |d|) && |m.disk| == |d| && Recoverable(m.disk, l)
            && SameHome(Recovered(m.disk, l), Replay(d, Durable(es)), l)
            && (m.Up? ==> Clear(m.disk, l) && SameHome(m.disk, Replay(d, Durable(es)), l))
    decreases |es|
  {
    if es == [] {
      RecoverClear(d, l);
    } else {
      var es', e := es[..|es| - 1], es[|es| - 1];
      CrashAtomicity(d, l, es');
      StepAtomic(d, l, Durable(es'), After(d, l, es'), e);
    }
  }

  lemma StepAtomic(d: Disk, l: Layout, ts: seq<Txn>, m: Machine, e: Event)
    requires AllWithin(ts, |d|) && |m.disk| == |d| && Recoverable(m.disk, l) && Enabled(m, e, l)
    requires SameHome(Recovered(m.disk, l), Replay(d, ts), l)
    requires m.Up? ==> Clear(m.disk, l) && SameHome(m.disk, Replay(d, ts), l)
    ensures var m' := Next(m, e, l);
            var ts' := if e.Commit? || (e.CrashCommit? && e.k > |e.t|) then ts + [e.t] else ts;
            AllWithin(ts', |d|) && |m'.disk| == |d| && Recoverable(m'.disk, l)
            && SameHome(Recovered(m'.disk, l), Replay(d, ts'), l)
            && (m'.Up? ==> Clear(m'.disk, l) && SameHome(m'.disk, Replay(d, ts'), l))
  {
    hide CommitDisk, RecoverDisk;
    match e
    case Commit(t) =>
      CrashInCommit(m.disk, l, t, 2 * |t| + 2);
      ReplaySnoc(d, ts, t);
      ApplySameHome(m.disk, Replay(d, ts), l, t);
      RecoverClear(Next(m, e, l).disk, l);
    case CrashIdle =>
    case CrashCommit(t, k) =>
      CrashInCommit(m.disk, l, t, k);
      ReplaySnoc(d, ts, t);
      ApplySameHome(m.disk, Replay(d, ts), l, t);
    case Recover =>
      CrashInRecovery(m.disk, l, 0);
      RecoverClear(Recovered(m.disk, l), l);
    case CrashRecovery(k) =>
      CrashInRecovery(m.disk, l, k);
  }
}
