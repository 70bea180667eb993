/** begin_op, log_write, end_op and the stages of commit as atomic steps (each
    holds log.lock, or belongs to commit, which holds no lock) of any
    interleaving of np processes. m is MAXOPBLOCKS and LOGSIZE is 3 * m; size
    is log.size. */
module LogOps {
  import opened Options

  // How far commit() has come.
  datatype Phase =
    | Idle
    | Logging(k: nat)     // write_log has copied k blocks
    | Installing(k: nat)  // the header is written, k blocks are copied home
    | Erasing             // log.lh.n is 0, in memory only

  // blocks is log.lh.block[..log.lh.n]; ops[p] is what process p has logged
  // since its begin_op. On disk: copied are the home numbers of the blocks
  // this commit put into the log, head are the entries of the header.
  datatype State = State(blocks: seq<nat>, outstanding: int, committing: bool, ops: seq<Option<set<nat>>>,
                         phase: Phase, copied: seq<nat>, head: seq<nat>)

  datatype Config = Config(m: nat, size: int, np: nat)

  function LogSize(c: Config): nat { 3 * c.m }

  function Init(c: Config): State {
    State([], 0, false, seq(c.np, _ => None), Idle, [], [])
  }

  // The two tests under which begin_op sleeps instead.
  predicate MustWait(c: Config, s: State) {
    s.committing || |s.blocks| + (s.outstanding + 1) * c.m > LogSize(c)
  }

  predicate TooBig(c: Config, s: State) {
    |s.blocks| >= LogSize(c) || |s.blocks| >= c.size - 1
  }

  predicate InOp(s: State, p: nat) {
    p < |s.ops| && s.ops[p].Some?
  }

  // The operation of p stays within its reservation when it logs b.
  predicate WithinLimit(c: Config, s: State, p: nat, b: nat) {
    InOp(s, p) && |s.ops[p].value + {b}| <= c.m
  }

  predicate Begin(c: Config, s: State, s': State, p: nat) {
    && p < |s.ops| && s.ops[p].None? && !MustWait(c, s)
    && s' == s.(outstanding := s.outstanding + 1, ops := s.ops[p := Some({})])
  }

  // p finds that it must sleep, or wakes up and looks again.
  predicate Wait(c: Config, s: State, s': State, p: nat) {
    p < |s.ops| && s.ops[p].None? && MustWait(c, s) && s' == s
  }

  predicate LogWrite(c: Config, s: State, s': State, p: nat, b: nat) {
    && WithinLimit(c, s, p, b) && !TooBig(c, s) && s.outstanding >= 1
    && s' == s.(blocks := if b in s.blocks then s.blocks else s.blocks + [b],
                ops := s.ops[p := Some(s.ops[p].value + {b})])
  }

  // The last end_op goes on with commit(), which does nothing to an empty log.
  function AfterEnd(s: State, p: nat): State
    requires p < |s.ops|
  {
    var last := s.outstanding - 1 == 0;
    s.(outstanding := s.outstanding - 1, committing := last, ops := s.ops[p := None],
       phase := if !last then s.phase else if s.blocks == [] then Erasing else Logging(0),
       copied := if last then [] else s.copied)
  }

  predicate End(c: Config, s: State, s': State, p: nat) {
    InOp(s, p) && !s.committing && s' == AfterEnd(s, p)
  }

  // ---- commit(), which reads the header in memory anew at every stage

  predicate CopyToLog(s: State, s': State) {
    && s.phase.Logging? && s.phase.k < |s.blocks|
    && s' == s.(phase := Logging(s.phase.k + 1), copied := s.copied + [s.blocks[s.phase.k]])
  }

  predicate WriteHead(s: State, s': State) {
    s.phase.Logging? && s.phase.k >= |s.blocks| && s' == s.(phase := Installing(0), head := s.blocks)
  }

  predicate CopyHome(s: State, s': State) {
    s.phase.Installing? && s.phase.k < |s.blocks| && s' == s.(phase := Installing(s.phase.k + 1))
  }

  predicate Erase(s: State, s': State) {
    s.phase.Installing? && s.phase.k >= |s.blocks| && s' == s.(phase := Erasing, blocks := [])
  }

  // The empty header is written and end_op clears log.committing.
  predicate Finish(s: State, s': State) {
    s.phase.Erasing? && s' == s.(phase := Idle, head := s.blocks, committing := false)
  }

  predicate Commits(s: State, s': State) {
    CopyToLog(s, s') || WriteHead(s, s') || CopyHome(s, s') || Erase(s, s') || Finish(s, s')
  }

  ghost predicate Step(c: Config, s: State, s': State) {
    || (exists p :: Begin(c, s, s', p))
    || (exists p :: Wait(c, s, s', p))
    || (exists p, b :: LogWrite(c, s, s', p, b))
    || (exists p :: End(c, s, s', p))
    || Commits(s, s')
  }

  ghost predicate Run(c: Config, ss: seq<State>) {
    |ss| > 0 && ss[0] == Init(c) && forall i :: 0 <= i < |ss| - 1 ==> Step(c, ss[i], ss[i + 1])
  }

  ghost predicate Reachable(c: Config, s: State) {
    exists ss :: Run(c, ss) && ss[|ss| - 1] == s
  }

  // ---- the reservation invariant

  function Unspent(m: nat, ops: seq<Option<set<nat>>>): int {
    if ops == [] then 0 else
    Unspent(m, ops[..|ops| - 1]) + match ops[|ops| - 1] case None => 0 case Some(w) => m - |w|
  }

  function Active(ops: seq<Option<set<nat>>>): nat {
    if ops == [] then 0 else Active(ops[..|ops| - 1]) + if ops[|ops| - 1].Some? then 1 else 0
  }

  predicate Distinct(bs: seq<nat>) {
    forall i, j :: 0 <= i < j < |bs| ==> bs[i] != bs[j]
  }

  ghost predicate Inv(c: Config, s: State) {
    && s.outstanding == Active(s.ops) && |s.ops| == c.np
    && (s.committing ==> s.outstanding == 0)
    && |s.blocks| + Unspent(c.m, s.ops) <= LogSize(c)
    && Distinct(s.blocks)
    && (forall p: nat, b: nat :: InOp(s, p) && b in s.ops[p].value ==> b in s.blocks)
    && (forall p: nat :: InOp(s, p) ==> |s.ops[p].value| <= c.m)
    && (s.outstanding == 0 && !s.committing ==> s.blocks == [])
    && PhaseOK(s)
  }

  // What is on disk during a commit belongs to the header in memory.
  predicate PhaseOK(s: State) {
    && (s.phase.Idle? <==> !s.committing)
    && match s.phase
       case Idle => s.head == []
       case Logging(k) => k <= |s.blocks| && s.copied == s.blocks[..k] && s.head == []
       case Installing(k) => k <= |s.blocks| && s.copied == s.head == s.blocks
       case Erasing => s.blocks == []
  }

  lemma {:induction false} UpdateOps(m: nat, ops: seq<Option<set<nat>>>, p: nat, o: Option<set<nat>>)
    requires p < |ops|
    ensures Unspent(m, ops[p := o]) - (if o.Some? then m - |o.value| else 0)
            == Unspent(m, ops) - (if ops[p].Some? then m - |ops[p].value| else 0)
    ensures Active(ops[p := o]) - (if o.Some? then 1 else 0) == Active(ops) - (if ops[p].Some? then 1 else 0)
    decreases |ops|
  {
    var k := |ops| - 1;
    if p == k {
      assert ops[p := o][..k] == ops[..k];
    } else {
      assert ops[p := o][..k] == ops[..k][p := o];
      UpdateOps(m, ops[..k], p, o);
    }
  }

  lemma {:induction false} UnspentBounds(m: nat, ops: seq<Option<set<nat>>>)
    requires forall p :: 0 <= p < |ops| && ops[p].Some? ==> |ops[p].value| <= m
    ensures 0 <= Unspent(m, ops) <= Active(ops) * m
    ensures forall p :: 0 <= p < |ops| && ops[p].Some? ==> Unspent(m, ops) >= m - |ops[p].value| && Active(ops) >= 1
    decreases |ops|
  {
    if ops != [] {
      UnspentBounds(m, ops[..|ops| - 1]);
      assert forall p :: 0 <= p < |ops| - 1 ==> ops[..|ops| - 1][p] == ops[p];
    }
  }

  lemma {:induction false} InitInv(c: Config, n: nat)
    requires n <= c.np
    ensures Unspent(c.m, Init(c).ops[..n]) == 0 && Active(Init(c).ops[..n]) == 0
  {
    if n > 0 {
      InitInv(c, n - 1);
      assert Init(c).ops[..n][..n - 1] == Init(c).ops[..n - 1];
    }
  }

  lemma AddedCard(w: set<nat>, b: nat)
    ensures |w + {b}| == if b in w then |w| else |w| + 1
  {
    if b in w { assert w + {b} == w; }
  }

  lemma OneMore(n: nat, unspent: int, active: int, m: nat, size: nat)
    requires unspent <= active * m && n + (active + 1) * m <= size
    ensures n + unspent + m <= size
  {
    assert (active + 1) * m == active * m + m;
  }

  lemma BeginInv(c: Config, s: State, s': State, p: nat)
    requires Inv(c, s) && Begin(c, s, s', p)
    ensures Inv(c, s')
  {
    UnspentBounds(c.m, s.ops);
    UpdateOps(c.m, s.ops, p, Some({}));
    OneMore(|s.blocks|, Unspent(c.m, s.ops), s.outstanding, c.m, LogSize(c));
    assert forall q: nat :: InOp(s', q) && q != p ==> InOp(s, q);
  }

  lemma LogWriteInv(c: Config, s: State, s': State, p: nat, b: nat)
    requires Inv(c, s) && LogWrite(c, s, s', p, b)
    ensures Inv(c, s')
  {
    UpdateOps(c.m, s.ops, p, s'.ops[p]);
    AddedCard(s.ops[p].value, b);
    assert forall q: nat :: InOp(s', q) ==> InOp(s, q);
  }

  lemma EndInv(c: Config, s: State, s': State, p: nat)
    requires Inv(c, s) && End(c, s, s', p)
    ensures Inv(c, s')
  {
    UpdateOps(c.m, s.ops, p, None);
    assert forall q: nat :: InOp(s', q) ==> InOp(s, q) && s'.ops[q] == s.ops[q];
  }

  lemma CommitsInv(c: Config, s: State, s': State)
    requires Inv(c, s) && Commits(s, s')
    ensures Inv(c, s') && s.committing
    ensures s'.ops == s.ops && (s'.blocks == s.blocks || Erase(s, s'))
  {
    UnspentBounds(c.m, s.ops);
    assert forall q: nat :: !InOp(s, q);
  }

  /** Every step keeps the invariant. Only waiting begin_ops and commit itself
      move while a commit is in progress, and the header in memory changes
      only when commit erases it. */
  lemma StepInv(c: Config, s: State, s': State)
    requires Inv(c, s) && Step(c, s, s')
    ensures Inv(c, s')
    ensures s.committing ==> s'.ops == s.ops && (s'.blocks == s.blocks || Erase(s, s'))
  {
    UnspentBounds(c.m, s.ops);
    if p :| Begin(c, s, s', p) {
      BeginInv(c, s, s', p);
    } else if p, b :| LogWrite(c, s, s', p, b) {
      LogWriteInv(c, s, s', p, b);
    } else if p :| End(c, s, s', p) {
      EndInv(c, s, s', p);
    } else if Commits(s, s') {
      CommitsInv(c, s, s');
    }
  }

  lemma {:induction false} RunInv(c: Config, ss: seq<State>)
    requires Run(c, ss)
    ensures Inv(c, ss[|ss| - 1])
    decreases |ss|
  {
    var n := |ss| - 1;
    if n == 0 {
      InitInv(c, c.np);
      assert Init(c).ops[..c.np] == Init(c).ops;
    } else {
      RunInv(c, ss[..n]);
      StepInv(c, ss[n - 1], ss[n]);
    }
  }

  /** In every run whose operations log at most m distinct blocks each, logged
      blocks and unspent reservations fit the log, logged numbers are
      distinct, no operation is open during a commit, and neither end_op nor
      log_write hits its misuse panic. */
  lemma Reservation(c: Config, s: State)
    requires Reachable(c, s)
    ensures |s.blocks| + Unspent(c.m, s.ops) <= LogSize(c) && Unspent(c.m, s.ops) >= 0
    ensures Distinct(s.blocks)
    ensures s.committing ==> forall p: nat :: !InOp(s, p)
    ensures forall p: nat :: InOp(s, p) ==> !s.committing && s.outstanding >= 1
  {
    var ss :| Run(c, ss) && ss[|ss| - 1] == s;
    RunInv(c, ss);
    UnspentBounds(c.m, s.ops);
  }

  lemma RunPrefix(c: Config, ss: seq<State>, j: nat)
    requires Run(c, ss) && j < |ss|
    ensures Inv(c, ss[j]) && (InCommit(ss[j]) ==> forall p: nat :: !InOp(ss[j], p))
  {
    hide Step, Inv;
    var pre := ss[..j + 1];
    assert Run(c, pre) && pre[|pre| - 1] == ss[j];
    RunInv(c, pre);
    Reservation(c, ss[j]);
    CommitFlag(c, ss[j]);
  }

  lemma CommitFlag(c: Config, s: State)
    requires Inv(c, s)
    ensures InCommit(s) ==> s.committing
  {
  }

  // commit is between its start and the erasure of the header.
  predicate InCommit(s: State) {
    s.phase.Logging? || s.phase.Installing?
  }

  lemma HeaderStep(c: Config, s: State, s': State)
    requires Inv(c, s) && Step(c, s, s') && InCommit(s) && InCommit(s')
    ensures s'.blocks == s.blocks
  {
    StepInv(c, s, s');
    hide Step;
  }

  /** From the end_op that starts a commit until the commit erases the header,
      the header in memory stays the same, whatever the other processes do. */
  lemma {:induction false} HeaderFixed(c: Config, ss: seq<State>, i: nat, j: nat)
    requires Run(c, ss) && i <= j < |ss| && forall k :: i <= k <= j ==> InCommit(ss[k])
    ensures ss[j].blocks == ss[i].blocks && forall p: nat :: !InOp(ss[j], p)
    decreases j
  {
    hide Step, Inv;
    RunPrefix(c, ss, j);
    if i < j {
      HeaderFixed(c, ss, i, j - 1);
      RunPrefix(c, ss, j - 1);
      HeaderStep(c, ss[j - 1], ss[j]);
    }
  }

  /** At every point of every run, the header on disk is empty or names exactly
      the blocks whose copies this commit put into the log, in their order. */
  lemma HeadNamesCopies(c: Config, s: State)
    requires Reachable(c, s)
    ensures !s.committing ==> s.head == []
    ensures s.phase.Logging? ==> s.head == [] && s.copied <= s.blocks
    ensures s.phase.Installing? ==> s.head == s.copied == s.blocks
  {
    var ss :| Run(c, ss) && ss[|ss| - 1] == s;
    RunInv(c, ss);
  }

  // ---- when log_write panics

  // The operation of p has reservation left, so it may log any block.
  predicate Unused(c: Config, s: State, p: nat) {
    InOp(s, p) && |s.ops[p].value| < c.m
  }

  /** While its operation has reservation left, log_write, of a new block or of
      one already logged, panics exactly when the log area is the smaller bound. */
  lemma UnusedPanic(c: Config, s: State, p: nat)
    requires Reachable(c, s) && Unused(c, s, p)
    ensures |s.blocks| < LogSize(c)
    ensures TooBig(c, s) <==> |s.blocks| >= c.size - 1
  {
    var ss :| Run(c, ss) && ss[|ss| - 1] == s;
    RunInv(c, ss);
    UnspentBounds(c.m, s.ops);
  }

  // Three open operations that have logged the blocks 0, 1, ..., k - 1, the
  // first its m blocks before the second starts, and so on.
  function Span(lo: nat, hi: nat, k: nat): (r: set<nat>)
    ensures forall x :: x in r <==> lo <= x < hi && x < k
    ensures lo <= k <= hi ==> |r| == k - lo
    decreases k
  {
    if k <= lo then {} else if k <= hi then Span(lo, hi, k - 1) + {k - 1} else Span(lo, hi, k - 1)
  }

  function Share(c: Config, q: nat, k: nat): set<nat> {
    if q == 0 then Span(0, c.m, k) else if q == 1 then Span(c.m, 2 * c.m, k) else Span(2 * c.m, 3 * c.m, k)
  }

  function Filled(c: Config, k: nat): State {
    State(seq(k, i => i), 3, false, seq(c.np, q => if 0 <= q < 3 then Some(Share(c, q, k)) else None), Idle, [], [])
  }

  lemma ReachableStep(c: Config, s: State, s': State)
    requires Reachable(c, s) && Step(c, s, s')
    ensures Reachable(c, s')
  {
    var ss :| Run(c, ss) && ss[|ss| - 1] == s;
    assert Run(c, ss + [s']);
    assert (ss + [s'])[|ss + [s']| - 1] == s';
  }

  lemma FilledZero(c: Config)
    requires c.np >= 3 && c.m >= 1
    ensures Reachable(c, Filled(c, 0))
  {
    var s0 := Init(c);
    assert Run(c, [s0]) && [s0][|[s0]| - 1] == s0;
    var s1 := s0.(outstanding := 1, ops := s0.ops[0 := Some({})]);
    var s2 := s1.(outstanding := 2, ops := s1.ops[1 := Some({})]);
    var s3 := s2.(outstanding := 3, ops := s2.ops[2 := Some({})]);
    assert Begin(c, s0, s1, 0) && Begin(c, s1, s2, 1) && Begin(c, s2, s3, 2);
    ReachableStep(c, s0, s1);
    ReachableStep(c, s1, s2);
    ReachableStep(c, s2, s3);
    assert Filled(c, 0).ops == s3.ops;
    assert Filled(c, 0) == s3;
  }

  // The operation whose turn it is when k blocks are logged.
  function Turn(c: Config, k: nat): nat {
    if k < c.m then 0 else if k < 2 * c.m then 1 else 2
  }

  lemma ShareGrows(c: Config, k: nat)
    requires k < LogSize(c)
    ensures var p := Turn(c, k);
            Share(c, p, k + 1) == Share(c, p, k) + {k} && k !in Share(c, p, k) && |Share(c, p, k + 1)| <= c.m
    ensures forall q :: 0 <= q < 3 && q != Turn(c, k) ==> Share(c, q, k + 1) == Share(c, q, k)
  {
  }

  lemma FilledFresh(c: Config, k: nat)
    requires c.np >= 3 && k < LogSize(c)
    ensures Unused(c, Filled(c, k), Turn(c, k)) && WithinLimit(c, Filled(c, k), Turn(c, k), k)
    ensures !TooBig(c, Filled(c, k)) ==> LogWrite(c, Filled(c, k), Filled(c, k + 1), Turn(c, k), k)
  {
    hide Share;
    var s, s', p := Filled(c, k), Filled(c, k + 1), Turn(c, k);
    ShareGrows(c, k);
    assert s'.blocks == s.blocks + [k];
    assert s'.ops == s.ops[p := Some(s.ops[p].value + {k})];
  }

  lemma {:induction false} FilledReachable(c: Config, k: nat)
    requires c.np >= 3 && c.m >= 1 && k <= LogSize(c) && k < c.size
    ensures Reachable(c, Filled(c, k))
  {
    if k == 0 {
      FilledZero(c);
    } else {
      FilledReachable(c, k - 1);
      FilledFresh(c, k - 1);
      ReachableStep(c, Filled(c, k - 1), Filled(c, k));
    }
  }

  ghost predicate NeverPanics(c: Config) {
    forall s, p :: Reachable(c, s) && Unused(c, s, p) ==> !TooBig(c, s)
  }

  /** Operations with reservation left never panic, in any run, exactly when
      the log area has a block for the header and LOGSIZE more. The image mkfs
      builds has log.size == LOGSIZE, one block short. */
  lemma NeverPanicsIff(c: Config)
    requires c.np >= 3 && c.m >= 1 && c.size >= 1
    ensures NeverPanics(c) <==> c.size >= LogSize(c) + 1
  {
    if c.size >= LogSize(c) + 1 {
      forall s, p | Reachable(c, s) && Unused(c, s, p) ensures !TooBig(c, s) {
        UnusedPanic(c, s, p);
      }
    } else {
      var k := c.size - 1;
      FilledReachable(c, k);
      FilledFresh(c, k);
      assert TooBig(c, Filled(c, k));
    }
  }

  /** With such a log area, a log_write within the limit panics exactly when
      the log is full. That takes an operation which logs again one of its own
      blocks, and at that moment every open operation has logged all its m. */
  lemma FullPanic(c: Config, s: State, p: nat, b: nat)
    requires Reachable(c, s) && WithinLimit(c, s, p, b) && c.size >= LogSize(c) + 1
    ensures TooBig(c, s) <==> |s.blocks| == LogSize(c)
    ensures TooBig(c, s) ==> b in s.ops[p].value && b in s.blocks
    ensures TooBig(c, s) ==> forall q: nat :: InOp(s, q) ==> |s.ops[q].value| == c.m
  {
    var ss :| Run(c, ss) && ss[|ss| - 1] == s;
    RunInv(c, ss);
    UnspentBounds(c.m, s.ops);
    AddedCard(s.ops[p].value, b);
  }

  /** Such a run exists, whatever log.size is: the size test of log_write comes
      before the search for a block that is already logged. */
  lemma AbsorptionCanPanic(c: Config) returns (s: State, p: nat, b: nat)
    requires c.np >= 3 && c.m >= 1 && c.size >= 1
    ensures Reachable(c, s) && WithinLimit(c, s, p, b) && TooBig(c, s)
    ensures c.size >= LogSize(c) + 1 ==> b in s.blocks
  {
    if c.size >= LogSize(c) + 1 {
      var k := LogSize(c);
      s, p, b := Filled(c, k), 2, k - 1;
      FilledReachable(c, k);
      ShareGrows(c, k - 1);
      assert s.ops[2].value + {b} == Share(c, 2, k);
      assert s.blocks[b] == b;
    } else {
      s, p, b := Filled(c, c.size - 1), Turn(c, c.size - 1), c.size - 1;
      FilledReachable(c, c.size - 1);
      FilledFresh(c, c.size - 1);
    }
  }

  // ---- a commit from its end_op to its end

  // The state after commit() when it runs from its start in s.
  function Committed(s: State): State {
    s.(blocks := [], committing := false, phase := Idle, copied := s.blocks, head := [])
  }

  lemma {:induction false} CopiesReach(c: Config, s: State, k: nat)
    requires Reachable(c, s) && s.phase == Logging(0) && s.copied == [] && k <= |s.blocks|
    ensures Reachable(c, s.(phase := Logging(k), copied := s.blocks[..k]))
  {
    if k > 0 {
      CopiesReach(c, s, k - 1);
      var s1, s2 := s.(phase := Logging(k - 1), copied := s.blocks[..k - 1]),
          s.(phase := Logging(k), copied := s.blocks[..k]);
      assert CopyToLog(s1, s2);
      ReachableStep(c, s1, s2);
    } else {
      assert s == s.(phase := Logging(0), copied := s.blocks[..0]);
    }
  }

  lemma {:induction false} InstallsReach(c: Config, s: State, k: nat)
    requires Reachable(c, s) && s.phase == Installing(0) && k <= |s.blocks|
    ensures Reachable(c, s.(phase := Installing(k)))
  {
    if k > 0 {
      InstallsReach(c, s, k - 1);
      assert CopyHome(s.(phase := Installing(k - 1)), s.(phase := Installing(k)));
      ReachableStep(c, s.(phase := Installing(k - 1)), s.(phase := Installing(k)));
    }
  }

  lemma CommitReaches(c: Config, s: State)
    requires Reachable(c, s) && s.copied == [] && s.head == [] && s.committing
    requires s.phase == (if s.blocks == [] then Erasing else Logging(0))
    ensures Reachable(c, Committed(s))
  {
    var n, s4 := |s.blocks|, s;
    if n > 0 {
      CopiesReach(c, s, n);
      var s1 := s.(phase := Logging(n), copied := s.blocks);
      assert s.blocks[..n] == s.blocks;
      var s2 := s1.(phase := Installing(0), head := s.blocks);
      assert WriteHead(s1, s2);
      ReachableStep(c, s1, s2);
      InstallsReach(c, s2, n);
      var s3 := s2.(phase := Installing(n));
      s4 := s3.(phase := Erasing, blocks := []);
      assert Erase(s3, s4);
      ReachableStep(c, s3, s4);
    }
    assert Finish(s4, Committed(s));
    ReachableStep(c, s4, Committed(s));
  }

  // ---- single steps from reachable states

  lemma InitReachable(c: Config)
    ensures Reachable(c, Init(c))
  {
    var ss := [Init(c)];
    assert Run(c, ss) && ss[|ss| - 1] == Init(c);
  }

  lemma BeginReachable(c: Config, s: State, s': State, p: nat)
    requires Reachable(c, s) && Begin(c, s, s', p)
    ensures Reachable(c, s') && |s'.blocks| + Unspent(c.m, s'.ops) <= LogSize(c)
  {
    ReachableStep(c, s, s');
    Reservation(c, s');
  }

  lemma OpenOp(c: Config, s: State, p: nat)
    requires Reachable(c, s) && InOp(s, p)
    ensures s.outstanding >= 1 && !s.committing
  {
    Reservation(c, s);
  }

  lemma LogWriteReachable(c: Config, s: State, s': State, p: nat, b: nat)
    requires Reachable(c, s) && LogWrite(c, s, s', p, b)
    ensures Reachable(c, s')
  {
    ReachableStep(c, s, s');
  }

  // end_op, and commit() if it is the last.
  lemma EndReachable(c: Config, s: State, s': State, p: nat)
    requires Reachable(c, s) && End(c, s, s', p)
    ensures Reachable(c, s')
    ensures s'.committing ==> Reachable(c, Committed(s'))
  {
    ReachableStep(c, s, s');
    if s'.committing {
      HeadNamesCopies(c, s);
      CommitReaches(c, s');
    }
  }
}
