/** The on-disk redo log: which block writes a commit and a recovery make, in
    which order, and what a crash between any two of them leaves behind. */
module LogDisk {
  import opened Blocks

  const LOGSIZE: nat := 30

  // log.start and log.size
  datatype Layout = Layout(start: nat, size: nat)

  datatype Write = Write(home: nat, data: Block)
  // One transaction: the home block numbers in the order of the in-memory
  // header, each with the contents its cached buffer had at commit.
  type Txn = seq<Write>

  predicate InLog(l: Layout, b: nat) {
    l.start <= b < l.start + l.size
  }

  // A block number that log_write may be given.
  predicate IsHome(l: Layout, disk: nat, b: nat) {
    b < disk && !InLog(l, b)
  }

  predicate Fits(l: Layout, disk: nat) {
    1 <= l.size && l.start + l.size <= disk
  }

  predicate Homes(l: Layout, disk: nat, hs: seq<nat>) {
    |hs| <= LOGSIZE && |hs| <= l.size - 1 && forall i :: 0 <= i < |hs| ==> IsHome(l, disk, hs[i]) && hs[i] < UINT
  }

  predicate ValidTxn(l: Layout, disk: nat, t: Txn) {
    Homes(l, disk, HomesOf(t))
  }

  function HomesOf(t: Txn): seq<nat> {
    seq(|t|, i requires 0 <= i < |t| => t[i].home)
  }

  // ---- the header block

  function HeaderCount(d: Disk, l: Layout): nat
    requires Fits(l, |d|)
  {
    Word(d[l.start], 0)
  }

  function Header(d: Disk, l: Layout): seq<nat>
    requires Fits(l, |d|) && HeaderCount(d, l) < WORDS
  {
    seq(HeaderCount(d, l), i requires 0 <= i < HeaderCount(d, l) => Word(d[l.start], 1 + i) as nat)
  }

  // The header block as write_head leaves it: entries past the count are stale.
  function HeaderBlock(b: Block, hs: seq<nat>, k: nat): (r: Block)
    requires k <= |hs| < WORDS && forall i :: 0 <= i < |hs| ==> hs[i] < UINT
    ensures Word(r, 0) == |hs|
    ensures forall i :: 0 <= i < k ==> Word(r, 1 + i) == hs[i]
  {
    if k == 0 then SetWord(b, 0, |hs|) else SetWord(HeaderBlock(b, hs, k - 1), k, hs[k - 1])
  }

  function WithHeader(d: Disk, l: Layout, hs: seq<nat>): (r: Disk)
    requires Fits(l, |d|) && |hs| < WORDS && forall i :: 0 <= i < |hs| ==> hs[i] < UINT
    ensures |r| == |d| && HeaderCount(r, l) == |hs| && Header(r, l) == hs
  {
    d[l.start := HeaderBlock(d[l.start], hs, |hs|)]
  }

  // A disk some crash can leave: its header names home blocks only.
  predicate Recoverable(d: Disk, l: Layout) {
    Fits(l, |d|) && HeaderCount(d, l) < WORDS && Homes(l, |d|, Header(d, l))
  }

  predicate Clear(d: Disk, l: Layout) {
    Fits(l, |d|) && HeaderCount(d, l) == 0
  }

  // ---- the block writes of write_log, install_trans and the header

  function Logged(d: Disk, l: Layout, t: Txn, k: nat): (r: Disk)
    requires Fits(l, |d|) && k <= |t| <= l.size - 1
    ensures |r| == |d|
    ensures forall b :: 0 <= b < |d| && !(l.start < b <= l.start + k) ==> r[b] == d[b]
    ensures forall i :: 0 <= i < k ==> r[l.start + 1 + i] == t[i].data
  {
    if k == 0 then d else Logged(d, l, t, k - 1)[l.start + k := t[k - 1].data]
  }

  function Installed(d: Disk, l: Layout, hs: seq<nat>, k: nat): (r: Disk)
    requires Fits(l, |d|) && Homes(l, |d|, hs) && k <= |hs|
    ensures |r| == |d|
    ensures forall b :: 0 <= b < |d| && InLog(l, b) ==> r[b] == d[b]
    ensures forall b :: 0 <= b < |d| && b !in hs[..k] ==> r[b] == d[b]
  {
    if k == 0 then d else
    var d' := Installed(d, l, hs, k - 1);
    assert hs[..k] == hs[..k - 1] + [hs[k - 1]];
    d'[hs[k - 1] := d'[l.start + k]]
  }

  // The disk after the first k block writes of commit().
  function CommitDisk(d: Disk, l: Layout, t: Txn, k: nat): (r: Disk)
    requires Fits(l, |d|) && ValidTxn(l, |d|, t) && k <= 2 * |t| + 2
    ensures |r| == |d|
  {
    var hs, n := HomesOf(t), |t|;
    if k <= n then Logged(d, l, t, k) else
    var c := WithHeader(Logged(d, l, t, n), l, hs);
    if k <= 2 * n + 1 then Installed(c, l, hs, k - n - 1) else
    WithHeader(Installed(c, l, hs, n), l, [])
  }

  // The disk after the first k block writes of recover_from_log().
  function RecoverDisk(d: Disk, l: Layout, k: nat): (r: Disk)
    requires Recoverable(d, l) && k <= HeaderCount(d, l) + 1
    ensures |r| == |d|
  {
    var hs := Header(d, l);
    if k <= |hs| then Installed(d, l, hs, k) else WithHeader(Installed(d, l, hs, |hs|), l, [])
  }

  function Recovered(d: Disk, l: Layout): (r: Disk)
    requires Recoverable(d, l)
    ensures |r| == |d|
  {
    RecoverDisk(d, l, HeaderCount(d, l) + 1)
  }

  // ---- what the blocks outside the log mean

  ghost predicate SameHome(a: Disk, b: Disk, l: Layout) {
    |a| == |b| && forall i :: 0 <= i < |a| && !InLog(l, i) ==> a[i] == b[i]
  }

  // The plain meaning of a transaction, with no log at all.
  function Apply(d: Disk, t: Txn): (r: Disk)
    requires forall i :: 0 <= i < |t| ==> t[i].home < |d|
    ensures |r| == |d|
    decreases |t|
  {
    if t == [] then d else Apply(d, t[..|t| - 1])[t[|t| - 1].home := t[|t| - 1].data]
  }

  function LastIndex(hs: seq<nat>, k: nat, b: nat): (j: nat)
    requires k <= |hs| && b in hs[..k]
    ensures j < k && hs[j] == b && forall i :: j < i < k ==> hs[i] != b
  {
    assert hs[..k] == hs[..k - 1] + [hs[k - 1]];
    if hs[k - 1] == b then k - 1 else LastIndex(hs, k - 1, b)
  }

  // An installed block holds the log block of its last entry in the header.
  lemma {:induction false} InstalledValue(d: Disk, l: Layout, hs: seq<nat>, k: nat, b: nat)
    requires Fits(l, |d|) && Homes(l, |d|, hs) && k <= |hs| && b in hs[..k]
    ensures b < |d| && Installed(d, l, hs, k)[b] == d[l.start + 1 + LastIndex(hs, k, b)]
  {
    assert hs[..k] == hs[..k - 1] + [hs[k - 1]];
    if hs[k - 1] != b { InstalledValue(d, l, hs, k - 1, b); }
  }

  lemma {:induction false} ApplyValue(d: Disk, t: Txn, b: nat)
    requires (forall i :: 0 <= i < |t| ==> t[i].home < |d|) && b < |d|
    ensures var hs := HomesOf(t);
            Apply(d, t)[b] == if b in hs[..|t|] then t[LastIndex(hs, |t|, b)].data else d[b]
    decreases |t|
  {
    var hs := HomesOf(t);
    if t != [] {
      var t' := t[..|t| - 1];
      ApplyValue(d, t', b);
      assert HomesOf(t') == hs[..|t| - 1];
      assert hs[..|t|] == hs[..|t| - 1] + [hs[|t| - 1]];
      if hs[|t| - 1] != b && b in hs[..|t|] {
        assert b in HomesOf(t')[..|t'|];
        LastIndexPrefix(hs, HomesOf(t'), |t'|, b);
      }
    }
  }

  lemma {:induction false} LastIndexPrefix(hs: seq<nat>, hs': seq<nat>, k: nat, b: nat)
    requires k <= |hs'| <= |hs| && hs' == hs[..|hs'|] && b in hs[..k]
    ensures b in hs'[..k] && LastIndex(hs', k, b) == LastIndex(hs, k, b)
  {
    assert hs'[..k] == hs[..k];
    assert hs[..k] == hs[..k - 1] + [hs[k - 1]];
    if hs[k - 1] != b { LastIndexPrefix(hs, hs', k - 1, b); }
  }

  lemma RecoveredValue(d: Disk, l: Layout, b: nat)
    requires Recoverable(d, l) && IsHome(l, |d|, b)
    ensures var hs := Header(d, l);
            Recovered(d, l)[b] == if b in hs[..|hs|] then d[l.start + 1 + LastIndex(hs, |hs|, b)] else d[b]
  {
    var hs := Header(d, l);
    if b in hs[..|hs|] { InstalledValue(d, l, hs, |hs|, b); }
  }

  lemma HeaderSame(d: Disk, e: Disk, l: Layout)
    requires Recoverable(d, l) && |e| == |d| && e[l.start] == d[l.start]
    ensures Recoverable(e, l) && Header(e, l) == Header(d, l)
  {
    hide Word;
  }

  // Two disks with one header and one set of log blocks, which differ at
  // most in blocks the header names, recover to the same home blocks.
  lemma RecoverAgrees(d: Disk, e: Disk, l: Layout)
    requires Recoverable(d, l) && |e| == |d| && forall b :: 0 <= b < |d| && InLog(l, b) ==> e[b] == d[b]
    requires forall b :: 0 <= b < |d| && b !in Header(d, l) ==> e[b] == d[b]
    ensures Recoverable(e, l) && SameHome(Recovered(e, l), Recovered(d, l), l)
  {
    hide Recovered, RecoverDisk, Installed, Logged, Word, HeaderBlock, LastIndex;
    assert InLog(l, l.start);
    HeaderSame(d, e, l);
    hide Header;
    var hs := Header(d, l);
    assert hs[..|hs|] == hs;
    forall b | 0 <= b < |d| && !InLog(l, b) ensures Recovered(e, l)[b] == Recovered(d, l)[b] {
      RecoveredValue(d, l, b);
      RecoveredValue(e, l, b);
    }
  }

  // A disk with a clear header is its own recovery.
  lemma RecoverClear(d: Disk, l: Layout)
    requires Clear(d, l)
    ensures Recoverable(d, l) && SameHome(Recovered(d, l), d, l) && Clear(Recovered(d, l), l)
  {
    assert Header(d, l) == [];
  }

  // A crash anywhere in recovery changes nothing that the next recovery restores.
  lemma CrashInRecovery(d: Disk, l: Layout, k: nat)
    requires Recoverable(d, l) && k <= HeaderCount(d, l) + 1
    ensures Recoverable(RecoverDisk(d, l, k), l)
    ensures SameHome(Recovered(RecoverDisk(d, l, k), l), Recovered(d, l), l)
    ensures Clear(Recovered(d, l), l)
  {
    var hs, e := Header(d, l), RecoverDisk(d, l, k);
    if k <= |hs| {
      RecoverAgrees(d, e, l);
    } else {
      RecoverClear(e, l);
    }
  }

  // A crash anywhere in a commit leaves, after recovery, the blocks of
  // before while at most |t| writes were made, and those of after the whole
  // transaction from the header write on.
  lemma CrashInCommit(d: Disk, l: Layout, t: Txn, k: nat)
    requires Clear(d, l) && ValidTxn(l, |d|, t) && k <= 2 * |t| + 2
    ensures forall i :: 0 <= i < |t| ==> t[i].home < |d|
    ensures var e := CommitDisk(d, l, t, k);
            Recoverable(e, l) && SameHome(Recovered(e, l), if k <= |t| then d else Apply(d, t), l)
    ensures Clear(CommitDisk(d, l, t, 2 * |t| + 2), l)
    ensures SameHome(CommitDisk(d, l, t, 2 * |t| + 2), Apply(d, t), l)
  {
    var hs, n := HomesOf(t), |t|;
    assert forall i :: 0 <= i < n ==> t[i].home == hs[i];
    var e := CommitDisk(d, l, t, k);
    var c := WithHeader(Logged(d, l, t, n), l, hs);
    CommitRecovers(d, l, t);
    if k <= n {
      assert e[l.start] == d[l.start];
      RecoverClear(e, l);
    } else if k <= 2 * n + 1 {
      assert hs[..k - n - 1] <= hs;
      RecoverAgrees(c, e, l);
    } else {
      RecoverClear(e, l);
    }
  }

  // The header write is the commit point.
  lemma CommitRecovers(d: Disk, l: Layout, t: Txn)
    requires Clear(d, l) && ValidTxn(l, |d|, t)
    ensures forall i :: 0 <= i < |t| ==> t[i].home < |d|
    ensures var c := WithHeader(Logged(d, l, t, |t|), l, HomesOf(t));
            Recoverable(c, l) && SameHome(Recovered(c, l), Apply(d, t), l)
            && SameHome(Installed(c, l, HomesOf(t), |t|), Apply(d, t), l)
  {
    hide Installed, Logged, Apply, Word, HeaderBlock, LastIndex;
    var hs, n := HomesOf(t), |t|;
    assert forall i :: 0 <= i < n ==> t[i].home == hs[i];
    var c := WithHeader(Logged(d, l, t, n), l, hs);
    var e := Installed(c, l, hs, n);
    forall b | 0 <= b < |d| && !InLog(l, b) ensures e[b] == Apply(d, t)[b] {
      InstalledIsApplied(d, l, t, b);
    }
    assert Header(c, l) == hs;
    assert Recovered(c, l) == WithHeader(e, l, []);
  }

  lemma InstalledIsApplied(d: Disk, l: Layout, t: Txn, b: nat)
    requires Clear(d, l) && ValidTxn(l, |d|, t) && IsHome(l, |d|, b)
    ensures forall i :: 0 <= i < |t| ==> t[i].home < |d|
    ensures Installed(WithHeader(Logged(d, l, t, |t|), l, HomesOf(t)), l, HomesOf(t), |t|)[b] == Apply(d, t)[b]
  {
    hide Installed, Logged, Apply, Word, HeaderBlock, LastIndex;
    var hs, n := HomesOf(t), |t|;
    assert forall i :: 0 <= i < n ==> t[i].home == hs[i];
    assert hs[..n] == hs;
    ApplyValue(d, t, b);
    if b in hs { InstalledValue(WithHeader(Logged(d, l, t, n), l, hs), l, hs, n, b); }
  }
}
