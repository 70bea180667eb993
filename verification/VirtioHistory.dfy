/** All requests ever given to the disk, and how far each has come: posted in
    the avail ring, taken by the device, completed in the used ring, seen by
    the interrupt handler, and at last freed. */
module VirtioHistory {
  import opened Counting
  import opened VirtioRing

  // posted lists every request; completed lists positions in posted, in the
  // device's order. chains are the requests whose descriptors are not freed.
  datatype History = History(posted: seq<Request>, taken: nat, completed: seq<nat>, seen: nat, chains: map<nat, Chain>)

  // Request r still owns its chain.
  ghost predicate Live(y: History, r: nat) {
    r < |y.posted| && y.posted[r].head in y.chains && y.chains[y.posted[r].head].id == r
  }

  // The interrupt handler has released the buffer of r.
  ghost predicate Released(y: History, r: nat) {
    y.seen <= |y.completed| && r in y.completed[..y.seen]
  }

  ghost predicate HistoryOK(y: History) {
    && y.taken <= |y.posted| && y.seen <= |y.completed|
    && (forall k :: 0 <= k < |y.completed| ==> y.completed[k] < y.taken)
    && (forall j, k :: 0 <= j < k < |y.completed| ==> y.completed[j] != y.completed[k])
    && (forall h :: h in y.chains ==> h < NUM && y.chains[h].id < |y.posted| && y.posted[y.chains[h].id].head == h)
    && (forall r: nat :: r < |y.posted| && !Released(y, r) ==> Live(y, r))
    && (forall h, h2 :: h in y.chains && h2 in y.chains && h != h2 ==>
          y.posted[y.chains[h].id].buf != y.posted[y.chains[h2].id].buf)
  }

  function Heads(posted: seq<Request>): seq<nat> {
    seq(|posted|, i requires 0 <= i < |posted| => posted[i].head)
  }

  ghost function DoneHeads(y: History): seq<nat>
    requires forall k :: 0 <= k < |y.completed| ==> y.completed[k] < |y.posted|
  {
    seq(|y.completed|, k requires 0 <= k < |y.completed| => y.posted[y.completed[k]].head)
  }

  // ---- the five things that happen

  ghost function Post(y: History, q: Request, mid: nat, tail: nat): History {
    y.(posted := y.posted + [q], chains := y.chains[q.head := Chain(mid, tail, |y.posted|)])
  }

  ghost function Take(y: History): History {
    y.(taken := y.taken + 1)
  }

  ghost function Complete(y: History, h: nat): History
    requires h in y.chains
  {
    y.(completed := y.completed + [y.chains[h].id])
  }

  ghost function See(y: History): History {
    y.(seen := y.seen + 1)
  }

  ghost function Drop(y: History, h: nat): History {
    y.(chains := y.chains - {h})
  }

  ghost predicate NewBuffer(y: History, buf: nat)
    requires HistoryOK(y)
  {
    forall h :: h in y.chains ==> y.posted[y.chains[h].id].buf != buf
  }

  lemma PostOK(y: History, q: Request, mid: nat, tail: nat)
    requires HistoryOK(y) && q.head < NUM && q.head !in y.chains && NewBuffer(y, q.buf)
    ensures HistoryOK(Post(y, q, mid, tail))
  {
    var y' := Post(y, q, mid, tail);
    forall r: nat | r < |y'.posted| && !Released(y', r) ensures Live(y', r) {
      if r < |y.posted| {
        assert !Released(y, r);
        assert Live(y, r);
      }
    }
  }

  // The device has taken request r and not completed it.
  ghost predicate AtDevice(y: History, h: nat) {
    h in y.chains && y.chains[h].id < y.taken && y.chains[h].id !in y.completed
  }

  lemma TakeOK(y: History)
    requires HistoryOK(y) && y.taken < |y.posted|
    ensures HistoryOK(Take(y))
  {
    forall r: nat | r < |y.posted| && !Released(Take(y), r) ensures Live(Take(y), r) {
      assert !Released(y, r) && Live(y, r);
    }
  }

  lemma CompleteOK(y: History, h: nat)
    requires HistoryOK(y) && AtDevice(y, h)
    ensures HistoryOK(Complete(y, h))
  {
    var y' := Complete(y, h);
    forall r: nat | r < |y'.posted| && !Released(y', r) ensures Live(y', r) {
      assert y'.completed[..y.seen] == y.completed[..y.seen];
      assert !Released(y, r);
      assert Live(y, r);
    }
  }

  lemma SeeOK(y: History)
    requires HistoryOK(y) && y.seen < |y.completed|
    ensures HistoryOK(See(y))
  {
    var y' := See(y);
    assert y'.completed[..y.seen + 1] == y.completed[..y.seen] + [y.completed[y.seen]];
    forall r: nat | r < |y'.posted| && !Released(y', r) ensures Live(y', r) {
      assert !Released(y, r);
      assert Live(y, r);
    }
  }

  lemma DropOK(y: History, h: nat)
    requires HistoryOK(y) && h in y.chains && Released(y, y.chains[h].id)
    ensures HistoryOK(Drop(y, h))
  {
    var y' := Drop(y, h);
    forall r: nat | r < |y'.posted| && !Released(y', r) ensures Live(y', r) {
      assert !Released(y, r);
      assert Live(y, r);
    }
  }

  // ---- the rings never overflow

  lemma QueuedLive(y: History, r: nat)
    requires HistoryOK(y) && y.taken <= r < |y.posted|
    ensures Live(y, r)
  {
    assert !Released(y, r);
  }

  /** There is room in the avail ring for one more request. */
  lemma RoomToPost(y: History, head: nat)
    requires HistoryOK(y) && head < NUM && head !in y.chains
    ensures |y.posted| < y.taken + NUM
  {
    var waiting := Heads(y.posted)[y.taken..] + [head];
    forall k | 0 <= k < |waiting| - 1 ensures Live(y, y.taken + k) && waiting[k] == y.posted[y.taken + k].head {
      QueuedLive(y, y.taken + k);
    }
    Pigeonhole(waiting, NUM);
  }

  lemma UnseenLive(y: History, k: nat)
    requires HistoryOK(y) && y.seen <= k < |y.completed|
    ensures Live(y, y.completed[k])
  {
    assert !Released(y, y.completed[k]);
  }

  /** There is room in the used ring for one more completion. */
  lemma RoomToComplete(y: History, h: nat)
    requires HistoryOK(y) && AtDevice(y, h)
    ensures |y.completed| < y.seen + NUM
  {
    var waiting := DoneHeads(y)[y.seen..] + [h];
    forall k | 0 <= k < |waiting| - 1
      ensures Live(y, y.completed[y.seen + k]) && waiting[k] == y.posted[y.completed[y.seen + k]].head
    {
      UnseenLive(y, y.seen + k);
    }
    Pigeonhole(waiting, NUM);
  }

  // ---- runs

  ghost predicate Posts(y: History, y': History, q: Request, mid: nat, tail: nat) {
    HistoryOK(y) && q.head < NUM && q.head !in y.chains && NewBuffer(y, q.buf) && y' == Post(y, q, mid, tail)
  }

  ghost predicate PostsOne(y: History, y': History) {
    exists q, mid, tail :: Posts(y, y', q, mid, tail)
  }

  ghost predicate Takes(y: History, y': History) {
    y.taken < |y.posted| && y' == Take(y)
  }

  ghost predicate Completes(y: History, y': History, h: nat) {
    AtDevice(y, h) && y' == Complete(y, h)
  }

  // The interrupt handler releases the buffer of request r.
  ghost predicate Releases(y: History, y': History, r: nat) {
    y.seen < |y.completed| && r == y.completed[y.seen] && y' == See(y)
  }

  ghost predicate Drops(y: History, y': History, h: nat) {
    h in y.chains && Released(y, y.chains[h].id) && y' == Drop(y, h)
  }

  // What one of the methods of the driver or the device does.
  ghost predicate Step(y: History, y': History) {
    || PostsOne(y, y') || Takes(y, y') || (exists h :: Completes(y, y', h))
    || (exists r :: Releases(y, y', r)) || (exists h :: Drops(y, y', h))
  }

  ghost predicate Run(ys: seq<History>) {
    |ys| > 0 && ys[0] == History([], 0, [], 0, map[]) && forall k :: 0 <= k < |ys| - 1 ==> Step(ys[k], ys[k + 1])
  }

  lemma StepOK(y: History, y': History)
    requires HistoryOK(y) && Step(y, y')
    ensures HistoryOK(y') && Onward(y, y')
  {
    hide HistoryOK;
    if q, mid, tail :| Posts(y, y', q, mid, tail) {
      PostOK(y, q, mid, tail);
    } else if Takes(y, y') {
      TakeOK(y);
    } else if h :| Completes(y, y', h) {
      CompleteOK(y, h);
    } else if r :| Releases(y, y', r) {
      SeeOK(y);
    } else {
      var h :| Drops(y, y', h);
      DropOK(y, h);
    }
  }

  // Every count goes up by at most one, and lists only grow.
  predicate Onward(y: History, y': History) {
    && y.posted <= y'.posted && |y'.posted| <= |y.posted| + 1 && y.taken <= y'.taken <= y.taken + 1
    && y.completed <= y'.completed && |y'.completed| <= |y.completed| + 1 && y.seen <= y'.seen <= y.seen + 1
  }

  lemma {:induction false} RunOK(ys: seq<History>, k: nat)
    requires Run(ys) && k < |ys|
    ensures HistoryOK(ys[k])
  {
    hide HistoryOK, Step;
    if k == 0 {
      EmptyOK();
    } else {
      RunOK(ys, k - 1);
      StepOK(ys[k - 1], ys[k]);
    }
  }

  lemma EmptyOK()
    ensures HistoryOK(History([], 0, [], 0, map[]))
  {
  }

  lemma {:induction false} RunOnward(ys: seq<History>, i: nat, j: nat)
    requires Run(ys) && i <= j < |ys|
    ensures ys[i].completed <= ys[j].completed && ys[i].seen <= ys[j].seen
    decreases j
  {
    hide HistoryOK, Step;
    if i < j {
      RunOnward(ys, i, j - 1);
      RunOK(ys, j - 1);
      StepOK(ys[j - 1], ys[j]);
    }
  }

  /** In every run, no request's buffer is released twice. */
  lemma ReleasedOnce(ys: seq<History>, i: nat, r: nat, j: nat, r': nat)
    requires Run(ys) && i < j && j + 1 < |ys| && Releases(ys[i], ys[i + 1], r) && Releases(ys[j], ys[j + 1], r')
    ensures r != r'
  {
    hide Step;
    RunOnward(ys, i, j);
    RunOnward(ys, i + 1, j);
    RunOK(ys, j);
    assert ys[j].completed[ys[i].seen] == r;
  }

  // The step at which request r is posted, is taken, or is completed.
  ghost predicate PostsAt(ys: seq<History>, k: nat, r: nat) {
    k + 1 < |ys| && |ys[k].posted| == r && PostsOne(ys[k], ys[k + 1])
  }

  ghost predicate TakesAt(ys: seq<History>, k: nat, r: nat) {
    k + 1 < |ys| && ys[k].taken == r && Takes(ys[k], ys[k + 1])
  }

  ghost predicate CompletesAt(ys: seq<History>, k: nat, r: nat) {
    k + 1 < |ys| && exists h :: Completes(ys[k], ys[k + 1], h) && ys[k].chains[h].id == r
  }

  lemma {:induction false} CompletedSince(ys: seq<History>, k: nat, n: nat) returns (c: nat)
    requires Run(ys) && k < |ys| && n < |ys[k].completed|
    ensures c < k && CompletesAt(ys, c, ys[k].completed[n]) && ys[k].completed[n] < ys[c].taken
    decreases k
  {
    hide HistoryOK, Released;
    RunOK(ys, k - 1);
    assert Step(ys[k - 1], ys[k]);
    StepOK(ys[k - 1], ys[k]);
    if n < |ys[k - 1].completed| {
      c := CompletedSince(ys, k - 1, n);
    } else {
      c := k - 1;
    }
  }

  lemma {:induction false} TakenSince(ys: seq<History>, k: nat, r: nat) returns (t: nat)
    requires Run(ys) && k < |ys| && r < ys[k].taken
    ensures t < k && TakesAt(ys, t, r)
    decreases k
  {
    hide HistoryOK, Released;
    RunOK(ys, k - 1);
    assert Step(ys[k - 1], ys[k]);
    StepOK(ys[k - 1], ys[k]);
    if r < ys[k - 1].taken {
      t := TakenSince(ys, k - 1, r);
    } else {
      t := k - 1;
    }
  }

  lemma {:induction false} PostedSince(ys: seq<History>, k: nat, r: nat) returns (p: nat)
    requires Run(ys) && k < |ys| && r < |ys[k].posted|
    ensures p < k && PostsAt(ys, p, r)
    decreases k
  {
    hide HistoryOK, Released;
    RunOK(ys, k - 1);
    assert Step(ys[k - 1], ys[k]);
    StepOK(ys[k - 1], ys[k]);
    if r < |ys[k - 1].posted| {
      p := PostedSince(ys, k - 1, r);
    } else {
      p := k - 1;
    }
  }

  /** In every run, a buffer is released only after the device completed its
      request, which it had taken before, after the driver had posted it. */
  lemma ReleasedInOrder(ys: seq<History>, k: nat, r: nat) returns (p: nat, t: nat, c: nat)
    requires Run(ys) && k + 1 < |ys| && Releases(ys[k], ys[k + 1], r)
    ensures p < t < c < k && PostsAt(ys, p, r) && TakesAt(ys, t, r) && CompletesAt(ys, c, r)
  {
    hide Step;
    c := CompletedSince(ys, k, ys[k].seen);
    t := TakenSince(ys, c, r);
    p := PostedSince(ys, t, r);
  }
}
