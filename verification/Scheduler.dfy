/** The selection loop of the minimum-CPU-usage scheduler in proc.c. */
module Scheduler {
  import opened Options
  import opened Blocks

  // (uint) -1
  const INF: uint := UINT - 1

  datatype Proc = Proc(runnable: bool, sum: uint, quota: uint, deadline: uint)

  // p may run without exceeding its quota.
  predicate Under(p: Proc) {
    p.runnable && p.sum < p.quota
  }

  // (sum_of_ticks, deadline) of p is not greater than that of q.
  predicate NotAfter(p: Proc, q: Proc) {
    p.sum < q.sum || (p.sum == q.sum && p.deadline <= q.deadline)
  }

  // The p->lock of each process in the table; held by this scheduler.
  class Locks {
    var held: set<nat>
    ghost var most: nat  // the largest number ever held at once

    ghost predicate Valid()
      reads this
    {
      |held| <= most
    }

    constructor ()
      ensures Valid() && held == {} && most == 0
    {
      held, most := {}, 0;
    }

    method Acquire(i: nat)
      requires Valid() && i !in held
      modifies this
      ensures Valid() && held == old(held) + {i}
      ensures most == if |held| > old(most) then |held| else old(most)
    {
      held := held + {i};
      if |held| > most {
        most := |held|;
      }
    }

    method Release(i: nat)
      requires Valid() && i in held
      modifies this
      ensures Valid() && held == old(held) - {i} && most == old(most)
    {
      held := held - {i};
    }
  }

  ghost function Kept(best: Option<nat>): set<nat> {
    if best.Some? then {best.value} else {}
  }

  // best among the first n processes, with min its sum_of_ticks.
  ghost predicate Best(procs: seq<Proc>, n: nat, best: Option<nat>, min: uint) {
    && n <= |procs|
    && (best.None? ==> min == INF && forall u :: 0 <= u < n ==> !Under(procs[u]))
    && (best.Some? ==>
          && best.value < n && procs[best.value].runnable && procs[best.value].sum == min < INF
          && forall u :: 0 <= u < n && Under(procs[u]) ==> NotAfter(procs[best.value], procs[u]))
  }

  // While quotas are enforced, the best has the ticks of a process under quota.
  ghost predicate Fair(procs: seq<Proc>, n: nat, best: Option<nat>) {
    best.Some? && best.value < |procs| && n <= |procs| ==>
      exists u :: 0 <= u < n && Under(procs[u]) && procs[u].sum == procs[best.value].sum
  }

  // Process u, under its quota, has fewer ticks than any runnable one before
  // it: it puts the quotas into force.
  ghost predicate Turns(procs: seq<Proc>, u: nat) {
    u < |procs| && Under(procs[u]) && forall v :: 0 <= v < u && procs[v].runnable ==> procs[u].sum < procs[v].sum
  }

  ghost predicate Enforced(procs: seq<Proc>, n: nat, enable: bool) {
    enable || exists u :: 0 <= u < n && Turns(procs, u)
  }

  // At equal ticks the earlier deadline goes first, then the lower index.
  predicate Ahead(procs: seq<Proc>, b: nat, v: nat)
    requires b < |procs| && v < |procs|
  {
    procs[b].deadline < procs[v].deadline || (procs[b].deadline == procs[v].deadline && b <= v)
  }

  // Process f is the first one under its quota with the fewest ticks of those.
  ghost predicate First(procs: seq<Proc>, n: nat, f: nat) {
    && f < n <= |procs| && Under(procs[f])
    && (forall u :: 0 <= u < n && Under(procs[u]) ==> procs[f].sum <= procs[u].sum)
    && (forall u :: 0 <= u < f && Under(procs[u]) ==> procs[f].sum < procs[u].sum)
  }

  ghost predicate Leads(procs: seq<Proc>, n: nat, f: nat, b: nat) {
    && First(procs, n, f) && f <= b < n && procs[b].sum == procs[f].sum
    && forall v :: f <= v < n && procs[v].runnable && procs[v].sum == procs[b].sum ==> Ahead(procs, b, v)
  }

  /** Which of the first n processes is kept. With the quotas in force it has
      the ticks of First, and is ahead of all with the same ticks from there
      on, under their quotas or not. Without them it has the fewest ticks of
      all, and is ahead of all with the same ticks. */
  ghost predicate Picked(procs: seq<Proc>, n: nat, on: bool, best: Option<nat>)
    requires n <= |procs|
  {
    match best
    case None => forall u :: 0 <= u < n ==> if on then !Under(procs[u]) else !(procs[u].runnable && procs[u].sum < INF)
    case Some(b) =>
      && b < n && procs[b].runnable && procs[b].sum < INF
      && if on then
           exists f: nat :: Leads(procs, n, f, b)
         else
           forall v :: 0 <= v < n && procs[v].runnable ==>
                         procs[b].sum < procs[v].sum || (procs[b].sum == procs[v].sum && Ahead(procs, b, v))
  }

  // min_cu
  function Ticks(procs: seq<Proc>, best: Option<nat>): uint {
    if best.Some? && best.value < |procs| then procs[best.value].sum else INF
  }

  lemma PickedStart(procs: seq<Proc>, enable: bool)
    ensures Picked(procs, 0, enable, None) && (enable <==> Enforced(procs, 0, enable))
  {
  }

  // Process n does not displace the best.
  lemma PickedSkip(procs: seq<Proc>, n: nat, on: bool, best: Option<nat>)
    requires n < |procs| && Picked(procs, n, on, best)
    requires || !procs[n].runnable || procs[n].sum > Ticks(procs, best)
             || (procs[n].sum < Ticks(procs, best) && on && !Under(procs[n]))
             || (procs[n].sum == Ticks(procs, best)
                 && (best.Some? ==> procs[best.value].deadline <= procs[n].deadline))
    ensures Picked(procs, n + 1, on, best)
  {
    if best.Some? && on {
      var f :| Leads(procs, n, f, best.value);
      assert Leads(procs, n + 1, f, best.value);
    }
  }

  // Process n has fewer ticks, and is under its quota if those are in force.
  lemma PickedNew(procs: seq<Proc>, n: nat, on: bool, best: Option<nat>)
    requires n < |procs| && Picked(procs, n, on, best)
    requires procs[n].runnable && procs[n].sum < Ticks(procs, best) && (on ==> Under(procs[n]))
    ensures Picked(procs, n + 1, on || Under(procs[n]), Some(n))
    ensures !on ==> (Turns(procs, n) <==> Under(procs[n]))
  {
    if on && best.Some? {
      var f :| Leads(procs, n, f, best.value);
    }
    if Under(procs[n]) {
      assert Leads(procs, n + 1, n, n);
    }
  }

  // Process n has the same ticks and an earlier deadline.
  lemma PickedTie(procs: seq<Proc>, n: nat, on: bool, best: Option<nat>)
    requires n < |procs| && Picked(procs, n, on, best) && best.Some?
    requires procs[n].runnable && procs[n].sum == Ticks(procs, best)
    requires procs[n].deadline < procs[best.value].deadline
    ensures Picked(procs, n + 1, on, Some(n))
  {
    if on {
      var f :| Leads(procs, n, f, best.value);
      assert Leads(procs, n + 1, f, n);
    }
  }

  lemma PickedBest(procs: seq<Proc>, on: bool, best: Option<nat>)
    requires Picked(procs, |procs|, on, best)
    ensures Best(procs, |procs|, best, Ticks(procs, best))
    ensures on ==> Fair(procs, |procs|, best)
  {
    if on && best.Some? {
      var f :| Leads(procs, |procs|, f, best.value);
    }
  }

  /** Exactly one choice is Picked. */
  lemma PickedUnique(procs: seq<Proc>, on: bool, a: Option<nat>, b: Option<nat>)
    requires Picked(procs, |procs|, on, a) && Picked(procs, |procs|, on, b)
    ensures a == b
  {
    if on && a.Some? {
      var f :| Leads(procs, |procs|, f, a.value);
      if b.Some? {
        var g :| Leads(procs, |procs|, g, b.value);
        assert f == g;
      }
    }
  }

  lemma EnforcedStep(procs: seq<Proc>, n: nat, enable: bool)
    requires n < |procs|
    ensures Enforced(procs, n + 1, enable) <==> Enforced(procs, n, enable) || Turns(procs, n)
  {
    if u :| 0 <= u < n && Turns(procs, u) {
      assert u < n + 1;
    }
  }

  // Nobody turns without having fewer ticks than the best.
  lemma NoTurn(procs: seq<Proc>, n: nat, best: Option<nat>)
    requires n < |procs| && Picked(procs, n, false, best)
    requires !procs[n].runnable || Ticks(procs, best) <= procs[n].sum
    ensures !Turns(procs, n)
  {
  }

  /** If a RUNNABLE process under its quota exists, one process is kept, and no
      such process comes before it. At most two process locks are held at once,
      and in the end only that of the kept process. */
  method Select(procs: seq<Proc>, enable: bool, locks: Locks) returns (best: Option<nat>, enable': bool)
    requires locks.Valid() && locks.held == {} && locks.most == 0
    modifies locks
    ensures Best(procs, |procs|, best, Ticks(procs, best))
    ensures enable' <==> Enforced(procs, |procs|, enable)
    ensures Picked(procs, |procs|, enable', best)
    ensures enable' ==> Fair(procs, |procs|, best)
    ensures locks.held == Kept(best) && locks.most <= 2
  {
    hide Picked, Enforced, Best, Fair, Turns;
    var min := INF;
    best, enable' := None, enable;
    PickedStart(procs, enable);
    for p := 0 to |procs|
      invariant locks.Valid() && locks.held == Kept(best) && locks.most <= 2
      invariant (best.Some? ==> best.value < p) && min == Ticks(procs, best)
      invariant Picked(procs, p, enable', best)
      invariant enable' <==> Enforced(procs, p, enable)
    {
      EnforcedStep(procs, p, enable);
      if !enable' && !(procs[p].runnable && procs[p].sum < min) {
        NoTurn(procs, p, best);
      }
      locks.Acquire(p);
      if procs[p].runnable && procs[p].sum < min {
        if procs[p].quota <= procs[p].sum && enable' {
          locks.Release(p);
          PickedSkip(procs, p, enable', best);
          continue;
        }
        PickedNew(procs, p, enable', best);
        if procs[p].quota > procs[p].sum {
          enable' := true;
        }
        if best.Some? {
          locks.Release(best.value);
        }
        min := procs[p].sum;
        best := Some(p);
      } else if procs[p].runnable && procs[p].sum == min {
        if best.Some? && procs[p].deadline < procs[best.value].deadline {
          PickedTie(procs, p, enable', best);
          locks.Release(best.value);
          best := Some(p);
        } else {
          locks.Release(p);
          PickedSkip(procs, p, enable', best);
        }
      } else {
        locks.Release(p);
        PickedSkip(procs, p, enable', best);
      }
    }
    PickedBest(procs, enable', best);
  }
}
