/** Facts about counters that wrap and about distinct small numbers, shared by
    the ring buffers and the tables. */
module Counting {

  lemma ModUnique(n: nat, d: nat, q: int, r: nat)
    requires r < d && n == q * d + r
    ensures n % d == r && n / d == q
  {
    var q', r' := n / d, n % d;
    assert (q - q') * d == r' - r;
    if q > q' {
      assert (q - q') * d >= d by { Monotone(q - q', d); }
    } else if q < q' {
      assert (q' - q) * d >= d by { Monotone(q' - q, d); }
    }
  }

  lemma Monotone(a: int, d: nat)
    requires a >= 1
    ensures a * d >= d
  {
  }

  // A counter that wraps at a multiple of size still finds its slot.
  lemma Slot(n: nat, size: nat, times: nat)
    requires size > 0 && times > 0
    ensures size * times > 0
    ensures n % (size * times) % size == n % size
  {
    var wrap := size * times;
    Monotone(times, size);
    var r := n % wrap;
    var a, b := n / wrap, r / size;
    calc {
      n;
      a * wrap + r;
      a * (size * times) + (b * size + r % size);
      (a * times + b) * size + r % size;
    }
    ModUnique(n, size, a * times + b, r % size);
  }

  lemma Next(n: nat, wrap: nat)
    requires wrap > 1
    ensures (n % wrap + 1) % wrap == (n + 1) % wrap
  {
    var q, r := n / wrap, n % wrap;
    if r + 1 < wrap {
      ModUnique(n + 1, wrap, q, r + 1);
    } else {
      assert n + 1 == (q + 1) * wrap + 0;
      ModUnique(n + 1, wrap, q + 1, 0);
    }
  }

  // Slots less than size apart are different.
  lemma Apart(a: nat, b: nat, size: nat)
    requires a < b < a + size
    ensures a % size != b % size
  {
    var q, r := a / size, a % size;
    var d := b - a;
    if r + d < size {
      ModUnique(b, size, q, r + d);
    } else {
      assert b == (q + 1) * size + (r + d - size);
      ModUnique(b, size, q + 1, r + d - size);
    }
  }

  lemma {:induction false} Pigeonhole(r: seq<nat>, n: nat)
    requires forall k :: 0 <= k < |r| ==> r[k] < n
    requires forall j, k :: 0 <= j < k < |r| ==> r[j] != r[k]
    ensures |r| <= n
  {
    assert |r| > 0 ==> r[0] < n;
    if n > 0 {
      if k :| 0 <= k < |r| && r[k] == n - 1 {
        Pigeonhole(r[..k] + r[k + 1..], n - 1);
      } else {
        Pigeonhole(r, n - 1);
      }
    }
  }

  // Where x is found first.
  function IndexOf(s: seq<nat>, x: nat): (k: nat)
    requires x in s
    ensures k < |s| && s[k] == x
  {
    if s[0] == x then 0 else 1 + IndexOf(s[1..], x)
  }
}
