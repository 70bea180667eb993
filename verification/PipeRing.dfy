/** The ring buffer of pipe.c: 512 bytes and two 32-bit counters that wrap. */
module PipeRing {
  import opened Blocks
  import opened Counting

  const PIPESIZE: nat := 512

  datatype Pipe = Pipe(data: seq<byte>, nread: nat, nwrite: nat, readopen: bool, writeopen: bool)

  // Counters are unsigned 32-bit integers.
  function Inc(n: nat): nat {
    (n + 1) % UINT
  }

  predicate Empty(p: Pipe) {
    p.nread == p.nwrite
  }

  predicate Full(p: Pipe) {
    p.nwrite == (p.nread + PIPESIZE) % UINT
  }

  function Put(p: Pipe, ch: byte): Pipe
    requires |p.data| == PIPESIZE
  {
    p.(data := p.data[p.nwrite % PIPESIZE := ch], nwrite := Inc(p.nwrite))
  }

  function Front(p: Pipe): byte
    requires |p.data| == PIPESIZE
  {
    p.data[p.nread % PIPESIZE]
  }

  function Take(p: Pipe): Pipe {
    p.(nread := Inc(p.nread))
  }

  // sent is everything ever put, got the number of bytes ever taken.
  ghost predicate Holds(p: Pipe, sent: seq<byte>, got: nat) {
    && |p.data| == PIPESIZE && got <= |sent| <= got + PIPESIZE
    && p.nread == got % UINT && p.nwrite == |sent| % UINT
    && forall k :: got <= k < |sent| ==> p.data[k % PIPESIZE] == sent[k]
  }

  // 512 divides 2^32, so a wrapped counter still finds its slot.
  lemma SlotOf(n: nat)
    ensures n % UINT % PIPESIZE == n % PIPESIZE
    ensures Inc(n % UINT) == (n + 1) % UINT
  {
    Slot(n, PIPESIZE, UINT / PIPESIZE);
    Next(n, UINT);
  }

  lemma Counters(a: nat, b: nat)
    requires a <= b <= a + PIPESIZE
    ensures a % UINT == b % UINT <==> a == b
    ensures b % UINT == (a % UINT + PIPESIZE) % UINT <==> b == a + PIPESIZE
  {
    assert (a % UINT + PIPESIZE) % UINT == (a + PIPESIZE) % UINT;
  }

  /** The wrapped tests tell empty and full exactly. */
  lemma Tests(p: Pipe, sent: seq<byte>, got: nat)
    requires Holds(p, sent, got)
    ensures Empty(p) <==> got == |sent|
    ensures Full(p) <==> |sent| == got + PIPESIZE
  {
    Counters(got, |sent|);
  }

  lemma PutHolds(p: Pipe, sent: seq<byte>, got: nat, ch: byte)
    requires Holds(p, sent, got) && !Full(p)
    ensures Holds(Put(p, ch), sent + [ch], got)
  {
    Tests(p, sent, got);
    SlotOf(|sent|);
    forall k | got <= k < |sent| ensures k % PIPESIZE != |sent| % PIPESIZE {
      Apart(k, |sent|, PIPESIZE);
    }
  }

  lemma TakeHolds(p: Pipe, sent: seq<byte>, got: nat)
    requires Holds(p, sent, got) && !Empty(p)
    ensures got < |sent| && Front(p) == sent[got] && Holds(Take(p), sent, got + 1)
  {
    Tests(p, sent, got);
    SlotOf(got);
  }
}
