/** The buffering loop of grep.c: lines are matched as they become complete in
    a buffer of 1024 bytes, whatever amounts read() delivers. */
module Grep {
  import opened Regexp

  const BUFSIZE: nat := 1024

  // ---- what grep should print

  // The position of the first newline at or after i, or the length of s.
  function LineEnd(s: string, i: nat): (e: nat)
    requires i <= |s|
    ensures i <= e <= |s| && (e < |s| ==> s[e] == '\n') && forall k :: i <= k < e ==> s[k] != '\n'
    decreases |s| - i
  {
    if i == |s| || s[i] == '\n' then i else LineEnd(s, i + 1)
  }

  // The matching lines of s, each with its newline, in order. Text after the
  // last newline is not a line.
  ghost function Printed(re: string, s: string): string {
    var e := LineEnd(s, 0);
    if e == |s| then ""
    else (if Matches(re, s[..e]) then s[..e + 1] else "") + Printed(re, s[e + 1..])
  }

  predicate NoNewline(s: string) {
    forall k :: 0 <= k < |s| ==> s[k] != '\n'
  }

  // Where grep stops reading: at the first line from i on whose characters
  // alone fill the buffer, or at the end of s.
  function StopsAt(s: string, i: nat): (k: nat)
    requires i <= |s|
    ensures i <= k <= |s|
    decreases |s| - i
  {
    var e := LineEnd(s, i);
    if e - i >= BUFSIZE - 1 then i else if e == |s| then |s| else StopsAt(s, e + 1)
  }

  // ---- lines and concatenation

  lemma PrintedNone(re: string, s: string)
    requires NoNewline(s)
    ensures Printed(re, s) == ""
  {
  }

  // One complete line first.
  lemma PrintedLine(re: string, line: string, rest: string)
    requires NoNewline(line)
    ensures Printed(re, line + "\n" + rest) == (if Matches(re, line) then line + "\n" else "") + Printed(re, rest)
  {
    var s := line + "\n" + rest;
    assert s[|line|] == '\n' && s[..|line|] == line && s[..|line| + 1] == line + "\n" && s[|line| + 1..] == rest;
    assert LineEnd(s, 0) == |line|;
  }

  // done ends in a newline, or is empty.
  predicate Whole(done: string) {
    done == "" || done[|done| - 1] == '\n'
  }

  lemma FirstLine(s: string) returns (line: string, rest: string)
    requires Whole(s) && s != ""
    ensures s == line + "\n" + rest && NoNewline(line) && Whole(rest)
  {
    var e := LineEnd(s, 0);
    line, rest := s[..e], s[e + 1..];
    assert rest != "" ==> rest[|rest| - 1] == s[|s| - 1];
  }

  lemma {:induction false} PrintedAppend(re: string, done: string, rest: string)
    requires Whole(done)
    ensures Printed(re, done + rest) == Printed(re, done) + Printed(re, rest)
    decreases |done|
  {
    if done == "" {
      PrintedNone(re, "");
      assert done + rest == rest;
    } else {
      hide Printed, Matches;
      var line, more := FirstLine(done);
      PrintedLine(re, line, more);
      PrintedLine(re, line, more + rest);
      Assoc(line + "\n", more, rest);
      PrintedAppend(re, more, rest);
      Assoc(if Matches(re, line) then line + "\n" else "", Printed(re, more), Printed(re, rest));
    }
  }

  lemma Assoc(a: string, b: string, c: string)
    ensures a + (b + c) == (a + b) + c
  {
  }

  // ---- the buffer

  // strchr(buf + p, '\n') on the string that ends at the null byte buf[m].
  method FindNewline(buf: array<char>, p: nat, m: nat) returns (found: bool, q: nat)
    requires p <= m < buf.Length && buf[m] == '\0' && forall k :: p <= k < m ==> buf[k] != '\0'
    ensures found ==> p <= q < m && buf[q] == '\n' && NoNewline(buf[p..q])
    ensures !found ==> NoNewline(buf[p..m])
  {
    q := p;
    while buf[q] != '\0'
      invariant p <= q <= m && NoNewline(buf[p..q])
      decreases m - q
    {
      if buf[q] == '\n' {
        return true, q;
      }
      q := q + 1;
    }
    found := false;
  }

  // The line from p to its newline at q is cut off there for the match; if it
  // is to be printed, it gets its newline back first.
  method PrintIf(re: string, buf: array<char>, p: nat, q: nat) returns (s: string)
    requires p <= q < buf.Length && buf[q] == '\n'
    modifies buf
    ensures s == if Matches(re, old(buf[p..q])) then old(buf[p..q]) + "\n" else ""
    ensures forall k :: q < k < buf.Length ==> buf[k] == old(buf[k])
  {
    hide Matches;
    buf[q] := '\0';
    assert buf[p..q] == old(buf[p..q]);
    var r := Match(re, buf[p..q]);
    s := "";
    if r {
      buf[q] := '\n';
      assert buf[p..q + 1] == old(buf[p..q]) + "\n";
      s := buf[p..q + 1];
    }
  }

  // The inner loop: print the matching lines among buf[..m], and stop at the
  // start p of the incomplete line.
  method ScanLines(re: string, buf: array<char>, m: nat, ghost text: string) returns (p: nat, out: string)
    requires m < buf.Length && buf[m] == '\0' && buf[..m] == text && '\0' !in text
    modifies buf
    ensures p <= m && buf[p..m] == text[p..] && NoNewline(text[p..])
    ensures Whole(text[..p]) && out == Printed(re, text[..p])
  {
    hide Printed, Matches, Whole;
    p, out := 0, "";
    PrintedStart(re, text);
    while true
      invariant p <= m && buf[m] == '\0' && forall k :: p <= k < m ==> buf[k] == text[k]
      invariant Whole(text[..p]) && out == Printed(re, text[..p])
      decreases m - p
    {
      assert buf[p..m] == text[p..];
      var found, q := FindNewline(buf, p, m);
      if !found {
        break;
      }
      assert buf[p..q] == text[p..q];
      PrintedNext(re, text, p, q);
      var s := PrintIf(re, buf, p, q);
      out := out + s;
      p := q + 1;
    }
    assert buf[p..m] == text[p..];
  }

  lemma PrintedStart(re: string, text: string)
    ensures Whole(text[..0]) && Printed(re, text[..0]) == ""
  {
    PrintedNone(re, text[..0]);
  }

  lemma PrintedNext(re: string, text: string, p: nat, q: nat)
    requires p <= q < |text| && Whole(text[..p]) && NoNewline(text[p..q]) && text[q] == '\n'
    ensures Whole(text[..q + 1])
    ensures Printed(re, text[..q + 1])
            == Printed(re, text[..p]) + if Matches(re, text[p..q]) then text[p..q] + "\n" else ""
  {
    var line := text[p..q];
    assert text[..q + 1] == text[..p] + (line + "\n" + "");
    PrintedAppend(re, text[..p], line + "\n" + "");
    PrintedLine(re, line, "");
    PrintedNone(re, "");
  }

  // read(fd, buf + m, ...) delivers s.
  method Fill(buf: array<char>, m: nat, s: string)
    requires m + |s| <= buf.Length
    modifies buf
    ensures buf[..m + |s|] == old(buf[..m]) + s
  {
    for k := 0 to |s|
      invariant buf[..m + k] == old(buf[..m]) + s[..k]
    {
      buf[m + k] := s[k];
    }
  }

  // memmove(buf, buf + p, n)
  method Move(buf: array<char>, p: nat, n: nat)
    requires p + n <= buf.Length
    modifies buf
    ensures buf[..n] == old(buf[p..p + n])
  {
    ghost var s := buf[p..p + n];
    for k := 0 to n
      invariant buf[..k] == s[..k] && buf[p + k..p + n] == s[k..]
    {
      assert buf[p + k] == s[k..][0];
      buf[k] := buf[p + k];
    }
  }

  // One turn of the outer loop: read delivers s, complete lines are printed, and
  // the incomplete one moves to the front.
  method Round(re: string, buf: array<char>, m: nat, s: string) returns (m': nat, lines: string, ghost p: nat)
    requires m + |s| < buf.Length && '\0' !in buf[..m] + s
    modifies buf
    ensures p + m' == m + |s| && Whole((old(buf[..m]) + s)[..p]) && lines == Printed(re, (old(buf[..m]) + s)[..p])
    ensures buf[..m'] == (old(buf[..m]) + s)[p..] && NoNewline(buf[..m'])
  {
    hide Printed, Whole;
    ghost var text := buf[..m] + s;
    Fill(buf, m, s);
    var end := m + |s|;
    buf[end] := '\0';
    assert buf[..end] == text;
    var at;
    at, lines := ScanLines(re, buf, end, text);
    Move(buf, at, end - at);
    m' := end - at;
    p := at;
  }

  /** grep prints exactly the matching lines of its input, in order, for every
      way in which read() may deliver the input in pieces. It goes no further
      than the first line of BUFSIZE - 1 or more characters, and does not tell. */
  method Grep(re: string, input: string, buf: array<char>) returns (out: string)
    requires buf.Length == BUFSIZE && '\0' !in input
    modifies buf
    ensures out == Printed(re, input[..StopsAt(input, 0)])
  {
    hide Printed, Matches, Whole, StopsAt;
    var m, pos := 0, 0;
    out := "";
    ghost var done := "";
    PrintedStart(re, "");
    while true
      invariant 0 <= pos <= |input| && 0 <= m < BUFSIZE && input[..pos] == done + buf[..m]
      invariant Whole(done) && NoNewline(buf[..m]) && out == Printed(re, done)
      invariant |done| <= |input| && StopsAt(input, |done|) == StopsAt(input, 0)
      decreases |input| - pos
    {
      var limit := if BUFSIZE - m - 1 < |input| - pos then BUFSIZE - m - 1 else |input| - pos;
      if limit == 0 {
        break;
      }
      var n :| 1 <= n <= limit;
      ghost var text := buf[..m] + input[pos..pos + n];
      Delivered(input, pos, n, done, buf[..m]);
      var lines;
      ghost var p;
      m, lines, p := Round(re, buf, m, input[pos..pos + n]);
      pos := pos + n;
      Consumed(re, done, text, p);
      Passed(input, pos, done, text, p);
      out := out + lines;
      done := done + text[..p];
    }
    Rest(re, input, pos, done, buf[..m]);
  }

  // Lines that were in the buffer together are short.
  lemma {:induction false} ShortLines(s: string, i: nat, j: nat)
    requires i <= j <= |s| && j - i <= BUFSIZE - 1 && (i == j || s[j - 1] == '\n')
    ensures StopsAt(s, i) == StopsAt(s, j)
    decreases j - i
  {
    if i < j {
      var e := LineEnd(s, i);
      ShortLines(s, e + 1, j);
    }
  }

  lemma Passed(input: string, pos: nat, done: string, text: string, p: nat)
    requires pos <= |input| && input[..pos] == done + text && p <= |text| < BUFSIZE && Whole(text[..p])
    ensures |done + text[..p]| <= |input| && StopsAt(input, |done + text[..p]|) == StopsAt(input, |done|)
  {
    var d := |done|;
    assert p > 0 ==> text[..p][p - 1] == input[..pos][d + p - 1];
    ShortLines(input, d, d + p);
  }

  lemma Consumed(re: string, done: string, text: string, p: nat)
    requires p <= |text| && Whole(done) && Whole(text[..p])
    ensures Whole(done + text[..p]) && Printed(re, done + text[..p]) == Printed(re, done) + Printed(re, text[..p])
    ensures done + text == (done + text[..p]) + text[p..]
  {
    hide Printed;
    PrintedAppend(re, done, text[..p]);
    assert text == text[..p] + text[p..];
    Assoc(done, text[..p], text[p..]);
  }

  lemma Delivered(input: string, pos: nat, n: nat, done: string, kept: string)
    requires pos + n <= |input| && input[..pos] == done + kept && '\0' !in input
    ensures input[..pos + n] == done + (kept + input[pos..pos + n]) && '\0' !in kept + input[pos..pos + n]
  {
    assert input[..pos + n] == input[..pos] + input[pos..pos + n];
    forall c | c in kept ensures c in input {
      assert c in input[..pos];
    }
  }

  // When nothing more can be read, what is left holds no complete line, or
  // starts one that is too long.
  lemma Rest(re: string, input: string, pos: nat, done: string, kept: string)
    requires pos <= |input| && input[..pos] == done + kept && Whole(done) && NoNewline(kept) && |kept| <= BUFSIZE - 1
    requires pos == |input| || |kept| == BUFSIZE - 1
    ensures Printed(re, input[..StopsAt(input, |done|)]) == Printed(re, done)
  {
    var d := |done|;
    assert input[..pos][..d] == done == input[..d];
    forall k | d <= k < d + |kept| ensures input[k] != '\n' {
      assert input[..pos][k] == kept[k - d];
    }
    hide Printed;
    if StopsAt(input, d) != d {
      assert input == done + kept by { assert input[..|input|] == input; }
      PrintedNone(re, kept);
      PrintedAppend(re, done, kept);
      assert input[..|input|] == input;
    }
  }
}
