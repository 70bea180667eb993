/** parsecmd and nulterminate of sh.c: which command a line becomes, and what
    its argument strings are after the line has been cut up in place. */
module Shell {
  import opened Options
  import opened ShellLex
  import opened ShellGrammar
  import opened ShellMeaning
  import opened ShellParser

  // ---- the strings of a command are the words of its line

  // The argument and file-name strings of a command.
  function Spans(c: Cmd): multiset<Span> {
    match c
    case Exec(args) => multiset(args)
    case Redir(cmd, r) => Spans(cmd) + multiset{r.file}
    case Pipe(left, right) => Spans(left) + Spans(right)
    case List(left, right) => Spans(left) + Spans(right)
    case Back(cmd) => Spans(cmd)
  }

  // The words among some tokens.
  function Words(ts: seq<Token>): multiset<Span> {
    if ts == [] then multiset{} else WordOf(ts[0]) + Words(ts[1..])
  }

  function WordOf(t: Token): multiset<Span> {
    if t.Word? then multiset{t.span} else multiset{}
  }

  function Files(rs: seq<Redirection>): multiset<Span> {
    if rs == [] then multiset{} else multiset{rs[0].file} + Files(rs[1..])
  }

  lemma {:induction false} WordsCat(a: seq<Token>, b: seq<Token>)
    ensures Words(a + b) == Words(a) + Words(b)
  {
    if a == [] {
      assert a + b == b;
    } else {
      assert (a + b)[1..] == a[1..] + b;
      WordsCat(a[1..], b);
    }
  }

  lemma {:induction false} AmpWords(n: nat)
    ensures Words(Amps(n)) == multiset{}
  {
    if n > 0 {
      AmpWords(n - 1);
      assert Amps(n)[1..] == Amps(n - 1);
    }
  }

  lemma {:induction false} RedirWords(rs: seq<Redirection>)
    ensures Words(RedirTokens(rs)) == Files(rs)
  {
    if rs != [] {
      RedirWords(rs[1..]);
      var ts := RedirTokens(rs);
      assert ts[1..][1..] == RedirTokens(rs[1..]);
    }
  }

  lemma {:induction false} FilesLast(rs: seq<Redirection>)
    requires rs != []
    ensures Files(rs) == Files(rs[..|rs| - 1]) + multiset{rs[|rs| - 1].file}
  {
    if |rs| > 1 {
      FilesLast(rs[1..]);
      assert rs[1..][..|rs| - 2] == rs[..|rs| - 1][1..];
    }
  }

  lemma {:induction false} WrapSpans(c: Cmd, rs: seq<Redirection>)
    ensures Spans(Wrap(c, rs)) == Spans(c) + Files(rs)
  {
    if rs != [] {
      WrapSpans(c, rs[..|rs| - 1]);
      FilesLast(rs);
    }
  }

  lemma {:induction false} BackSpans(c: Cmd, n: nat)
    ensures Spans(Backs(c, n)) == Spans(c)
  {
    if n > 0 {
      BackSpans(c, n - 1);
    }
  }

  lemma {:induction false} PartWords(ps: seq<Part>)
    ensures Words(PartTokens(ps)) == multiset(Args(ps)) + Files(Redirs(ps))
  {
    if ps != [] {
      PartWords(ps[1..]);
      PartTokensCons(ps);
      WordsCat(OnePart(ps[0]), PartTokens(ps[1..]));
      OneWord(ps[0]);
      PartBags(ps);
    }
  }

  lemma PartBags(ps: seq<Part>)
    requires ps != []
    ensures multiset(Args(ps)) + Files(Redirs(ps)) ==
            multiset{StringOf(ps[0])} + (multiset(Args(ps[1..])) + Files(Redirs(ps[1..])))
  {
    if ps[0].To? {
      assert Args(ps) == Args(ps[1..]);
      assert Redirs(ps)[0] == ps[0].r && Redirs(ps)[1..] == Redirs(ps[1..]);
    } else {
      assert Redirs(ps) == Redirs(ps[1..]);
      assert Args(ps) == [ps[0].w] + Args(ps[1..]);
    }
  }

  function StringOf(p: Part): Span {
    if p.Arg? then p.w else p.r.file
  }

  lemma PartTokensCons(ps: seq<Part>)
    requires ps != []
    ensures PartTokens(ps) == OnePart(ps[0]) + PartTokens(ps[1..])
  {
  }

  lemma OneWord(p: Part)
    ensures Words(OnePart(p)) == multiset{StringOf(p)}
  {
    var t := [Word(StringOf(p))];
    assert t[1..] == [] && Words(t) == multiset{StringOf(p)};
    if p.To? {
      SymWords(p.r.kind, t);
      assert OnePart(p) == [Sym(p.r.kind)] + t;
    }
  }

  /** Every word of a line becomes exactly one string of the command. */
  lemma {:induction false} LineWords(l: Line)
    ensures Spans(LineCmd(l)) == Words(LineTokens(l))
    decreases l
  {
    PipeWords(l.p);
    BackSpans(PipeCmd(l.p), l.backs);
    AmpWords(l.backs);
    var tail := if l.next.Some? then [Sym(';')] + LineTokens(l.next.value) else [];
    WordsCat(PipeTokens(l.p), Amps(l.backs) + tail);
    WordsCat(Amps(l.backs), tail);
    if l.next.Some? {
      LineWords(l.next.value);
      SymWords(';', LineTokens(l.next.value));
    }
  }

  lemma SymWords(c: char, ts: seq<Token>)
    ensures Words([Sym(c)] + ts) == Words(ts)
  {
    assert ([Sym(c)] + ts)[1..] == ts;
  }

  lemma {:induction false} PipeWords(p: PipeLine)
    ensures Spans(PipeCmd(p)) == Words(PipeTokens(p))
    decreases p
  {
    ItemWords(p.item);
    var tail := if p.next.Some? then [Sym('|')] + PipeTokens(p.next.value) else [];
    WordsCat(ItemTokens(p.item), tail);
    if p.next.Some? {
      PipeWords(p.next.value);
      SymWords('|', PipeTokens(p.next.value));
    }
  }

  lemma {:induction false} ItemWords(it: Item)
    ensures Spans(ItemCmd(it)) == Words(ItemTokens(it))
    decreases it
  {
    match it
    case Block(line, rs) =>
      LineWords(line);
      WrapSpans(LineCmd(line), rs);
      RedirWords(rs);
      SymWords('(', LineTokens(line) + ([Sym(')')] + RedirTokens(rs)));
      WordsCat(LineTokens(line), [Sym(')')] + RedirTokens(rs));
      SymWords(')', RedirTokens(rs));
    case Simple(parts) =>
      PartWords(parts);
      WrapSpans(Exec(Args(parts)), Redirs(parts));
  }

  // ---- cutting the line

  ghost predicate Ends(ws: multiset<Span>, k: int) {
    exists w :: w in ws && w.eq == k
  }

  ghost predicate Cut(before: seq<char>, after: seq<char>, ws: multiset<Span>) {
    |after| == |before| && forall k :: 0 <= k < |before| ==> after[k] == if Ends(ws, k) then '\0' else before[k]
  }

  predicate EndsBelow(ws: multiset<Span>, n: nat) {
    forall w :: w in ws ==> w.eq < n
  }

  lemma CutTwice(a: seq<char>, b: seq<char>, c: seq<char>, us: multiset<Span>, ws: multiset<Span>)
    requires Cut(a, b, us) && Cut(b, c, ws)
    ensures Cut(a, c, us + ws)
  {
    forall k | 0 <= k < |a| ensures Ends(us + ws, k) <==> Ends(us, k) || Ends(ws, k) {
      if w :| w in us && w.eq == k {
        assert w in us + ws;
      }
      if w :| w in ws && w.eq == k {
        assert w in us + ws;
      }
    }
  }

  lemma CutOne(a: seq<char>, b: seq<char>, w: Span)
    requires w.eq < |a| && b == a[w.eq := '\0']
    ensures Cut(a, b, multiset{w})
  {
    assert w in multiset{w};
  }

  /** nulterminate writes a null byte at the end of every string of the command,
      and nowhere else. */
  method NulTerminate(c: Cmd, buf: array<char>)
    requires EndsBelow(Spans(c), buf.Length)
    modifies buf
    ensures Cut(old(buf[..]), buf[..], Spans(c))
    decreases c
  {
    hide Cut;
    ghost var a := buf[..];
    match c
    case Exec(args) =>
      CutArgs(args, buf);
    case Redir(cmd, r) =>
      assert r.file in Spans(c) && EndsBelow(Spans(cmd), buf.Length);
      NulTerminate(cmd, buf);
      ghost var b := buf[..];
      buf[r.file.eq] := '\0';
      CutOne(b, buf[..], r.file);
      CutTwice(a, b, buf[..], Spans(cmd), multiset{r.file});
    case Pipe(left, right) =>
      assert EndsBelow(Spans(left), buf.Length) && EndsBelow(Spans(right), buf.Length);
      NulTerminate(left, buf);
      ghost var b := buf[..];
      NulTerminate(right, buf);
      CutTwice(a, b, buf[..], Spans(left), Spans(right));
    case List(left, right) =>
      assert EndsBelow(Spans(left), buf.Length) && EndsBelow(Spans(right), buf.Length);
      NulTerminate(left, buf);
      ghost var b := buf[..];
      NulTerminate(right, buf);
      CutTwice(a, b, buf[..], Spans(left), Spans(right));
    case Back(cmd) =>
      NulTerminate(cmd, buf);
  }

  // A null byte at the end of each argument.
  method CutArgs(args: seq<Span>, buf: array<char>)
    requires EndsBelow(multiset(args), buf.Length)
    modifies buf
    ensures Cut(old(buf[..]), buf[..], multiset(args))
  {
    hide Cut;
    ghost var a := buf[..];
    CutNone(a);
    for i := 0 to |args|
      invariant Cut(a, buf[..], multiset(args[..i]))
    {
      ghost var b := buf[..];
      assert args[i] in multiset(args);
      buf[args[i].eq] := '\0';
      CutOne(b, buf[..], args[i]);
      CutTwice(a, b, buf[..], multiset(args[..i]), multiset{args[i]});
      assert args[..i + 1] == args[..i] + [args[i]];
    }
    assert args[..|args|] == args;
  }

  lemma CutNone(a: seq<char>)
    ensures Cut(a, a, multiset{})
  {
  }

  // ---- parsecmd

  // The parser turns ts into tree l and command c.
  predicate Accepts(ts: seq<Token>, l: Line, c: Cmd) {
    PLine(ts) == Ok(l, []) && LineCmd(l) == c
  }

  // Tree l, which stands for command c, is written ts.
  predicate Writes(l: Line, ts: seq<Token>, c: Cmd) {
    LineOK(l) && LineTokens(l) == ts && LineCmd(l) == c
  }

  /** A token sequence is accepted exactly when a syntax tree is written so, and
      the tree and the command are the ones found. */
  lemma AcceptedIff(ts: seq<Token>, l: Line, c: Cmd)
    ensures Accepts(ts, l, c) <==> Writes(l, ts, c)
  {
    assert LineTokens(l) + [] == LineTokens(l);
    if Accepts(ts, l, c) {
      LineSound(ts);
    }
    if Writes(l, ts, c) {
      LineBack(l, []);
    }
  }

  // The command of a line, if the line is one.
  ghost predicate IsCommand(line: string, c: Cmd) {
    Means(Tokens(line, 0), c)
  }

  // The C string that starts at p.
  function CString(s: seq<char>, p: nat): string
    requires p <= |s|
    decreases |s| - p
  {
    if p == |s| || s[p] == '\0' then [] else [s[p]] + CString(s, p + 1)
  }

  ghost predicate EachWordOnce(line: string, c: Cmd) {
    forall w :: Spans(c)[w] == if IsWord(line, w) then 1 else 0
  }

  // Each string of the command reads as its word of the line.
  ghost predicate ReadsBack(line: string, after: seq<char>, c: Cmd) {
    forall w :: w in Spans(c) ==> IsWord(line, w) && w.q <= |after| && CString(after, w.q) == line[w.q..w.eq]
  }

  /** parsecmd: the line in buf, up to its null byte at n, becomes a command
      exactly when the grammar has one for it. Its strings are all the words of
      the line, each once, and each reads back unharmed after the cutting. */
  method ParseCmd(buf: array<char>, n: nat) returns (ok: bool, cmd: Cmd)
    requires n < buf.Length && buf[n] == '\0' && '\0' !in buf[..n]
    modifies buf
    ensures !ok ==> buf[..] == old(buf[..]) && forall c :: !IsCommand(old(buf[..n]), c)
    ensures ok ==> IsCommand(old(buf[..n]), cmd) && EachWordOnce(old(buf[..n]), cmd)
    ensures ok ==> forall c :: IsCommand(old(buf[..n]), c) ==> c == cmd
    ensures ok ==> Cut(old(buf[..]), buf[..], Spans(cmd)) && ReadsBack(old(buf[..n]), buf[..], cmd)
  {
    hide Tokens, PLine, LineOK, LineTokens, LineCmd, ReadsBack, Cut, Words, Spans, EachWordOnce, Means, Taken;
    var s := buf[..n];
    var ps, r;
    ok, cmd, ps := ParseLine(s, 0);
    if ok {
      r, ps := Peek(s, ps, "");
      AtEnd(s, ps);
      ok := ps == n;
    }
    if !ok {
      Rejected(s);
      return;
    }
    Accepted(s, cmd);
    WordsFit(s, cmd, buf.Length);
    ghost var before := buf[..];
    NulTerminate(cmd, buf);
    AllReadBack(s, before, buf[..], cmd);
  }

  lemma WordsFit(s: string, c: Cmd, n: nat)
    requires EachWordOnce(s, c) && |s| < n
    ensures EndsBelow(Spans(c), n)
  {
  }

  lemma AtEnd(s: string, i: nat)
    requires i <= |s| && SkipSpace(s, i) == i
    ensures Tokens(s, i) == [] <==> i == |s|
  {
  }

  lemma Rejected(s: string)
    requires PLine(Tokens(s, 0)).Fail? || PLine(Tokens(s, 0)).rest != []
    ensures forall c :: !IsCommand(s, c)
  {
    hide Tokens, Means, PLine;
    forall c | Means(Tokens(s, 0), c) ensures false {
      var l := LineTree(Tokens(s, 0), c);
      AcceptedIff(Tokens(s, 0), l, c);
    }
  }

  lemma Accepted(s: string, c: Cmd)
    requires PLine(Tokens(s, 0)).Ok? && PLine(Tokens(s, 0)).rest == [] && c == LineCmd(PLine(Tokens(s, 0)).value)
    ensures IsCommand(s, c) && EachWordOnce(s, c) && forall d :: IsCommand(s, d) ==> d == c
  {
    hide Means;
    var l := PLine(Tokens(s, 0)).value;
    AcceptedIff(Tokens(s, 0), l, c);
    LineMeans(l);
    LineWords(l);
    forall d | Means(Tokens(s, 0), d) ensures d == c {
      OneMeaning(Tokens(s, 0), c, d);
    }
    forall w ensures Spans(c)[w] == if IsWord(s, w) then 1 else 0 {
      WordsOnce(s, 0, w);
    }
  }

  /** Among the tokens of a line every longest run of word characters occurs
      exactly once, and nothing else is a word. */
  lemma {:induction false} WordsOnce(s: string, i: nat, w: Span)
    requires i <= |s| && Boundary(s, i)
    ensures Words(Tokens(s, i))[w] == if IsWord(s, w) && i <= w.q then 1 else 0
    decreases |s| - i
  {
    var j := SkipSpace(s, i);
    SkipBoundary(s, i);
    assert IsWord(s, w) && i <= w.q ==> WordChar(s[w.q]);
    if j < |s| {
      var (t, next) := TokenAt(s, j);
      TokenBoundary(s, j);
      WordsOnce(s, next, w);
      if IsWord(s, w) && j <= w.q < next {
        OnlyWord(s, j, w);
      }
      assert Tokens(s, i) == [t] + Tokens(s, next) && Tokens(s, i)[1..] == Tokens(s, next);
    }
  }

  ghost function WordStart(s: string, k: nat): nat
    requires k <= |s|
  {
    if k > 0 && WordChar(s[k - 1]) then WordStart(s, k - 1) else k
  }

  lemma {:induction false} WordStartIs(s: string, w: Span, k: nat)
    requires IsWord(s, w) && w.q <= k < w.eq
    ensures WordStart(s, k) == w.q
  {
    if k > w.q {
      WordStartIs(s, w, k - 1);
    }
  }

  /** Words of a line that share a character are the same: no two overlap. */
  lemma WordsApart(s: string, u: Span, w: Span, k: nat)
    requires IsWord(s, u) && IsWord(s, w) && u.q <= k < u.eq && w.q <= k < w.eq
    ensures u == w
  {
    WordStartIs(s, u, k);
    WordStartIs(s, w, k);
    WordEndIs(s, k, u.eq);
    WordEndIs(s, k, w.eq);
  }

  // No null byte falls inside a word, because words end where words end.
  lemma AllReadBack(s: string, before: seq<char>, after: seq<char>, c: Cmd)
    requires |before| > |s| && before[..|s|] == s && before[|s|] == '\0' && '\0' !in s
    requires Cut(before, after, Spans(c)) && EachWordOnce(s, c)
    ensures ReadsBack(s, after, c)
  {
    hide Spans;
    forall w | w in Spans(c) ensures CString(after, w.q) == s[w.q..w.eq] {
      forall k | w.q <= k < w.eq ensures after[k] == s[k] {
        NoEndInside(s, Spans(c), w, k);
        assert before[k] == before[..|s|][k];
      }
      assert Ends(Spans(c), w.eq);
      ReadBack(s, after, w.q, w.eq);
    }
  }

  lemma NoEndInside(s: string, ws: multiset<Span>, w: Span, k: nat)
    requires (forall u :: u in ws ==> IsWord(s, u)) && IsWord(s, w) && w.q <= k < w.eq
    ensures !Ends(ws, k)
  {
    forall u | u in ws ensures u.eq != k {
      assert IsWord(s, u) && WordChar(s[k]);
    }
  }

  lemma {:induction false} ReadBack(s: string, after: seq<char>, p: nat, e: nat)
    requires p <= e <= |s| && e < |after| && after[e] == '\0' && '\0' !in s
             && forall k :: p <= k < e ==> after[k] == s[k]
    ensures CString(after, p) == s[p..e]
    decreases e - p
  {
    if p < e {
      ReadBack(s, after, p + 1, e);
      assert s[p] in s && s[p..e] == [s[p]] + s[p + 1..e];
    }
  }
}
