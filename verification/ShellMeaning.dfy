/** Which command some tokens mean, read off the tokens alone: no parser and no
    syntax tree. The grammar's trees and commands are proved to agree with it. */
module ShellMeaning {
  import opened Options
  import opened ShellLex
  import opened ShellGrammar

  // a ; b does a, then b. Of a ; b ; c the first ; is the outermost.
  ghost predicate Means(ts: seq<Token>, c: Cmd)
    decreases |ts|, 4
  {
    || MeansBack(ts, c)
    || (c.List? && exists k ::
          0 <= k < |ts| && ts[k] == Sym(';') && MeansBack(ts[..k], c.left) && Means(ts[k + 1..], c.right))
  }

  // a & does a in the background.
  ghost predicate MeansBack(ts: seq<Token>, c: Cmd)
    decreases |ts|, 3
  {
    || MeansPipe(ts, c)
    || (c.Back? && ts != [] && ts[|ts| - 1] == Sym('&') && MeansBack(ts[..|ts| - 1], c.cmd))
  }

  // a | b feeds the output of a to b. Of a | b | c the first | is the outermost.
  ghost predicate MeansPipe(ts: seq<Token>, c: Cmd)
    decreases |ts|, 2
  {
    || MeansItem(ts, c)
    || (c.Pipe? && exists k ::
          0 <= k < |ts| && ts[k] == Sym('|') && MeansItem(ts[..k], c.left) && MeansPipe(ts[k + 1..], c.right))
  }

  ghost predicate MeansItem(ts: seq<Token>, c: Cmd)
    decreases |ts|, 1
  {
    MeansGroup(ts, c) || MeansSimple(ts, [], c)
  }

  // A redirection, written at the end.
  predicate EndsWith(ts: seq<Token>, r: Redirection) {
    |ts| >= 2 && IsRedir(r.kind) && ts[|ts| - 2] == Sym(r.kind) && ts[|ts| - 1] == Word(r.file)
  }

  // ( a ) with redirections after it; the last one is the outermost.
  ghost predicate MeansGroup(ts: seq<Token>, c: Cmd)
    decreases |ts|, 0
  {
    || (|ts| >= 2 && ts[0] == Sym('(') && ts[|ts| - 1] == Sym(')') && Means(ts[1..|ts| - 1], c))
    || (c.Redir? && EndsWith(ts, c.r) && MeansGroup(ts[..|ts| - 2], c.cmd))
  }

  predicate AllWords(ts: seq<Token>) {
    forall i :: 0 <= i < |ts| ==> ts[i].Word?
  }

  function SpansOf(ts: seq<Token>): seq<Span>
    requires AllWords(ts)
  {
    seq(|ts|, i requires 0 <= i < |ts| => ts[i].span)
  }

  // Words with redirections among them, followed by the words more. The last
  // redirection is the outermost, and the words are the arguments in order.
  ghost predicate MeansSimple(ts: seq<Token>, more: seq<Span>, c: Cmd)
    decreases |ts|
  {
    || (c.Exec? && AllWords(ts) && c.args == SpansOf(ts) + more && |c.args| < MAXARGS)
    || (c.Redir? && exists k ::
          && 0 <= k <= |ts| && AllWords(ts[k..]) && EndsWith(ts[..k], c.r)
          && MeansSimple(ts[..k - 2], SpansOf(ts[k..]) + more, c.cmd))
  }

  // ---- what the grammar's trees stand for is what their tokens mean

  lemma {:induction false} PartTokensSnoc(ps: seq<Part>, p: Part)
    ensures PartTokens(ps + [p]) == PartTokens(ps) + OnePart(p)
  {
    if ps == [] {
      assert ps + [p] == [p];
    } else {
      assert (ps + [p])[1..] == ps[1..] + [p];
      PartTokensSnoc(ps[1..], p);
      Cat(OnePart(ps[0]), PartTokens(ps[1..]), OnePart(p));
    }
  }

  lemma {:induction false} ArgsSnoc(ps: seq<Part>, p: Part)
    ensures Args(ps + [p]) == Args(ps) + if p.Arg? then [p.w] else []
    ensures Redirs(ps + [p]) == Redirs(ps) + if p.To? then [p.r] else []
  {
    if ps == [] {
      assert ps + [p] == [p];
    } else {
      assert (ps + [p])[1..] == ps[1..] + [p];
      ArgsSnoc(ps[1..], p);
    }
  }

  // A word at the end of the tokens may as well be the first one after them.
  lemma LastWord(ts: seq<Token>, w: Span, more: seq<Span>, c: Cmd)
    requires MeansSimple(ts, [w] + more, c)
    ensures MeansSimple(ts + [Word(w)], more, c)
  {
    var us := ts + [Word(w)];
    if c.Exec? {
      assert SpansOf(us) + more == SpansOf(ts) + ([w] + more);
    } else {
      var k :| && 0 <= k <= |ts| && AllWords(ts[k..]) && EndsWith(ts[..k], c.r)
               && MeansSimple(ts[..k - 2], SpansOf(ts[k..]) + ([w] + more), c.cmd);
      assert us[k..] == ts[k..] + [Word(w)] && us[..k] == ts[..k] && us[..k - 2] == ts[..k - 2];
      assert SpansOf(us[k..]) + more == SpansOf(ts[k..]) + ([w] + more);
    }
  }

  lemma {:induction false} SimpleMeans(ps: seq<Part>, more: seq<Span>)
    requires KindsOK(ps) && |Args(ps) + more| < MAXARGS
    ensures MeansSimple(PartTokens(ps), more, Wrap(Exec(Args(ps) + more), Redirs(ps)))
    decreases |ps|
  {
    if ps == [] {
      assert SpansOf([]) + more == Args(ps) + more;
    } else {
      var n := |ps| - 1;
      var us, p := ps[..n], ps[n];
      assert ps == us + [p];
      PartTokensSnoc(us, p);
      ArgsSnoc(us, p);
      if p.Arg? {
        assert Args(us) + ([p.w] + more) == Args(ps) + more;
        SimpleMeans(us, [p.w] + more);
        assert Redirs(ps) == Redirs(us);
        LastWord(PartTokens(us), p.w, more, Wrap(Exec(Args(ps) + more), Redirs(us)));
      } else {
        assert Args(ps) == Args(us);
        SimpleMeans(us, more);
        LastRedir(PartTokens(us), p.r, more, Wrap(Exec(Args(us) + more), Redirs(us)));
        assert Redirs(ps)[..|Redirs(us)|] == Redirs(us);
      }
    }
  }

  lemma LastRedir(ts: seq<Token>, r: Redirection, more: seq<Span>, c: Cmd)
    requires IsRedir(r.kind) && MeansSimple(ts, more, c)
    ensures MeansSimple(ts + [Sym(r.kind), Word(r.file)], more, Redir(c, r))
  {
    var us := ts + [Sym(r.kind), Word(r.file)];
    var k := |us|;
    assert us[k..] == [] && SpansOf(us[k..]) + more == more && us[..k] == us && us[..k - 2] == ts;
    assert AllWords(us[k..]) && EndsWith(us[..k], r);
  }

  lemma {:induction false} GroupMeans(ts: seq<Token>, c: Cmd, rs: seq<Redirection>)
    requires MeansGroup(ts, c) && RedirsOK(rs)
    ensures MeansGroup(ts + RedirTokens(rs), Wrap(c, rs))
    decreases |rs|
  {
    if rs == [] {
      assert ts + RedirTokens(rs) == ts;
    } else {
      var n := |rs| - 1;
      GroupMeans(ts, c, rs[..n]);
      RedirsSnoc(rs[..n], rs[n]);
      assert rs == rs[..n] + [rs[n]];
      var us := ts + RedirTokens(rs);
      assert us == (ts + RedirTokens(rs[..n])) + [Sym(rs[n].kind), Word(rs[n].file)];
      assert us[..|us| - 2] == ts + RedirTokens(rs[..n]);
    }
  }

  lemma {:induction false} RedirsSnoc(rs: seq<Redirection>, r: Redirection)
    ensures RedirTokens(rs + [r]) == RedirTokens(rs) + [Sym(r.kind), Word(r.file)]
  {
    if rs == [] {
      assert rs + [r] == [r];
    } else {
      assert (rs + [r])[1..] == rs[1..] + [r];
      RedirsSnoc(rs[1..], r);
    }
  }

  lemma {:induction false} AmpsMean(ts: seq<Token>, c: Cmd, n: nat)
    requires MeansPipe(ts, c)
    ensures MeansBack(ts + Amps(n), Backs(c, n))
    decreases n
  {
    if n == 0 {
      assert ts + Amps(n) == ts;
    } else {
      AmpsMean(ts, c, n - 1);
      AmpsSnoc(n - 1);
      var us := ts + Amps(n);
      assert us == (ts + Amps(n - 1)) + [Sym('&')];
      assert us[..|us| - 1] == ts + Amps(n - 1);
    }
  }

  lemma {:induction false} AmpsSnoc(n: nat)
    ensures Amps(n + 1) == Amps(n) + [Sym('&')]
  {
    if n > 0 {
      AmpsSnoc(n - 1);
    }
  }

  lemma Around(left: seq<Token>, t: Token, right: seq<Token>)
    ensures var ts := left + ([t] + right);
      |left| < |ts| && ts[|left|] == t && ts[..|left|] == left && ts[|left| + 1..] == right
  {
  }

  /** A syntax tree stands for the command that its tokens mean. */
  lemma {:induction false} LineMeans(l: Line)
    requires LineOK(l)
    ensures Means(LineTokens(l), LineCmd(l))
    decreases l
  {
    PipeMeans(l.p);
    AmpsMean(PipeTokens(l.p), PipeCmd(l.p), l.backs);
    var left := PipeTokens(l.p) + Amps(l.backs);
    if l.next.Some? {
      LineMeans(l.next.value);
      hide PipeTokens, Amps, Backs, PipeCmd, MeansBack, LineOK;
      Around(left, Sym(';'), LineTokens(l.next.value));
      Cat(PipeTokens(l.p), Amps(l.backs), [Sym(';')] + LineTokens(l.next.value));
    } else {
      assert LineTokens(l) == left;
    }
  }

  lemma {:induction false} PipeMeans(p: PipeLine)
    requires PipeOK(p)
    ensures MeansPipe(PipeTokens(p), PipeCmd(p))
    decreases p
  {
    ItemMeans(p.item);
    if p.next.Some? {
      PipeMeans(p.next.value);
      hide ItemTokens, ItemCmd, MeansItem, PipeOK;
      Around(ItemTokens(p.item), Sym('|'), PipeTokens(p.next.value));
    } else {
      assert PipeTokens(p) == ItemTokens(p.item);
    }
  }

  lemma {:induction false} ItemMeans(it: Item)
    requires ItemOK(it)
    ensures MeansItem(ItemTokens(it), ItemCmd(it))
    decreases it
  {
    match it
    case Block(line, rs) =>
      LineMeans(line);
      var us := [Sym('(')] + LineTokens(line) + [Sym(')')];
      assert us[1..|us| - 1] == LineTokens(line);
      GroupMeans(us, LineCmd(line), rs);
      assert ItemTokens(it) == us + RedirTokens(rs);
    case Simple(parts) =>
      assert Args(parts) + [] == Args(parts);
      SimpleMeans(parts, []);
  }

  // ---- and every meaning comes from a tree

  function Words(ws: seq<Span>): seq<Part> {
    seq(|ws|, i requires 0 <= i < |ws| => Arg(ws[i]))
  }

  function WordTokens(ws: seq<Span>): seq<Token> {
    seq(|ws|, i requires 0 <= i < |ws| => Word(ws[i]))
  }

  lemma {:induction false} AppendWords(ps: seq<Part>, ws: seq<Span>)
    ensures var us := ps + Words(ws);
      && PartTokens(us) == PartTokens(ps) + WordTokens(ws)
      && Args(us) == Args(ps) + ws && Redirs(us) == Redirs(ps) && (KindsOK(us) <==> KindsOK(ps))
    decreases |ws|
  {
    if ws == [] {
      assert ps + Words(ws) == ps;
    } else {
      var n := |ws| - 1;
      AppendWords(ps, ws[..n]);
      var us, p := ps + Words(ws[..n]), Arg(ws[n]);
      assert ps + Words(ws) == us + [p];
      PartTokensSnoc(us, p);
      ArgsSnoc(us, p);
      KindsSnoc(us, p);
    }
  }

  lemma KindsSnoc(ps: seq<Part>, p: Part)
    ensures KindsOK(ps + [p]) <==> KindsOK(ps) && (p.To? ==> IsRedir(p.r.kind))
  {
    assert forall i :: 0 <= i < |ps| ==> (ps + [p])[i] == ps[i];
    assert (ps + [p])[|ps|] == p;
  }

  lemma WordsTree(ts: seq<Token>)
    requires AllWords(ts)
    ensures var ps := Words(SpansOf(ts)); PartTokens(ps) == ts && Args(ps) == SpansOf(ts) && Redirs(ps) == []
                                          && KindsOK(ps)
  {
    var ws := SpansOf(ts);
    AppendWords([], ws);
    assert [] + Words(ws) == Words(ws) && [] + ws == ws && [] + WordTokens(ws) == ts;
  }

  // us, then a redirection, then words.
  lemma RedirTree(us: seq<Part>, r: Redirection, ts: seq<Token>)
    requires KindsOK(us) && IsRedir(r.kind) && AllWords(ts)
    ensures var ps := (us + [To(r)]) + Words(SpansOf(ts));
      && PartTokens(ps) == PartTokens(us) + [Sym(r.kind), Word(r.file)] + ts
      && Args(ps) == Args(us) + SpansOf(ts) && Redirs(ps) == Redirs(us) + [r] && KindsOK(ps)
  {
    PartTokensSnoc(us, To(r));
    ArgsSnoc(us, To(r));
    KindsSnoc(us, To(r));
    AppendWords(us + [To(r)], SpansOf(ts));
    assert WordTokens(SpansOf(ts)) == ts;
  }

  lemma WrapSnoc(c: Cmd, rs: seq<Redirection>, r: Redirection)
    ensures Wrap(c, rs + [r]) == Redir(Wrap(c, rs), r)
  {
    assert (rs + [r])[..|rs|] == rs;
  }

  lemma {:induction false} SimpleTree(ts: seq<Token>, more: seq<Span>, c: Cmd) returns (ps: seq<Part>)
    requires MeansSimple(ts, more, c)
    ensures PartTokens(ps) == ts && KindsOK(ps) && |Args(ps) + more| < MAXARGS
    ensures Wrap(Exec(Args(ps) + more), Redirs(ps)) == c
    decreases |ts|
  {
    hide PartTokens, KindsOK, Args, Redirs, Words, SpansOf;
    if c.Exec? {
      ps := Words(SpansOf(ts));
      WordsTree(ts);
    } else {
      var k :| && 0 <= k <= |ts| && AllWords(ts[k..]) && EndsWith(ts[..k], c.r)
               && MeansSimple(ts[..k - 2], SpansOf(ts[k..]) + more, c.cmd);
      var ws := SpansOf(ts[k..]);
      var us := SimpleTree(ts[..k - 2], ws + more, c.cmd);
      ps := (us + [To(c.r)]) + Words(ws);
      RedirTree(us, c.r, ts[k..]);
      assert Args(us) + (ws + more) == Args(ps) + more;
      SplitAt(ts, k, c.r);
      WrapSnoc(Exec(Args(ps) + more), Redirs(us), c.r);
    }
  }

  lemma SplitAt(ts: seq<Token>, k: nat, r: Redirection)
    requires k <= |ts| && EndsWith(ts[..k], r)
    ensures 2 <= k && IsRedir(r.kind) && ts == ts[..k - 2] + [Sym(r.kind), Word(r.file)] + ts[k..]
  {
  }

  lemma WrapNone(c: Cmd)
    ensures Wrap(c, []) == c
  {
  }

  lemma BlockSnoc(line: Line, rs: seq<Redirection>, r: Redirection)
    ensures ItemTokens(Block(line, rs + [r])) == ItemTokens(Block(line, rs)) + [Sym(r.kind), Word(r.file)]
  {
    RedirsSnoc(rs, r);
    hide LineTokens, RedirTokens;
    var l, us, last := LineTokens(line), RedirTokens(rs), [Sym(r.kind), Word(r.file)];
    assert [Sym('(')] + (l + ([Sym(')')] + (us + last))) == [Sym('(')] + (l + ([Sym(')')] + us)) + last;
  }

  lemma {:induction false} GroupTree(ts: seq<Token>, c: Cmd) returns (line: Line, rs: seq<Redirection>)
    requires MeansGroup(ts, c)
    ensures LineOK(line) && RedirsOK(rs) && ItemTokens(Block(line, rs)) == ts && Wrap(LineCmd(line), rs) == c
    decreases |ts|, 0
  {
    hide LineTokens, LineCmd, LineOK, Wrap;
    var n := |ts|;
    if n >= 2 && ts[0] == Sym('(') && ts[n - 1] == Sym(')') && Means(ts[1..n - 1], c) {
      line := LineTree(ts[1..n - 1], c);
      rs := [];
      assert ts == [Sym('(')] + (ts[1..n - 1] + ([Sym(')')] + []));
      WrapNone(LineCmd(line));
    } else {
      var us;
      line, us := GroupTree(ts[..n - 2], c.cmd);
      rs := us + [c.r];
      BlockSnoc(line, us, c.r);
      WrapSnoc(LineCmd(line), us, c.r);
      assert ts == ts[..n - 2] + [Sym(c.r.kind), Word(c.r.file)];
    }
  }

  lemma {:induction false} ItemTree(ts: seq<Token>, c: Cmd) returns (it: Item)
    requires MeansItem(ts, c)
    ensures ItemOK(it) && ItemTokens(it) == ts && ItemCmd(it) == c
    decreases |ts|, 1
  {
    if MeansGroup(ts, c) {
      var line, rs := GroupTree(ts, c);
      it := Block(line, rs);
    } else {
      var ps := SimpleTree(ts, [], c);
      assert Args(ps) + [] == Args(ps);
      it := Simple(ps);
    }
  }

  lemma {:induction false} PipeTree(ts: seq<Token>, c: Cmd) returns (p: PipeLine)
    requires MeansPipe(ts, c)
    ensures PipeOK(p) && PipeTokens(p) == ts && PipeCmd(p) == c
    decreases |ts|, 2
  {
    hide MeansItem, ItemTokens, ItemCmd, ItemOK;
    if MeansItem(ts, c) {
      var it := ItemTree(ts, c);
      p := PipeLine(it, None);
      assert ts + [] == ts;
    } else {
      var k :| 0 <= k < |ts| && ts[k] == Sym('|') && MeansItem(ts[..k], c.left) && MeansPipe(ts[k + 1..], c.right);
      var it := ItemTree(ts[..k], c.left);
      var next := PipeTree(ts[k + 1..], c.right);
      p := PipeLine(it, Some(next));
      assert ts == ts[..k] + ([Sym('|')] + ts[k + 1..]);
    }
  }

  lemma {:induction false} BackTree(ts: seq<Token>, c: Cmd) returns (p: PipeLine, n: nat)
    requires MeansBack(ts, c)
    ensures PipeOK(p) && PipeTokens(p) + Amps(n) == ts && Backs(PipeCmd(p), n) == c
    decreases |ts|, 3
  {
    if MeansPipe(ts, c) {
      p := PipeTree(ts, c);
      n := 0;
    } else {
      var m;
      p, m := BackTree(ts[..|ts| - 1], c.cmd);
      n := m + 1;
      AmpsSnoc(m);
      assert ts == (PipeTokens(p) + Amps(m)) + [Sym('&')];
    }
  }

  lemma ListTokens(ts: seq<Token>, k: nat, p: PipeLine, n: nat, next: Line)
    requires k < |ts| && ts[k] == Sym(';') && PipeTokens(p) + Amps(n) == ts[..k] && LineTokens(next) == ts[k + 1..]
    ensures LineTokens(Line(p, n, Some(next))) == ts
  {
    hide PipeTokens, Amps;
    assert ts == ts[..k] + ([Sym(';')] + ts[k + 1..]);
    Cat(PipeTokens(p), Amps(n), [Sym(';')] + LineTokens(next));
  }

  lemma {:induction false} LineTree(ts: seq<Token>, c: Cmd) returns (l: Line)
    requires Means(ts, c)
    ensures LineOK(l) && LineTokens(l) == ts && LineCmd(l) == c
    decreases |ts|, 4
  {
    hide MeansBack, PipeTokens, PipeCmd, PipeOK, Amps, Backs;
    if MeansBack(ts, c) {
      var p, n := BackTree(ts, c);
      l := Line(p, n, None);
      assert PipeTokens(p) + (Amps(n) + []) == ts;
    } else {
      var k :| 0 <= k < |ts| && ts[k] == Sym(';') && MeansBack(ts[..k], c.left) && Means(ts[k + 1..], c.right);
      var p, n := BackTree(ts[..k], c.left);
      var next := LineTree(ts[k + 1..], c.right);
      l := Line(p, n, Some(next));
      ListTokens(ts, k, p, n, next);
    }
  }

  /** Some tree is written ts and stands for c exactly when ts means c. */
  lemma MeansIff(ts: seq<Token>, c: Cmd)
    ensures Means(ts, c) <==> exists l :: LineOK(l) && LineTokens(l) == ts && LineCmd(l) == c
  {
    if Means(ts, c) {
      var l := LineTree(ts, c);
    }
    if l :| LineOK(l) && LineTokens(l) == ts && LineCmd(l) == c {
      LineMeans(l);
    }
  }

  /** The tokens of a line have at most one meaning. */
  lemma OneMeaning(ts: seq<Token>, c: Cmd, d: Cmd)
    requires Means(ts, c) && Means(ts, d)
    ensures c == d
  {
    var l := LineTree(ts, c);
    var m := LineTree(ts, d);
    assert ts + [] == ts;
    LineBack(l, []);
    LineBack(m, []);
  }

  // ---- the parser over tokens finds the meaning of what it consumes

  // The tokens before rest.
  function Taken(ts: seq<Token>, rest: seq<Token>): seq<Token> {
    if |rest| <= |ts| then ts[..|ts| - |rest|] else []
  }

  lemma TakenIs(a: seq<Token>, rest: seq<Token>)
    ensures Taken(a + rest, rest) == a
  {
  }

  lemma ParsedLine(ts: seq<Token>)
    requires PLine(ts).Ok?
    ensures Means(Taken(ts, PLine(ts).rest), LineCmd(PLine(ts).value))
  {
    LineSound(ts);
    LineMeans(PLine(ts).value);
    TakenIs(LineTokens(PLine(ts).value), PLine(ts).rest);
  }

  lemma ParsedPipe(ts: seq<Token>)
    requires PPipe(ts).Ok?
    ensures MeansPipe(Taken(ts, PPipe(ts).rest), PipeCmd(PPipe(ts).value))
  {
    PipeSound(ts);
    PipeMeans(PPipe(ts).value);
    TakenIs(PipeTokens(PPipe(ts).value), PPipe(ts).rest);
  }

  lemma ParsedItem(ts: seq<Token>)
    requires PItem(ts).Ok?
    ensures MeansItem(Taken(ts, PItem(ts).rest), ItemCmd(PItem(ts).value))
  {
    ItemSound(ts);
    ItemMeans(PItem(ts).value);
    TakenIs(ItemTokens(PItem(ts).value), PItem(ts).rest);
  }
}
