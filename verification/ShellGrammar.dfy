/** Commands of sh.c, the grammar of a command line, and a parser over tokens
    that is proved to be the inverse of writing a syntax tree as tokens. */
module ShellGrammar {
  import opened Options
  import opened ShellLex

  const MAXARGS: nat := 10

  // kind is '<', '>' or '+', for <, > and >>.
  datatype Redirection = Redirection(kind: char, file: Span)

  // struct cmd
  datatype Cmd =
    | Exec(args: seq<Span>)
    | Redir(cmd: Cmd, r: Redirection)
    | Pipe(left: Cmd, right: Cmd)
    | List(left: Cmd, right: Cmd)
    | Back(cmd: Cmd)

  // ---- syntax trees
  //   line ::= pipe { & } [ ; line ]
  //   pipe ::= item [ | pipe ]
  //   item ::= ( line ) { redirection }  or  { word or redirection }

  datatype Line = Line(p: PipeLine, backs: nat, next: Option<Line>)
  datatype PipeLine = PipeLine(item: Item, next: Option<PipeLine>)
  datatype Item = Block(line: Line, rs: seq<Redirection>) | Simple(parts: seq<Part>)
  datatype Part = Arg(w: Span) | To(r: Redirection)

  predicate IsRedir(c: char) {
    c == '<' || c == '>' || c == '+'
  }

  function Args(ps: seq<Part>): seq<Span> {
    if ps == [] then [] else (if ps[0].Arg? then [ps[0].w] else []) + Args(ps[1..])
  }

  function Redirs(ps: seq<Part>): seq<Redirection> {
    if ps == [] then [] else (if ps[0].To? then [ps[0].r] else []) + Redirs(ps[1..])
  }

  predicate RedirsOK(rs: seq<Redirection>) {
    forall i :: 0 <= i < |rs| ==> IsRedir(rs[i].kind)
  }

  predicate PartsOK(ps: seq<Part>) {
    KindsOK(ps) && |Args(ps)| < MAXARGS
  }

  // Redirections have their symbols, and no command has too many arguments.
  predicate LineOK(l: Line)
    decreases l
  {
    PipeOK(l.p) && (l.next.Some? ==> LineOK(l.next.value))
  }

  predicate PipeOK(p: PipeLine)
    decreases p
  {
    ItemOK(p.item) && (p.next.Some? ==> PipeOK(p.next.value))
  }

  predicate ItemOK(it: Item)
    decreases it
  {
    match it
    case Block(line, rs) => LineOK(line) && RedirsOK(rs)
    case Simple(parts) => PartsOK(parts)
  }

  // ---- a tree as tokens

  function RedirTokens(rs: seq<Redirection>): seq<Token> {
    if rs == [] then [] else [Sym(rs[0].kind), Word(rs[0].file)] + RedirTokens(rs[1..])
  }

  function PartTokens(ps: seq<Part>): seq<Token> {
    if ps == [] then []
    else (if ps[0].Arg? then [Word(ps[0].w)] else [Sym(ps[0].r.kind), Word(ps[0].r.file)]) + PartTokens(ps[1..])
  }

  function Amps(n: nat): seq<Token> {
    if n == 0 then [] else [Sym('&')] + Amps(n - 1)
  }

  function LineTokens(l: Line): seq<Token>
    decreases l
  {
    PipeTokens(l.p) + (Amps(l.backs) + (if l.next.Some? then [Sym(';')] + LineTokens(l.next.value) else []))
  }

  function PipeTokens(p: PipeLine): seq<Token>
    decreases p
  {
    ItemTokens(p.item) + (if p.next.Some? then [Sym('|')] + PipeTokens(p.next.value) else [])
  }

  function ItemTokens(it: Item): seq<Token>
    decreases it
  {
    match it
    case Block(line, rs) => [Sym('(')] + (LineTokens(line) + ([Sym(')')] + RedirTokens(rs)))
    case Simple(parts) => PartTokens(parts)
  }

  // ---- a tree as a command

  // The first redirection is the innermost.
  function Wrap(c: Cmd, rs: seq<Redirection>): Cmd {
    if rs == [] then c else Redir(Wrap(c, rs[..|rs| - 1]), rs[|rs| - 1])
  }

  function Backs(c: Cmd, n: nat): Cmd {
    if n == 0 then c else Back(Backs(c, n - 1))
  }

  function LineCmd(l: Line): Cmd
    decreases l
  {
    var c := Backs(PipeCmd(l.p), l.backs);
    if l.next.Some? then List(c, LineCmd(l.next.value)) else c
  }

  function PipeCmd(p: PipeLine): Cmd
    decreases p
  {
    if p.next.Some? then Pipe(ItemCmd(p.item), PipeCmd(p.next.value)) else ItemCmd(p.item)
  }

  function ItemCmd(it: Item): Cmd
    decreases it
  {
    match it
    case Block(line, rs) => Wrap(LineCmd(line), rs)
    case Simple(parts) => Wrap(Exec(Args(parts)), Redirs(parts))
  }

  // ---- the parser over tokens

  datatype Parsed<T> = Fail | Ok(value: T, rest: seq<Token>)

  predicate Next(ts: seq<Token>, toks: string) {
    ts != [] && ts[0].Sym? && ts[0].c in toks
  }

  function PRedirs(ts: seq<Token>): (r: Parsed<seq<Redirection>>)
    ensures r.Ok? ==> |r.rest| <= |ts|
  {
    if !Next(ts, "<>+") then Ok([], ts)
    else if |ts| == 1 || !ts[1].Word? then Fail
    else
      match PRedirs(ts[2..])
      case Fail => Fail
      case Ok(rs, rest) => Ok([Redirection(ts[0].c, ts[1].span)] + rs, rest)
  }

  // n arguments were seen before.
  function PParts(ts: seq<Token>, n: nat): (r: Parsed<seq<Part>>)
    ensures r.Ok? ==> |r.rest| <= |ts|
  {
    if ts == [] || Next(ts, "|)&;") then Ok([], ts)
    else if Next(ts, "<>+") then
      if |ts| == 1 || !ts[1].Word? then Fail else Prepend([To(Redirection(ts[0].c, ts[1].span))], PParts(ts[2..], n))
    else if ts[0].Word? && n + 1 < MAXARGS then Prepend([Arg(ts[0].span)], PParts(ts[1..], n + 1))
    else Fail
  }

  function Prepend(ps: seq<Part>, r: Parsed<seq<Part>>): Parsed<seq<Part>> {
    if r.Ok? then Ok(ps + r.value, r.rest) else Fail
  }

  function PItem(ts: seq<Token>): (r: Parsed<Item>)
    ensures r.Ok? ==> |r.rest| <= |ts|
    decreases |ts|, 0
  {
    if Next(ts, "(") then
      match PLine(ts[1..])
      case Fail => Fail
      case Ok(line, rest) =>
        if !Next(rest, ")") then Fail
        else
          match PRedirs(rest[1..])
          case Fail => Fail
          case Ok(rs, rest') => Ok(Block(line, rs), rest')
    else
      match PParts(ts, 0)
      case Fail => Fail
      case Ok(parts, rest) => Ok(Simple(parts), rest)
  }

  function PPipe(ts: seq<Token>): (r: Parsed<PipeLine>)
    ensures r.Ok? ==> |r.rest| <= |ts|
    decreases |ts|, 1
  {
    match PItem(ts)
    case Fail => Fail
    case Ok(item, rest) =>
      if !Next(rest, "|") then Ok(PipeLine(item, None), rest)
      else
        match PPipe(rest[1..])
        case Fail => Fail
        case Ok(p, rest') => Ok(PipeLine(item, Some(p)), rest')
  }

  // How many & follow, and what comes after them.
  function PAmps(ts: seq<Token>): (r: (nat, seq<Token>))
    ensures |r.1| <= |ts|
  {
    if !Next(ts, "&") then (0, ts)
    else
      var r := PAmps(ts[1..]);
      (r.0 + 1, r.1)
  }

  function PLine(ts: seq<Token>): (r: Parsed<Line>)
    ensures r.Ok? ==> |r.rest| <= |ts|
    decreases |ts|, 2
  {
    match PPipe(ts)
    case Fail => Fail
    case Ok(p, rest) =>
      var a := PAmps(rest);
      if !Next(a.1, ";") then Ok(Line(p, a.0, None), a.1)
      else
        match PLine(a.1[1..])
        case Fail => Fail
        case Ok(l, rest') => Ok(Line(p, a.0, Some(l)), rest')
  }

  // ---- what is parsed is what was written

  // The tokens that may follow an item, a pipe, a line.
  predicate AfterItem(ts: seq<Token>) { ts == [] || Next(ts, "|)&;") }
  predicate AfterPipe(ts: seq<Token>) { ts == [] || Next(ts, ")&;") }
  predicate AfterLine(ts: seq<Token>) { ts == [] || Next(ts, ")") }

  lemma Cat(a: seq<Token>, b: seq<Token>, rest: seq<Token>)
    ensures (a + b) + rest == a + (b + rest)
  {
  }

  lemma {:induction false} RedirsSound(ts: seq<Token>)
    requires PRedirs(ts).Ok?
    ensures var r := PRedirs(ts); RedirTokens(r.value) + r.rest == ts && RedirsOK(r.value) && !Next(r.rest, "<>+")
  {
    if Next(ts, "<>+") {
      RedirsSound(ts[2..]);
    }
  }

  predicate KindsOK(ps: seq<Part>) {
    forall i :: 0 <= i < |ps| && ps[i].To? ==> IsRedir(ps[i].r.kind)
  }

  function OnePart(p: Part): seq<Token> {
    if p.Arg? then [Word(p.w)] else [Sym(p.r.kind), Word(p.r.file)]
  }

  lemma PartsCons(p: Part, ps: seq<Part>)
    ensures PartTokens([p] + ps) == OnePart(p) + PartTokens(ps)
    ensures Args([p] + ps) == (if p.Arg? then [p.w] else []) + Args(ps)
    ensures KindsOK([p] + ps) <==> KindsOK(ps) && (p.To? ==> IsRedir(p.r.kind))
  {
    assert ([p] + ps)[1..] == ps;
    assert KindsOK([p] + ps) ==> KindsOK(ps) by {
      assert forall i :: 0 <= i < |ps| ==> ps[i] == ([p] + ps)[i + 1];
    }
  }

  lemma {:induction false} PartsSound(ts: seq<Token>, n: nat)
    requires PParts(ts, n).Ok? && n < MAXARGS
    ensures var r := PParts(ts, n);
      PartTokens(r.value) + r.rest == ts && AfterItem(r.rest) && n + |Args(r.value)| < MAXARGS && KindsOK(r.value)
  {
    if ts == [] || Next(ts, "|)&;") {
    } else {
      var p := if Next(ts, "<>+") then To(Redirection(ts[0].c, ts[1].span)) else Arg(ts[0].span);
      var k, m := |OnePart(p)|, if p.Arg? then n + 1 else n;
      PartsSound(ts[k..], m);
      var r := PParts(ts[k..], m);
      hide Args, PartTokens, KindsOK;
      PartsCons(p, r.value);
      Cat(OnePart(p), PartTokens(r.value), r.rest);
      assert ts == OnePart(p) + ts[k..];
    }
  }

  lemma {:induction false} AmpsSound(ts: seq<Token>)
    ensures var r := PAmps(ts); ts == Amps(r.0) + r.1 && !Next(r.1, "&")
  {
    if Next(ts, "&") {
      AmpsSound(ts[1..]);
    }
  }

  /** Whatever the parser accepts is a tree whose tokens it consumed. */
  lemma {:induction false} LineSound(ts: seq<Token>)
    requires PLine(ts).Ok?
    ensures var r := PLine(ts); LineTokens(r.value) + r.rest == ts && LineOK(r.value)
    decreases |ts|, 2
  {
    PipeSound(ts);
    var r := PPipe(ts);
    var a := PAmps(r.rest);
    AmpsSound(r.rest);
    if Next(a.1, ";") {
      LineSound(a.1[1..]);
      var l := PLine(a.1[1..]);
      LineYield(ts, r, a, Some(l.value), l.rest);
    } else {
      LineYield(ts, r, a, None, a.1);
    }
  }

  lemma LineYield(ts: seq<Token>, r: Parsed<PipeLine>, a: (nat, seq<Token>), next: Option<Line>, rest: seq<Token>)
    requires r.Ok? && PipeTokens(r.value) + r.rest == ts && r.rest == Amps(a.0) + a.1
    requires if next.Some? then Next(a.1, ";") && LineTokens(next.value) + rest == a.1[1..] else rest == a.1
    ensures LineTokens(Line(r.value, a.0, next)) + rest == ts
  {
    hide PipeTokens, Amps;
    var p, amps := PipeTokens(r.value), Amps(a.0);
    var tail := if next.Some? then [Sym(';')] + LineTokens(next.value) else [];
    assert LineTokens(Line(r.value, a.0, next)) == p + (amps + tail);
    Cat(p, amps + tail, rest);
    Cat(amps, tail, rest);
    if next.Some? {
      Cat([Sym(';')], LineTokens(next.value), rest);
      assert a.1 == [Sym(';')] + a.1[1..];
    }
  }

  lemma {:induction false} PipeSound(ts: seq<Token>)
    requires PPipe(ts).Ok?
    ensures var r := PPipe(ts); PipeTokens(r.value) + r.rest == ts && PipeOK(r.value)
    decreases |ts|, 1
  {
    ItemSound(ts);
    var r := PItem(ts);
    var item := ItemTokens(r.value);
    hide PItem, ItemTokens, ItemOK;
    if Next(r.rest, "|") {
      PipeSound(r.rest[1..]);
      var p := PPipe(r.rest[1..]);
      assert r.rest == [Sym('|')] + r.rest[1..];
      Cat([Sym('|')], PipeTokens(p.value), p.rest);
      Cat(item, [Sym('|')] + PipeTokens(p.value), p.rest);
    } else {
      Cat(item, [], r.rest);
    }
  }

  lemma {:induction false} ItemSound(ts: seq<Token>)
    requires PItem(ts).Ok?
    ensures var r := PItem(ts); ItemTokens(r.value) + r.rest == ts && ItemOK(r.value)
    decreases |ts|, 0
  {
    if Next(ts, "(") {
      LineSound(ts[1..]);
      var l := PLine(ts[1..]);
      RedirsSound(l.rest[1..]);
      var r := PRedirs(l.rest[1..]);
      BlockTokens(ts, l, r);
    } else {
      PartsSound(ts, 0);
    }
  }

  lemma BlockTokens(ts: seq<Token>, l: Parsed<Line>, r: Parsed<seq<Redirection>>)
    requires Next(ts, "(") && l.Ok? && LineTokens(l.value) + l.rest == ts[1..]
    requires Next(l.rest, ")") && r.Ok? && RedirTokens(r.value) + r.rest == l.rest[1..]
    ensures ItemTokens(Block(l.value, r.value)) + r.rest == ts
  {
    var line, rs := LineTokens(l.value), RedirTokens(r.value);
    hide LineTokens, RedirTokens;
    Cat([Sym(')')], rs, r.rest);
    assert l.rest == [Sym(')')] + l.rest[1..];
    Cat(line, [Sym(')')] + rs, r.rest);
    Cat([Sym('(')], line + ([Sym(')')] + rs), r.rest);
    assert ts == [Sym('(')] + ts[1..];
  }

  // ---- what is written is parsed back

  lemma {:induction false} RedirsBack(rs: seq<Redirection>, rest: seq<Token>)
    requires RedirsOK(rs) && !Next(rest, "<>+")
    ensures PRedirs(RedirTokens(rs) + rest) == Ok(rs, rest)
  {
    if rs == [] {
      assert RedirTokens(rs) + rest == rest;
    } else {
      RedirsBack(rs[1..], rest);
      Cat([Sym(rs[0].kind), Word(rs[0].file)], RedirTokens(rs[1..]), rest);
      hide RedirTokens, Next;
      RedirFirst(rs[0], RedirTokens(rs[1..]) + rest);
      assert [rs[0]] + rs[1..] == rs;
    }
  }

  lemma RedirFirst(d: Redirection, ts: seq<Token>)
    requires IsRedir(d.kind)
    ensures var r := PRedirs(ts);
      PRedirs([Sym(d.kind), Word(d.file)] + ts) == if r.Ok? then Ok([d] + r.value, r.rest) else Fail
  {
    var us := [Sym(d.kind), Word(d.file)] + ts;
    assert us[2..] == ts;
  }

  lemma {:induction false} PartsBack(ps: seq<Part>, rest: seq<Token>, n: nat)
    requires n + |Args(ps)| < MAXARGS && AfterItem(rest) && KindsOK(ps)
    ensures PParts(PartTokens(ps) + rest, n) == Ok(ps, rest)
  {
    if ps == [] {
      assert PartTokens(ps) + rest == rest;
    } else {
      var p, more := ps[0], ps[1..];
      assert ps == [p] + more;
      PartsCons(p, more);
      PartsBack(more, rest, if p.Arg? then n + 1 else n);
      hide Args, PartTokens, KindsOK;
      Cat(OnePart(p), PartTokens(more), rest);
      PartFirst(p, PartTokens(more) + rest, n);
    }
  }

  lemma PartFirst(p: Part, ts: seq<Token>, n: nat)
    requires p.To? ==> IsRedir(p.r.kind)
    requires p.Arg? ==> n + 1 < MAXARGS
    ensures PParts(OnePart(p) + ts, n) == Prepend([p], PParts(ts, if p.Arg? then n + 1 else n))
  {
    var us := OnePart(p) + ts;
    assert us[|OnePart(p)|..] == ts;
  }

  lemma {:induction false} AmpsBack(n: nat, rest: seq<Token>)
    requires !Next(rest, "&")
    ensures PAmps(Amps(n) + rest) == (n, rest)
  {
    var ts := Amps(n) + rest;
    if n == 0 {
      assert ts == rest;
    } else {
      AmpsBack(n - 1, rest);
      assert ts[1..] == Amps(n - 1) + rest && ts[0] == Sym('&');
    }
  }

  /** Every tree, written as tokens, is parsed back. */
  lemma {:induction false} LineBack(l: Line, rest: seq<Token>)
    requires LineOK(l) && AfterLine(rest)
    ensures PLine(LineTokens(l) + rest) == Ok(l, rest)
    decreases l
  {
    var tail := if l.next.Some? then [Sym(';')] + (LineTokens(l.next.value) + rest) else rest;
    assert LineTokens(l) + rest == PipeTokens(l.p) + (Amps(l.backs) + tail);
    AmpsBack(l.backs, tail);
    PipeBack(l.p, Amps(l.backs) + tail);
    if l.next.Some? {
      LineBack(l.next.value, rest);
      assert tail[1..] == LineTokens(l.next.value) + rest;
    }
  }

  lemma {:induction false} PipeBack(p: PipeLine, rest: seq<Token>)
    requires PipeOK(p) && AfterPipe(rest)
    ensures PPipe(PipeTokens(p) + rest) == Ok(p, rest)
    decreases p
  {
    var tail := if p.next.Some? then [Sym('|')] + (PipeTokens(p.next.value) + rest) else rest;
    assert PipeTokens(p) + rest == ItemTokens(p.item) + tail;
    ItemBack(p.item, tail);
    if p.next.Some? {
      PipeBack(p.next.value, rest);
      assert tail[1..] == PipeTokens(p.next.value) + rest;
    }
  }

  lemma {:induction false} ItemBack(it: Item, rest: seq<Token>)
    requires ItemOK(it) && AfterItem(rest)
    ensures PItem(ItemTokens(it) + rest) == Ok(it, rest)
    decreases it
  {
    match it
    case Block(line, rs) =>
      var tail := [Sym(')')] + (RedirTokens(rs) + rest);
      LineBack(line, tail);
      RedirsBack(rs, rest);
      BlockBack(line, rs, rest);
    case Simple(parts) =>
      PartsBack(parts, rest, 0);
      SimpleFirst(parts, rest);
  }

  lemma BlockBack(line: Line, rs: seq<Redirection>, rest: seq<Token>)
    requires PLine(LineTokens(line) + ([Sym(')')] + (RedirTokens(rs) + rest)))
             == Ok(line, [Sym(')')] + (RedirTokens(rs) + rest))
    requires PRedirs(RedirTokens(rs) + rest) == Ok(rs, rest)
    ensures PItem(ItemTokens(Block(line, rs)) + rest) == Ok(Block(line, rs), rest)
  {
    hide PLine, PRedirs, LineTokens, RedirTokens;
    var ts := ItemTokens(Block(line, rs)) + rest;
    var tail := [Sym(')')] + (RedirTokens(rs) + rest);
    assert ts[0] == Sym('(') && ts[1..] == LineTokens(line) + tail && tail[1..] == RedirTokens(rs) + rest;
  }

  // A simple command does not begin with a parenthesis.
  lemma SimpleFirst(parts: seq<Part>, rest: seq<Token>)
    requires AfterItem(rest) && KindsOK(parts)
    ensures !Next(PartTokens(parts) + rest, "(")
  {
    if parts != [] {
      assert (PartTokens(parts) + rest)[0] == OnePart(parts[0])[0];
    }
  }
}
