/** The recursive-descent parser of sh.c. Each routine moves *ps along the line
    and is proved equal to the parser over tokens; a panic is ok == false. */
module ShellParser {
  import opened ShellLex
  import opened ShellGrammar
  import opened ShellMeaning

  // ---- redirections

  function PrependR(rs: seq<Redirection>, r: Parsed<seq<Redirection>>): Parsed<seq<Redirection>> {
    if r.Ok? then Ok(rs + r.value, r.rest) else Fail
  }

  lemma PeekRedir(ts: seq<Token>)
    ensures Starts(ts, "<>") <==> Next(ts, "<>+")
  {
  }

  /** parseredirs: the redirections found, in order. */
  method ParseRedirs(s: string, ps: nat) returns (ok: bool, rs: seq<Redirection>, ps': nat)
    requires ps <= |s| && '\0' !in s
    ensures ok <==> PRedirs(Tokens(s, ps)).Ok?
    ensures ok ==> ps <= ps' <= |s| && PRedirs(Tokens(s, ps)) == Ok(rs, Tokens(s, ps'))
  {
    hide Tokens, SkipSpace;
    rs := [];
    var found;
    found, ps' := Peek(s, ps, "<>");
    PrependNone(PRedirs(Tokens(s, ps)));
    while found
      invariant ps <= ps' <= |s| && (found <==> Starts(Tokens(s, ps'), "<>"))
      invariant PRedirs(Tokens(s, ps)) == PrependR(rs, PRedirs(Tokens(s, ps')))
      decreases |Tokens(s, ps')|
    {
      ghost var ts := Tokens(s, ps');
      PeekRedir(ts);
      var tok, q, eq;
      tok, q, eq, ps' := GetToken(s, ps');
      var code;
      code, q, eq, ps' := GetToken(s, ps');
      if code != 'a' {
        return false, [], ps';
      }
      RedirNext(rs, ts);
      rs := rs + [Redirection(tok, Span(q, eq))];
      found, ps' := Peek(s, ps', "<>");
    }
    PeekRedir(Tokens(s, ps'));
    assert rs + [] == rs;
    ok := true;
  }

  lemma PrependNone(r: Parsed<seq<Redirection>>)
    ensures PrependR([], r) == r
  {
    if r.Ok? {
      assert [] + r.value == r.value;
    }
  }

  lemma RedirNext(rs: seq<Redirection>, ts: seq<Token>)
    requires Next(ts, "<>+") && |ts| > 1 && ts[1].Word?
    ensures PrependR(rs, PRedirs(ts)) == PrependR(rs + [Redirection(ts[0].c, ts[1].span)], PRedirs(ts[2..]))
  {
    var r, d := PRedirs(ts[2..]), Redirection(ts[0].c, ts[1].span);
    assert PRedirs(ts) == PrependR([d], r);
    hide PRedirs;
    if r.Ok? {
      assert rs + ([d] + r.value) == (rs + [d]) + r.value;
    }
  }

  // ---- the parts of a simple command

  function Tos(rs: seq<Redirection>): seq<Part> {
    seq(|rs|, i requires 0 <= i < |rs| => To(rs[i]))
  }

  lemma PrependTwice(a: seq<Part>, b: seq<Part>, r: Parsed<seq<Part>>)
    ensures Prepend(a, Prepend(b, r)) == Prepend(a + b, r)
  {
    if r.Ok? {
      assert a + (b + r.value) == (a + b) + r.value;
    }
  }

  // Redirections first, then the rest.
  lemma {:induction false} RedirsThenParts(ts: seq<Token>, n: nat)
    ensures PParts(ts, n) == match PRedirs(ts) case Fail => Fail case Ok(rs, rest) => Prepend(Tos(rs), PParts(rest, n))
  {
    if !Next(ts, "<>+") {
      assert Tos([]) == [];
      var r := PParts(ts, n);
      assert r.Ok? ==> [] + r.value == r.value;
    } else if |ts| > 1 && ts[1].Word? {
      RedirsThenParts(ts[2..], n);
      var d := Redirection(ts[0].c, ts[1].span);
      var r := PRedirs(ts[2..]);
      if r.Ok? {
        assert Tos([d] + r.value) == [To(d)] + Tos(r.value);
        PrependTwice([To(d)], Tos(r.value), PParts(r.rest, n));
      }
    }
  }

  lemma {:induction false} AppendTos(ps: seq<Part>, rs: seq<Redirection>)
    ensures Args(ps + Tos(rs)) == Args(ps) && Redirs(ps + Tos(rs)) == Redirs(ps) + rs
    decreases |ps|, |rs|
  {
    if ps == [] {
      assert ps + Tos(rs) == Tos(rs);
      if rs != [] {
        AppendTos([], rs[1..]);
        assert Tos(rs)[1..] == Tos(rs[1..]) && [] + Tos(rs[1..]) == Tos(rs[1..]);
        assert [rs[0]] + rs[1..] == rs;
      }
    } else {
      assert (ps + Tos(rs))[1..] == ps[1..] + Tos(rs);
      AppendTos(ps[1..], rs);
    }
  }

  // The parts so far, and what is still to be read.
  ghost predicate Reading(ts: seq<Token>, parts: seq<Part>, rest: seq<Token>) {
    PParts(ts, 0) == Prepend(parts, PParts(rest, |Args(parts)|))
  }

  lemma ReadRedirs(ts: seq<Token>, parts: seq<Part>, rest: seq<Token>)
    requires Reading(ts, parts, rest)
    ensures PRedirs(rest).Fail? ==> PParts(ts, 0).Fail?
    ensures PRedirs(rest).Ok? ==> Reading(ts, parts + Tos(PRedirs(rest).value), PRedirs(rest).rest)
  {
    RedirsThenParts(rest, |Args(parts)|);
    var r := PRedirs(rest);
    if r.Ok? {
      AppendTos(parts, r.value);
      PrependTwice(parts, Tos(r.value), PParts(r.rest, |Args(parts)|));
    }
  }

  lemma ReadWord(ts: seq<Token>, parts: seq<Part>, rest: seq<Token>)
    requires Reading(ts, parts, rest) && rest != [] && !Next(rest, "<>+") && !Next(rest, "|)&;")
    ensures !rest[0].Word? || |Args(parts)| + 1 >= MAXARGS ==> PParts(ts, 0).Fail?
    ensures rest[0].Word? && |Args(parts)| + 1 < MAXARGS ==> Reading(ts, parts + [Arg(rest[0].span)], rest[1..])
  {
    if rest[0].Word? && |Args(parts)| + 1 < MAXARGS {
      ArgsSnoc(parts, Arg(rest[0].span));
      PrependTwice(parts, [Arg(rest[0].span)], PParts(rest[1..], |Args(parts)| + 1));
    }
  }

  lemma ReadEnd(ts: seq<Token>, parts: seq<Part>, rest: seq<Token>)
    requires Reading(ts, parts, rest) && (rest == [] || Next(rest, "|)&;"))
    ensures PParts(ts, 0) == Ok(parts, rest)
  {
    assert parts + [] == parts;
  }

  // ---- commands

  /** parseexec, for a command without parentheses. */
  method ParseSimple(s: string, ps: nat) returns (ok: bool, cmd: Cmd, ps': nat)
    requires ps <= |s| && '\0' !in s
    ensures ok <==> PParts(Tokens(s, ps), 0).Ok?
    ensures ok ==> ps <= ps' <= |s| && Tokens(s, ps') == PParts(Tokens(s, ps), 0).rest
    ensures ok ==> cmd == ItemCmd(Simple(PParts(Tokens(s, ps), 0).value))
  {
    hide Tokens, SkipSpace, PParts, PRedirs, Reading, Args, Redirs;
    ghost var ts := Tokens(s, ps);
    cmd := Exec([]);
    var args, rs, more, found := [], [], [], false;
    ghost var parts: seq<Part> := [];
    StartReading(ts);
    ReadRedirs(ts, parts, ts);
    ok, rs, ps' := ParseRedirs(s, ps);
    if !ok {
      return;
    }
    AppendTos(parts, rs);
    parts := parts + Tos(rs);
    found, ps' := Peek(s, ps', "|)&;");
    RedirsStop(ts);
    assert [] + rs == rs;
    while !found
      invariant ps <= ps' <= |s| && ok && Reading(ts, parts, Tokens(s, ps')) && !Next(Tokens(s, ps'), "<>+")
      invariant args == Args(parts) && rs == Redirs(parts) && (found <==> Next(Tokens(s, ps'), "|)&;"))
      decreases |Tokens(s, ps')|
    {
      ghost var rest := Tokens(s, ps');
      var tok, q, eq;
      tok, q, eq, ps' := GetToken(s, ps');
      if tok == '\0' {
        break;
      }
      ReadWord(ts, parts, rest);
      if tok != 'a' {
        return false, cmd, ps';
      }
      ArgsSnoc(parts, Arg(Span(q, eq)));
      args := args + [Span(q, eq)];
      if |args| >= MAXARGS {
        return false, cmd, ps';
      }
      parts := parts + [Arg(Span(q, eq))];
      ReadRedirs(ts, parts, rest[1..]);
      ok, more, ps' := ParseRedirs(s, ps');
      if !ok {
        return;
      }
      AppendTos(parts, more);
      parts, rs := parts + Tos(more), rs + more;
      RedirsStop(rest[1..]);
      found, ps' := Peek(s, ps', "|)&;");
    }
    ReadEnd(ts, parts, Tokens(s, ps'));
    cmd := Wrap(Exec(args), rs);
  }

  lemma RedirsStop(ts: seq<Token>)
    ensures PRedirs(ts).Ok? ==> !Next(PRedirs(ts).rest, "<>+") && |PRedirs(ts).rest| <= |ts|
  {
    if PRedirs(ts).Ok? {
      RedirsSound(ts);
    }
  }

  lemma StartReading(ts: seq<Token>)
    ensures Reading(ts, [], ts) && Args([]) == [] && Redirs([]) == []
  {
    var r := PParts(ts, 0);
    assert r.Ok? ==> [] + r.value == r.value;
  }

  /** parseexec */
  method ParseExec(s: string, ps: nat) returns (ok: bool, cmd: Cmd, ps': nat)
    requires ps <= |s| && '\0' !in s
    ensures ok <==> PItem(Tokens(s, ps)).Ok?
    ensures ok ==> ps <= ps' <= |s| && cmd == ItemCmd(PItem(Tokens(s, ps)).value)
                   && Tokens(s, ps') == PItem(Tokens(s, ps)).rest
    ensures ok ==> MeansItem(Taken(Tokens(s, ps), Tokens(s, ps')), cmd)
    decreases |Tokens(s, ps)|, 1
  {
    hide Tokens, SkipSpace, PParts, PLine, PRedirs, MeansItem, Taken;
    var found;
    found, ps' := Peek(s, ps, "(");
    if found {
      ok, cmd, ps' := ParseBlock(s, ps');
    } else {
      ok, cmd, ps' := ParseSimple(s, ps');
    }
    if ok {
      ParsedItem(Tokens(s, ps));
    }
  }

  /** parseblock */
  method ParseBlock(s: string, ps: nat) returns (ok: bool, cmd: Cmd, ps': nat)
    requires ps <= |s| && '\0' !in s
    ensures ok <==> Next(Tokens(s, ps), "(") && PItem(Tokens(s, ps)).Ok?
    ensures ok ==> ps <= ps' <= |s| && cmd == ItemCmd(PItem(Tokens(s, ps)).value)
                   && Tokens(s, ps') == PItem(Tokens(s, ps)).rest
    ensures ok ==> MeansItem(Taken(Tokens(s, ps), Tokens(s, ps')), cmd)
    decreases |Tokens(s, ps)|, 0
  {
    hide Tokens, SkipSpace, PParts, PLine, PRedirs, MeansItem, Taken;
    cmd := Exec([]);
    ok, ps' := Peek(s, ps, "(");
    if !ok {
      return;
    }
    var tok, q, eq, rs;
    tok, q, eq, ps' := GetToken(s, ps');
    ok, cmd, ps' := ParseLine(s, ps');
    if !ok {
      return;
    }
    ok, ps' := Peek(s, ps', ")");
    if !ok {
      return;
    }
    tok, q, eq, ps' := GetToken(s, ps');
    ok, rs, ps' := ParseRedirs(s, ps');
    if ok {
      cmd := Wrap(cmd, rs);
      ParsedItem(Tokens(s, ps));
    }
  }

  /** parsepipe */
  method ParsePipe(s: string, ps: nat) returns (ok: bool, cmd: Cmd, ps': nat)
    requires ps <= |s| && '\0' !in s
    ensures ok <==> PPipe(Tokens(s, ps)).Ok?
    ensures ok ==> ps <= ps' <= |s| && cmd == PipeCmd(PPipe(Tokens(s, ps)).value)
                   && Tokens(s, ps') == PPipe(Tokens(s, ps)).rest
    ensures ok ==> MeansPipe(Taken(Tokens(s, ps), Tokens(s, ps')), cmd)
    decreases |Tokens(s, ps)|, 2
  {
    hide Tokens, SkipSpace, PItem, MeansPipe, MeansItem, Taken;
    ok, cmd, ps' := ParseExec(s, ps);
    if !ok {
      return;
    }
    var found;
    found, ps' := Peek(s, ps', "|");
    if found {
      var tok, q, eq, right;
      tok, q, eq, ps' := GetToken(s, ps');
      ok, right, ps' := ParsePipe(s, ps');
      cmd := Pipe(cmd, right);
    }
    if ok {
      ParsedPipe(Tokens(s, ps));
    }
  }

  // The loop of parseline: one BACK for every &.
  method ParseBacks(s: string, ps: nat, p: Cmd) returns (cmd: Cmd, ps': nat)
    requires ps <= |s| && '\0' !in s
    ensures ps <= ps' <= |s| && cmd == Backs(p, PAmps(Tokens(s, ps)).0) && Tokens(s, ps') == PAmps(Tokens(s, ps)).1
  {
    hide Tokens, SkipSpace;
    cmd := p;
    ghost var n := 0;
    var found, tok, q, eq;
    found, ps' := Peek(s, ps, "&");
    while found
      invariant ps <= ps' <= |s| && (found <==> Next(Tokens(s, ps'), "&")) && cmd == Backs(p, n)
      invariant PAmps(Tokens(s, ps)) == (n + PAmps(Tokens(s, ps')).0, PAmps(Tokens(s, ps')).1)
      decreases |Tokens(s, ps')|
    {
      tok, q, eq, ps' := GetToken(s, ps');
      cmd, n := Back(cmd), n + 1;
      found, ps' := Peek(s, ps', "&");
    }
  }

  /** parseline */
  method ParseLine(s: string, ps: nat) returns (ok: bool, cmd: Cmd, ps': nat)
    requires ps <= |s| && '\0' !in s
    ensures ok <==> PLine(Tokens(s, ps)).Ok?
    ensures ok ==> ps <= ps' <= |s| && cmd == LineCmd(PLine(Tokens(s, ps)).value)
                   && Tokens(s, ps') == PLine(Tokens(s, ps)).rest
    ensures ok ==> Means(Taken(Tokens(s, ps), Tokens(s, ps')), cmd)
    decreases |Tokens(s, ps)|, 3
  {
    hide Tokens, SkipSpace, PPipe, PAmps, Backs, Means, MeansPipe, Taken;
    ok, cmd, ps' := ParsePipe(s, ps);
    if !ok {
      return;
    }
    cmd, ps' := ParseBacks(s, ps', cmd);
    var found, tok, q, eq, right;
    found, ps' := Peek(s, ps', ";");
    if found {
      tok, q, eq, ps' := GetToken(s, ps');
      ok, right, ps' := ParseLine(s, ps');
      cmd := List(cmd, right);
    }
    if ok {
      ParsedLine(Tokens(s, ps));
    }
  }
}
