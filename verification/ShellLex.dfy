/** Tokens of sh.c: gettoken and peek, and what the tokens of a line are. */
module ShellLex {

  predicate Space(c: char) {
    c == ' ' || c == '\t' || c == '\r' || c == '\n' || c == 11 as char
  }

  predicate Symbol(c: char) {
    c == '<' || c == '|' || c == '>' || c == '&' || c == ';' || c == '(' || c == ')'
  }

  predicate WordChar(c: char) {
    !Space(c) && !Symbol(c)
  }

  // The characters from q up to eq.
  datatype Span = Span(q: nat, eq: nat)

  // >> is Sym('+').
  datatype Token = Word(span: Span) | Sym(c: char)

  function SkipSpace(s: string, i: nat): (j: nat)
    requires i <= |s|
    ensures i <= j <= |s| && (j < |s| ==> !Space(s[j])) && forall k :: i <= k < j ==> Space(s[k])
    decreases |s| - i
  {
    if i < |s| && Space(s[i]) then SkipSpace(s, i + 1) else i
  }

  function WordEnd(s: string, i: nat): (j: nat)
    requires i <= |s|
    ensures i <= j <= |s| && (j < |s| ==> !WordChar(s[j])) && forall k :: i <= k < j ==> WordChar(s[k])
    decreases |s| - i
  {
    if i < |s| && WordChar(s[i]) then WordEnd(s, i + 1) else i
  }

  // The token that starts at i, where there is no space.
  function TokenAt(s: string, i: nat): (r: (Token, nat))
    requires i < |s| && !Space(s[i])
    ensures i < r.1 <= |s|
  {
    if s[i] == '>' && i + 1 < |s| && s[i + 1] == '>' then (Sym('+'), i + 2)
    else if Symbol(s[i]) then (Sym(s[i]), i + 1)
    else (Word(Span(i, WordEnd(s, i))), WordEnd(s, i))
  }

  // All tokens of s from i on.
  function Tokens(s: string, i: nat): seq<Token>
    requires i <= |s|
    decreases |s| - i
  {
    var j := SkipSpace(s, i);
    if j == |s| then []
    else
      var t := TokenAt(s, j);
      [t.0] + Tokens(s, t.1)
  }

  lemma SkipSame(s: string, i: nat, j: nat)
    requires i <= j <= |s| && forall k :: i <= k < j ==> Space(s[k])
    ensures SkipSpace(s, i) == SkipSpace(s, j) && Tokens(s, i) == Tokens(s, j)
    decreases j - i
  {
    if i < j {
      SkipSame(s, i + 1, j);
      assert SkipSpace(s, i) == SkipSpace(s, i + 1);
    }
  }

  // ---- gettoken and peek; the line ends with a null byte at |s|

  method Skip(s: string, ps: nat) returns (i: nat)
    requires ps <= |s|
    ensures i == SkipSpace(s, ps) && Tokens(s, i) == Tokens(s, ps)
  {
    i := ps;
    while i < |s| && Space(s[i])
      invariant ps <= i <= |s| && forall k :: ps <= k < i ==> Space(s[k])
      decreases |s| - i
    {
      i := i + 1;
    }
    SkipSame(s, ps, i);
  }

  // What gettoken returns for a token: the symbol, or 'a'; 0 at the end.
  function Code(ts: seq<Token>): char {
    if ts == [] then '\0' else if ts[0].Word? then 'a' else ts[0].c
  }

  /** gettoken takes the first token, with the span of a word. */
  method GetToken(s: string, ps: nat) returns (ret: char, q: nat, eq: nat, ps': nat)
    requires ps <= |s| && '\0' !in s
    ensures ps <= ps' <= |s| && ret == Code(Tokens(s, ps))
    ensures Tokens(s, ps') == if Tokens(s, ps) == [] then [] else Tokens(s, ps)[1..]
    ensures ret == '\0' <==> Tokens(s, ps) == []
    ensures ret == 'a' <==> Tokens(s, ps) != [] && Tokens(s, ps)[0].Word?
    ensures ret == 'a' ==> Tokens(s, ps)[0] == Word(Span(q, eq))
  {
    var i := Skip(s, ps);
    q := i;
    if i == |s| {
      ret := '\0';
    } else if s[i] == '>' {
      ret, i := '>', i + 1;
      if i < |s| && s[i] == '>' {
        ret, i := '+', i + 1;
      }
    } else if Symbol(s[i]) {
      ret, i := s[i], i + 1;
    } else {
      ret := 'a';
      while i < |s| && !Space(s[i]) && !Symbol(s[i])
        invariant q <= i <= |s| && forall k :: q <= k < i ==> WordChar(s[k])
        decreases |s| - i
      {
        i := i + 1;
      }
      WordEndIs(s, q, i);
    }
    eq := i;
    ps' := Skip(s, i);
  }

  lemma WordEndIs(s: string, i: nat, j: nat)
    requires i <= j <= |s| && (forall k :: i <= k < j ==> WordChar(s[k])) && (j < |s| ==> !WordChar(s[j]))
    ensures WordEnd(s, i) == j
  {
  }

  predicate Starts(ts: seq<Token>, toks: string) {
    ts != [] && ts[0].Sym? && (ts[0].c in toks || (ts[0].c == '+' && '>' in toks))
  }

  /** peek asks whether the next token is one of the symbols toks. */
  method Peek(s: string, ps: nat, toks: string) returns (r: bool, ps': nat)
    requires ps <= |s| && '\0' !in s && (forall c :: c in toks ==> Symbol(c))
    ensures ps <= ps' <= |s| && Tokens(s, ps') == Tokens(s, ps) && (r <==> Starts(Tokens(s, ps), toks))
    ensures ps' == SkipSpace(s, ps)
  {
    ps' := Skip(s, ps);
    r := ps' < |s| && s[ps'] in toks;
  }

  // ---- the words of a line

  // A longest run of word characters.
  predicate IsWord(s: string, w: Span) {
    && w.q < w.eq <= |s| && (forall k :: w.q <= k < w.eq ==> WordChar(s[k]))
    && (w.q > 0 ==> !WordChar(s[w.q - 1])) && (w.eq < |s| ==> !WordChar(s[w.eq]))
  }

  // No word straddles i.
  predicate Boundary(s: string, i: nat) {
    i <= |s| && (0 < i < |s| ==> !(WordChar(s[i - 1]) && WordChar(s[i])))
  }

  lemma TokenBoundary(s: string, i: nat)
    requires i < |s| && !Space(s[i]) && Boundary(s, i)
    ensures Boundary(s, TokenAt(s, i).1)
    ensures TokenAt(s, i).0.Word? ==> IsWord(s, TokenAt(s, i).0.span) && TokenAt(s, i).0.span.q == i
    ensures TokenAt(s, i).0.Sym? ==> forall k :: i <= k < TokenAt(s, i).1 ==> !WordChar(s[k])
  {
  }

  lemma SkipBoundary(s: string, i: nat)
    requires i <= |s| && Boundary(s, i)
    ensures Boundary(s, SkipSpace(s, i))
  {
  }

  // The only word that starts within a token is that token.
  lemma OnlyWord(s: string, i: nat, w: Span)
    requires i < |s| && !Space(s[i]) && Boundary(s, i) && IsWord(s, w) && i <= w.q < TokenAt(s, i).1
    ensures TokenAt(s, i).0 == Word(w)
  {
    TokenBoundary(s, i);
    assert WordChar(s[w.q]);
    assert w.q == i;
    WordEndIs(s, i, w.eq);
  }

  // ---- the tokens are the text

  // A token as it was written.
  function Written(s: string, t: Token): string {
    match t
    case Word(w) => if w.q <= w.eq <= |s| then s[w.q..w.eq] else []
    case Sym(c) => if c == '+' then ">>" else [c]
  }

  function Text(s: string, ts: seq<Token>): string {
    if ts == [] then [] else Written(s, ts[0]) + Text(s, ts[1..])
  }

  function Unspaced(s: string): string {
    if s == [] then [] else (if Space(s[0]) then [] else [s[0]]) + Unspaced(s[1..])
  }

  lemma {:induction false} UnspacedCat(a: string, b: string)
    ensures Unspaced(a + b) == Unspaced(a) + Unspaced(b)
  {
    if a == [] {
      assert a + b == b;
    } else {
      UnspacedCat(a[1..], b);
      assert (a + b)[1..] == a[1..] + b;
    }
  }

  lemma {:induction false} UnspacedSame(a: string)
    ensures (forall i :: 0 <= i < |a| ==> Space(a[i])) ==> Unspaced(a) == []
    ensures (forall i :: 0 <= i < |a| ==> !Space(a[i])) ==> Unspaced(a) == a
  {
    if a != [] {
      UnspacedSame(a[1..]);
      assert forall i :: 1 <= i < |a| ==> a[i] == a[1..][i - 1];
    }
  }

  lemma WrittenAt(s: string, i: nat)
    requires i < |s| && !Space(s[i])
    ensures var (t, j) := TokenAt(s, i); Written(s, t) == s[i..j] == Unspaced(s[i..j])
  {
    var (t, j) := TokenAt(s, i);
    UnspacedSame(s[i..j]);
  }

  lemma UnspacedSplit(s: string, i: nat, j: nat)
    requires i <= j <= |s|
    ensures Unspaced(s[i..]) == Unspaced(s[i..j]) + Unspaced(s[j..])
  {
    UnspacedCat(s[i..j], s[j..]);
    assert s[i..] == s[i..j] + s[j..];
  }

  lemma TextFirst(s: string, i: nat)
    requires i <= |s| && SkipSpace(s, i) < |s|
    ensures var (t, k) := TokenAt(s, SkipSpace(s, i));
      Text(s, Tokens(s, i)) == Written(s, t) + Text(s, Tokens(s, k))
  {
    var (t, k) := TokenAt(s, SkipSpace(s, i));
    assert Tokens(s, i) == [t] + Tokens(s, k);
    assert Tokens(s, i)[1..] == Tokens(s, k);
  }

  /** One after the other, the tokens are the text of the line without its spaces. */
  lemma {:induction false} TokensText(s: string, i: nat)
    requires i <= |s|
    ensures Text(s, Tokens(s, i)) == Unspaced(s[i..])
    decreases |s| - i
  {
    hide Unspaced, Text, Written, TokenAt;
    var j := SkipSpace(s, i);
    UnspacedSame(s[i..j]);
    UnspacedSplit(s, i, j);
    if j < |s| {
      var (t, k) := TokenAt(s, j);
      TokensText(s, k);
      WrittenAt(s, j);
      UnspacedSplit(s, j, k);
      TextFirst(s, i);
    } else {
      UnspacedSame(s[j..]);
      TextNone(s);
    }
  }

  lemma TextNone(s: string)
    ensures Text(s, []) == []
  {
  }
}
