/** The regular expressions of grep.c: a declarative reading of a pattern, and
    the three matching routines, which decide it. */
module Regexp {

  // c or ., once or any number of times.
  datatype Item = One(c: char) | Star(c: char)

  // What a pattern says after its optional ^; end is a final $.
  datatype Pattern = Pattern(items: seq<Item>, end: bool)

  function Parse(re: string): Pattern {
    if re == "" then Pattern([], false)
    else if |re| > 1 && re[1] == '*' then
      var p := Parse(re[2..]);
      Pattern([Star(re[0])] + p.items, p.end)
    else if re == "$" then Pattern([], true)
    else
      var p := Parse(re[1..]);
      Pattern([One(re[0])] + p.items, p.end)
  }

  predicate Fits(c: char, x: char) {
    c == '.' || c == x
  }

  predicate AllFit(c: char, w: string) {
    forall i :: 0 <= i < |w| ==> Fits(c, w[i])
  }

  predicate InItem(it: Item, w: string) {
    match it
    case One(c) => |w| == 1 && Fits(c, w[0])
    case Star(c) => AllFit(c, w)
  }

  function Concat(pieces: seq<string>): string {
    if pieces == [] then "" else pieces[0] + Concat(pieces[1..])
  }

  predicate Splits(items: seq<Item>, pieces: seq<string>, w: string) {
    |pieces| == |items| && Concat(pieces) == w && forall i :: 0 <= i < |items| ==> InItem(items[i], pieces[i])
  }

  // w consists of one piece for each item.
  ghost predicate InLang(items: seq<Item>, w: string) {
    exists pieces :: Splits(items, pieces, w)
  }

  // The pattern matches a prefix of text, all of it if it ends in $.
  ghost predicate Here(p: Pattern, text: string) {
    exists n: nat :: HereTo(p, text, n)
  }

  ghost predicate HereTo(p: Pattern, text: string, n: nat) {
    n <= |text| && InLang(p.items, text[..n]) && (p.end ==> n == |text|)
  }

  /** What it means for re to match text: somewhere, or at the start after ^. */
  ghost predicate Matches(re: string, text: string) {
    if re != "" && re[0] == '^' then Here(Parse(re[1..]), text)
    else exists i: nat :: i <= |text| && Here(Parse(re), text[i..])
  }

  // ---- the language, one item at a time

  lemma InLangEmpty(w: string)
    ensures InLang([], w) <==> w == ""
  {
    if w == "" {
      assert Splits([], [], w);
    }
  }

  ghost predicate SplitsAt(it: Item, items: seq<Item>, w: string, k: nat) {
    k <= |w| && InItem(it, w[..k]) && InLang(items, w[k..])
  }

  lemma InLangCons(it: Item, items: seq<Item>, w: string)
    ensures InLang([it] + items, w) <==> exists k: nat :: SplitsAt(it, items, w, k)
  {
    if InLang([it] + items, w) {
      var pieces :| Splits([it] + items, pieces, w);
      var k := |pieces[0]|;
      assert w[..k] == pieces[0] && w[k..] == Concat(pieces[1..]);
      assert forall i :: 0 <= i < |items| ==> ([it] + items)[i + 1] == items[i];
      assert Splits(items, pieces[1..], w[k..]);
      assert SplitsAt(it, items, w, k);
    }
    if k: nat :| SplitsAt(it, items, w, k) {
      var rest :| Splits(items, rest, w[k..]);
      var pieces := [w[..k]] + rest;
      assert pieces[1..] == rest && w[..k] + w[k..] == w;
      assert Splits([it] + items, pieces, w);
    }
  }

  // ---- a pattern at the start of a text

  lemma HereEmpty(text: string)
    ensures Here(Pattern([], false), text)
    ensures Here(Pattern([], true), text) <==> text == ""
  {
    InLangEmpty(text[..0]);
    InLangEmpty(text);
    assert text[..|text|] == text;
    assert HereTo(Pattern([], false), text, 0);
    if text == "" {
      assert HereTo(Pattern([], true), text, 0);
    }
  }

  // The first item takes k characters, and the rest matches after them.
  ghost predicate TakesFirst(it: Item, p: Pattern, text: string, k: nat) {
    k <= |text| && InItem(it, text[..k]) && Here(p, text[k..])
  }

  ghost predicate ItemThen(it: Item, p: Pattern, text: string) {
    exists k: nat :: TakesFirst(it, p, text, k)
  }

  lemma HereCons(it: Item, p: Pattern, text: string)
    ensures Here(Pattern([it] + p.items, p.end), text) <==> ItemThen(it, p, text)
  {
    var q := Pattern([it] + p.items, p.end);
    if n: nat :| HereTo(q, text, n) {
      InLangCons(it, p.items, text[..n]);
      var k: nat :| SplitsAt(it, p.items, text[..n], k);
      assert text[..n][..k] == text[..k] && text[..n][k..] == text[k..][..n - k];
      assert HereTo(p, text[k..], n - k);
      assert TakesFirst(it, p, text, k);
    }
    if k: nat :| TakesFirst(it, p, text, k) {
      var m: nat :| HereTo(p, text[k..], m);
      InLangCons(it, p.items, text[..k + m]);
      assert text[..k + m][..k] == text[..k] && text[..k + m][k..] == text[k..][..m];
      assert SplitsAt(it, p.items, text[..k + m], k);
      assert HereTo(q, text, k + m);
    }
  }

  lemma HereOne(c: char, p: Pattern, text: string)
    ensures Here(Pattern([One(c)] + p.items, p.end), text) <==> text != "" && Fits(c, text[0]) && Here(p, text[1..])
  {
    HereCons(One(c), p, text);
    if text != "" && Fits(c, text[0]) && Here(p, text[1..]) {
      assert TakesFirst(One(c), p, text, 1);
    }
  }

  // ---- the matching routines

  /** matchhere */
  method MatchHere(re: string, text: string) returns (r: bool)
    ensures r <==> Here(Parse(re), text)
    decreases |re|, 1
  {
    if re == "" {
      HereEmpty(text);
      return true;
    }
    if |re| > 1 && re[1] == '*' {
      var rest := Parse(re[2..]);
      assert Parse(re) == Pattern([Star(re[0])] + rest.items, rest.end);
      HereCons(Star(re[0]), rest, text);
      r := MatchStar(re[0], re[2..], text);
      return;
    }
    if re == "$" {
      HereEmpty(text);
      return text == "";
    }
    HereOne(re[0], Parse(re[1..]), text);
    if text != "" && (re[0] == '.' || re[0] == text[0]) {
      r := MatchHere(re[1..], text[1..]);
    } else {
      r := false;
    }
  }

  /** matchstar */
  method MatchStar(c: char, re: string, text: string) returns (r: bool)
    ensures r <==> ItemThen(Star(c), Parse(re), text)
    decreases |re|, 2 + |text|
  {
    var i := 0;
    while true
      invariant 0 <= i <= |text| && AllFit(c, text[..i])
      invariant forall k :: 0 <= k < i ==> !TakesFirst(Star(c), Parse(re), text, k)
      decreases |text| - i
    {
      r := MatchHere(re, text[i..]);
      if r {
        assert TakesFirst(Star(c), Parse(re), text, i);
        return;
      }
      if !(i < |text| && (text[i] == c || c == '.')) {
        forall k: nat ensures !TakesFirst(Star(c), Parse(re), text, k) {
          assert k > i && k <= |text| ==> text[..k][i] == text[i];
        }
        return;
      }
      i := i + 1;
    }
  }

  /** match: 1 exactly when the pattern matches somewhere in the text. */
  method Match(re: string, text: string) returns (r: bool)
    ensures r <==> Matches(re, text)
  {
    if re != "" && re[0] == '^' {
      r := MatchHere(re[1..], text);
      return;
    }
    var i := 0;
    while true
      invariant 0 <= i <= |text| && forall j :: 0 <= j < i ==> !Here(Parse(re), text[j..])
      decreases |text| - i
    {
      r := MatchHere(re, text[i..]);
      if r || i == |text| {
        return;
      }
      i := i + 1;
    }
  }
}
