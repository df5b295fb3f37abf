/** Wildcard patterns of Elasticsearch and LIKE patterns of SQL, and the escaping that makes
    user text literal in them. */
module Patterns {
  import opened Wrappers

  // ----- Matching ---------------------------------------------------------------

  /** A pattern element: a literal character, any one character, or any run of characters. */
  datatype Token = Lit(c: char) | One | Run

  function Map(fold: char -> char, s: string): (r: string)
    ensures |r| == |s| && forall i :: 0 <= i < |s| ==> r[i] == fold(s[i])
  {
    seq(|s|, i requires 0 <= i < |s| => fold(s[i]))
  }

  /** Whole-text matching; characters are compared after folding. */
  predicate Matches(fold: char -> char, tokens: seq<Token>, s: string)
    decreases |s|, |tokens|
  {
    if tokens == [] then s == []
    else match tokens[0]
      case Lit(c) => s != [] && fold(s[0]) == fold(c) && Matches(fold, tokens[1..], s[1..])
      case One => s != [] && Matches(fold, tokens[1..], s[1..])
      case Run => Matches(fold, tokens[1..], s) || (s != [] && Matches(fold, tokens, s[1..]))
  }

  function Literal(text: string): (tokens: seq<Token>)
    ensures |tokens| == |text|
  {
    seq(|text|, i requires 0 <= i < |text| => Lit(text[i]))
  }

  predicate StartsWith(s: string, t: string) {
    |t| <= |s| && s[..|t|] == t
  }

  predicate EndsWith(s: string, t: string) {
    |t| <= |s| && s[|s| - |t|..] == t
  }

  predicate Occurs(t: string, s: string) {
    exists k | 0 <= k <= |s| :: StartsWith(s[k..], t)
  }

  lemma {:induction false} LiteralMatches(fold: char -> char, text: string, rest: seq<Token>, s: string)
    ensures Matches(fold, Literal(text) + rest, s) <==>
            StartsWith(Map(fold, s), Map(fold, text)) && Matches(fold, rest, s[|text|..])
  {
    if text == [] {
      assert Literal(text) + rest == rest;
      assert Map(fold, s)[..0] == Map(fold, text);
    } else {
      var tokens := Literal(text) + rest;
      assert tokens[0] == Lit(text[0]);
      assert tokens[1..] == Literal(text[1..]) + rest;
      if s != [] {
        LiteralMatches(fold, text[1..], rest, s[1..]);
        assert |text| <= |s| ==> s[1..][|text| - 1..] == s[|text|..];
        var fs, ft := Map(fold, s), Map(fold, text);
        assert Map(fold, s[1..]) == fs[1..] && Map(fold, text[1..]) == ft[1..];
        if |ft| <= |fs| {
          assert fs[..|ft|] == [fs[0]] + fs[1..][..|ft| - 1];
          assert ft == [ft[0]] + ft[1..];
        }
      }
    }
  }

  lemma {:induction false} RunMatches(fold: char -> char, rest: seq<Token>, s: string)
    ensures Matches(fold, [Run] + rest, s) <==> exists k | 0 <= k <= |s| :: Matches(fold, rest, s[k..])
  {
    var tokens := [Run] + rest;
    assert tokens[1..] == rest;
    assert s[0..] == s;
    if s != [] {
      RunMatches(fold, rest, s[1..]);
      if Matches(fold, tokens, s[1..]) {
        var k :| 0 <= k <= |s[1..]| && Matches(fold, rest, s[1..][k..]);
        assert s[1..][k..] == s[k + 1..];
      }
      if k :| 0 <= k <= |s| && Matches(fold, rest, s[k..]) {
        if k > 0 {
          assert s[k..] == s[1..][k - 1..];
        }
      }
    }
  }

  lemma OnlyRunMatchesAll(fold: char -> char, s: string)
    ensures Matches(fold, [Run], s)
  {
    assert [Run] + [] == [Run];
    RunMatches(fold, [], s);
    assert s[|s|..] == [];
  }

  /** A literal between two runs finds the text anywhere. */
  lemma InfixMatches(fold: char -> char, text: string, s: string)
    ensures Matches(fold, [Run] + Literal(text) + [Run], s) <==> Occurs(Map(fold, text), Map(fold, s))
  {
    var rest := Literal(text) + [Run];
    assert [Run] + Literal(text) + [Run] == [Run] + rest;
    RunMatches(fold, rest, s);
    forall k | 0 <= k <= |s|
      ensures Matches(fold, rest, s[k..]) <==> StartsWith(Map(fold, s)[k..], Map(fold, text))
    {
      LiteralMatches(fold, text, [Run], s[k..]);
      assert Map(fold, s[k..]) == Map(fold, s)[k..];
      if StartsWith(Map(fold, s[k..]), Map(fold, text)) {
        OnlyRunMatchesAll(fold, s[k..][|text|..]);
      }
    }
  }

  /** A literal before a run is a prefix test. */
  lemma PrefixMatches(fold: char -> char, text: string, s: string)
    ensures Matches(fold, Literal(text) + [Run], s) <==> StartsWith(Map(fold, s), Map(fold, text))
  {
    LiteralMatches(fold, text, [Run], s);
    if StartsWith(Map(fold, s), Map(fold, text)) {
      OnlyRunMatchesAll(fold, s[|text|..]);
    }
  }

  /** A literal after a run is a suffix test. */
  lemma SuffixMatches(fold: char -> char, text: string, s: string)
    ensures Matches(fold, [Run] + Literal(text), s) <==> EndsWith(Map(fold, s), Map(fold, text))
  {
    RunMatches(fold, Literal(text), s);
    var fs, ft := Map(fold, s), Map(fold, text);
    forall k | 0 <= k <= |s|
      ensures Matches(fold, Literal(text), s[k..]) <==> k == |s| - |text| && fs[k..] == ft
    {
      LiteralMatches(fold, text, [], s[k..]);
      assert Literal(text) + [] == Literal(text);
      assert Map(fold, s[k..]) == fs[k..];
      if |text| <= |s| - k {
        assert s[k..][|text|..] == [] <==> |text| == |s| - k;
        assert |text| == |s| - k ==> fs[k..][..|ft|] == fs[k..];
      }
    }
  }

  // ----- Escaping ------------------------------------------------------------------

  /** Every occurrence of the character replaced. */
  function Replace(text: string, c: char, with: string): string {
    if text == [] then []
    else (if text[0] == c then with else [text[0]]) + Replace(text[1..], c, with)
  }

  lemma {:induction false} ReplaceAppend(s: string, t: string, c: char, with: string)
    ensures Replace(s + t, c, with) == Replace(s, c, with) + Replace(t, c, with)
  {
    if s == [] {
      assert s + t == t;
    } else {
      assert (s + t)[1..] == s[1..] + t;
      ReplaceAppend(s[1..], t, c, with);
    }
  }

  /** One backslash before each special character. */
  function Escape(special: set<char>, text: string): string {
    if text == [] then []
    else (if text[0] in special then ['\\', text[0]] else [text[0]]) + Escape(special, text[1..])
  }

  /** The backslash is doubled first, so the three replacements in a row escape each character once. */
  lemma {:induction false} ReplacesEscape(text: string, x: char, y: char)
    requires x != '\\' && y != '\\' && x != y
    ensures Replace(Replace(Replace(text, '\\', "\\\\"), x, ['\\', x]), y, ['\\', y]) == Escape({'\\', x, y}, text)
  {
    if text != [] {
      ReplacesEscape(text[1..], x, y);
      var c := text[0];
      var head := if c == '\\' then "\\\\" else [c];
      ReplaceAppend(head, Replace(text[1..], '\\', "\\\\"), x, ['\\', x]);
      var head2 := Replace(head, x, ['\\', x]);
      ReplaceAppend(head2, Replace(Replace(text[1..], '\\', "\\\\"), x, ['\\', x]), y, ['\\', y]);
      ReplaceOne(c, x, y);
    }
  }

  lemma ReplaceOne(c: char, x: char, y: char)
    requires x != '\\' && y != '\\' && x != y
    ensures var head := if c == '\\' then "\\\\" else [c];
            Replace(Replace(head, x, ['\\', x]), y, ['\\', y]) ==
            if c in {'\\', x, y} then ['\\', c] else [c]
  {
    ReplaceSingle(c, x);
    ReplaceSingle(c, y);
    ReplacePair('\\', c, x);
    ReplacePair('\\', c, y);
    ReplacePair('\\', x, y);
  }

  lemma ReplaceSingle(c: char, x: char)
    ensures Replace([c], x, ['\\', x]) == if c == x then ['\\', x] else [c]
  {
    assert [c][1..] == [];
  }

  lemma ReplacePair(a: char, b: char, x: char)
    ensures Replace([a, b], x, ['\\', x]) ==
            (if a == x then ['\\', x] else [a]) + (if b == x then ['\\', x] else [b])
  {
    assert [a, b][1..] == [b];
    ReplaceSingle(b, x);
  }

  function EscapeWildcard(text: string): string {
    Replace(Replace(Replace(text, '\\', "\\\\"), '*', "\\*"), '?', "\\?")
  }

  function EscapeLike(text: string): string {
    Replace(Replace(Replace(text, '\\', "\\\\"), '%', "\\%"), '_', "\\_")
  }

  // ----- Reading a pattern ----------------------------------------------------------

  /** The wildcard syntax: a backslash makes the next character literal, and stands for itself at
      the end. */
  function Wildcards(pattern: string): seq<Token> {
    if pattern == [] then []
    else if pattern[0] == '\\' && |pattern| > 1 then [Lit(pattern[1])] + Wildcards(pattern[2..])
    else [if pattern[0] == '*' then Run else if pattern[0] == '?' then One else Lit(pattern[0])] + Wildcards(pattern[1..])
  }

  /** LIKE with a backslash as the escape character (section 8.5 of ISO/IEC 9075-2:2003): an escape
      before anything but `%`, `_` or itself is an error. */
  function LikeTokens(pattern: string): Option<seq<Token>> {
    if pattern == [] then Some([])
    else if pattern[0] == '\\' then
      if |pattern| > 1 && pattern[1] in {'\\', '%', '_'} then Prepend(Lit(pattern[1]), LikeTokens(pattern[2..])) else None
    else
      Prepend(if pattern[0] == '%' then Run else if pattern[0] == '_' then One else Lit(pattern[0]), LikeTokens(pattern[1..]))
  }

  function Prepend(t: Token, rest: Option<seq<Token>>): Option<seq<Token>> {
    if rest.None? then None else Some([t] + rest.value)
  }

  function PrependAll(ts: seq<Token>, rest: Option<seq<Token>>): Option<seq<Token>> {
    if rest.None? then None else Some(ts + rest.value)
  }

  lemma EscapedCharacter(c: char, tail: string)
    ensures Wildcards((if c in {'\\', '*', '?'} then ['\\', c] else [c]) + tail) == [Lit(c)] + Wildcards(tail)
  {
    assert (['\\', c] + tail)[2..] == tail;
    assert ([c] + tail)[1..] == tail;
  }

  lemma EscapedFirst(text: string, tail: string, rest: seq<Token>)
    requires text != "" && Wildcards(tail) == Literal(text[1..]) + rest
    ensures Wildcards((if text[0] in {'\\', '*', '?'} then ['\\', text[0]] else [text[0]]) + tail) == Literal(text) + rest
  {
    EscapedCharacter(text[0], tail);
    assert Literal(text) == [Lit(text[0])] + Literal(text[1..]);
    assert Literal(text) + rest == [Lit(text[0])] + (Literal(text[1..]) + rest);
  }

  lemma {:induction false} EscapedReadsLiterally(text: string, rest: string)
    ensures Wildcards(Escape({'\\', '*', '?'}, text) + rest) == Literal(text) + Wildcards(rest)
  {
    var special := {'\\', '*', '?'};
    if text == [] {
      assert Escape(special, text) + rest == rest;
      assert Literal(text) + Wildcards(rest) == Wildcards(rest);
    } else {
      EscapedReadsLiterally(text[1..], rest);
      EscapedFirst(text, Escape(special, text[1..]) + rest, Wildcards(rest));
      assert Escape(special, text) + rest ==
             (if text[0] in special then ['\\', text[0]] else [text[0]]) + (Escape(special, text[1..]) + rest);
    }
  }

  lemma PrependOne(t: Token, ts: seq<Token>, rest: Option<seq<Token>>)
    ensures Prepend(t, PrependAll(ts, rest)) == PrependAll([t] + ts, rest)
  {
    assert rest.Some? ==> [t] + (ts + rest.value) == [t] + ts + rest.value;
  }

  lemma {:induction false} EscapedLikeReadsLiterally(text: string, rest: string)
    ensures LikeTokens(Escape({'\\', '%', '_'}, text) + rest) == PrependAll(Literal(text), LikeTokens(rest))
  {
    var special := {'\\', '%', '_'};
    if text == [] {
      assert Escape(special, text) + rest == rest;
      assert LikeTokens(rest).Some? ==> Literal(text) + LikeTokens(rest).value == LikeTokens(rest).value;
    } else {
      EscapedLikeReadsLiterally(text[1..], rest);
      var tail := Escape(special, text[1..]) + rest;
      var all := Escape(special, text) + rest;
      assert Literal(text) == [Lit(text[0])] + Literal(text[1..]);
      PrependOne(Lit(text[0]), Literal(text[1..]), LikeTokens(rest));
      if text[0] in special {
        assert all == ['\\', text[0]] + tail;
        assert all[2..] == tail;
        assert LikeTokens(all) == Prepend(Lit(text[0]), LikeTokens(tail));
      } else {
        assert all == [text[0]] + tail;
        assert all[1..] == tail;
        assert LikeTokens(all) == Prepend(Lit(text[0]), LikeTokens(tail));
      }
    }
  }

  // ----- What the two engines find ------------------------------------------------------

  predicate WildcardFinds(fold: char -> char, pattern: string, s: string) {
    Matches(fold, Wildcards(pattern), s)
  }

  /** LIKE compares characters as they are; a malformed pattern has no answer. */
  function Like(s: string, pattern: string): Option<bool> {
    if LikeTokens(pattern).None? then None else Some(Matches(c => c, LikeTokens(pattern).value, s))
  }

  /** `*text*` with the text escaped finds exactly the strings in which the text occurs. */
  lemma WildcardContains(fold: char -> char, text: string, s: string)
    ensures WildcardFinds(fold, "*" + EscapeWildcard(text) + "*", s) <==> Occurs(Map(fold, text), Map(fold, s))
  {
    ReplacesEscape(text, '*', '?');
    var esc := EscapeWildcard(text);
    EscapedReadsLiterally(text, "*");
    assert ("*" + esc + "*")[1..] == esc + "*";
    assert Wildcards("*") == [Run] by { assert "*"[1..] == []; }
    assert Wildcards("*" + esc + "*") == [Run] + (Literal(text) + [Run]);
    assert [Run] + (Literal(text) + [Run]) == [Run] + Literal(text) + [Run];
    InfixMatches(fold, text, s);
  }

  /** `*text` finds exactly the strings that end with the text. */
  lemma WildcardEnds(fold: char -> char, text: string, s: string)
    ensures WildcardFinds(fold, "*" + EscapeWildcard(text), s) <==> EndsWith(Map(fold, s), Map(fold, text))
  {
    ReplacesEscape(text, '*', '?');
    var esc := EscapeWildcard(text);
    EscapedReadsLiterally(text, "");
    assert esc + "" == esc && Literal(text) + [] == Literal(text);
    assert ("*" + esc)[1..] == esc;
    SuffixMatches(fold, text, s);
  }

  lemma SameUnderIdentity(s: string)
    ensures Map(c => c, s) == s
  {
  }

  /** Escaped text never makes a LIKE pattern malformed, and `%text%` asks for an occurrence. */
  lemma LikeContains(text: string, s: string)
    ensures Like(s, "%" + EscapeLike(text) + "%") == Some(Occurs(text, s))
  {
    ReplacesEscape(text, '%', '_');
    var esc := EscapeLike(text);
    EscapedLikeReadsLiterally(text, "%");
    assert ("%" + esc + "%")[1..] == esc + "%";
    assert LikeTokens("%") == Some([Run]) by { assert "%"[1..] == [] && [Run] + [] == [Run]; }
    assert LikeTokens("%" + esc + "%") == Some([Run] + (Literal(text) + [Run]));
    assert [Run] + (Literal(text) + [Run]) == [Run] + Literal(text) + [Run];
    InfixMatches(c => c, text, s);
    SameUnderIdentity(text);
    SameUnderIdentity(s);
  }

  lemma LikeStarts(text: string, s: string)
    ensures Like(s, EscapeLike(text) + "%") == Some(StartsWith(s, text))
  {
    ReplacesEscape(text, '%', '_');
    EscapedLikeReadsLiterally(text, "%");
    assert LikeTokens("%") == Some([Run]) by { assert "%"[1..] == [] && [Run] + [] == [Run]; }
    PrefixMatches(c => c, text, s);
    SameUnderIdentity(text);
    SameUnderIdentity(s);
  }

  lemma LikeEnds(text: string, s: string)
    ensures Like(s, "%" + EscapeLike(text)) == Some(EndsWith(s, text))
  {
    ReplacesEscape(text, '%', '_');
    var esc := EscapeLike(text);
    EscapedLikeReadsLiterally(text, "");
    assert esc + "" == esc && Literal(text) + [] == Literal(text);
    assert ("%" + esc)[1..] == esc;
    SuffixMatches(c => c, text, s);
    SameUnderIdentity(text);
    SameUnderIdentity(s);
  }
}
