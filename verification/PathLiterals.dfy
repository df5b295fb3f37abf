/** Reading the literal of a JSON path back: as the validator of generated SQL does, and as the database. */
module PathLiterals {
  import opened Wrappers
  import opened Text
  import opened Patterns
  import opened GaussFilter
  import opened SqlText

  // ----- The quoted literal ----------------------------------------------------------------

  /** Two quotes in a row stand for one. */
  function Undoubled(s: string): string {
    if s == "" then ""
    else if |s| > 1 && s[0] == '\'' && s[1] == '\'' then ['\''] + Undoubled(s[2..])
    else [s[0]] + Undoubled(s[1..])
  }

  predicate IsQuoted(text: string) {
    |text| >= 2 && text[0] == '\'' && text[|text| - 1] == '\''
  }

  predicate IsBraced(text: string) {
    text != "" && text[0] == '{' && text[|text| - 1] == '}'
  }

  lemma {:induction false} UndoubledReplace(s: string)
    ensures Undoubled(Replace(s, '\'', "''")) == s
  {
    if s != "" {
      var r, more := Replace(s, '\'', "''"), Replace(s[1..], '\'', "''");
      UndoubledReplace(s[1..]);
      if s[0] == '\'' {
        assert r == "''" + more && r[2..] == more;
      } else {
        assert r == [s[0]] + more && r[1..] == more;
      }
    }
  }

  lemma LiteralUnquotes(path: Path)
    ensures IsQuoted(PathLiteral(path)) && Strip(PathLiteral(path)) == PathLiteral(path)
    ensures var l := PathLiteral(path); Undoubled(l[1..|l| - 1]) == "{" + QuotedParts(path) + "}"
  {
    var l, text := PathLiteral(path), "{" + QuotedParts(path) + "}";
    var doubled := Replace(text, '\'', "''");
    assert l == "'" + doubled + "'" && l[1..|l| - 1] == doubled;
    assert StripLeft(l) == l && StripRight(l) == l;
    UndoubledReplace(text);
  }

  // ----- The elements between the braces ------------------------------------------------------

  /** An element as it is read, and whether any of it stood in quotes. */
  datatype Element = Element(text: string, inQuotes: bool)

  const BLANK := Element("", false)

  /** The state of the character loop: the element being read, whether quotes are open, whether a backslash
      came last, and the elements read before. */
  datatype State = State(buf: Element, quoted: bool, escaped: bool, parts: seq<Element>)

  const START := State(BLANK, false, false, [])

  function Take(s: State, c: char): State {
    s.(buf := s.buf.(text := s.buf.text + [c]))
  }

  function Step(s: State, c: char): State {
    if s.escaped then Take(s, c).(escaped := false)
    else if s.quoted && c == '\\' then s.(escaped := true)
    else if c == '"' then s.(quoted := !s.quoted, buf := s.buf.(inQuotes := true))
    else if c == ',' && !s.quoted then s.(parts := s.parts + [s.buf], buf := BLANK)
    else Take(s, c)
  }

  function Steps(s: State, text: string): State
    decreases |text|
  {
    if text == "" then s else Steps(Step(s, text[0]), text[1..])
  }

  lemma {:induction false} StepsAppend(s: State, a: string, b: string)
    ensures Steps(s, a + b) == Steps(Steps(s, a), b)
    decreases |a|
  {
    if a == "" {
      assert a + b == b;
    } else {
      assert (a + b)[1..] == a[1..] + b;
      StepsAppend(Step(s, a[0]), a[1..], b);
    }
  }

  function Elements(body: string): Option<seq<Element>> {
    var s := Steps(START, body);
    if s.quoted || s.escaped then None else Some(s.parts + [s.buf])
  }

  // ----- The validator ------------------------------------------------------------------------

  function Inner(value: string): string {
    var text := Strip(value);
    if IsQuoted(text) then Undoubled(text[1..|text| - 1]) else text
  }

  function Names(es: seq<Element>): (names: seq<string>)
    ensures |names| == |es| && forall i :: 0 <= i < |es| ==> names[i] == es[i].text
  {
    seq(|es|, i requires 0 <= i < |es| => es[i].text)
  }

  /** The path that a literal spells; none if it is malformed or has an empty segment. */
  function ParsePath(value: string): Option<Path> {
    var text := Inner(value);
    if !IsBraced(text) || |text| < 2 then None
    else
      match Elements(text[1..|text| - 1])
      case None => None
      case Some(es) => if "" in Names(es) then None else Some(Names(es))
  }

  /** The character loop of the validator. */
  method ParseJsonbPath(value: string) returns (path: Option<Path>)
    ensures path == ParsePath(value)
  {
    var text := Inner(value);
    if text == "" || text[0] != '{' || text[|text| - 1] != '}' {
      return None;
    }
    assert |text| > 1;
    var body := text[1..|text| - 1];
    var parts: seq<Element>, buf := [], BLANK;
    var quoted, escaped := false, false;
    for i := 0 to |body|
      invariant State(buf, quoted, escaped, parts) == Steps(START, body[..i])
    {
      var c := body[i];
      StepsAppend(START, body[..i], [c]);
      assert body[..i + 1] == body[..i] + [c] && [c][1..] == "";
      if escaped {
        buf := buf.(text := buf.text + [c]);
        escaped := false;
      } else if quoted && c == '\\' {
        escaped := true;
      } else if c == '"' {
        quoted := !quoted;
        buf := buf.(inQuotes := true);
      } else if c == ',' && !quoted {
        parts := parts + [buf];
        buf := BLANK;
      } else {
        buf := buf.(text := buf.text + [c]);
      }
    }
    assert body[..|body|] == body;
    if quoted || escaped {
      return None;
    }
    parts := parts + [buf];
    if "" in Names(parts) {
      return None;
    }
    path := Some(Names(parts));
  }

  // ----- Quoted segments are read back -----------------------------------------------------------

  predicate IsBare(segment: string) {
    segment != "" && forall i | 0 <= i < |segment| :: IsWordChar(segment[i])
  }

  function Escaped(segment: string): string {
    Replace(Replace(segment, '\\', "\\\\"), '"', "\\\"")
  }

  function EscapedChar(c: char): string {
    if c == '\\' then ['\\', '\\'] else if c == '"' then ['\\', '"'] else [c]
  }

  lemma EscapedCons(c: char, rest: string)
    ensures Escaped([c] + rest) == EscapedChar(c) + Escaped(rest)
  {
    var head := if c == '\\' then "\\\\" else [c];
    assert ([c] + rest)[1..] == rest;
    ReplaceAppend(head, Replace(rest, '\\', "\\\\"), '"', "\\\"");
    ReplacePair('\\', c, '"');
    ReplacePair('\\', '\\', '"');
    ReplaceSingle(c, '"');
  }

  lemma StepsOfEscapedChar(s: State, c: char)
    requires s.quoted && !s.escaped
    ensures Steps(s, EscapedChar(c)) == Take(s, c)
  {
    var e := EscapedChar(c);
    if |e| == 2 {
      assert e[1..] == [c] && e[1..][1..] == "";
      assert Steps(s, e) == Steps(Step(s, '\\'), [c]) == Step(Step(s, '\\'), c);
    } else {
      assert e[1..] == "";
      assert Steps(s, e) == Step(s, c);
    }
  }

  /** Inside quotes every character of an escaped segment is read as it was. */
  lemma {:induction false} EscapedIsRead(s: State, segment: string)
    requires s.quoted && !s.escaped
    ensures Steps(s, Escaped(segment)) == s.(buf := s.buf.(text := s.buf.text + segment))
    decreases |segment|
  {
    if segment == "" {
      assert s.buf.text + "" == s.buf.text;
    } else {
      var c, rest := segment[0], segment[1..];
      assert segment == [c] + rest;
      EscapedCons(c, rest);
      StepsAppend(s, EscapedChar(c), Escaped(rest));
      StepsOfEscapedChar(s, c);
      EscapedIsRead(Take(s, c), rest);
      assert s.buf.text + [c] + rest == s.buf.text + segment;
    }
  }

  lemma {:induction false} WordIsRead(s: State, word: string)
    requires !s.quoted && !s.escaped && forall i | 0 <= i < |word| :: IsWordChar(word[i])
    ensures Steps(s, word) == s.(buf := s.buf.(text := s.buf.text + word))
    decreases |word|
  {
    if word == "" {
      assert s.buf.text + "" == s.buf.text;
    } else {
      assert IsWordChar(word[0]);
      WordIsRead(Take(s, word[0]), word[1..]);
      assert s.buf.text + [word[0]] + word[1..] == s.buf.text + word;
    }
  }

  function ElementOf(segment: string): Element {
    Element(segment, !IsBare(segment))
  }

  lemma SegmentIsRead(s: State, segment: string)
    requires !s.quoted && !s.escaped && s.buf == BLANK
    ensures Steps(s, Quoted(segment)) == s.(buf := ElementOf(segment))
  {
    assert "" + segment == segment;
    if IsBare(segment) {
      WordIsRead(s, segment);
    } else {
      var quote := "\"";
      assert quote[1..] == "";
      StepsAppend(s, quote + Escaped(segment), quote);
      StepsAppend(s, quote, Escaped(segment));
      assert Steps(s, quote) == Step(s, '"');
      EscapedIsRead(Step(s, '"'), segment);
    }
  }

  function ElementsOf(path: Path): (es: seq<Element>)
    ensures |es| == |path| && forall i :: 0 <= i < |path| ==> es[i] == ElementOf(path[i])
  {
    seq(|path|, i requires 0 <= i < |path| => ElementOf(path[i]))
  }

  /** The state behind a segment and a comma. */
  lemma SegmentAndComma(s: State, segment: string, rest: string)
    requires !s.quoted && !s.escaped && s.buf == BLANK
    ensures Steps(s, Quoted(segment) + "," + rest) == Steps(s.(parts := s.parts + [ElementOf(segment)]), rest)
  {
    var first := Quoted(segment);
    assert first + "," + rest == first + ("," + rest);
    SegmentIsRead(s, segment);
    StepsAppend(s, first, "," + rest);
    StepsAppend(Steps(s, first), ",", rest);
    CommaStep(Steps(s, first));
  }

  /** The state is at the end of the elements. */
  predicate HasRead(s: State, es: seq<Element>) {
    !s.quoted && !s.escaped && s.parts + [s.buf] == es
  }

  lemma ElementsCons(before: seq<Element>, path: Path)
    requires path != []
    ensures before + [ElementOf(path[0])] + ElementsOf(path[1..]) == before + ElementsOf(path)
  {
    assert ElementsOf(path) == [ElementOf(path[0])] + ElementsOf(path[1..]);
  }

  lemma {:induction false} PartsAreRead(s: State, path: Path)
    requires path != [] && !s.quoted && !s.escaped && s.buf == BLANK
    ensures HasRead(Steps(s, QuotedParts(path)), s.parts + ElementsOf(path))
    decreases |path|
  {
    ElementsCons(s.parts, path);
    if |path| == 1 {
      SegmentIsRead(s, path[0]);
    } else {
      SegmentAndComma(s, path[0], QuotedParts(path[1..]));
      PartsAreRead(s.(parts := s.parts + [ElementOf(path[0])]), path[1..]);
    }
  }

  lemma CommaStep(s: State)
    requires !s.quoted && !s.escaped
    ensures Steps(s, ",") == Step(s, ',') == s.(parts := s.parts + [s.buf], buf := BLANK)
  {
    var comma := ",";
    assert comma[1..] == "";
  }

  lemma BodyIsRead(path: Path)
    requires path != []
    ensures Elements(QuotedParts(path)) == Some(ElementsOf(path))
  {
    PartsAreRead(START, path);
    assert [] + ElementsOf(path) == ElementsOf(path);
  }

  lemma BlankBody()
    ensures Elements("") == Some([BLANK])
  {
    assert [] + [BLANK] == [BLANK];
  }

  lemma Braces(body: string)
    ensures var text := "{" + body + "}"; IsBraced(text) && |text| >= 2 && text[1..|text| - 1] == body
  {
  }

  /** The validator reads a written path back exactly if the path has a segment and no empty one. */
  lemma ParseWritten(path: Path)
    ensures ParsePath(PathLiteral(path)) == if path == [] || "" in path then None else Some(path)
  {
    LiteralUnquotes(path);
    Braces(QuotedParts(path));
    if path == [] {
      BlankBody();
      assert Names([BLANK])[0] == "" && "" in Names([BLANK]);
    } else {
      BodyIsRead(path);
      assert Names(ElementsOf(path)) == path;
    }
  }

  // ----- The database -------------------------------------------------------------------------------

  /** An array element that is not quoted and spells `null` in any case is no text. */
  predicate SpellsNull(s: string) {
    && |s| == 4
    && (s[0] == 'n' || s[0] == 'N') && (s[1] == 'u' || s[1] == 'U')
    && (s[2] == 'l' || s[2] == 'L') && (s[3] == 'l' || s[3] == 'L')
  }

  function ArrayItem(e: Element): Option<string> {
    if !e.inQuotes && SpellsNull(e.text) then None else Some(e.text)
  }

  function ArrayItems(es: seq<Element>): (items: seq<Option<string>>)
    ensures |items| == |es| && forall i :: 0 <= i < |es| ==> items[i] == ArrayItem(es[i])
  {
    seq(|es|, i requires 0 <= i < |es| => ArrayItem(es[i]))
  }

  /** The text array that a string literal stands for. (Backslashes are ordinary in the literal. White space
      outside of quotes, which a written path does not have, is not looked at.) */
  function ReadArray(literal: string): Option<seq<Option<string>>> {
    if !IsQuoted(literal) then None
    else
      var text := Undoubled(literal[1..|literal| - 1]);
      if !IsBraced(text) || |text| < 2 then None
      else if text[1..|text| - 1] == "" then Some([])
      else
        match Elements(text[1..|text| - 1])
        case None => None
        case Some(es) => if BLANK in es then None else Some(ArrayItems(es))
  }

  /** What the segments of a path are read as. */
  function AsRead(path: Path): (items: seq<Option<string>>)
    ensures |items| == |path|
    ensures forall i :: 0 <= i < |path| ==> items[i] == if SpellsNull(path[i]) then None else Some(path[i])
  {
    seq(|path|, i requires 0 <= i < |path| => if SpellsNull(path[i]) then None else Some(path[i]))
  }

  lemma NullIsBare(s: string)
    requires SpellsNull(s)
    ensures IsBare(s)
  {
    forall i | 0 <= i < |s| ensures IsWordChar(s[i]) {
      assert i == 0 || i == 1 || i == 2 || i == 3;
    }
  }

  /** The database reads every segment of a written path as it is, but for those that spell `null`. */
  lemma DatabaseReads(path: Path)
    ensures ReadArray(PathLiteral(path)) == Some(AsRead(path))
  {
    LiteralUnquotes(path);
    Braces(QuotedParts(path));
    if path != [] {
      BodyIsRead(path);
      var es := ElementsOf(path);
      forall i | 0 <= i < |path| ensures es[i] != BLANK && ArrayItem(es[i]) == AsRead(path)[i] {
        if SpellsNull(path[i]) {
          NullIsBare(path[i]);
        }
      }
      assert ArrayItems(es) == AsRead(path);
      BlankBody();
      assert es[0] != BLANK;
    }
  }
}
