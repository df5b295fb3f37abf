/** Which metadata keys reach the database as they were meant: what the driver sends of a key path, and what the
    database reads in it. */
module KeyReading {
  import opened Wrappers
  import opened PythonValues
  import opened Patterns
  import opened Documents
  import opened MetaFilter
  import opened GaussFilter
  import opened GaussMeaning
  import opened SqlText
  import opened SqlPlaceholders
  import opened KeyPercents
  import opened PathLiterals

  // ----- Pairs of percent signs ------------------------------------------------------------

  /** A pair of percent signs becomes one. */
  function Halved(s: string): string {
    if s == "" then ""
    else if s[0] == '%' && |s| > 1 then ['%'] + Halved(s[2..])
    else [s[0]] + Halved(s[1..])
  }

  lemma PlainIsPaired(s: string)
    requires '%' !in s
    ensures Paired(s)
  {
    PairedBehind(s, "");
    assert s + "" == s;
  }

  lemma {:induction false} HalvedPlain(s: string)
    requires '%' !in s
    ensures Halved(s) == s
  {
    if s != "" {
      HalvedPlain(s[1..]);
    }
  }

  lemma {:induction false} HalvedIsShorter(s: string)
    requires Paired(s)
    ensures |Halved(s)| <= |s| && ('%' in s <==> '%' in Halved(s)) && ('%' in s ==> |Halved(s)| < |s|)
    decreases |s|
  {
    if s != "" {
      if s[0] == '%' {
        HalvedIsShorter(s[2..]);
      } else {
        HalvedIsShorter(s[1..]);
        assert '%' in s <==> '%' in s[1..];
        assert Halved(s)[1..] == Halved(s[1..]);
      }
    }
  }

  lemma {:induction false} HalvedJoined(a: string, b: string)
    requires Paired(a)
    ensures Halved(a + b) == Halved(a) + Halved(b)
    decreases |a|
  {
    if a == "" {
      assert a + b == b;
    } else if a[0] == '%' {
      assert (a + b)[2..] == a[2..] + b;
      HalvedJoined(a[2..], b);
    } else {
      assert (a + b)[1..] == a[1..] + b;
      HalvedJoined(a[1..], b);
    }
  }

  /** Text in front of and behind the pairs stays. */
  lemma HalvedBetween(a: string, s: string, b: string)
    requires '%' !in a && '%' !in b && Paired(s)
    ensures Halved(a + s + b) == a + Halved(s) + b
  {
    PlainIsPaired(a);
    assert a + s + b == a + (s + b);
    HalvedJoined(a, s + b);
    HalvedJoined(s, b);
    HalvedPlain(a);
    HalvedPlain(b);
  }

  lemma {:induction false} HalvedReplaced(s: string, c: char, with: string)
    requires Paired(s) && c != '%' && '%' !in with
    ensures Halved(Replace(s, c, with)) == Replace(Halved(s), c, with)
    decreases |s|
  {
    if s != "" {
      if s[0] == '%' {
        HalvedReplaced(s[2..], c, with);
        assert s[1..][1..] == s[2..];
        assert Replace(s, c, with) == ['%', '%'] + Replace(s[2..], c, with);
        assert Replace(s, c, with)[2..] == Replace(s[2..], c, with);
        assert Halved(s)[1..] == Halved(s[2..]);
      } else {
        HalvedReplaced(s[1..], c, with);
        var head := if s[0] == c then with else [s[0]];
        PlainIsPaired(head);
        HalvedJoined(head, Replace(s[1..], c, with));
        HalvedPlain(head);
        assert Halved(s)[1..] == Halved(s[1..]);
      }
    }
  }

  // ----- A path after the driver ------------------------------------------------------------------

  function CharOf(p: Part): char {
    match p
    case Char(c) => c
    case Value => '%'
  }

  /** A statement without a value in it, as a text. */
  function PlainText(parts: Option<seq<Part>>): Option<string> {
    match parts
    case None => None
    case Some(ps) => if Value in ps then None else Some(seq(|ps|, i requires 0 <= i < |ps| => CharOf(ps[i])))
  }

  /** The text that is sent, if there is no error and no value in it. */
  function PlainlySent(text: string): Option<string> {
    PlainText(Sent(text))
  }

  lemma PlainBefore(p: Part, rest: Option<seq<Part>>)
    ensures PlainText(KeyPercents.Before(p, rest)) ==
            if p.Value? || PlainText(rest).None? then None else Some([p.c] + PlainText(rest).value)
  {
    if rest.Some? {
      var all := [p] + rest.value;
      assert Value in all <==> p == Value || Value in rest.value;
      if p.Char? && Value !in rest.value {
        assert seq(|all|, i requires 0 <= i < |all| => CharOf(all[i])) == [p.c] + PlainText(rest).value;
      }
    }
  }

  lemma {:induction false} PlainlySentIs(text: string)
    ensures PlainlySent(text) == if Paired(text) then Some(Halved(text)) else None
    decreases |text|
  {
    if text == "" {
      assert Value !in Sent(text).value && |PlainlySent(text).value| == 0;
    } else if text[0] != '%' {
      PlainlySentIs(text[1..]);
      PlainBefore(Char(text[0]), Sent(text[1..]));
    } else if |text| > 1 {
      PlainlySentIs(text[2..]);
      PlainBefore(Char('%'), Sent(text[2..]));
      PlainBefore(Value, Sent(text[2..]));
    }
  }

  function HalvedPath(path: Path): (r: Path)
    ensures |r| == |path| && forall i :: 0 <= i < |path| ==> r[i] == Halved(path[i])
  {
    seq(|path|, i requires 0 <= i < |path| => Halved(path[i]))
  }

  lemma HalvedBare(segment: string)
    requires Paired(segment)
    ensures IsBare(Halved(segment)) <==> IsBare(segment)
    ensures IsBare(segment) ==> Halved(segment) == segment
  {
    HalvedIsShorter(segment);
    if '%' !in segment {
      HalvedPlain(segment);
    } else {
      var i :| 0 <= i < |segment| && segment[i] == '%';
      assert !IsWordChar(segment[i]);
      var k :| 0 <= k < |Halved(segment)| && Halved(segment)[k] == '%';
      assert !IsWordChar(Halved(segment)[k]);
    }
  }

  lemma HalvedQuoted(segment: string)
    requires Paired(segment)
    ensures Halved(Quoted(segment)) == Quoted(Halved(segment))
  {
    HalvedBare(segment);
    if !IsBare(segment) {
      PairedReplaced(segment, '\\', "\\\\");
      var once := Replace(segment, '\\', "\\\\");
      PairedReplaced(once, '"', "\\\"");
      HalvedReplaced(segment, '\\', "\\\\");
      HalvedReplaced(once, '"', "\\\"");
      HalvedBetween("\"", Escaped(segment), "\"");
    }
  }

  lemma HalvedPair(a: string, b: string)
    requires Paired(a) && Paired(b)
    ensures Paired(a + "," + b) && Halved(a + "," + b) == Halved(a) + "," + Halved(b)
  {
    var comma := ",";
    assert a + comma + b == a + (comma + b);
    PairedBehind(comma, b);
    PairedJoined(a, comma + b);
    HalvedJoined(a, comma + b);
    HalvedBetween(comma, b, "");
    assert comma + b + "" == comma + b && comma + Halved(b) + "" == comma + Halved(b);
    assert Halved(a) + (comma + Halved(b)) == Halved(a) + comma + Halved(b);
  }

  lemma {:induction false} HalvedParts(path: Path)
    requires AllPaired(path)
    ensures Paired(QuotedParts(path)) && Halved(QuotedParts(path)) == QuotedParts(HalvedPath(path))
    decreases |path|
  {
    if path != [] {
      HalvedQuoted(path[0]);
      PairedQuoted(path[0]);
      if |path| > 1 {
        HalvedParts(path[1..]);
        HalvedPair(Quoted(path[0]), QuotedParts(path[1..]));
        assert HalvedPath(path)[1..] == HalvedPath(path[1..]);
      }
    }
  }

  lemma HalvedLiteral(path: Path)
    requires AllPaired(path)
    ensures Halved(PathLiteral(path)) == PathLiteral(HalvedPath(path))
  {
    HalvedParts(path);
    var parts := QuotedParts(path);
    var text := "{" + parts + "}";
    HalvedBetween("{", parts, "}");
    assert Paired(text) by {
      PairedBehind("{", parts + "}");
      PairedJoined(parts, "}");
      assert text == "{" + (parts + "}");
    }
    PairedReplaced(text, '\'', "''");
    HalvedReplaced(text, '\'', "''");
    HalvedBetween("'", Replace(text, '\'', "''"), "'");
  }

  /** What the database reads where a path was written. */
  function Received(path: Path): Option<seq<Option<string>>> {
    match PlainlySent(PathLiteral(path))
    case None => None
    case Some(literal) => ReadArray(literal)
  }

  /** The segments arrive with pairs of percent signs halved and without those that spell `null`; nothing
      arrives if some run of percent signs is odd. */
  lemma PathIsReceivedAs(path: Path)
    ensures Received(path) == if AllPaired(path) then Some(AsRead(HalvedPath(path))) else None
  {
    PlainlySentIs(PathLiteral(path));
    PairedIsCounted(PathLiteral(path));
    CleanPathIff(path);
    if AllPaired(path) {
      HalvedLiteral(path);
      DatabaseReads(HalvedPath(path));
    }
  }

  // ----- Keys that arrive -----------------------------------------------------------------------------

  predicate Arrives(path: Path) {
    Received(path).Some? && |Received(path).value| == |path|
    && forall i | 0 <= i < |path| :: Received(path).value[i] == Some(path[i])
  }

  predicate SomeNull(path: Path) {
    exists i | 0 <= i < |path| :: SpellsNull(path[i])
  }

  /** A path arrives exactly if no segment has a percent sign or spells `null`. */
  lemma PathArrivesIff(path: Path)
    ensures Arrives(path) <==> !SomePercent(path) && !SomeNull(path)
  {
    PathIsReceivedAs(path);
    if AllPaired(path) {
      forall i | 0 <= i < |path|
        ensures AsRead(HalvedPath(path))[i] == Some(path[i]) <==> '%' !in path[i] && !SpellsNull(path[i])
      {
        HalvedIsShorter(path[i]);
        if '%' !in path[i] {
          HalvedPlain(path[i]);
        }
      }
    } else {
      var i :| 0 <= i < |path| && !Paired(path[i]);
      if '%' !in path[i] {
        PlainIsPaired(path[i]);
      }
    }
  }

  /** A part of the key between dots spells `null`. */
  predicate NamesNull(key: string) {
    SomeNull(SplitDots(key))
  }

  lemma KeyArrivesIff(key: string)
    requires PathOf(PStr(key)).Ok?
    ensures Arrives(PathOf(PStr(key)).value) <==> '%' !in key && !NamesNull(key)
  {
    PathArrivesIff(PathOf(PStr(key)).value);
    PercentSplit(key);
  }

  /** The statement of a plan is sent as it was written, and the database reads the keys of all filters in
      it, if and only if no key has a percent sign or a part that spells `null`. */
  lemma PlanReachesKeysIff(py: Python, rd: Reader, filters: seq<Filter>, logic: string)
    requires FilterFor(py, rd, filters, logic).Ok?
    ensures forall f :: f in filters ==> f.key.PStr?
    ensures var t := FilterFor(py, rd, filters, logic).value;
            && Sent(Render(t.sql)) == Some(Intended(Pieces(t.sql)))
            && (forall path :: KeyPath(path) in Pieces(t.sql) ==> Arrives(path))
            <==> forall f :: f in filters ==> '%' !in f.key.s && !NamesNull(f.key.s)
  {
    var t := FilterFor(py, rd, filters, logic).value;
    PlanIsSentIff(py, rd, filters, logic);
    PlanPaths(py, rd, filters, logic);
    PiecesAre(t.sql);
    forall f | f in filters
      ensures f.key.PStr? && KeyPath(PathOf(f.key).value) in Pieces(t.sql)
      ensures Arrives(PathOf(f.key).value) <==> '%' !in f.key.s && !NamesNull(f.key.s)
    {
      KeyArrivesIff(f.key.s);
    }
    forall path | KeyPath(path) in Pieces(t.sql) ensures exists f :: f in filters && PathOf(f.key).value == path {
    }
  }

  // ----- What is found at a path -------------------------------------------------------------------------

  /** The value at a path as it is received: a segment that is no text finds nothing. */
  function Found(db: Database, j: Json, path: Path): Option<Json> {
    match Received(path)
    case None => None
    case Some(items) =>
      if None in items then None
      else ValueAt(db, j, seq(|items|, i requires 0 <= i < |items| => if items[i].Some? then items[i].value else ""))
  }

  /** A path that arrives finds the value that was meant. */
  lemma ArrivedFindsValue(db: Database, j: Json, path: Path)
    requires Arrives(path)
    ensures Found(db, j, path) == ValueAt(db, j, path)
  {
    var items := Received(path).value;
    assert None !in items;
    assert seq(|items|, i requires 0 <= i < |items| => if items[i].Some? then items[i].value else "") == path;
  }

  /** The value under the key `null` is not found. */
  lemma NullKeyIsNotFound(db: Database)
    ensures var j := Obj([Field("null", Str("x"))]);
            PathOf(PStr("null")) == Ok(["null"]) && ValueAt(db, j, ["null"]) == Some(Str("x")) && Found(db, j, ["null"]) == None
  {
    var key := "null";
    var path := [key];
    PlainKeyIsPath(key);
    FieldValue(db, key, Str("x"));
    PathIsReceivedAs(path);
    PlainIsPaired(key);
    assert AllPaired(path);
    HalvedPlain(key);
    assert AsRead(HalvedPath(path))[0] == None;
  }
}
