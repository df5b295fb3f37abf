/** Percent signs in metadata keys: which keys leave the number of placeholders alone, and which leave the
    text alone that a driver sends. */
module KeyPercents {
  import opened Wrappers
  import opened PythonValues
  import opened Patterns
  import opened MetaFilter
  import opened GaussFilter
  import opened SqlText
  import opened SqlPlaceholders

  // ----- Runs of percent signs ---------------------------------------------------------

  /** The number of percent signs a text begins with. */
  function Run(s: string): (n: nat)
    ensures n <= |s| && (n < |s| ==> s[n] != '%') && (s != "" && s[0] == '%' ==> n > 0)
  {
    if s == "" || s[0] != '%' then 0 else 1 + Run(s[1..])
  }

  /** Each run of percent signs has an even length. */
  predicate EvenPercents(s: string)
    decreases |s|
  {
    s == "" ||
    if s[0] != '%' then EvenPercents(s[1..])
    else Run(s) % 2 == 0 && EvenPercents(s[Run(s)..])
  }

  /** Percent signs come in pairs, read from the left. */
  predicate Paired(s: string) {
    s == "" ||
    if s[0] != '%' then Paired(s[1..])
    else |s| > 1 && s[1] == '%' && Paired(s[2..])
  }

  lemma {:induction false} RunIsPaired(s: string)
    ensures Paired(s) <==> Run(s) % 2 == 0 && Paired(s[Run(s)..])
    decreases |s|
  {
    if Run(s) == 0 {
      assert s[0..] == s;
    } else if Run(s) == 1 {
      assert |s| > 1 ==> s[1] != '%';
    } else {
      assert Run(s[1..]) == Run(s) - 1 && s[1] == '%';
      assert s[1..][1..] == s[2..];
      assert Run(s[2..]) == Run(s) - 2;
      RunIsPaired(s[2..]);
      assert s[2..][Run(s) - 2..] == s[Run(s)..];
    }
  }

  lemma {:induction false} EvenIsPaired(s: string)
    ensures EvenPercents(s) <==> Paired(s)
    decreases |s|
  {
    if s != "" {
      if s[0] != '%' {
        EvenIsPaired(s[1..]);
      } else {
        RunIsPaired(s);
        EvenIsPaired(s[Run(s)..]);
      }
    }
  }

  /** A driver finds no placeholder and no error exactly where percent signs come in pairs. */
  lemma {:induction false} PairedIsCounted(s: string)
    ensures Placeholders(s) == Some(0) <==> Paired(s)
    decreases |s|
  {
    if s != "" {
      if s[0] != '%' {
        PairedIsCounted(s[1..]);
      } else if |s| > 1 && s[1] == '%' {
        PairedIsCounted(s[2..]);
      }
    }
  }

  lemma {:induction false} PairedBehind(a: string, b: string)
    requires '%' !in a
    ensures Paired(a + b) <==> Paired(b)
  {
    if a == "" {
      assert a + b == b;
    } else {
      assert (a + b)[1..] == a[1..] + b;
      PairedBehind(a[1..], b);
    }
  }

  lemma {:induction false} PairedJoined(a: string, b: string)
    requires b == "" || b[0] != '%'
    ensures Paired(a + b) <==> Paired(a) && Paired(b)
    decreases |a|
  {
    if a == "" {
      assert a + b == b;
    } else if a[0] != '%' {
      assert (a + b)[1..] == a[1..] + b;
      PairedJoined(a[1..], b);
    } else if |a| > 1 {
      assert (a + b)[2..] == a[2..] + b;
      if a[1] == '%' {
        PairedJoined(a[2..], b);
      }
    } else {
      assert |a + b| > 1 ==> (a + b)[1] == b[0];
    }
  }

  /** Escaping other characters keeps the pairs. */
  lemma {:induction false} PairedReplaced(s: string, c: char, with: string)
    requires c != '%' && with != "" && '%' !in with
    ensures Paired(Replace(s, c, with)) <==> Paired(s)
    decreases |s|
  {
    if s != "" {
      var r := Replace(s, c, with);
      if s[0] != '%' {
        PairedReplaced(s[1..], c, with);
        PairedBehind(if s[0] == c then with else [s[0]], Replace(s[1..], c, with));
      } else if |s| > 1 && s[1] == '%' {
        PairedReplaced(s[2..], c, with);
        assert s[1..][1..] == s[2..];
        assert r == ['%', '%'] + Replace(s[2..], c, with);
        assert r[2..] == Replace(s[2..], c, with);
      } else if |s| > 1 {
        assert r[1] == if s[1] == c then with[0] else s[1];
      } else {
        assert s[1..] == "";
      }
    }
  }

  // ----- Clean keys -----------------------------------------------------------------------

  lemma PairedQuoted(segment: string)
    ensures Paired(Quoted(segment)) <==> Paired(segment)
  {
    var inner := Replace(Replace(segment, '\\', "\\\\"), '"', "\\\"");
    PairedReplaced(segment, '\\', "\\\\");
    PairedReplaced(Replace(segment, '\\', "\\\\"), '"', "\\\"");
    PairedBehind("\"", inner + "\"");
    PairedJoined(inner, "\"");
    assert "\"" + (inner + "\"") == "\"" + inner + "\"";
    assert Paired("\"") by { assert "\""[1..] == ""; }
  }

  predicate AllPaired(parts: seq<string>) {
    forall i | 0 <= i < |parts| :: Paired(parts[i])
  }

  lemma AllPairedCons(first: string, rest: seq<string>)
    ensures AllPaired([first] + rest) <==> Paired(first) && AllPaired(rest)
  {
    var all := [first] + rest;
    assert all[0] == first;
    assert forall i :: 0 <= i < |rest| ==> all[i + 1] == rest[i];
  }

  lemma {:induction false} PairedParts(path: Path)
    ensures Paired(QuotedParts(path)) <==> AllPaired(path)
  {
    if path != [] {
      PairedQuoted(path[0]);
      AllPairedCons(path[0], path[1..]);
      assert path == [path[0]] + path[1..];
      if |path| > 1 {
        PairedParts(path[1..]);
        var rest := QuotedParts(path[1..]);
        PairedJoined(Quoted(path[0]), "," + rest);
        PairedBehind(",", rest);
        assert QuotedParts(path) == Quoted(path[0]) + ("," + rest);
      }
    }
  }

  lemma CleanPathIff(path: Path)
    ensures IsClean(path) <==> AllPaired(path)
  {
    var parts := QuotedParts(path);
    var braced := Replace("{" + parts + "}", '\'', "''");
    PairedIsCounted(PathLiteral(path));
    PairedBehind("'", braced + "'");
    PairedJoined(braced, "'");
    assert PathLiteral(path) == "'" + (braced + "'");
    assert Paired("'") by { assert "'"[1..] == ""; }
    PairedReplaced("{" + parts + "}", '\'', "''");
    PairedBehind("{", parts + "}");
    PairedJoined(parts, "}");
    assert "{" + parts + "}" == "{" + (parts + "}");
    assert Paired("}") by { assert "}"[1..] == ""; }
    PairedParts(path);
  }

  lemma {:induction false} PairedSplit(text: string)
    ensures AllPaired(SplitDots(text)) <==> Paired(text)
    decreases |text|
  {
    if text != "" {
      var rest := SplitDots(text[1..]);
      var parts := SplitDots(text);
      if text[0] != '%' {
        PairedSplit(text[1..]);
        AllPairedCons(rest[0], rest[1..]);
        assert rest == [rest[0]] + rest[1..];
        if text[0] == '.' {
          AllPairedCons("", rest);
        } else {
          AllPairedCons([text[0]] + rest[0], rest[1..]);
          PairedBehind([text[0]], rest[0]);
        }
      } else {
        assert parts[0] == ['%'] + rest[0];
        if |text| > 1 && text[1] == '%' {
          PairedSplit(text[2..]);
          var more := SplitDots(text[2..]);
          assert text[1..][1..] == text[2..];
          assert rest == [['%'] + more[0]] + more[1..];
          assert rest[1..] == more[1..];
          assert parts == [['%'] + (['%'] + more[0])] + more[1..];
          AllPairedCons(['%'] + (['%'] + more[0]), more[1..]);
          AllPairedCons(more[0], more[1..]);
          assert more == [more[0]] + more[1..];
          assert (['%'] + (['%'] + more[0]))[2..] == more[0];
        } else {
          FirstPart(text[1..]);
          assert !Paired(parts[0]);
        }
      }
    }
  }

  /** The first part ends at the first dot. */
  lemma FirstPart(text: string)
    ensures SplitDots(text)[0] == "" || (text != "" && SplitDots(text)[0][0] == text[0])
  {
  }

  /** The path of a key brings in no placeholder exactly if each run of percent signs in the key is even. */
  lemma CleanKeyIff(key: string)
    requires PathOf(PStr(key)).Ok?
    ensures IsClean(PathOf(PStr(key)).value) <==> EvenPercents(key)
  {
    CleanPathIff(PathOf(PStr(key)).value);
    PairedSplit(key);
    EvenIsPaired(key);
  }

  /** Read from left to right, the placeholders in the text of a plan consume exactly its parameters if and
      only if each run of percent signs in its keys is even. */
  lemma PlanPlaceholdersIff(py: Python, rd: Reader, filters: seq<Filter>, logic: string)
    requires FilterFor(py, rd, filters, logic).Ok?
    ensures forall f :: f in filters ==> f.key.PStr?
    ensures var t := FilterFor(py, rd, filters, logic).value;
            Placeholders(Render(t.sql)) == Some(|t.params|) <==> forall f :: f in filters ==> EvenPercents(f.key.s)
  {
    PlanCountsIff(py, rd, filters, logic);
    forall f | f in filters ensures f.key.PStr? && (IsClean(PathOf(f.key).value) <==> EvenPercents(f.key.s)) {
      CleanKeyIff(f.key.s);
    }
  }

  /** A single percent sign breaks the count. */
  lemma PercentKeyIsNotClean()
    ensures PathOf(PStr("%")) == Ok(["%"]) && !IsClean(["%"])
  {
    var percent := "%";
    assert percent[1..] == "" && SplitDots("") == [""];
    assert [percent[0]] + "" == percent && [""][1..] == [];
    assert SplitDots(percent) == [percent];
    assert forall p :: p in [percent] ==> p == percent;
    CleanPathIff([percent]);
    assert [percent][0] == percent && !Paired(percent);
  }

  // ----- What the driver sends ----------------------------------------------------------------

  /** A character of the statement, or the value put in for a placeholder. */
  datatype Part = Char(c: char) | Value

  /** The statement a driver makes of a text: a pair of percent signs becomes one. */
  function Sent(text: string): Option<seq<Part>> {
    if text == "" then Some([])
    else if text[0] != '%' then Before(Char(text[0]), Sent(text[1..]))
    else if |text| > 1 && text[1] == 's' then Before(Value, Sent(text[2..]))
    else if |text| > 1 && text[1] == '%' then Before(Char('%'), Sent(text[2..]))
    else None
  }

  function Before(p: Part, rest: Option<seq<Part>>): Option<seq<Part>> {
    if rest.None? then None else Some([p] + rest.value)
  }

  function Joined(a: Option<seq<Part>>, b: Option<seq<Part>>): Option<seq<Part>> {
    if a.None? || b.None? then None else Some(a.value + b.value)
  }

  function Chars(text: string): seq<Part> {
    seq(|text|, i requires 0 <= i < |text| => Char(text[i]))
  }

  /** The statement meant: every path as it is written, a value at every placeholder. */
  function Intended(pieces: seq<Piece>): seq<Part> {
    if pieces == [] then []
    else (if pieces[0].Slot? then [Value] else Chars(PieceText(pieces[0]))) + Intended(pieces[1..])
  }

  lemma {:induction false} SentAdd(a: string, b: string)
    requires EndsPlain(a)
    ensures Sent(a + b) == Joined(Sent(a), Sent(b))
    decreases |a|
  {
    if a == "" {
      assert a + b == b;
      assert Sent(b).Some? ==> [] + Sent(b).value == Sent(b).value;
    } else if a[0] != '%' {
      assert (a + b)[1..] == a[1..] + b;
      SentAdd(a[1..], b);
      BeforeJoined(Char(a[0]), Sent(a[1..]), Sent(b));
    } else {
      assert |a| > 1 && (a + b)[1] == a[1];
      assert (a + b)[2..] == a[2..] + b;
      SentAdd(a[2..], b);
      BeforeJoined(Value, Sent(a[2..]), Sent(b));
      BeforeJoined(Char('%'), Sent(a[2..]), Sent(b));
    }
  }

  lemma BeforeJoined(p: Part, a: Option<seq<Part>>, b: Option<seq<Part>>)
    ensures Before(p, Joined(a, b)) == Joined(Before(p, a), b)
  {
    assert a.Some? && b.Some? ==> [p] + (a.value + b.value) == [p] + a.value + b.value;
  }

  /** Text without percent signs is sent as it is, every other text is sent shorter, if at all. */
  lemma {:induction false} SentText(text: string)
    ensures '%' !in text ==> Sent(text) == Some(Chars(text))
    ensures '%' in text && Sent(text).Some? ==> |Sent(text).value| < |text|
    ensures Sent(text).Some? ==> |Sent(text).value| <= |text|
    decreases |text|
  {
    if text == "" {
      assert Chars(text) == [];
    } else {
      if text[0] != '%' {
        SentText(text[1..]);
        assert Chars(text) == [Char(text[0])] + Chars(text[1..]);
        assert '%' in text <==> '%' in text[1..];
      } else if |text| > 1 {
        SentText(text[2..]);
      }
    }
  }

  predicate HasPercent(p: Piece) {
    p.KeyPath? && '%' in PathLiteral(p.path)
  }

  lemma PieceSent(p: Piece)
    requires IsPlainPiece(p)
    ensures !HasPercent(p) ==> Sent(PieceText(p)) == Some(Intended([p]))
    ensures Sent(PieceText(p)).Some? ==> |Sent(PieceText(p)).value| <= |Intended([p])|
    ensures HasPercent(p) && Sent(PieceText(p)).Some? ==> |Sent(PieceText(p)).value| < |Intended([p])|
  {
    assert [p][1..] == [] && Intended([]) == [];
    var text := PieceText(p);
    SentText(text);
    if p.Slot? {
      SlotSent();
    } else {
      assert Intended([p]) == Chars(text) + [] == Chars(text);
      assert !p.KeyPath? ==> '%' !in text;
    }
  }

  lemma SlotSent()
    ensures Sent("%s") == Some([Value]) && Intended([Slot]) == [Value]
  {
    var slot := "%s";
    assert slot[0] == '%' && slot[1] == 's' && slot[2..] == "";
    assert Sent(slot) == Before(Value, Sent(""));
    assert [Value] + [] == [Value] && [Slot][1..] == [];
  }

  /** A key path with a percent sign makes the statement too short, and nothing makes it longer. */
  lemma {:induction false} PiecesSent(pieces: seq<Piece>)
    requires forall p :: p in pieces ==> IsPlainPiece(p)
    ensures Sent(TextOf(pieces)) == Some(Intended(pieces)) <==> forall p :: p in pieces ==> !HasPercent(p)
    ensures Sent(TextOf(pieces)).Some? ==> |Sent(TextOf(pieces)).value| <= |Intended(pieces)|
  {
    if pieces != [] {
      var first, rest := pieces[0], pieces[1..];
      assert forall p :: p in pieces <==> p == first || p in rest by { assert pieces == [first] + rest; }
      PiecesSent(rest);
      PieceSent(first);
      PieceCounts(first);
      SentAdd(PieceText(first), TextOf(rest));
      IntendedCons(first, rest);
      assert pieces == [first] + rest;
      FirstSent(Sent(PieceText(first)), Sent(TextOf(rest)), Intended([first]), Intended(rest), HasPercent(first));
    }
  }

  lemma IntendedCons(first: Piece, rest: seq<Piece>)
    ensures Intended([first] + rest) == Intended([first]) + Intended(rest)
  {
    assert ([first] + rest)[1..] == rest && [first][1..] == [];
  }

  lemma FirstSent(a: Option<seq<Part>>, b: Option<seq<Part>>, x: seq<Part>, y: seq<Part>, short: bool)
    requires a.Some? ==> |a.value| <= |x|
    requires b.Some? ==> |b.value| <= |y|
    requires !short ==> a == Some(x)
    requires short && a.Some? ==> |a.value| < |x|
    ensures Joined(a, b) == Some(x + y) <==> !short && b == Some(y)
  {
    if Joined(a, b) == Some(x + y) {
      assert |a.value| == |x| && |b.value| == |y|;
      assert a.value + b.value == x + y;
      assert (a.value + b.value)[..|x|] == a.value && (a.value + b.value)[|x|..] == b.value;
      assert (x + y)[..|x|] == x && (x + y)[|x|..] == y;
    }
  }

  // ----- Percent signs in a path literal ------------------------------------------------------

  lemma {:induction false} PercentReplaced(s: string, c: char, with: string)
    requires c != '%' && '%' !in with
    ensures '%' in Replace(s, c, with) <==> '%' in s
  {
    if s != "" {
      PercentReplaced(s[1..], c, with);
    }
  }

  predicate SomePercent(parts: seq<string>) {
    exists i | 0 <= i < |parts| :: '%' in parts[i]
  }

  lemma SomePercentCons(first: string, rest: seq<string>)
    ensures SomePercent([first] + rest) <==> '%' in first || SomePercent(rest)
  {
    var all := [first] + rest;
    assert all[0] == first;
    assert forall i :: 0 <= i < |rest| ==> all[i + 1] == rest[i];
  }

  lemma PercentQuoted(segment: string)
    ensures '%' in Quoted(segment) <==> '%' in segment
  {
    PercentReplaced(segment, '\\', "\\\\");
    PercentReplaced(Replace(segment, '\\', "\\\\"), '"', "\\\"");
  }

  lemma {:induction false} PercentParts(path: Path)
    ensures '%' in QuotedParts(path) <==> SomePercent(path)
  {
    if path != [] {
      PercentQuoted(path[0]);
      SomePercentCons(path[0], path[1..]);
      assert path == [path[0]] + path[1..];
      if |path| > 1 {
        PercentParts(path[1..]);
      }
    }
  }

  lemma {:induction false} PercentSplit(text: string)
    ensures SomePercent(SplitDots(text)) <==> '%' in text
  {
    if text == "" {
      assert SplitDots(text) == [""];
    } else {
      PercentSplit(text[1..]);
      var rest := SplitDots(text[1..]);
      SomePercentCons(rest[0], rest[1..]);
      assert rest == [rest[0]] + rest[1..];
      if text[0] == '.' {
        SomePercentCons("", rest);
      } else {
        SomePercentCons([text[0]] + rest[0], rest[1..]);
      }
    }
  }

  lemma PercentInPath(key: string)
    requires PathOf(PStr(key)).Ok?
    ensures '%' in PathLiteral(PathOf(PStr(key)).value) <==> '%' in key
  {
    var path := PathOf(PStr(key)).value;
    PercentParts(path);
    PercentReplaced("{" + QuotedParts(path) + "}", '\'', "''");
    PercentSplit(key);
  }

  /** The statement sent for a plan asks about exactly the keys of its filters if and only if no key has a
      percent sign: a pair of them is counted right but sent as one. */
  lemma PlanIsSentIff(py: Python, rd: Reader, filters: seq<Filter>, logic: string)
    requires FilterFor(py, rd, filters, logic).Ok?
    ensures forall f :: f in filters ==> f.key.PStr?
    ensures var t := FilterFor(py, rd, filters, logic).value;
            Sent(Render(t.sql)) == Some(Intended(Pieces(t.sql))) <==> forall f :: f in filters ==> '%' !in f.key.s
  {
    var t := FilterFor(py, rd, filters, logic).value;
    PlanPaths(py, rd, filters, logic);
    PiecesAre(t.sql);
    PiecesSent(Pieces(t.sql));
    forall f | f in filters
      ensures f.key.PStr? && KeyPath(PathOf(f.key).value) in Pieces(t.sql)
      ensures HasPercent(KeyPath(PathOf(f.key).value)) <==> '%' in f.key.s
    {
      PercentInPath(f.key.s);
    }
    forall p | p in Pieces(t.sql) && HasPercent(p) ensures exists f :: f in filters && '%' in f.key.s {
      var f :| f in filters && PathOf(f.key).value == p.path;
    }
  }

  /** A key of two percent signs keeps the count and is sent as another key. */
  lemma DoublePercentIsSentAsOne()
    ensures IsClean(["%%"])
    ensures Sent(PathLiteral(["%%"])) != Some(Chars(PathLiteral(["%%"])))
  {
    var key := "%%";
    CleanPathIff([key]);
    assert key[2..] == "" && Paired(key);
    assert [key][0] == key && '%' == key[0];
    PercentParts([key]);
    PercentReplaced("{" + QuotedParts([key]) + "}", '\'', "''");
    SentText(PathLiteral([key]));
  }
}
