/** `in` and `not in` with a value that is no list: a text that memory searches and the engine splits. */
module MetaMembership {
  import opened Wrappers
  import opened Text
  import opened Patterns
  import opened PythonValues
  import opened MetaFilter
  import opened MetaIndex
  import opened EsFilter
  import opened EsMeaning
  import opened MetaAgreement

  // ----- The parts of a text -------------------------------------------------------

  lemma OccursIn(t: string, before: string, after: string)
    ensures Occurs(t, before + t + after)
  {
    var s := before + t + after;
    assert s[|before|..][..|t|] == t;
    assert StartsWith(s[|before|..], t);
  }

  lemma OccursSplits(t: string, s: string) returns (before: string, after: string)
    requires Occurs(t, s)
    ensures s == before + t + after
  {
    var k :| 0 <= k <= |s| && StartsWith(s[k..], t);
    before, after := s[..k], s[k..][|t|..];
  }

  lemma OccursThrough(a: string, b: string, c: string)
    requires Occurs(a, b) && Occurs(b, c)
    ensures Occurs(a, c)
  {
    var x, y := OccursSplits(a, b);
    var u, v := OccursSplits(b, c);
    assert c == (u + x) + a + (y + v);
    OccursIn(a, u + x, y + v);
  }

  lemma FoldedJoins(a: string, b: string)
    ensures Folded(a + b) == Folded(a) + Folded(b)
  {
  }

  lemma OccursFolds(t: string, s: string)
    requires Occurs(t, s)
    ensures Occurs(Folded(t), Folded(s))
  {
    var x, y := OccursSplits(t, s);
    FoldedJoins(x + t, y);
    FoldedJoins(x, t);
    OccursIn(Folded(t), Folded(x), Folded(y));
  }

  lemma OccursFoldsAlike(py: Python, t: string, s: string)
    requires Occurs(t, s) && FoldsAlike(py, s)
    ensures FoldsAlike(py, t)
  {
    var x, y := OccursSplits(t, s);
    assert forall i :: 0 <= i < |t| ==> t[i] == s[|x| + i];
  }

  lemma {:induction false} StripLeftIsSuffix(s: string)
    ensures |StripLeft(s)| <= |s| && StripLeft(s) == s[|s| - |StripLeft(s)|..]
    ensures StripLeft(s) != "" ==> !IsSpace(StripLeft(s)[0])
  {
    if s != "" && IsSpace(s[0]) {
      StripLeftIsSuffix(s[1..]);
    }
  }

  lemma StripLeftOccurs(s: string)
    ensures Occurs(StripLeft(s), s)
  {
    StripLeftIsSuffix(s);
    var t := StripLeft(s);
    assert s == s[..|s| - |t|] + t + "";
    OccursIn(t, s[..|s| - |t|], "");
  }

  lemma {:induction false} StripRightIsPrefix(s: string)
    ensures StripRight(s) <= s && (StripRight(s) != "" ==> !IsSpace(StripRight(s)[|StripRight(s)| - 1]))
  {
    if s != "" && IsSpace(s[|s| - 1]) {
      StripRightIsPrefix(s[..|s| - 1]);
    }
  }

  /** A stripped text is a part of the text and stays as it is. */
  lemma StrippedOccurs(s: string)
    ensures Occurs(Strip(s), s) && Strip(Strip(s)) == Strip(s)
  {
    StripLeftOccurs(s);
    StripLeftIsSuffix(s);
    StripRightIsPrefix(StripLeft(s));
    var l, r := StripLeft(s), Strip(s);
    assert l == "" + r + l[|r|..];
    OccursIn(r, "", l[|r|..]);
    OccursThrough(r, l, s);
    if r != "" {
      assert r[0] == l[0];
      assert StripLeft(r) == r && StripRight(r) == r;
    }
  }

  lemma StartOccurs(p: string, text: string)
    requires p <= text
    ensures Occurs(p, text)
  {
    assert text == "" + p + text[|p|..];
    OccursIn(p, "", text[|p|..]);
  }

  lemma OccursBehind(p: string, text: string)
    requires text != "" && Occurs(p, text[1..])
    ensures Occurs(p, text)
  {
    var x, y := OccursSplits(p, text[1..]);
    assert text == ([text[0]] + x) + p + y;
    OccursIn(p, [text[0]] + x, y);
  }

  lemma {:induction false} SplitOccurs(text: string)
    ensures SplitCommas(text)[0] <= text
    ensures forall p :: p in SplitCommas(text) ==> Occurs(p, text)
  {
    if text == "" {
      StartOccurs("", "");
    } else {
      SplitOccurs(text[1..]);
      var rest, parts := SplitCommas(text[1..]), SplitCommas(text);
      forall p | p in parts ensures Occurs(p, text) {
        if p == parts[0] {
          StartOccurs(p, text);
        } else {
          assert p in rest;
          OccursBehind(p, text);
        }
      }
    }
  }

  lemma {:induction false} TrimmedAre(parts: seq<string>)
    ensures forall v :: v in Trimmed(parts) ==> exists p :: p in parts && v == PStr(Strip(p))
  {
    if parts != [] {
      TrimmedAre(parts[1..]);
      assert forall p :: p in parts[1..] ==> p in parts;
    }
  }

  /** Every part of a comma-separated text is trimmed, lower-cases as the text does, and occurs in it. */
  lemma PartsOccur(py: Python, text: string, v: PyVal)
    requires FoldsAlike(py, text) && v in Trimmed(SplitCommas(text))
    ensures IsTrimmedText(py, v) && Occurs(Folded(v.s), Folded(text))
  {
    TrimmedAre(SplitCommas(text));
    var p :| p in SplitCommas(text) && v == PStr(Strip(p));
    SplitOccurs(text);
    StrippedOccurs(p);
    OccursThrough(v.s, p, text);
    OccursFoldsAlike(py, v.s, text);
    OccursFolds(v.s, text);
  }

  // ----- What the two sides ask ----------------------------------------------------------

  /** A text value the engine has members for, all of them texts: the parts of a comma-separated text, or
      the items of the list that the text spells. */
  predicate IsMemberText(py: Python, v: PyVal) {
    v.PStr? && FoldsAlike(py, v.s) && IsTextList(py, PList(RawMembers(py, v)))
  }

  predicate SpellsList(py: Python, v: PyVal) {
    v.PStr? && py.literal(v.s).Some? && (py.literal(v.s).value.PList? || py.literal(v.s).value.PTuple?)
  }

  /** A comma-separated text is such a value as soon as it has a part. */
  lemma CommaTextIsMemberText(py: Python, v: PyVal)
    requires v.PStr? && FoldsAlike(py, v.s) && !SpellsList(py, v) && RawMembers(py, v) != []
    ensures IsMemberText(py, v)
    ensures forall m :: m in RawMembers(py, v) ==> m.PStr? && Occurs(Folded(m.s), Folded(v.s))
  {
    var ms := RawMembers(py, v);
    assert ms == Trimmed(SplitCommas(v.s));
    forall m | m in ms ensures IsTrimmedText(py, m) && Occurs(Folded(m.s), Folded(v.s)) {
      PartsOccur(py, v.s, m);
    }
  }

  /** Memory: the field's text occurs in the value. */
  predicate OccursInValue(v: PyVal, s: string) {
    v.PStr? && Occurs(Folded(s), Folded(v.s))
  }

  /** The engine: the field's text is one of the members but for case. */
  predicate IsMember(py: Python, v: PyVal, s: string) {
    exists i | 0 <= i < |RawMembers(py, v)| :: RawMembers(py, v)[i].PStr? && Folded(s) == Folded(RawMembers(py, v)[i].s)
  }

  predicate SomeOccurs(py: Python, doc: Document, f: Filter) {
    exists s :: s in TextsOf(py, doc, f.key) && OccursInValue(f.value, s)
  }

  predicate AllOccur(py: Python, doc: Document, f: Filter) {
    forall s :: s in TextsOf(py, doc, f.key) ==> OccursInValue(f.value, s)
  }

  predicate SomeMember(py: Python, doc: Document, f: Filter) {
    exists s :: s in TextsOf(py, doc, f.key) && IsMember(py, f.value, s)
  }

  lemma TextAccepts(py: Python, v: PyVal, s: string)
    requires v.PStr? && FoldsAlike(py, v.s) && FoldsAlike(py, s)
    ensures Accepts(py, MetaFilter.In, v, PStr(s)) <==> OccursInValue(v, s)
    ensures Accepts(py, NotIn, v, PStr(s)) <==> !OccursInValue(v, s)
  {
    LowerIsFolded(py, s);
    LowerIsFolded(py, v.s);
  }

  lemma MemoryAsks(py: Python, doc: Document, f: Filter)
    requires f.value.PStr? && FoldsAlike(py, f.value.s) && IsComparableField(py, doc, f.key)
    ensures f.op == MetaFilter.In ==> (Meant(py, doc, f) <==> SomeOccurs(py, doc, f))
    ensures f.op == NotIn ==> (Meant(py, doc, f) <==> !AllOccur(py, doc, f))
  {
    forall s | s in TextsOf(py, doc, f.key)
      ensures Accepts(py, MetaFilter.In, f.value, PStr(s)) <==> OccursInValue(f.value, s)
      ensures Accepts(py, NotIn, f.value, PStr(s)) <==> !OccursInValue(f.value, s)
    {
      TextAccepts(py, f.value, s);
    }
  }

  lemma MemberMeets(py: Python, v: PyVal, s: string)
    ensures TextMeets(py, MetaFilter.In, PList(RawMembers(py, v)), s) <==> IsMember(py, v, s)
  {
  }

  lemma EngineAsksMembers(py: Python, es: Engine, doc: Document, f: Filter)
    requires IsMemberText(py, f.value) && f.key.PStr? && f.key.s != "" && IsTextField(doc, f.key.s)
    requires f.op == MetaFilter.In || f.op == NotIn
    ensures Translate(py, f).Ok?
    ensures EsMeans(py, es, doc, f) <==>
            if f.op == NotIn then TextsOf(py, doc, f.key) != [] && !SomeMember(py, doc, f) else SomeMember(py, doc, f)
  {
    var ms := RawMembers(py, f.value);
    NormalMembersSome(py, ms);
    EqualsOneMeets(py, es, doc, f.key.s, ms);
    StoredAreTexts(py, es, doc, f.key.s);
    forall s ensures TextMeets(py, MetaFilter.In, PList(ms), s) <==> IsMember(py, f.value, s) {
      MemberMeets(py, f.value, s);
    }
  }

  // ----- Agreement ------------------------------------------------------------------------

  /** With a text value, `in` agrees exactly if some text of the field is a member where some text occurs in
      the value, and the other way round; `not in` exactly if, on a field with values, some text is a member
      where all of them occur in the value, and the other way round. */
  lemma TextMembershipAgreesIff(py: Python, es: Engine, doc: Document, f: Filter)
    requires IsMemberText(py, f.value) && IsComparableField(py, doc, f.key)
    requires f.key.s != "" && (f.op == MetaFilter.In || f.op == NotIn)
    ensures Translate(py, f).Ok?
    ensures f.op == MetaFilter.In ==>
              ((EsMeans(py, es, doc, f) <==> Meant(py, doc, f)) <==> (SomeOccurs(py, doc, f) <==> SomeMember(py, doc, f)))
    ensures f.op == NotIn ==>
              ((EsMeans(py, es, doc, f) <==> Meant(py, doc, f)) <==>
               (TextsOf(py, doc, f.key) != [] ==> (AllOccur(py, doc, f) <==> SomeMember(py, doc, f))))
  {
    MemoryAsks(py, doc, f);
    EngineAsksMembers(py, es, doc, f);
  }

  /** With a comma-separated text, whatever the engine accepts for `in` memory accepts, so the two agree
      exactly if no text of the field occurs in the value without some text being a part. For `not in` they
      agree exactly if, on a field with values, all texts occur in the value just when some text is a part. */
  lemma CommaTextAgreesIff(py: Python, es: Engine, doc: Document, f: Filter)
    requires f.value.PStr? && FoldsAlike(py, f.value.s) && !SpellsList(py, f.value) && RawMembers(py, f.value) != []
    requires IsComparableField(py, doc, f.key) && f.key.s != "" && (f.op == MetaFilter.In || f.op == NotIn)
    ensures Translate(py, f).Ok?
    ensures f.op == MetaFilter.In ==> (EsMeans(py, es, doc, f) ==> Meant(py, doc, f))
    ensures f.op == MetaFilter.In ==>
              ((EsMeans(py, es, doc, f) <==> Meant(py, doc, f)) <==> (SomeOccurs(py, doc, f) ==> SomeMember(py, doc, f)))
    ensures f.op == NotIn ==>
              ((EsMeans(py, es, doc, f) <==> Meant(py, doc, f)) <==>
               (TextsOf(py, doc, f.key) != [] ==> (AllOccur(py, doc, f) <==> SomeMember(py, doc, f))))
  {
    CommaTextIsMemberText(py, f.value);
    TextMembershipAgreesIff(py, es, doc, f);
    MemoryAsks(py, doc, f);
    EngineAsksMembers(py, es, doc, f);
    if s :| s in TextsOf(py, doc, f.key) && IsMember(py, f.value, s) {
      var ms := RawMembers(py, f.value);
      var i :| 0 <= i < |ms| && ms[i].PStr? && Folded(s) == Folded(ms[i].s);
      assert ms[i] in ms;
      assert OccursInValue(f.value, s);
    }
  }

  /** With a number or a boolean, memory accepts nothing, for it cannot search in one: the two agree exactly
      if the engine finds no text equal to it, or, for `not in`, one or no value at all. */
  lemma NumberMembershipAgreesIff(py: Python, es: Engine, doc: Document, f: Filter)
    requires IsNumber(f.value) && f.key.PStr? && f.key.s != "" && IsTextField(doc, f.key.s)
    requires f.op == MetaFilter.In || f.op == NotIn
    ensures Translate(py, f).Ok? && !Meant(py, doc, f)
    ensures (EsMeans(py, es, doc, f) <==> Meant(py, doc, f)) <==>
            if f.op == NotIn then TextsOf(py, doc, f.key) != [] ==> es.term(doc, FieldName(f.key.s), f.value)
            else !es.term(doc, FieldName(f.key.s), f.value)
  {
    StoredAreTexts(py, es, doc, f.key.s);
    var ms := NormalMembers(py, [f.value]);
    assert [f.value][1..] == [];
    assert NormalMember(py, f.value) == f.value;
    assert NormalMembers(py, [f.value][1..]) == [];
    assert ms == [f.value] && f.value in ms;
    assert Members(py, f.value) == Ok(ms);
    assert EqualsOne(es, doc, f.key.s, ms) <==> Equals(es, doc, f.key.s, f.value);
  }

  // ----- A disagreement ---------------------------------------------------------------------

  lemma OneMember()
    ensures Trimmed(SplitCommas("ab")) == [PStr("ab")]
  {
    assert "ab"[1..] == "b" && "b"[1..] == "";
    assert SplitCommas("b") == [['b'] + ""] + [""][1..];
    assert SplitCommas("b") == ["b"] by { assert ['b'] + "" == "b" && [""][1..] == []; }
    assert SplitCommas("ab") == [['a'] + "b"] + ["b"][1..];
    assert SplitCommas("ab") == ["ab"] by { assert ['a'] + "b" == "ab" && ["b"][1..] == []; }
    assert Strip("ab") == "ab";
    assert ["ab"][1..] == [];
  }

  lemma BOccursOnly()
    ensures Occurs(Folded("b"), Folded("ab")) && Folded("b") != Folded("ab")
  {
    var ab, b := Folded("ab"), Folded("b");
    assert |ab| == 2 && |b| == 1 && ab[1..] == b;
    assert StartsWith(ab[1..], b);
  }

  /** `in` a comma-separated text: in memory the field only has to occur somewhere in that text, the
      engine compares it with the parts. */
  lemma CsvMembershipDisagrees(py: Python, es: Engine)
    requires FoldsAlike(py, "b") && FoldsAlike(py, "ab") && py.literal("ab").None?
    ensures var f := Filter(PStr("tag"), MetaFilter.In, PStr("ab"));
            var doc := Document("doc", "kb", map["tag" := PStr("b")]);
            Meant(py, doc, f) && Translate(py, f).Ok? && !EsMeans(py, es, doc, f)
  {
    var f := Filter(PStr("tag"), MetaFilter.In, PStr("ab"));
    var doc := Document("doc", "kb", map["tag" := PStr("b")]);
    OneText(py, "b");
    assert TextsOf(py, doc, f.key) == ["b"] && "b" in TextsOf(py, doc, f.key);
    OneMember();
    var ms := RawMembers(py, f.value);
    assert ms == [PStr("ab")] && ms[0] == PStr("ab");
    CommaTextIsMemberText(py, f.value);
    MemoryAsks(py, doc, f);
    EngineAsksMembers(py, es, doc, f);
    BOccursOnly();
    assert OccursInValue(f.value, "b") && !IsMember(py, f.value, "b");
    assert forall s :: s in TextsOf(py, doc, f.key) ==> s == "b";
  }
}
