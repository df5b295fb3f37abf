/** When the Elasticsearch query and the in-memory filter find the same documents, and when not. */
module MetaAgreement {
  import opened Wrappers
  import opened Text
  import opened Patterns
  import opened PythonValues
  import opened MetaFilter
  import opened MetaIndex
  import opened MetaDates
  import opened EsFilter
  import opened EsMeaning

  // ----- Case -------------------------------------------------------------------

  /** Python and the engine lower-case every character of the text alike, as they do for ASCII. */
  predicate FoldsAlike(py: Python, s: string) {
    forall i | 0 <= i < |s| :: py.lower(s[i]) == AsciiLower(s[i]) && py.lower(AsciiLower(s[i])) == AsciiLower(s[i])
  }

  lemma LowerIsFolded(py: Python, s: string)
    requires FoldsAlike(py, s)
    ensures Lower(py, s) == Folded(s) && Lower(py, Lower(py, s)) == Folded(s) && Folded(Folded(s)) == Folded(s)
  {
  }

  lemma {:induction false} StripLeftFolds(s: string)
    ensures StripLeft(Folded(s)) == Folded(StripLeft(s))
  {
    if s != "" && IsSpace(s[0]) {
      assert Folded(s)[1..] == Folded(s[1..]);
      StripLeftFolds(s[1..]);
    }
  }

  lemma {:induction false} StripRightFolds(s: string)
    ensures StripRight(Folded(s)) == Folded(StripRight(s))
  {
    if s != "" && IsSpace(s[|s| - 1]) {
      assert Folded(s)[..|s| - 1] == Folded(s[..|s| - 1]);
      StripRightFolds(s[..|s| - 1]);
    }
  }

  lemma StripFolds(s: string)
    ensures Strip(Folded(s)) == Folded(Strip(s))
  {
    StripLeftFolds(s);
    StripRightFolds(StripLeft(s));
  }

  // ----- Fields of texts ------------------------------------------------------------

  /** The field is missing or holds strings (and nulls) only. */
  predicate IsTextField(doc: Document, key: string) {
    key in doc.meta ==> forall v :: v in Values(doc.meta[key]) ==> v.PStr? || v.PNone?
  }

  lemma {:induction false} TextsAre(py: Python, values: seq<PyVal>)
    requires forall v :: v in values ==> v.PStr? || v.PNone?
    ensures forall s :: s in Texts(py, values) <==> PStr(s) in values
    ensures Texts(py, values) == [] <==> forall v :: v in values ==> v == PNone
  {
    if values != [] {
      assert values[0] in values;
      TextsAre(py, values[1..]);
      assert forall v :: v in values <==> v == values[0] || v in values[1..];
    }
  }

  lemma PathReads(doc: Document, key: string)
    ensures StoredValues(doc, FieldName(key)) == if key in doc.meta then Values(doc.meta[key]) else []
  {
    var n := |PREFIX| + 1;
    assert FieldName(key)[..n] == PREFIX + ".";
    assert FieldName(key)[n..] == key;
  }

  /** Such a field is stored under the texts it is indexed under. */
  lemma StoredAreTexts(py: Python, es: Engine, doc: Document, key: string)
    requires IsTextField(doc, key)
    ensures forall s :: Stored(es, doc, key, s) <==> s in TextsOf(py, doc, PStr(key))
    ensures Present(doc, key) <==> TextsOf(py, doc, PStr(key)) != []
  {
    PathReads(doc, key);
    var values := StoredValues(doc, FieldName(key));
    TextsAre(py, values);
    forall s ensures Stored(es, doc, key, s) <==> s in TextsOf(py, doc, PStr(key)) {
      if Stored(es, doc, key, s) {
        var v :| v in values && KeywordOf(es, v) == Some(s);
        assert v == PStr(s);
      }
      if s in TextsOf(py, doc, PStr(key)) {
        assert PStr(s) in values && KeywordOf(es, PStr(s)) == Some(s);
      }
    }
    if !Present(doc, key) {
      assert forall v :: v in values ==> v == PNone;
    }
  }

  // ----- Filters on which the two can agree ---------------------------------------------

  predicate IsNegative(op: Op) {
    op == Compares(NotEqual) || op == NotIn || op == NotContains
  }

  /** The operator that a negative one denies. */
  function Twin(op: Op): Op {
    if op == Compares(NotEqual) then Compares(Equal)
    else if op == NotIn then MetaFilter.In
    else if op == NotContains then Contains
    else op
  }

  predicate IsTrimmedText(py: Python, v: PyVal) {
    v.PStr? && Strip(v.s) == v.s && FoldsAlike(py, v.s)
  }

  /** Plain text: no literal, no date, no white space around it. */
  predicate IsPlainText(py: Python, v: PyVal) {
    IsTrimmedText(py, v) && py.literal(v.s).None? && !IsDate(py, v.s) && !IsIsoDate(py, v.s)
  }

  predicate IsTextList(py: Python, v: PyVal) {
    v.PList? && v.items != [] && forall i | 0 <= i < |v.items| :: IsTrimmedText(py, v.items[i])
  }

  predicate IsComparable(py: Python, f: Filter) {
    && f.key.PStr? && f.key.s != ""
    && match Twin(f.op)
       case Contains => f.value.PStr? && f.value.s != "" && FoldsAlike(py, f.value.s)
       case StartWith => f.value.PStr? && f.value.s != "" && FoldsAlike(py, f.value.s)
       case EndWith => f.value.PStr? && f.value.s != "" && FoldsAlike(py, f.value.s)
       case In => IsTextList(py, f.value)
       case Compares(c) => c == Equal && IsPlainText(py, f.value)
       case _ => false
  }

  predicate IsComparableField(py: Python, doc: Document, key: PyVal) {
    key.PStr? && IsTextField(doc, key.s) && forall s :: s in TextsOf(py, doc, key) ==> FoldsAlike(py, s)
  }

  /** Some value of the field meets the positive filter and some other does not. */
  predicate IsMixed(py: Python, doc: Document, f: Filter) {
    exists s, t :: s in TextsOf(py, doc, f.key) && t in TextsOf(py, doc, f.key)
                   && Accepts(py, Twin(f.op), f.value, PStr(s)) && !Accepts(py, Twin(f.op), f.value, PStr(t))
  }

  // ----- One value -------------------------------------------------------------------------

  /** What the positive filter asks of a text, in the engine's terms. */
  ghost predicate TextMeets(py: Python, op: Op, value: PyVal, s: string) {
    match op
    case Contains => value.PStr? && Occurs(Folded(value.s), Folded(s))
    case StartWith => value.PStr? && StartsWith(Folded(s), Folded(value.s))
    case EndWith => value.PStr? && EndsWith(Folded(s), Folded(value.s))
    case In => value.PList? && exists i | 0 <= i < |value.items| ::
                 value.items[i].PStr? && Folded(s) == Folded(value.items[i].s)
    case _ => value.PStr? && Folded(s) == Folded(value.s)
  }

  lemma MemberAccepts(py: Python, ms: seq<PyVal>, s: string)
    requires IsTextList(py, PList(ms)) && FoldsAlike(py, s)
    ensures Accepts(py, MetaFilter.In, PList(ms), PStr(s)) <==> TextMeets(py, MetaFilter.In, PList(ms), s)
    ensures Accepts(py, NotIn, PList(ms), PStr(s)) <==> !TextMeets(py, MetaFilter.In, PList(ms), s)
  {
    LowerIsFolded(py, s);
    var items := LowerItems(py, ms);
    forall i | 0 <= i < |ms| ensures Same(PStr(Lower(py, s)), items[i]) <==> Folded(s) == Folded(ms[i].s) {
      LowerIsFolded(py, ms[i].s);
    }
    assert NormalizeStrings(py, PList(ms)) == PList(items);
  }

  /** In memory, one value meets the positive filter as it does for the engine, and the negative one
      when it does not. */
  lemma ValueAccepts(py: Python, f: Filter, s: string)
    requires IsComparable(py, f) && FoldsAlike(py, s)
    ensures Accepts(py, Twin(f.op), f.value, PStr(s)) <==> TextMeets(py, Twin(f.op), f.value, s)
    ensures Accepts(py, f.op, f.value, PStr(s)) <==> (TextMeets(py, Twin(f.op), f.value, s) != IsNegative(f.op))
  {
    LowerIsFolded(py, s);
    match Twin(f.op) {
      case In => MemberAccepts(py, f.value.items, s);
      case Compares(_) => {
        LowerIsFolded(py, f.value.s);
        assert Operands(py, f.value, PStr(s)) == Some((PStr(Lower(py, s)), PStr(Lower(py, f.value.s))));
      }
      case Contains => LowerIsFolded(py, f.value.s);
      case StartWith => LowerIsFolded(py, f.value.s);
      case EndWith => LowerIsFolded(py, f.value.s);
      case _ =>
    }
  }

  // ----- The engine's side -------------------------------------------------------------------

  lemma {:induction false} NormalMembersAt(py: Python, ms: seq<PyVal>, i: nat)
    requires i < |ms|
    ensures |NormalMembers(py, ms)| == |ms| && NormalMembers(py, ms)[i] == NormalMember(py, ms[i])
  {
    if i > 0 {
      NormalMembersAt(py, ms[1..], i - 1);
    } else if |ms| > 1 {
      NormalMembersAt(py, ms[1..], 0);
    }
  }

  lemma NormalMemberFolds(py: Python, m: PyVal)
    requires IsTrimmedText(py, m)
    ensures NormalMember(py, m).PStr? && Folded(NormalMember(py, m).s) == Folded(m.s)
  {
    LowerIsFolded(py, m.s);
    StripFolds(m.s);
  }

  lemma EqualsOneMeets(py: Python, es: Engine, doc: Document, key: string, ms: seq<PyVal>)
    requires IsTextList(py, PList(ms))
    ensures EqualsOne(es, doc, key, NormalMembers(py, ms)) <==>
            exists s :: Stored(es, doc, key, s) && TextMeets(py, MetaFilter.In, PList(ms), s)
  {
    var normal := NormalMembers(py, ms);
    NormalMembersAt(py, ms, 0);
    forall i | 0 <= i < |ms|
      ensures |normal| == |ms| && ms[i].PStr? && normal[i].PStr? && Folded(normal[i].s) == Folded(ms[i].s)
    {
      NormalMembersAt(py, ms, i);
      NormalMemberFolds(py, ms[i]);
    }
    EqualsOneOf(py, es, doc, key, ms, normal);
  }

  lemma EqualsOneOf(py: Python, es: Engine, doc: Document, key: string, ms: seq<PyVal>, normal: seq<PyVal>)
    requires ms != [] && |normal| == |ms|
    requires forall i | 0 <= i < |ms| :: ms[i].PStr? && normal[i].PStr? && Folded(normal[i].s) == Folded(ms[i].s)
    ensures EqualsOne(es, doc, key, normal) <==>
            exists s :: Stored(es, doc, key, s) && TextMeets(py, MetaFilter.In, PList(ms), s)
  {
    if EqualsOne(es, doc, key, normal) {
      var m :| m in normal && Equals(es, doc, key, m);
      var i :| 0 <= i < |normal| && normal[i] == m;
      var s :| Stored(es, doc, key, s) && Folded(s) == Folded(m.s);
      assert ms[i].PStr?;
      assert TextMeets(py, MetaFilter.In, PList(ms), s);
    }
    if s :| Stored(es, doc, key, s) && TextMeets(py, MetaFilter.In, PList(ms), s) {
      var i :| 0 <= i < |ms| && ms[i].PStr? && Folded(s) == Folded(ms[i].s);
      assert normal[i] in normal && Equals(es, doc, key, normal[i]);
    }
  }

  ghost predicate StoredMeets(py: Python, es: Engine, doc: Document, f: Filter)
    requires f.key.PStr?
  {
    exists s :: Stored(es, doc, f.key.s, s) && TextMeets(py, Twin(f.op), f.value, s)
  }

  /** The engine asks for one stored text that meets the filter, or for the key and no such text. */
  lemma EngineAsks(py: Python, es: Engine, doc: Document, f: Filter)
    requires IsComparable(py, f)
    ensures Translate(py, f).Ok?
    ensures EsMeans(py, es, doc, f) <==>
            if IsNegative(f.op) then Present(doc, f.key.s) && !StoredMeets(py, es, doc, f) else StoredMeets(py, es, doc, f)
  {
    match Twin(f.op) {
      case In => {
        NormalMembersSome(py, f.value.items);
        EqualsOneMeets(py, es, doc, f.key.s, f.value.items);
      }
      case Compares(_) => {
        LowerIsFolded(py, f.value.s);
        assert CoerceScalar(py, f.value) == Ok(PStr(Lower(py, f.value.s)));
      }
      case _ =>
    }
  }

  // ----- Agreement on one filter ------------------------------------------------------------------

  lemma BothSides(py: Python, es: Engine, doc: Document, f: Filter)
    requires IsComparable(py, f) && IsComparableField(py, doc, f.key)
    ensures StoredMeets(py, es, doc, f) <==>
            exists s :: s in TextsOf(py, doc, f.key) && Accepts(py, Twin(f.op), f.value, PStr(s))
    ensures forall s :: s in TextsOf(py, doc, f.key) ==>
              (Accepts(py, f.op, f.value, PStr(s)) <==> (Accepts(py, Twin(f.op), f.value, PStr(s)) != IsNegative(f.op)))
  {
    StoredAreTexts(py, es, doc, f.key.s);
    forall s | s in TextsOf(py, doc, f.key)
      ensures Accepts(py, Twin(f.op), f.value, PStr(s)) <==> TextMeets(py, Twin(f.op), f.value, s)
      ensures Accepts(py, f.op, f.value, PStr(s)) <==> (Accepts(py, Twin(f.op), f.value, PStr(s)) != IsNegative(f.op))
    {
      ValueAccepts(py, f, s);
    }
  }

  /** `contains`, `start with`, `end with`, `in` a list and `=` agree on fields of any number of values. */
  lemma PositiveFiltersAgree(py: Python, es: Engine, doc: Document, f: Filter)
    requires IsComparable(py, f) && IsComparableField(py, doc, f.key) && !IsNegative(f.op)
    ensures Translate(py, f).Ok? && (EsMeans(py, es, doc, f) <==> Meant(py, doc, f))
  {
    EngineAsks(py, es, doc, f);
    BothSides(py, es, doc, f);
    assert Twin(f.op) == f.op;
  }

  /** `≠`, `not in` and `not contains` agree exactly where the values of the field do not differ on the
      positive filter. */
  lemma NegativeFiltersAgreeIff(py: Python, es: Engine, doc: Document, f: Filter)
    requires IsComparable(py, f) && IsComparableField(py, doc, f.key) && IsNegative(f.op)
    ensures Translate(py, f).Ok?
    ensures (EsMeans(py, es, doc, f) <==> Meant(py, doc, f)) <==> !IsMixed(py, doc, f)
  {
    EngineAsks(py, es, doc, f);
    BothSides(py, es, doc, f);
    StoredAreTexts(py, es, doc, f.key.s);
    var texts := TextsOf(py, doc, f.key);
    if texts != [] {
      assert texts[0] in texts;
    }
    if Meant(py, doc, f) && StoredMeets(py, es, doc, f) {
      var t :| t in texts && Accepts(py, f.op, f.value, PStr(t));
      var s :| s in texts && Accepts(py, Twin(f.op), f.value, PStr(s));
      assert IsMixed(py, doc, f);
    }
  }

  lemma SingleValuesAreNotMixed(py: Python, doc: Document, f: Filter)
    requires |TextsOf(py, doc, f.key)| <= 1
    ensures !IsMixed(py, doc, f)
  {
  }

  /** `empty` finds documents without a value only in the engine: in memory they are in no bucket. */
  lemma EmptyAgreesIff(py: Python, es: Engine, doc: Document, f: Filter)
    requires f.op == Empty && f.key.PStr? && f.key.s != "" && IsTextField(doc, f.key.s)
    ensures Translate(py, f).Ok?
    ensures (EsMeans(py, es, doc, f) <==> Meant(py, doc, f)) <==> TextsOf(py, doc, f.key) != []
  {
    StoredAreTexts(py, es, doc, f.key.s);
    assert forall s :: Accepts(py, Empty, f.value, PStr(s)) <==> s == "";
  }

  /** `not empty` disagrees exactly on a field that has blank and other values. */
  lemma NotEmptyAgreesIff(py: Python, es: Engine, doc: Document, f: Filter)
    requires f.op == NotEmpty && f.key.PStr? && f.key.s != "" && IsTextField(doc, f.key.s)
    ensures Translate(py, f).Ok?
    ensures (EsMeans(py, es, doc, f) <==> Meant(py, doc, f)) <==>
            !("" in TextsOf(py, doc, f.key) && exists s :: s in TextsOf(py, doc, f.key) && s != "")
  {
    StoredAreTexts(py, es, doc, f.key.s);
    assert forall s :: Accepts(py, NotEmpty, f.value, PStr(s)) <==> s != "";
    var texts := TextsOf(py, doc, f.key);
    if texts != [] {
      assert texts[0] in texts;
    }
  }

  lemma NoLetters(s: string, date: string)
    requires WellFormed(date)
    ensures Folded(s) == Folded(date) <==> s == date
  {
    var year, month, day := date[..4], date[5..7], date[8..];
    assert forall i | 0 <= i < 10 :: date[i] == '-' || IsDigit(date[i]) by {
      assert date == year + "-" + month + "-" + day;
    }
    if Folded(s) == Folded(date) {
      assert |s| == |date|;
      forall i | 0 <= i < |s| ensures s[i] == date[i] {
        assert AsciiLower(s[i]) == Folded(s)[i] == Folded(date)[i] == AsciiLower(date[i]);
      }
    }
  }

  predicate KnowsDecimals(py: Python) {
    KnowsDigits(py) && forall c: char :: IsDigit(c) ==> py.isDecimal(c)
  }

  /** In memory, a text is compared with a date without the white space around it; the engine compares it
      as it is stored. */
  lemma DateAccepts(py: Python, value: PyVal, s: string)
    requires value.PStr? && WellFormed(Strip(value.s)) && KnowsDecimals(py)
    ensures Accepts(py, Compares(Equal), value, PStr(s)) <==> Strip(s) == Strip(value.s)
  {
    WellFormedIsDate(py, Strip(value.s));
    DateIsTrimmed(Strip(value.s));
    assert AsDate(py, value) == Some(Strip(value.s));
    assert Strip(s) == Strip(value.s) ==> AsDate(py, PStr(s)) == Some(Strip(s));
  }

  lemma DateIsCoerced(py: Python, value: PyVal)
    requires value.PStr? && WellFormed(Strip(value.s)) && KnowsDecimals(py)
    ensures CoerceScalar(py, value) == Ok(PStr(Strip(value.s)))
  {
    var date := Strip(value.s);
    assert date == date[..4] + "-" + date[5..7] + "-" + date[8..];
    assert IsIsoDate(py, date);
  }

  /** `=` a date agrees exactly if no value of the field is that date with white space around it, unless one
      is the date itself. */
  lemma EqualDateAgreesIff(py: Python, es: Engine, doc: Document, f: Filter)
    requires f.op == Compares(Equal) && f.key.PStr? && f.key.s != "" && IsTextField(doc, f.key.s)
    requires f.value.PStr? && WellFormed(Strip(f.value.s)) && KnowsDecimals(py)
    ensures Translate(py, f).Ok?
    ensures EsMeans(py, es, doc, f) ==> Meant(py, doc, f)
    ensures (EsMeans(py, es, doc, f) <==> Meant(py, doc, f)) <==>
            ((exists s :: s in TextsOf(py, doc, f.key) && Strip(s) == Strip(f.value.s)) ==>
             Strip(f.value.s) in TextsOf(py, doc, f.key))
  {
    var date := Strip(f.value.s);
    DateIsCoerced(py, f.value);
    DateIsTrimmed(date);
    StoredAreTexts(py, es, doc, f.key.s);
    forall s | s in TextsOf(py, doc, f.key)
      ensures Accepts(py, f.op, f.value, PStr(s)) <==> Strip(s) == date
      ensures Folded(s) == Folded(date) <==> s == date
    {
      DateAccepts(py, f.value, s);
      NoLetters(s, date);
    }
  }

  // ----- Disagreements -----------------------------------------------------------------------------

  const TAGGED := Document("doc", "kb", map["tags" := PList([PStr("ab"), PStr("cd")])])

  lemma TagsOf(py: Python)
    ensures TextsOf(py, TAGGED, PStr("tags")) == ["ab", "cd"]
  {
    var values := [PStr("ab"), PStr("cd")];
    assert values[1..] == [PStr("cd")];
    OneText(py, "cd");
    assert Texts(py, values) == ["ab"] + Texts(py, values[1..]);
  }

  lemma OneText(py: Python, s: string)
    ensures Texts(py, [PStr(s)]) == [s]
  {
    assert [PStr(s)][1..] == [];
  }

  lemma AbIsNotInCd()
    ensures Occurs(Folded("ab"), Folded("ab")) && !Occurs(Folded("ab"), Folded("cd"))
  {
    var ab, cd := Folded("ab"), Folded("cd");
    assert ab[0..] == ab && StartsWith(ab[0..], ab);
    assert |ab| == 2 && |cd| == 2 && ab[0] == 'a' && cd[0] == 'c';
    forall k | 0 <= k <= |cd| ensures !StartsWith(cd[k..], ab) {
      assert k == 0 ==> cd[k..][..2][0] == 'c';
    }
  }

  /** `not contains` passes the check made before planning, and still finds a two-valued field in memory
      that the engine rejects: one bucket is enough in memory, while the engine looks at all values. */
  lemma NotContainsDisagrees(py: Python, es: Engine)
    requires FoldsAlike(py, "ab") && FoldsAlike(py, "cd")
    ensures var f := Filter(PStr("tags"), NotContains, PStr("ab"));
            LooksPushable(f) && Meant(py, TAGGED, f) && Translate(py, f).Ok? && !EsMeans(py, es, TAGGED, f)
  {
    var f := Filter(PStr("tags"), NotContains, PStr("ab"));
    TagsOf(py);
    var texts := TextsOf(py, TAGGED, f.key);
    assert texts[0] == "ab" && texts[1] == "cd" && "ab" in texts && "cd" in texts;
    ValueAccepts(py, f, "ab");
    ValueAccepts(py, f, "cd");
    AbIsNotInCd();
    EngineAsks(py, es, TAGGED, f);
    BothSides(py, es, TAGGED, f);
  }

  /** `empty` finds a document without the key only in the engine. */
  lemma EmptyDisagrees(py: Python, es: Engine)
    ensures var f := Filter(PStr("tags"), Empty, PNone);
            var doc := Document("doc", "kb", map[]);
            !Meant(py, doc, f) && Translate(py, f).Ok? && EsMeans(py, es, doc, f)
  {
    var f := Filter(PStr("tags"), Empty, PNone);
    var doc := Document("doc", "kb", map[]);
    StoredAreTexts(py, es, doc, "tags");
    assert TextsOf(py, doc, f.key) == [];
  }

  /** `not empty` misses a field that has a blank value beside another one, in the engine only. */
  lemma NotEmptyDisagrees(py: Python, es: Engine)
    ensures var f := Filter(PStr("tags"), NotEmpty, PNone);
            var doc := Document("doc", "kb", map["tags" := PList([PStr(""), PStr("a")])]);
            Meant(py, doc, f) && Translate(py, f).Ok? && !EsMeans(py, es, doc, f)
  {
    var f := Filter(PStr("tags"), NotEmpty, PNone);
    var values := [PStr(""), PStr("a")];
    var doc := Document("doc", "kb", map["tags" := PList(values)]);
    OneText(py, "a");
    assert values[1..] == [PStr("a")];
    var texts := TextsOf(py, doc, f.key);
    assert texts == [""] + ["a"];
    assert texts[0] == "" && texts[1] == "a" && "" in texts && "a" in texts;
    StoredAreTexts(py, es, doc, "tags");
    NotEmptyAgreesIff(py, es, doc, f);
    assert Accepts(py, NotEmpty, PNone, PStr("a"));
  }
}
