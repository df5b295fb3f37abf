/** What the Elasticsearch query asks of the stored values, on the value the filter is given. */
module EsValues {
  import opened Text
  import opened PythonValues
  import opened MetaFilter
  import opened MetaIndex
  import opened EsFilter
  import opened EsMeaning
  import opened CommaTexts

  /** YYYY-MM-DD in decimal digits. */
  predicate IsDay(py: Python, s: string) {
    && |s| == 10 && s[4] == '-' && s[7] == '-'
    && py.isDecimal(s[0]) && py.isDecimal(s[1]) && py.isDecimal(s[2]) && py.isDecimal(s[3])
    && py.isDecimal(s[5]) && py.isDecimal(s[6]) && py.isDecimal(s[8]) && py.isDecimal(s[9])
  }

  lemma DayIff(py: Python, s: string)
    ensures IsIsoDate(py, s) <==> IsDay(py, s)
  {
    if IsDay(py, s) {
      forall i | 0 <= i < 10 && i != 4 && i != 7 ensures py.isDecimal(s[i]) {
        assert i in {0, 1, 2, 3, 5, 6, 8, 9};
      }
    }
  }

  /** A text is stored under the key that equals this one but for the case of ASCII letters. */
  ghost predicate IsStored(es: Engine, doc: Document, key: string, t: string) {
    exists s :: Stored(es, doc, key, s) && Folded(s) == Folded(t)
  }

  /** What `=` asks for: a date as it is, a text that reads as a number or a boolean for that value, one that reads as
      a quoted text for what is in the quotes, and any other text as it is, without the white space around it. */
  ghost predicate HoldsEqual(py: Python, es: Engine, doc: Document, key: string, text: string) {
    var t := Strip(text);
    if IsDay(py, t) then IsStored(es, doc, key, t)
    else match py.literal(t)
      case Some(PNum(n)) => es.term(doc, FieldName(key), PNum(n))
      case Some(PBool(b)) => es.term(doc, FieldName(key), PBool(b))
      case Some(PStr(u)) => IsStored(es, doc, key, Lower(py, u))
      case _ => IsStored(es, doc, key, Lower(py, t))
  }

  lemma EqualAsks(py: Python, es: Engine, doc: Document, f: Filter)
    requires (f.op == Compares(Equal) || f.op == Compares(NotEqual)) && f.key.PStr? && f.key.s != "" && f.value.PStr?
    ensures Translate(py, f).Ok?
    ensures EsMeans(py, es, doc, f) <==>
            if f.op == Compares(Equal) then HoldsEqual(py, es, doc, f.key.s, f.value.s)
            else Present(doc, f.key.s) && !HoldsEqual(py, es, doc, f.key.s, f.value.s)
  {
    DayIff(py, Strip(f.value.s));
  }

  /** What a range asks for: a date or any other text as it is, a text that reads as a number or a boolean for that
      value, compared as the filter says. */
  lemma RangeAsks(py: Python, es: Engine, doc: Document, f: Filter, c: Comparison)
    requires f.op == Compares(c) && (c == Greater || c == Less || c == AtLeast || c == AtMost)
    requires f.key.PStr? && f.key.s != "" && f.value.PStr?
    ensures Translate(py, f).Ok?
    ensures var t := Strip(f.value.s);
            var number := !IsDay(py, t) && py.literal(t).Some? && (py.literal(t).value.PNum? || py.literal(t).value.PBool?);
            EsMeans(py, es, doc, f) <==>
            Present(doc, f.key.s) && es.range(doc, FieldName(f.key.s), c, if number then py.literal(t).value else PStr(t))
  {
    DayIff(py, Strip(f.value.s));
  }

  lemma NormalAsks(py: Python, es: Engine, doc: Document, key: string, ms: seq<PyVal>)
    ensures EqualsOne(es, doc, key, NormalMembers(py, ms)) <==>
            exists i :: 0 <= i < |ms| && HoldsMember(py, es, doc, key, ms[i])
  {
    var normal := NormalMembers(py, ms);
    forall i | 0 <= i < |ms|
      ensures |normal| == |ms| && (Equals(es, doc, key, normal[i]) <==> HoldsMember(py, es, doc, key, ms[i]))
    {
      NormalAt(py, ms, i);
    }
    if m :| m in normal && Equals(es, doc, key, m) {
      var i :| 0 <= i < |normal| && normal[i] == m;
      assert ms != [] && i < |ms|;
    }
    if i :| 0 <= i < |ms| && HoldsMember(py, es, doc, key, ms[i]) {
      assert normal[i] in normal;
    }
  }

  /** What `in` a list asks for: one of the members, a text in lower case and trimmed, anything else as it is. */
  lemma InListAsks(py: Python, es: Engine, doc: Document, f: Filter)
    requires f.op == MetaFilter.In && f.key.PStr? && f.key.s != "" && f.value.PList? && f.value.items != []
    ensures Translate(py, f).Ok?
    ensures EsMeans(py, es, doc, f) <==>
            exists i :: 0 <= i < |f.value.items| && HoldsMember(py, es, doc, f.key.s, f.value.items[i])
  {
    NormalAsks(py, es, doc, f.key.s, f.value.items);
  }

  ghost predicate HoldsMember(py: Python, es: Engine, doc: Document, key: string, m: PyVal) {
    if m.PStr? then IsStored(es, doc, key, Strip(Lower(py, m.s))) else es.term(doc, FieldName(key), m)
  }

  lemma {:induction false} NormalAt(py: Python, ms: seq<PyVal>, i: nat)
    requires i < |ms|
    ensures |NormalMembers(py, ms)| == |ms| && NormalMembers(py, ms)[i] == NormalMember(py, ms[i])
  {
    if i > 0 {
      NormalAt(py, ms[1..], i - 1);
    } else if |ms| > 1 {
      NormalAt(py, ms[1..], 0);
    }
  }

  /** What `in` a text asks for that spells no list: one of the parts between its commas that are not blank. */
  lemma InTextAsks(py: Python, es: Engine, doc: Document, f: Filter)
    requires f.op == MetaFilter.In && f.key.PStr? && f.key.s != "" && f.value.PStr? && Translate(py, f).Ok?
    requires !SpellsList(py, f.value.s)
    ensures EsMeans(py, es, doc, f) <==>
            exists p :: p in SplitCommas(f.value.s) && Strip(p) != ""
                        && IsStored(es, doc, f.key.s, Strip(Lower(py, Strip(p))))
  {
    var parts := SplitCommas(f.value.s);
    var raw := Trimmed(parts);
    NormalAsks(py, es, doc, f.key.s, raw);
    if i :| 0 <= i < |raw| && HoldsMember(py, es, doc, f.key.s, raw[i]) {
      TrimmedHas(parts, raw[i]);
    }
    if p :| p in parts && Strip(p) != "" && IsStored(es, doc, f.key.s, Strip(Lower(py, Strip(p)))) {
      TrimmedHas(parts, PStr(Strip(p)));
      var i :| 0 <= i < |raw| && raw[i] == PStr(Strip(p));
      assert HoldsMember(py, es, doc, f.key.s, raw[i]);
    }
  }

  /** What `in` a text asks for that spells a list or a tuple: one of its members. */
  lemma InSpelledListAsks(py: Python, es: Engine, doc: Document, f: Filter)
    requires f.op == MetaFilter.In && f.key.PStr? && f.key.s != "" && f.value.PStr? && Translate(py, f).Ok?
    requires SpellsList(py, f.value.s)
    ensures var items := py.literal(f.value.s).value.items;
            EsMeans(py, es, doc, f) <==> exists i :: 0 <= i < |items| && HoldsMember(py, es, doc, f.key.s, items[i])
  {
    NormalAsks(py, es, doc, f.key.s, py.literal(f.value.s).value.items);
  }

  predicate SpellsList(py: Python, s: string) {
    py.literal(s).Some? && (py.literal(s).value.PList? || py.literal(s).value.PTuple?)
  }

  // ----- What cannot be asked ------------------------------------------------------------------

  /** A value for `in` without members: an empty list or tuple, a text that spells one, or one with nothing but
      blanks between its commas. */
  predicate HasNoMembers(py: Python, v: PyVal) {
    match v
    case PList(items) => items == []
    case PTuple(items) => items == []
    case PStr(s) =>
      if SpellsList(py, s) then py.literal(s).value.items == []
      else forall p :: p in SplitCommas(s) ==> Strip(p) == ""
    case _ => false
  }

  /** A filter cannot be translated exactly if its key is no text or empty, its operator unknown, its value missing
      where one is needed, a list or dictionary where a single value is, empty where a text is, or without members
      where a list is. */
  lemma TranslationFailsIff(py: Python, f: Filter)
    ensures Translate(py, f).Err? <==>
            || !f.key.PStr? || f.key.s == "" || f.op.Unknown?
            || (f.op != Empty && f.op != NotEmpty && f.value.PNone?)
            || (f.op in {Compares(Equal), Compares(NotEqual), Contains, NotContains, StartWith, EndWith}
                && (f.value.PList? || (f.value.POther? && py.isDict(f.value.id))))
            || (f.op in {Contains, NotContains, StartWith, EndWith} && Show(py, f.value) == "")
            || (f.op in {MetaFilter.In, NotIn} && HasNoMembers(py, f.value))
  {
    if f.op in {MetaFilter.In, NotIn} && f.value.PStr? && !SpellsList(py, f.value.s) {
      var parts := SplitCommas(f.value.s);
      if Trimmed(parts) != [] {
        TrimmedHas(parts, Trimmed(parts)[0]);
      }
      forall p | p in parts && Strip(p) != "" ensures Trimmed(parts) != [] {
        TrimmedHas(parts, PStr(Strip(p)));
      }
    }
  }

  /** The operators that are known and not refused because of fields with several values. */
  predicate IsSafe(op: Op) {
    match op
    case Compares(c) => c == Equal || c == Greater || c == Less || c == AtLeast || c == AtMost
    case In => true
    case Contains => true
    case NotContains => true
    case StartWith => true
    case EndWith => true
    case Empty => true
    case NotEmpty => true
    case _ => false
  }

  /** The check before planning accepts exactly the filters with a key and a safe operator. Such a filter can only
      fail to be translated by its value. */
  lemma PushableIff(py: Python, f: Filter)
    ensures LooksPushable(f) <==> IsSafe(f.op) && f.key.PStr? && f.key.s != ""
    ensures LooksPushable(f) && Translate(py, f).Err? ==>
              Translate(py, f).error in {NoValue, NotScalar, EmptyText, NoMembers}
  {
  }
}
