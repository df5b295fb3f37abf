/** What the comparisons select in SQL, on the value asked for and the value at the path. */
module SqlComparisons {
  import opened Wrappers
  import opened Text
  import opened Documents
  import opened PythonValues
  import opened MetaFilter
  import opened GaussFilter
  import opened GaussMeaning
  import opened CommaTexts

  // ----- Ranges --------------------------------------------------------------------------

  /** A number is asked for: as it is, or as a text that is no time and reads as one. */
  predicate AsksNumber(py: Python, rd: Reader, v: PyVal, n: real) {
    || v == PNum(n)
    || (v.PStr? && rd.datetime(Strip(v.s)).None?
        && (py.literal(Strip(v.s)) == Some(PNum(n))
            || (!ReadsNumber(py, Strip(v.s)) && rd.decimal(Strip(v.s)) == Some(n))))
  }

  predicate ReadsNumber(py: Python, s: string) {
    py.literal(s).Some? && py.literal(s).value.PNum?
  }

  /** A time is asked for. */
  predicate AsksTime(rd: Reader, v: PyVal, t: string) {
    v.PStr? && rd.datetime(Strip(v.s)) == Some(t)
  }

  predicate IsRange(op: Op) {
    op == Compares(Greater) || op == Compares(Less) || op == Compares(AtLeast) || op == Compares(AtMost)
  }

  /** A range with a number selects where the text at the path reads as a number that stands in it. */
  lemma NumberRangeSelects(py: Python, rd: Reader, db: Database, j: Json, f: Filter, n: real)
    requires IsRange(f.op) && PathOf(f.key).Ok? && AsksNumber(py, rd, f.value, n)
    ensures Translate(py, rd, f).Ok? && Fits(Translate(py, rd, f).value)
    ensures var text := TextAt(db, j, PathOf(f.key).value);
            Selects(db, j, Translate(py, rd, f).value) <==>
            text.Some? && db.number(text.value).Some? &&
            var m := db.number(text.value).value;
            if f.op == Compares(Greater) then m > n
            else if f.op == Compares(Less) then m < n
            else if f.op == Compares(AtLeast) then m >= n
            else m <= n
  {
    assert CoerceRange(py, rd, f.value) == Ok(NumberBound(n));
  }

  /** A range with a time selects where the text at the path reads as a time that stands in it. */
  lemma TimeRangeSelects(py: Python, rd: Reader, db: Database, j: Json, f: Filter, t: string)
    requires IsRange(f.op) && PathOf(f.key).Ok? && AsksTime(rd, f.value, t)
    ensures Translate(py, rd, f).Ok? && Fits(Translate(py, rd, f).value)
    ensures var text := TextAt(db, j, PathOf(f.key).value);
            Selects(db, j, Translate(py, rd, f).value) <==>
            text.Some? && db.time(text.value).Some? && db.time(t).Some? &&
            var m, n := db.time(text.value).value, db.time(t).value;
            if f.op == Compares(Greater) then m > n
            else if f.op == Compares(Less) then m < n
            else if f.op == Compares(AtLeast) then m >= n
            else m <= n
  {
    assert CoerceRange(py, rd, f.value) == Ok(TimeBound(t));
  }

  // ----- Equality with other values than texts -----------------------------------------------

  /** The value asked for is `v`: as it is, or as a text that reads as a number, a boolean or None. */
  predicate AsksValue(py: Python, asked: PyVal, v: PyVal) {
    && (v.PNum? || v.PBool? || v.PNone?)
    && (asked == v || (asked.PStr? && Strip(asked.s) != "" && py.literal(Strip(asked.s)) == Some(v)))
  }

  /** `=` a number or a boolean selects that value and arrays that hold it, `=` None selects null. */
  lemma EqualValueSelects(py: Python, rd: Reader, db: Database, j: Json, f: Filter, v: PyVal)
    requires f.op == Compares(Equal) && PathOf(f.key).Ok? && AsksValue(py, f.value, v)
    ensures Translate(py, rd, f).Ok? && Fits(Translate(py, rd, f).value)
    ensures var value := ValueAt(db, j, PathOf(f.key).value);
            Selects(db, j, Translate(py, rd, f).value) <==>
            if v == PNone then value == Some(NULL)
            else value.Some? && (value.value == db.parse(v) || (value.value.Arr? && db.parse(v) in value.value.items))
  {
    var path := PathOf(f.key).value;
    assert CoerceScalar(py, f.value) == Ok(v);
    if v == PNone {
      SplitParams(db, j, KeyExists(path), ValueIs(path, JsonNull), [], []);
      var none: seq<Param> := [];
      assert none + none == none;
    }
  }

  /** `=` an empty text selects the empty text. */
  lemma EqualBlankSelects(py: Python, rd: Reader, db: Database, j: Json, f: Filter)
    requires f.op == Compares(Equal) && PathOf(f.key).Ok? && f.value == PStr("")
    ensures Translate(py, rd, f).Ok? && Fits(Translate(py, rd, f).value)
    ensures Selects(db, j, Translate(py, rd, f).value) <==> ValueAt(db, j, PathOf(f.key).value) == Some(Str(""))
  {
    assert Strip("") == "";
  }

  /** The filter that asks for one member of the list. */
  predicate IsEqualTo(py: Python, rd: Reader, key: PyVal, m: PyVal, t: Translated) {
    Translate(py, rd, Filter(key, Compares(Equal), m)) == Ok(t)
  }

  predicate AreEqualTo(py: Python, rd: Reader, key: PyVal, ms: seq<PyVal>, ts: seq<Translated>) {
    |ts| == |ms| && forall i :: 0 <= i < |ms| ==> IsEqualTo(py, rd, key, ms[i], ts[i])
  }

  lemma {:induction false} MembersSelectAsEquals(py: Python, rd: Reader, db: Database, j: Json, key: PyVal, ms: seq<PyVal>)
      returns (ts: seq<Translated>)
    requires PathOf(key).Ok? && MembershipPredicates(py, PathOf(key).value, ms).Ok?
    ensures |ts| == |ms| && AllFit(ts)
    ensures MembershipPredicates(py, PathOf(key).value, ms) == Ok(Fragments(SqlsOf(ts), ParamsOf(ts)))
    ensures AreEqualTo(py, rd, key, ms, ts)
  {
    if ms == [] {
      ts := [];
    } else {
      var last := |ms| - 1;
      var before := MembersSelectAsEquals(py, rd, db, j, key, ms[..last]);
      var t := EqualPredicate(py, PathOf(key).value, ms[last]).value;
      EqualFits(py, PathOf(key).value, ms[last]);
      ts := before + [t];
      OneMoreTranslated(before, t);
      forall i | 0 <= i < |ms| ensures IsEqualTo(py, rd, key, ms[i], ts[i]) {
        assert i < last ==> ms[..last][i] == ms[i] && IsEqualTo(py, rd, key, ms[..last][i], before[i]);
      }
    }
  }

  /** `=` the member can be translated and selects the document. */
  predicate EqualSelects(py: Python, rd: Reader, db: Database, j: Json, key: PyVal, m: PyVal) {
    var e := Translate(py, rd, Filter(key, Compares(Equal), m));
    e.Ok? && Fits(e.value) && Selects(db, j, e.value)
  }

  lemma EqualSelectsAs(py: Python, rd: Reader, db: Database, j: Json, key: PyVal, m: PyVal, t: Translated)
    requires IsEqualTo(py, rd, key, m, t) && Fits(t)
    ensures EqualSelects(py, rd, db, j, key, m) <==> Selects(db, j, t)
  {
  }

  lemma MemberSelects(py: Python, rd: Reader, db: Database, j: Json, key: PyVal, ms: seq<PyVal>, ts: seq<Translated>,
                      i: nat)
    requires AreEqualTo(py, rd, key, ms, ts) && AllFit(ts) && i < |ms|
    ensures ms[i] in ms && ts[i] in ts && (EqualSelects(py, rd, db, j, key, ms[i]) <==> Selects(db, j, ts[i]))
  {
    assert ts[i] in ts;
    EqualSelectsAs(py, rd, db, j, key, ms[i], ts[i]);
  }

  ghost predicate MemberSelected(py: Python, rd: Reader, db: Database, j: Json, key: PyVal, ms: seq<PyVal>) {
    exists m :: m in ms && EqualSelects(py, rd, db, j, key, m)
  }

  lemma SomeSelectsAs(py: Python, rd: Reader, db: Database, j: Json, key: PyVal, ms: seq<PyVal>, ts: seq<Translated>)
    requires AreEqualTo(py, rd, key, ms, ts) && AllFit(ts)
    ensures SelectsSome(db, j, ts) <==> MemberSelected(py, rd, db, j, key, ms)
  {
    if SelectsSome(db, j, ts) {
      var t :| t in ts && Selects(db, j, t);
      var i :| 0 <= i < |ts| && ts[i] == t;
      MemberSelects(py, rd, db, j, key, ms, ts, i);
    }
    if MemberSelected(py, rd, db, j, key, ms) {
      var m :| m in ms && EqualSelects(py, rd, db, j, key, m);
      var i :| 0 <= i < |ms| && ms[i] == m;
      MemberSelects(py, rd, db, j, key, ms, ts, i);
    }
  }

  lemma EachFits(py: Python, rd: Reader, key: PyVal, ms: seq<PyVal>, ts: seq<Translated>)
    requires AreEqualTo(py, rd, key, ms, ts) && AllFit(ts)
    ensures forall m :: m in ms ==> var e := Translate(py, rd, Filter(key, Compares(Equal), m)); e.Ok? && Fits(e.value)
  {
    forall m | m in ms
      ensures var e := Translate(py, rd, Filter(key, Compares(Equal), m)); e.Ok? && Fits(e.value)
    {
      var i :| 0 <= i < |ms| && ms[i] == m;
      assert IsEqualTo(py, rd, key, ms[i], ts[i]) && ts[i] in ts;
    }
  }

  lemma InListTranslates(py: Python, rd: Reader, db: Database, j: Json, f: Filter) returns (ts: seq<Translated>)
    requires f.op == MetaFilter.In && Translate(py, rd, f).Ok?
    ensures ts != [] && AllFit(ts) && AreEqualTo(py, rd, f.key, RawMembers(py, f.value), ts)
    ensures Translate(py, rd, f).value == Translated(JoinOr(SqlsOf(ts)), ParamsOf(ts))
  {
    var ms := RawMembers(py, f.value);
    CoercedAgain(py, ms);
    SameMembers(py, PathOf(f.key).value, ms, CoerceAll(py, ms).value);
    ts := MembersSelectAsEquals(py, rd, db, j, f.key, ms);
  }

  lemma InMembersSelects(py: Python, rd: Reader, db: Database, j: Json, f: Filter)
    requires f.op == MetaFilter.In && Translate(py, rd, f).Ok?
    ensures Fits(Translate(py, rd, f).value)
    ensures forall m :: m in RawMembers(py, f.value) ==>
              var e := Translate(py, rd, Filter(f.key, Compares(Equal), m)); e.Ok? && Fits(e.value)
    ensures Selects(db, j, Translate(py, rd, f).value) <==> MemberSelected(py, rd, db, j, f.key, RawMembers(py, f.value))
  {
    TranslationFits(py, rd, f);
    var ts := InListTranslates(py, rd, db, j, f);
    EachFits(py, rd, f.key, RawMembers(py, f.value), ts);
    JoinOrSelects(db, j, ts);
    TruthSelects(db, j, ts);
    SomeSelectsAs(py, rd, db, j, f.key, RawMembers(py, f.value), ts);
  }

  /** `in` a list can be translated only if `=` each member can, and selects where `=` one of the members does. */
  lemma InListSelects(py: Python, rd: Reader, db: Database, j: Json, f: Filter)
    requires f.op == MetaFilter.In && f.value.PList? && Translate(py, rd, f).Ok?
    ensures Fits(Translate(py, rd, f).value)
    ensures forall m :: m in f.value.items ==>
              var e := Translate(py, rd, Filter(f.key, Compares(Equal), m)); e.Ok? && Fits(e.value)
    ensures Selects(db, j, Translate(py, rd, f).value) <==>
            exists m :: m in f.value.items && EqualSelects(py, rd, db, j, f.key, m)
  {
    InMembersSelects(py, rd, db, j, f);
  }

  /** `in` a text selects where `=` one of the members does that it spells or, where it spells no list, one of the
      parts between its commas that are not blank. */
  lemma InTextSelects(py: Python, rd: Reader, db: Database, j: Json, f: Filter)
    requires f.op == MetaFilter.In && f.value.PStr? && Translate(py, rd, f).Ok?
    ensures Fits(Translate(py, rd, f).value)
    ensures Selects(db, j, Translate(py, rd, f).value) <==>
            if SpellsList(py, f.value.s)
            then exists m :: m in py.literal(Strip(f.value.s)).value.items && EqualSelects(py, rd, db, j, f.key, m)
            else exists p :: p in E.SplitCommas(f.value.s) && Strip(p) != ""
                             && EqualSelects(py, rd, db, j, f.key, PStr(Strip(p)))
  {
    InMembersSelects(py, rd, db, j, f);
    if !SpellsList(py, f.value.s) {
      PartsSelected(py, rd, db, j, f.key, E.SplitCommas(f.value.s));
    }
  }

  lemma PartsSelected(py: Python, rd: Reader, db: Database, j: Json, key: PyVal, parts: seq<string>)
    ensures MemberSelected(py, rd, db, j, key, E.Trimmed(parts)) <==>
            exists p :: p in parts && Strip(p) != "" && EqualSelects(py, rd, db, j, key, PStr(Strip(p)))
  {
    if m :| m in E.Trimmed(parts) && EqualSelects(py, rd, db, j, key, m) {
      TrimmedHas(parts, m);
    }
    if p :| p in parts && Strip(p) != "" && EqualSelects(py, rd, db, j, key, PStr(Strip(p))) {
      TrimmedHas(parts, PStr(Strip(p)));
    }
  }

  predicate SpellsList(py: Python, s: string) {
    var v := py.literal(Strip(s));
    v.Some? && (v.value.PList? || v.value.PTuple?)
  }

  lemma CoercedOnce(py: Python, v: PyVal)
    requires CoerceScalar(py, v).Ok?
    ensures CoerceScalar(py, CoerceScalar(py, v).value) == CoerceScalar(py, v)
  {
  }

  lemma {:induction false} CoercedAgain(py: Python, ms: seq<PyVal>)
    requires CoerceAll(py, ms).Ok?
    ensures forall i :: 0 <= i < |ms| ==> CoerceScalar(py, ms[i]) == Ok(CoerceAll(py, ms).value[i])
  {
    if ms != [] {
      CoercedAgain(py, ms[1..]);
      forall i | 0 <= i < |ms| ensures CoerceScalar(py, ms[i]) == Ok(CoerceAll(py, ms).value[i]) {
        assert i > 0 ==> ms[1..][i - 1] == ms[i];
      }
    }
  }

  lemma {:induction false} SameMembers(py: Python, path: Path, ms: seq<PyVal>, coerced: seq<PyVal>)
    requires |coerced| == |ms| && forall i :: 0 <= i < |ms| ==> CoerceScalar(py, ms[i]) == Ok(coerced[i])
    ensures MembershipPredicates(py, path, coerced) == MembershipPredicates(py, path, ms)
    decreases |ms|
  {
    if ms != [] {
      var last := |ms| - 1;
      SameMembers(py, path, ms[..last], coerced[..last]);
      CoercedOnce(py, ms[last]);
    }
  }

  // ----- What cannot be translated -----------------------------------------------------------

  /** A key that is a path: a text whose parts between the dots are not empty and have no NUL. */
  predicate IsPath(key: PyVal) {
    key.PStr? && forall p :: p in SplitDots(key.s) ==> p != "" && forall i :: 0 <= i < |p| ==> p[i] as int != 0
  }

  lemma PathIff(key: PyVal)
    ensures PathOf(key).Ok? <==> IsPath(key)
  {
    if key.PStr? {
      assert '\0' as int == 0;
      if key.s == "" {
        assert "" in SplitDots(key.s);
      }
    }
  }

  predicate IsSingle(py: Python, v: PyVal) {
    !v.PList? && !v.PTuple? && !(v.POther? && py.isDict(v.id))
  }

  /** A value for `in` without members, or with a member that is no single value. */
  predicate HasNoMembers(py: Python, v: PyVal) {
    match v
    case PList(items) => items == [] || exists m :: m in items && !IsSingle(py, m)
    case PTuple(items) => items == [] || exists m :: m in items && !IsSingle(py, m)
    case PStr(s) =>
      if SpellsList(py, s) then
        var items := py.literal(Strip(s)).value.items;
        items == [] || exists m :: m in items && !IsSingle(py, m)
      else forall p :: p in E.SplitCommas(s) ==> Strip(p) == ""
    case _ => !IsSingle(py, v)
  }

  /** A value for a range that is neither a number nor a text that reads as a time or a number. */
  predicate HasNoBound(py: Python, rd: Reader, v: PyVal) {
    match v
    case PNone => true
    case PBool(_) => true
    case PNum(_) => false
    case _ => var t := Strip(Show(py, v)); rd.datetime(t).None? && !ReadsNumber(py, t) && rd.decimal(t).None?
  }

  lemma {:induction false} CoercesIff(py: Python, ms: seq<PyVal>)
    ensures CoerceAll(py, ms).Ok? <==> forall m :: m in ms ==> IsSingle(py, m)
  {
    if ms != [] {
      CoercesIff(py, ms[1..]);
      assert CoerceScalar(py, ms[0]).Ok? <==> IsSingle(py, ms[0]);
      assert forall m :: m in ms <==> m == ms[0] || m in ms[1..];
    }
  }

  lemma {:induction false} FragmentsIff(py: Python, path: Path, ms: seq<PyVal>)
    requires forall m :: m in ms ==> IsSingle(py, m)
    ensures MembershipPredicates(py, path, ms).Ok?
    decreases |ms|
  {
    if ms != [] {
      FragmentsIff(py, path, ms[..|ms| - 1]);
      assert ms[|ms| - 1] in ms;
    }
  }

  lemma CoercedAreSingle(py: Python, ms: seq<PyVal>)
    requires CoerceAll(py, ms).Ok?
    ensures forall m :: m in CoerceAll(py, ms).value ==> IsSingle(py, m)
  {
    CoercedAgain(py, ms);
    var coerced := CoerceAll(py, ms).value;
    forall m | m in coerced ensures IsSingle(py, m) {
      var i :| 0 <= i < |coerced| && coerced[i] == m;
      assert CoerceScalar(py, ms[i]) == Ok(m);
    }
  }

  lemma MembersFailIff(py: Python, path: Path, op: Op, v: PyVal)
    ensures TranslateMembers(py, path, op, v).Err? <==> v.PNone? || HasNoMembers(py, v)
  {
    if !v.PNone? {
      var raw := RawMembers(py, v);
      CoercesIff(py, raw);
      if raw != [] && CoerceAll(py, raw).Ok? {
        CoercedAreSingle(py, raw);
        FragmentsIff(py, path, CoerceAll(py, raw).value);
      }
      if v.PStr? && !SpellsList(py, v.s) {
        var parts := E.SplitCommas(v.s);
        forall m | m in raw ensures m.PStr? && exists p :: p in parts && Strip(p) != "" {
          TrimmedHas(parts, m);
        }
        forall p | p in parts && Strip(p) != "" ensures raw != [] {
          TrimmedHas(parts, PStr(Strip(p)));
        }
        if raw != [] {
          assert raw[0] in raw;
        }
      }
    }
  }

  lemma {:induction false} AllTranslateIff(py: Python, rd: Reader, filters: seq<Filter>)
    ensures TranslateAll(py, rd, filters).Ok? <==> forall f :: f in filters ==> Translate(py, rd, f).Ok?
  {
    if filters != [] {
      var last := |filters| - 1;
      AllTranslateIff(py, rd, filters[..last]);
      assert filters == filters[..last] + [filters[last]];
      assert forall f :: f in filters <==> f in filters[..last] || f == filters[last];
    }
  }

  /** A predicate is made exactly for a known logic and filters that can all be translated. */
  lemma PlanFailsIff(py: Python, rd: Reader, filters: seq<Filter>, logic: string)
    ensures FilterFor(py, rd, filters, logic).Ok? <==>
            (logic == "and" || logic == "or") && forall f :: f in filters ==> Translate(py, rd, f).Ok?
  {
    AllTranslateIff(py, rd, filters);
  }

  /** A value that the operator cannot be asked about. */
  predicate CannotAsk(py: Python, rd: Reader, op: Op, v: PyVal) {
    match op
    case Unknown(_) => true
    case Empty => false
    case NotEmpty => false
    case Compares(c) => if c == Equal || c == NotEqual then !IsSingle(py, v) else HasNoBound(py, rd, v)
    case In => v.PNone? || HasNoMembers(py, v)
    case NotIn => v.PNone? || HasNoMembers(py, v)
    case _ => v.PNone? || !IsSingle(py, v) || Show(py, v) == ""
  }

  /** A filter cannot be translated exactly if its key is no path, its operator unknown, or its value one that the
      operator cannot be asked about. */
  lemma TranslationFailsIff(py: Python, rd: Reader, f: Filter)
    ensures Translate(py, rd, f).Err? <==> !IsPath(f.key) || CannotAsk(py, rd, f.op, f.value)
  {
    PathIff(f.key);
    if PathOf(f.key).Ok? && (f.op == MetaFilter.In || f.op == NotIn) {
      MembersFailIff(py, PathOf(f.key).value, f.op, f.value);
    }
  }
}
