/** Filtering documents by their metadata in memory, over an index from keys to values to documents. */
module MetaFilter {
  import opened Wrappers
  import opened Text
  import opened Patterns
  import opened PythonValues

  type DocId = string

  datatype Op =
    | Compares(c: Comparison)
    | In
    | NotIn
    | Contains
    | NotContains
    | StartWith
    | EndWith
    | Empty
    | NotEmpty
    | Unknown(name: string)

  datatype Filter = Filter(key: PyVal, op: Op, value: PyVal)

  /** A value of a key, with the documents that have it. */
  datatype Bucket = Bucket(key: PyVal, docs: seq<DocId>)

  type Index = map<string, seq<Bucket>>

  /** A dictionary key can be hashed, so it is never a list. */
  predicate Hashable(buckets: seq<Bucket>) {
    forall b :: b in buckets ==> !b.key.PList?
  }

  // ----- What a filter asks of one value ------------------------------------------

  predicate AreDigits(py: Python, s: string) {
    forall i | 0 <= i < |s| :: py.isDigit(s[i])
  }

  /** The shape YYYY-MM-DD. */
  predicate IsDate(py: Python, s: string) {
    |s| == 10 && s[4] == '-' && s[7] == '-'
    && AreDigits(py, s[..4]) && AreDigits(py, s[5..7]) && AreDigits(py, s[8..])
  }

  function AsDate(py: Python, v: PyVal): Option<string> {
    var s := Strip(Show(py, v));
    if IsDate(py, s) then Some(s) else None
  }

  /** What a comparison compares: two dates if the filter names a date, otherwise the literals both
      sides stand for, or the two sides as they are; text without case. */
  function Operands(py: Python, value: PyVal, input: PyVal): Option<(PyVal, PyVal)> {
    match (AsDate(py, value), AsDate(py, input))
    case (Some(v), Some(i)) => Some((PStr(i), PStr(v)))
    case (Some(v), None) => None
    case (None, _) =>
      match (Literally(py, input), Literally(py, value))
      case (Some(i), Some(v)) => Some((LowerIfText(py, i), LowerIfText(py, v)))
      case _ => Some((LowerIfText(py, input), LowerIfText(py, value)))
  }

  function LowerItems(py: Python, items: seq<PyVal>): (r: seq<PyVal>)
    ensures |r| == |items| && forall i :: 0 <= i < |items| ==> r[i] == LowerIfText(py, items[i])
  {
    seq(|items|, i requires 0 <= i < |items| => LowerIfText(py, items[i]))
  }

  function NormalizeStrings(py: Python, v: PyVal): PyVal {
    if v.PList? then PList(LowerItems(py, v.items)) else LowerIfText(py, v)
  }

  /** Whether a value in the index meets the filter; an error counts as no. */
  predicate Accepts(py: Python, op: Op, value: PyVal, input: PyVal) {
    var v, i := NormalizeStrings(py, value), NormalizeStrings(py, input);
    match op
    case Compares(c) =>
      var o := Operands(py, value, input);
      o.Some? && Compare(py, c, o.value.0, o.value.1) == Some(true)
    case In => PythonValues.In(py, i, v) == Some(true)
    case NotIn => PythonValues.In(py, i, v) == Some(false)
    case Contains => v.PStr? && Occurs(v.s, Show(py, i))
    case NotContains => v.PStr? && !Occurs(v.s, Show(py, i))
    case StartWith => StartsWith(Lower(py, Show(py, i)), Lower(py, Show(py, v)))
    case EndWith => EndsWith(Lower(py, Show(py, i)), Lower(py, Show(py, v)))
    case Empty => !Truthy(py, i)
    case NotEmpty => Truthy(py, i)
    case Unknown(_) => false
  }

  // ----- The specification --------------------------------------------------------

  /** The documents in the buckets a filter accepts, whatever the order of the buckets. */
  function Picked(py: Python, op: Op, value: PyVal, buckets: seq<Bucket>): set<DocId> {
    set b, d | b in buckets && d in b.docs && Accepts(py, op, value, b.key) :: d
  }

  /** A key that is not indexed matches nothing. */
  function DocsOf(py: Python, metas: Index, f: Filter): set<DocId> {
    if f.key.PStr? && f.key.s in metas then Picked(py, f.op, f.value, metas[f.key.s]) else {}
  }

  /** Any logic but "and" means "or"; no filters ask for nothing. */
  predicate Wanted(py: Python, metas: Index, filters: seq<Filter>, logic: string, d: DocId) {
    filters != [] &&
    if logic == "and" then forall f :: f in filters ==> d in DocsOf(py, metas, f)
    else exists f :: f in filters && d in DocsOf(py, metas, f)
  }

  // ----- The program -----------------------------------------------------------------

  /** The comparison operators work on reassigned copies of both sides. */
  method Prepare(py: Python, original: PyVal, key: PyVal) returns (skip: bool, input: PyVal, value: PyVal)
    ensures skip == Operands(py, original, key).None?
    ensures !skip ==> Operands(py, original, key) == Some((input, value))
  {
    input, value, skip := key, original, false;
    var inputStr, valueStr := Strip(Show(py, input)), Strip(Show(py, value));
    if IsDate(py, valueStr) {
      if !IsDate(py, inputStr) {
        skip := true;
        return;
      }
      input, value := PStr(inputStr), PStr(valueStr);
    } else {
      var i, v := Literally(py, input), Literally(py, value);
      if i.Some? && v.Some? {
        input, value := i.value, v.value;
      }
      if input.PStr? {
        input := PStr(Lower(py, input.s));
      }
      if value.PStr? {
        value := PStr(Lower(py, value.s));
      }
    }
  }

  ghost predicate AreDocs(ids: seq<DocId>, docs: set<DocId>) {
    forall d :: d in ids <==> d in docs
  }

  lemma OneMorePicked(py: Python, op: Op, value: PyVal, buckets: seq<Bucket>, n: nat, ids: seq<DocId>)
    requires n < |buckets| && AreDocs(ids, Picked(py, op, value, buckets[..n]))
    ensures var more := if Accepts(py, op, value, buckets[n].key) then ids + buckets[n].docs else ids;
            AreDocs(more, Picked(py, op, value, buckets[..n + 1]))
  {
    PickedSnoc(py, op, value, buckets[..n], buckets[n]);
    assert buckets[..n + 1] == buckets[..n] + [buckets[n]];
  }

  method FilterOut(py: Python, v2docs: seq<Bucket>, op: Op, original: PyVal) returns (ids: seq<DocId>)
    requires Hashable(v2docs)
    ensures forall d :: d in ids <==> d in Picked(py, op, original, v2docs)
  {
    ids := [];
    for n := 0 to |v2docs|
      invariant AreDocs(ids, Picked(py, op, original, v2docs[..n]))
    {
      var input, value, matched := v2docs[n].key, original, false;
      assert v2docs[n] in v2docs;
      OneMorePicked(py, op, original, v2docs, n, ids);
      if op.Compares? {
        var skip;
        skip, input, value := Prepare(py, original, input);
        if skip {
          continue;
        }
      } else {
        input, value := NormalizeStrings(py, input), NormalizeStrings(py, value);
      }
      match op {
        case Contains => matched := value.PStr? && Occurs(value.s, Show(py, input));
        case NotContains => matched := value.PStr? && !Occurs(value.s, Show(py, input));
        case In => matched := PythonValues.In(py, input, value) == Some(true);
        case NotIn => matched := PythonValues.In(py, input, value) == Some(false);
        case StartWith => matched := StartsWith(Lower(py, Show(py, input)), Lower(py, Show(py, value)));
        case EndWith => matched := EndsWith(Lower(py, Show(py, input)), Lower(py, Show(py, value)));
        case Empty => matched := !Truthy(py, input);
        case NotEmpty => matched := Truthy(py, input);
        case Compares(c) => matched := Compare(py, c, input, value) == Some(true);
        case Unknown(_) =>
      }
      if matched {
        ids := ids + v2docs[n].docs;
      }
    }
    assert v2docs[..|v2docs|] == v2docs;
  }

  lemma PickedSnoc(py: Python, op: Op, value: PyVal, buckets: seq<Bucket>, b: Bucket)
    ensures Picked(py, op, value, buckets + [b]) ==
            Picked(py, op, value, buckets) + if Accepts(py, op, value, b.key) then (set d | d in b.docs) else {}
  {
    assert b in buckets + [b];
    assert forall x :: x in buckets + [b] <==> x in buckets || x == b;
  }

  /** The documents that the filters ask for: neither the running set, nor the early return, nor the
      values reassigned along the way show in the result. */
  method Select(py: Python, metas: Index, filters: seq<Filter>, logic: string) returns (docs: set<DocId>)
    requires forall k :: k in metas ==> Hashable(metas[k])
    ensures forall d :: d in docs <==> Wanted(py, metas, filters, logic, d)
  {
    var running: Option<set<DocId>> := None;
    for n := 0 to |filters|
      invariant running.None? <==> n == 0
      invariant running.Some? ==> forall d :: d in running.value <==> Wanted(py, metas, filters[..n], logic, d)
    {
      var f := filters[n];
      var ids: seq<DocId> := [];
      if f.key.PStr? && f.key.s in metas {
        ids := FilterOut(py, metas[f.key.s], f.op, f.value);
      }
      var found := set d | d in ids;
      assert found == DocsOf(py, metas, f);
      WantedSnoc(py, metas, filters[..n], f, logic);
      assert filters[..n + 1] == filters[..n] + [f];
      if running.None? {
        running := Some(found);
      } else if logic == "and" {
        running := Some(running.value * found);
        if running.value == {} {
          assert filters == filters[..n + 1] + filters[n + 1..];
          return {};
        }
      } else {
        running := Some(running.value + found);
      }
    }
    assert filters[..|filters|] == filters;
    docs := if running.None? then {} else running.value;
  }

  lemma WantedSnoc(py: Python, metas: Index, filters: seq<Filter>, f: Filter, logic: string)
    ensures forall d :: Wanted(py, metas, filters + [f], logic, d) <==>
                        if filters == [] then d in DocsOf(py, metas, f)
                        else if logic == "and" then Wanted(py, metas, filters, logic, d) && d in DocsOf(py, metas, f)
                        else Wanted(py, metas, filters, logic, d) || d in DocsOf(py, metas, f)
  {
    assert f in filters + [f];
    assert forall g :: g in filters + [f] <==> g in filters || g == f;
  }
}
