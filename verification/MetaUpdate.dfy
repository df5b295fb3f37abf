/** Merging extracted metadata into a document's metadata. */
module MetaUpdate {
  import opened Wrappers
  import opened PythonValues

  // ----- Removing duplicates --------------------------------------------------------

  predicate HasKey(py: Python, values: seq<PyVal>, key: string) {
    exists v :: v in values && Show(py, v) == key
  }

  /** The first value of each text, in order. */
  function Dedupe(py: Python, values: seq<PyVal>): seq<PyVal> {
    if values == [] then []
    else
      var last, before := values[|values| - 1], values[..|values| - 1];
      if HasKey(py, before, Show(py, last)) then Dedupe(py, before) else Dedupe(py, before) + [last]
  }

  lemma DedupeOneMore(py: Python, before: seq<PyVal>, item: PyVal)
    ensures forall k :: HasKey(py, before + [item], k) <==> HasKey(py, before, k) || k == Show(py, item)
    ensures Dedupe(py, before + [item]) ==
            if HasKey(py, before, Show(py, item)) then Dedupe(py, before) else Dedupe(py, before) + [item]
  {
    var all := before + [item];
    assert all[..|all| - 1] == before;
    assert forall v :: v in all <==> v in before || v == item;
  }

  method DedupeList(py: Python, values: seq<PyVal>) returns (deduped: seq<PyVal>)
    ensures deduped == Dedupe(py, values)
  {
    var seen: set<string> := {};
    deduped := [];
    for i := 0 to |values|
      invariant forall k :: k in seen <==> HasKey(py, values[..i], k)
      invariant deduped == Dedupe(py, values[..i])
    {
      var item := values[i];
      DedupeOneMore(py, values[..i], item);
      assert values[..i + 1] == values[..i] + [item];
      if Show(py, item) in seen {
        continue;
      }
      seen := seen + {Show(py, item)};
      deduped := deduped + [item];
    }
    assert values[..|values|] == values;
  }

  predicate AreDistinct(py: Python, values: seq<PyVal>) {
    forall i, j :: 0 <= i < j < |values| ==> Show(py, values[i]) != Show(py, values[j])
  }

  lemma HasKeyAdd(py: Python, values: seq<PyVal>, v: PyVal)
    ensures forall k :: HasKey(py, values + [v], k) <==> HasKey(py, values, k) || Show(py, v) == k
  {
    assert forall x :: x in values + [v] <==> x in values || x == v;
  }

  /** No text is lost, none is left twice, and no value is made up. */
  lemma {:induction false} DedupeKeepsTexts(py: Python, values: seq<PyVal>)
    ensures forall k :: HasKey(py, Dedupe(py, values), k) <==> HasKey(py, values, k)
    ensures AreDistinct(py, Dedupe(py, values))
    ensures forall v :: v in Dedupe(py, values) ==> v in values
  {
    if values != [] {
      var last, before := values[|values| - 1], values[..|values| - 1];
      DedupeKeepsTexts(py, before);
      assert values == before + [last];
      HasKeyAdd(py, before, last);
      var d := Dedupe(py, before);
      HasKeyAdd(py, d, last);
      if !HasKey(py, before, Show(py, last)) {
        assert forall v :: v in d + [last] <==> v in d || v == last;
        forall i, j | 0 <= i < j < |d + [last]| ensures Show(py, (d + [last])[i]) != Show(py, (d + [last])[j]) {
          if j == |d| {
            assert d[i] in d && HasKey(py, d, Show(py, d[i]));
          }
        }
      }
    }
  }

  lemma {:induction false} DistinctStays(py: Python, values: seq<PyVal>)
    requires AreDistinct(py, values)
    ensures Dedupe(py, values) == values
  {
    if values != [] {
      var last, before := values[|values| - 1], values[..|values| - 1];
      DistinctStays(py, before);
      forall v | v in before ensures Show(py, v) != Show(py, last) {
        var i :| 0 <= i < |before| && before[i] == v;
        assert Show(py, values[i]) != Show(py, values[|values| - 1]);
      }
    }
  }

  lemma KeyStays(py: Python, values: seq<PyVal>, more: seq<PyVal>, key: string)
    requires HasKey(py, values, key)
    ensures HasKey(py, values + more, key)
  {
    var v :| v in values && Show(py, v) == key;
    assert v in values + more;
  }

  predicate Covers(py: Python, values: seq<PyVal>, more: seq<PyVal>) {
    forall i | 0 <= i < |more| :: HasKey(py, values, Show(py, more[i]))
  }

  lemma {:induction false} LongerAddsNothing(py: Python, values: seq<PyVal>, all: seq<PyVal>)
    requires values <= all
    requires forall i | |values| <= i < |all| :: HasKey(py, values, Show(py, all[i]))
    ensures Dedupe(py, all) == Dedupe(py, values)
    decreases |all|
  {
    if |values| == |all| {
      assert all == values;
    } else {
      var before := all[..|all| - 1];
      LongerAddsNothing(py, values, before);
      assert before == values + before[|values|..];
      KeyStays(py, values, before[|values|..], Show(py, all[|all| - 1]));
    }
  }

  /** Adding values whose texts are there already changes nothing. */
  lemma NothingNew(py: Python, values: seq<PyVal>, more: seq<PyVal>)
    requires Covers(py, values, more)
    ensures Dedupe(py, values + more) == Dedupe(py, values)
  {
    var all := values + more;
    forall i | |values| <= i < |all| ensures HasKey(py, values, Show(py, all[i])) {
      assert all[i] == more[i - |values|];
    }
    LongerAddsNothing(py, values, all);
  }

  // ----- Merging ------------------------------------------------------------------------

  predicate AreTexts(items: seq<PyVal>) {
    forall v :: v in items ==> v.PStr?
  }

  function Appended(v: PyVal): seq<PyVal> {
    if v.PList? then v.items else [v]
  }

  /** A list or text extends a list of texts and leaves a list of anything else alone; everything else
      replaces what was there. */
  function Combine(py: Python, stored: Option<PyVal>, v: PyVal): Option<PyVal> {
    if stored.None? then Some(v)
    else if stored.value.PList? && (v.PList? || v.PStr?) then
      if AreTexts(stored.value.items) then Some(PList(Dedupe(py, stored.value.items + Appended(v)))) else stored
    else Some(v)
  }

  /** One key: structured values are only taken where there is nothing yet. */
  function MergeValue(py: Python, stored: Option<PyVal>, v: PyVal): Option<PyVal> {
    match v
    case PList(items) =>
      if !AreTexts(items) then (if stored.None? then Some(v) else stored)
      else if items == [] then stored
      else Combine(py, stored, PList(Dedupe(py, items)))
    case PTuple(_) => if stored.None? then Some(v) else stored
    case POther(_) => if stored.None? then Some(v) else stored
    case _ => Combine(py, stored, v)
  }

  function Lookup(fields: map<string, PyVal>, key: string): Option<PyVal> {
    if key in fields then Some(fields[key]) else None
  }

  /** The merged fields: each key on its own, whatever the order of the keys. */
  ghost predicate IsMerged(py: Python, fields: map<string, PyVal>, meta: map<string, PyVal>, merged: map<string, PyVal>) {
    forall k :: Lookup(merged, k) == if k in meta then MergeValue(py, Lookup(fields, k), meta[k]) else Lookup(fields, k)
  }

  class Metadata {
    var fields: map<string, PyVal>

    constructor (fields: map<string, PyVal>)
      ensures this.fields == fields
    {
      this.fields := fields;
    }

    method UpdateKey(py: Python, k: string, given: PyVal)
      modifies this
      ensures forall j :: Lookup(fields, j) ==
                          if j == k then MergeValue(py, Lookup(old(fields), k), given) else Lookup(old(fields), j)
    {
      var v := given;
      if v.PList? {
        if exists x :: x in v.items && !x.PStr? {
          if k !in fields {
            fields := fields[k := v];
          }
          return;
        }
        if v.items == [] {
          return;
        }
        var items := DedupeList(py, v.items);
        v := PList(items);
      } else if v.PTuple? || v.POther? {
        if k !in fields {
          fields := fields[k := v];
        }
        return;
      }
      if k !in fields {
        fields := fields[k := v];
      } else if fields[k].PList? && (v.PList? || v.PStr?) {
        if exists x :: x in fields[k].items && !x.PStr? {
          return;
        }
        var items := DedupeList(py, fields[k].items + Appended(v));
        fields := fields[k := PList(items)];
      } else {
        fields := fields[k := v];
      }
    }

    method Update(py: Python, meta: map<string, PyVal>)
      modifies this
      ensures IsMerged(py, old(fields), meta, fields)
    {
      var keys := meta.Keys;
      ghost var was := fields;
      while keys != {}
        invariant keys <= meta.Keys
        invariant forall j :: Lookup(fields, j) ==
                    if j in meta && j !in keys then MergeValue(py, Lookup(was, j), meta[j]) else Lookup(was, j)
        decreases |keys|
      {
        var k :| k in keys;
        UpdateKey(py, k, meta[k]);
        keys := keys - {k};
      }
    }
  }

  // ----- Merging again ---------------------------------------------------------------------

  lemma CombineTwice(py: Python, stored: Option<PyVal>, v: PyVal)
    requires v.PList? ==> AreDistinct(py, v.items) && AreTexts(v.items)
    ensures Combine(py, Combine(py, stored, v), v) == Combine(py, stored, v)
  {
    var once := Combine(py, stored, v).value;
    if v.PList? && stored.None? {
      NothingNew(py, v.items, v.items);
      DistinctStays(py, v.items);
    } else if v.PList? && !stored.value.PList? {
      NothingNew(py, v.items, v.items);
      DistinctStays(py, v.items);
    } else if stored.Some? && stored.value.PList? && (v.PList? || v.PStr?) && AreTexts(stored.value.items) {
      var all := stored.value.items + Appended(v);
      DedupeKeepsTexts(py, all);
      forall i | 0 <= i < |Appended(v)| ensures HasKey(py, once.items, Show(py, Appended(v)[i])) {
        assert Appended(v)[i] in all;
        assert HasKey(py, all, Show(py, Appended(v)[i]));
      }
      NothingNew(py, once.items, Appended(v));
      DistinctStays(py, once.items);
    }
  }

  /** Merging the same metadata a second time changes nothing. */
  lemma MergingTwice(py: Python, fields: map<string, PyVal>, meta: map<string, PyVal>, merged: map<string, PyVal>)
    requires IsMerged(py, fields, meta, merged)
    ensures IsMerged(py, merged, meta, merged)
  {
    forall k | k in meta ensures MergeValue(py, Lookup(merged, k), meta[k]) == Lookup(merged, k) {
      var stored, v := Lookup(fields, k), meta[k];
      assert Lookup(merged, k) == MergeValue(py, stored, v);
      match v {
        case PList(items) =>
          if AreTexts(items) && items != [] {
            DedupeKeepsTexts(py, items);
            CombineTwice(py, stored, PList(Dedupe(py, items)));
          }
        case PTuple(_) =>
        case POther(_) =>
        case _ => CombineTwice(py, stored, v);
      }
    }
  }

  // ----- What becomes of one key -----------------------------------------------------------

  /** No earlier value has the text of this one. */
  predicate IsFirst(py: Python, values: seq<PyVal>, i: nat)
    requires i < |values|
  {
    forall j :: 0 <= j < i ==> Show(py, values[j]) != Show(py, values[i])
  }

  /** The values stand at these positions, in order. */
  predicate AreAt(values: seq<PyVal>, picked: seq<PyVal>, at: seq<nat>) {
    && |at| == |picked| && (forall k :: 0 <= k < |at| ==> at[k] < |values| && picked[k] == values[at[k]])
    && forall j, k :: 0 <= j < k < |at| ==> at[j] < at[k]
  }

  lemma LastIsFirst(py: Python, before: seq<PyVal>, last: PyVal)
    ensures IsFirst(py, before + [last], |before|) <==> !HasKey(py, before, Show(py, last))
  {
    var all := before + [last];
    if IsFirst(py, all, |before|) {
      forall v | v in before ensures Show(py, v) != Show(py, last) {
        var j :| 0 <= j < |before| && before[j] == v;
        assert Show(py, all[j]) != Show(py, all[|before|]);
      }
    } else {
      var j :| 0 <= j < |before| && Show(py, all[j]) == Show(py, all[|before|]);
      assert before[j] in before;
    }
  }

  lemma EarlierIsFirst(py: Python, before: seq<PyVal>, last: PyVal, i: nat)
    requires i < |before|
    ensures IsFirst(py, before + [last], i) <==> IsFirst(py, before, i)
  {
    var all := before + [last];
    assert forall j :: 0 <= j <= i ==> all[j] == before[j];
  }

  /** Removing duplicates keeps the values in their order: exactly those whose text no earlier one has. */
  lemma {:induction false} DedupeKeepsFirsts(py: Python, values: seq<PyVal>) returns (at: seq<nat>)
    ensures AreAt(values, Dedupe(py, values), at)
    ensures forall i: nat :: i < |values| ==> (i in at <==> IsFirst(py, values, i))
  {
    if values == [] {
      at := [];
    } else {
      var n := |values| - 1;
      var before, last := values[..n], values[n];
      var earlier := DedupeKeepsFirsts(py, before);
      assert values == before + [last];
      DedupeOneMore(py, before, last);
      LastIsFirst(py, before, last);
      at := if IsFirst(py, values, n) then earlier + [n] else earlier;
      OneMoreAt(before, Dedupe(py, before), earlier, last);
      forall i: nat | i < |values| ensures i in at <==> IsFirst(py, values, i) {
        if i < n {
          EarlierIsFirst(py, before, last, i);
        }
      }
    }
  }

  lemma OneMoreAt(before: seq<PyVal>, picked: seq<PyVal>, earlier: seq<nat>, last: PyVal)
    requires AreAt(before, picked, earlier)
    ensures AreAt(before + [last], picked, earlier)
    ensures AreAt(before + [last], picked + [last], earlier + [|before|])
    ensures |before| !in earlier && |before| in earlier + [|before|]
    ensures forall i :: i != |before| ==> (i in earlier + [|before|] <==> i in earlier)
  {
    assert (earlier + [|before|])[|earlier|] == |before|;
  }

  predicate HasOnlyTexts(items: seq<PyVal>) {
    forall i :: 0 <= i < |items| ==> items[i].PStr?
  }

  /** Given texts are added to a list of texts: the result has the texts of both and no others, each once. */
  lemma GivenTextsAreAdded(py: Python, stored: seq<PyVal>, v: PyVal)
    requires HasOnlyTexts(stored) && (v.PStr? || (v.PList? && v.items != [] && HasOnlyTexts(v.items)))
    ensures var merged := MergeValue(py, Some(PList(stored)), v);
            && merged.Some? && merged.value.PList?
            && (forall s :: PStr(s) in merged.value.items <==>
                  PStr(s) in stored || (if v.PStr? then v.s == s else PStr(s) in v.items))
            && HasOnlyTexts(merged.value.items)
            && forall i, j :: 0 <= i < j < |merged.value.items| ==> merged.value.items[i] != merged.value.items[j]
  {
    assert AreTexts(stored);
    var more := if v.PStr? then [v] else Dedupe(py, v.items);
    if v.PList? {
      assert AreTexts(v.items);
      DedupeOfTexts(py, v.items);
    }
    var all := stored + more;
    assert forall x :: x in all <==> x in stored || x in more;
    assert HasOnlyTexts(all) by {
      forall i | 0 <= i < |all| ensures all[i].PStr? {
        assert all[i] in all;
      }
    }
    DedupeOfTexts(py, all);
    DedupeKeepsTexts(py, all);
  }

  lemma DedupeOfTexts(py: Python, values: seq<PyVal>)
    requires HasOnlyTexts(values)
    ensures forall v :: v in Dedupe(py, values) <==> v in values
    ensures HasOnlyTexts(Dedupe(py, values))
  {
    DedupeKeepsTexts(py, values);
    var d := Dedupe(py, values);
    forall v | v in values ensures v in d {
      assert HasKey(py, values, Show(py, v)) && HasKey(py, d, Show(py, v));
      var u :| u in d && Show(py, u) == Show(py, v);
      assert u in values;
    }
  }

  /** In every other case the given value is taken or the stored one stays: a key that is not there takes the value
      without its duplicates, unless it is an empty list; a structured value never replaces anything; a list of
      anything but texts takes in no text; and a single value, or a text or list where there was no list, replaces
      what was there. */
  lemma GivenOrStored(py: Python, stored: Option<PyVal>, v: PyVal)
    ensures stored.None? && v.PList? && v.items != [] && HasOnlyTexts(v.items) ==>
              MergeValue(py, stored, v) == Some(PList(Dedupe(py, v.items)))
    ensures stored.None? && !v.PList? ==> MergeValue(py, stored, v) == Some(v)
    ensures stored.None? && v.PList? && !HasOnlyTexts(v.items) ==> MergeValue(py, stored, v) == Some(v)
    ensures v.PList? && v.items == [] ==> MergeValue(py, stored, v) == stored
    ensures stored.Some? && (v.PTuple? || v.POther? || (v.PList? && !HasOnlyTexts(v.items))) ==>
              MergeValue(py, stored, v) == stored
    ensures stored.Some? && stored.value.PList? && !HasOnlyTexts(stored.value.items) && (v.PStr? || v.PList?) ==>
              MergeValue(py, stored, v) == stored
    ensures stored.Some? && (v.PNone? || v.PBool? || v.PNum? || (v.PStr? && !stored.value.PList?)) ==>
              MergeValue(py, stored, v) == Some(v)
    ensures stored.Some? && !stored.value.PList? && v.PList? && v.items != [] && HasOnlyTexts(v.items) ==>
              MergeValue(py, stored, v) == Some(PList(Dedupe(py, v.items)))
  {
    if v.PList? {
      TextsAlike(v.items);
    }
    if stored.Some? && stored.value.PList? {
      TextsAlike(stored.value.items);
    }
  }

  lemma TextsAlike(items: seq<PyVal>)
    ensures AreTexts(items) <==> HasOnlyTexts(items)
  {
    if AreTexts(items) {
      forall i | 0 <= i < |items| ensures items[i].PStr? {
        assert items[i] in items;
      }
    }
  }
}
