/** Canonical keys: nested, possibly unhashable values as dictionary keys that
    coincide exactly when the values are equal. */
module CanonKeys {

  // ----- Values and hashable values -------------------------------------------

  /** Hashable values that are no containers; equal ones have the same form. */
  datatype Atomic = Text(s: string) | Other(code: int)

  /** Python values. Dictionaries and sets list their elements in iteration order. */
  datatype Value =
    | Atom(atom: Atomic)
    | List(items: seq<Value>)
    | Tuple(items: seq<Value>)
    | Dict(entries: seq<Entry>)
    | Set(items: seq<Value>, frozen: bool)

  datatype Entry = Entry(key: Plain, value: Value)

  /** Hashable values: what dictionary keys and canonical forms are made of. */
  datatype Plain = Leaf(atom: Atomic) | Pack(parts: seq<Plain>) | Bag(members: set<Plain>)

  function Tagged(tag: string, p: Plain): Plain {
    Pack([Leaf(Text(tag)), p])
  }

  function Canonicalize(v: Value): Plain
    decreases v
  {
    match v
    case Atom(atom) => Leaf(atom)
    case List(items) => Tagged("__list__", Pack(seq(|items|, i requires 0 <= i < |items| => Canonicalize(items[i]))))
    case Tuple(items) => Tagged("__tuple__", Pack(seq(|items|, i requires 0 <= i < |items| => Canonicalize(items[i]))))
    case Dict(entries) => Tagged("__dict__", Bag(set e | e in entries :: Pack([e.key, Canonicalize(e.value)])))
    case Set(items, _) => Tagged("__set__", Bag(set m | m in items :: Canonicalize(m)))
  }

  /** Equality of values, as the language defines it. */
  ghost predicate Equal(a: Value, b: Value)
    decreases a, 1
  {
    match a
    case Atom(_) => b == a
    case List(items) =>
      b.List? && |items| == |b.items| && forall i | 0 <= i < |items| :: Equal(items[i], b.items[i])
    case Tuple(items) =>
      b.Tuple? && |items| == |b.items| && forall i | 0 <= i < |items| :: Equal(items[i], b.items[i])
    case Dict(entries) =>
      && b.Dict? && |entries| == |b.entries|
      && forall e | e in entries :: exists f :: f in b.entries && f.key == e.key && Equal(e.value, f.value)
    case Set(items, _) =>
      && b.Set?
      && (forall x | x in items :: Among(x, b.items))
      && (forall y | y in b.items :: HasEqual(a, y))
  }

  ghost predicate Among(x: Value, items: seq<Value>)
    decreases x, 2
  {
    exists y :: y in items && Equal(x, y)
  }

  ghost predicate HasEqual(a: Value, y: Value)
    requires a.Set?
    decreases a, 0
  {
    exists x :: x in a.items && Equal(x, y)
  }

  /** Dictionaries hold each key once. */
  ghost predicate WellFormed(v: Value)
    decreases v
  {
    match v
    case Atom(_) => true
    case List(items) => forall x | x in items :: WellFormed(x)
    case Tuple(items) => forall x | x in items :: WellFormed(x)
    case Set(items, _) => forall x | x in items :: WellFormed(x)
    case Dict(entries) =>
      && (forall i, j :: 0 <= i < j < |entries| ==> entries[i].key != entries[j].key)
      && forall e | e in entries :: WellFormed(e.value)
  }

  // ----- Canonical forms of containers --------------------------------------------

  lemma TagsDiffer()
    ensures "__list__" != "__tuple__" && "__list__" != "__dict__" && "__list__" != "__set__"
    ensures "__tuple__" != "__dict__" && "__tuple__" != "__set__" && "__dict__" != "__set__"
  {
    assert "__list__"[2] == 'l' && "__tuple__"[2] == 't' && "__dict__"[2] == 'd' && "__set__"[2] == 's';
  }

  function TagOf(v: Value): string {
    match v
    case Atom(_) => ""
    case List(_) => "__list__"
    case Tuple(_) => "__tuple__"
    case Dict(_) => "__dict__"
    case Set(_, _) => "__set__"
  }

  /** The canonical form tells the kind of the value. */
  lemma KindIsKept(a: Value, b: Value)
    requires Canonicalize(a) == Canonicalize(b)
    ensures a.Atom? == b.Atom? && a.List? == b.List? && a.Tuple? == b.Tuple?
    ensures a.Dict? == b.Dict? && a.Set? == b.Set?
  {
    TagsDiffer();
    var p, q := Canonicalize(a), Canonicalize(b);
    if p.Pack? {
      assert p.parts[0] == Leaf(Text(TagOf(a)));
      assert q.parts[0] == Leaf(Text(TagOf(b)));
    }
  }

  function Forms(items: seq<Value>): seq<Plain> {
    seq(|items|, i requires 0 <= i < |items| => Canonicalize(items[i]))
  }

  function FormSet(items: seq<Value>): set<Plain> {
    set m | m in items :: Canonicalize(m)
  }

  function EntryForm(e: Entry): Plain {
    Pack([e.key, Canonicalize(e.value)])
  }

  function EntryForms(entries: seq<Entry>): set<Plain> {
    set e | e in entries :: Pack([e.key, Canonicalize(e.value)])
  }

  function KeySet(entries: seq<Entry>): set<Plain> {
    set e | e in entries :: e.key
  }

  ghost predicate DistinctKeys(entries: seq<Entry>) {
    forall i, j :: 0 <= i < j < |entries| ==> entries[i].key != entries[j].key
  }

  lemma {:induction false} DistinctKeysCount(entries: seq<Entry>)
    requires DistinctKeys(entries)
    ensures |KeySet(entries)| == |entries|
  {
    if entries != [] {
      var last, before := entries[|entries| - 1], entries[..|entries| - 1];
      assert entries == before + [last];
      DistinctKeysCount(before);
      assert KeySet(entries) == KeySet(before) + {last.key};
      assert last.key !in KeySet(before);
    }
  }

  lemma SameKeySet(a: seq<Entry>, b: seq<Entry>)
    requires DistinctKeys(a) && DistinctKeys(b) && |a| == |b| && KeySet(a) <= KeySet(b)
    ensures KeySet(a) == KeySet(b)
  {
    DistinctKeysCount(a);
    DistinctKeysCount(b);
    FullSubset(KeySet(a), KeySet(b));
  }

  lemma {:induction false} FullSubset(a: set<Plain>, b: set<Plain>)
    requires a <= b && |a| == |b|
    ensures a == b
    decreases |a|
  {
    if a != {} {
      var x :| x in a;
      FullSubset(a - {x}, b - {x});
      assert a == (a - {x}) + {x} && b == (b - {x}) + {x};
    }
  }

  lemma SameKeySameEntry(entries: seq<Entry>, e: Entry, f: Entry)
    requires DistinctKeys(entries) && e in entries && f in entries && e.key == f.key
    ensures e == f
  {
    var i :| 0 <= i < |entries| && entries[i] == e;
    var j :| 0 <= j < |entries| && entries[j] == f;
  }

  /** Element for element, canonical forms agree exactly on equal values. */
  ghost predicate Agree(x: Value, y: Value) {
    Canonicalize(x) == Canonicalize(y) <==> Equal(x, y)
  }

  ghost predicate HasEntry(entries: seq<Entry>, e: Entry) {
    exists f :: f in entries && f.key == e.key && Equal(e.value, f.value)
  }

  lemma EntryFormIn(e: Entry, b: seq<Entry>)
    requires forall f :: f in b ==> Agree(e.value, f.value)
    ensures EntryForm(e) in EntryForms(b) <==> HasEntry(b, e)
  {
    if EntryForm(e) in EntryForms(b) {
      var f :| f in b && EntryForm(f) == EntryForm(e);
      assert EntryForm(e).parts[0] == EntryForm(f).parts[0] && EntryForm(e).parts[1] == EntryForm(f).parts[1];
      assert Agree(e.value, f.value);
    }
    if HasEntry(b, e) {
      var f :| f in b && f.key == e.key && Equal(e.value, f.value);
      assert Agree(e.value, f.value) && EntryForm(f) == EntryForm(e);
    }
  }

  lemma KeyOfForm(e: Entry, b: seq<Entry>)
    requires EntryForm(e) in EntryForms(b)
    ensures e.key in KeySet(b)
  {
    var f :| f in b && EntryForm(f) == EntryForm(e);
    assert EntryForm(e).parts[0] == EntryForm(f).parts[0];
  }

  lemma DictsAgree(a: seq<Entry>, b: seq<Entry>)
    requires DistinctKeys(a) && DistinctKeys(b)
    requires forall e, f :: e in a && f in b ==> Agree(e.value, f.value)
    ensures EntryForms(a) == EntryForms(b) <==> |a| == |b| && forall e :: e in a ==> HasEntry(b, e)
  {
    forall e | e in a ensures EntryForm(e) in EntryForms(b) <==> HasEntry(b, e) {
      EntryFormIn(e, b);
    }
    if EntryForms(a) == EntryForms(b) {
      forall e | e in a ensures EntryForm(e) in EntryForms(b) && e.key in KeySet(b) {
        KeyOfForm(e, b);
      }
      forall f | f in b ensures f.key in KeySet(a) {
        KeyOfForm(f, a);
      }
      assert KeySet(a) == KeySet(b);
      DistinctKeysCount(a);
      DistinctKeysCount(b);
    } else if |a| == |b| && forall e :: e in a ==> HasEntry(b, e) {
      SameKeySet(a, b);
      forall f | f in b ensures EntryForm(f) in EntryForms(a) {
        MatchedEntry(a, b, f);
      }
    }
  }

  lemma MatchedEntry(a: seq<Entry>, b: seq<Entry>, f: Entry)
    requires DistinctKeys(b) && f in b && f.key in KeySet(a)
    requires forall e :: e in a ==> HasEntry(b, e)
    requires forall e, g :: e in a && g in b ==> Agree(e.value, g.value)
    ensures EntryForm(f) in EntryForms(a)
  {
    var e :| e in a && e.key == f.key;
    var g :| g in b && g.key == e.key && Equal(e.value, g.value);
    SameKeySameEntry(b, f, g);
    assert Agree(e.value, f.value);
    assert EntryForm(e) == EntryForm(f);
  }

  lemma FormIsAmong(x: Value, b: seq<Value>)
    requires forall y :: y in b ==> Agree(x, y)
    ensures Canonicalize(x) in FormSet(b) <==> Among(x, b)
  {
    if Canonicalize(x) in FormSet(b) {
      var y :| y in b && Canonicalize(y) == Canonicalize(x);
      assert Agree(x, y);
    }
    if Among(x, b) {
      var y :| y in b && Equal(x, y);
      assert Agree(x, y);
    }
  }

  lemma FormHasEqual(a: Value, y: Value)
    requires a.Set? && forall x :: x in a.items ==> Agree(x, y)
    ensures Canonicalize(y) in FormSet(a.items) <==> HasEqual(a, y)
  {
    if Canonicalize(y) in FormSet(a.items) {
      var x :| x in a.items && Canonicalize(x) == Canonicalize(y);
      assert Agree(x, y);
    }
    if HasEqual(a, y) {
      var x :| x in a.items && Equal(x, y);
      assert Agree(x, y);
    }
  }

  lemma SetsAgree(a: Value, b: Value)
    requires a.Set? && b.Set? && forall x, y :: x in a.items && y in b.items ==> Agree(x, y)
    ensures FormSet(a.items) == FormSet(b.items) <==>
            (forall x :: x in a.items ==> Among(x, b.items)) && (forall y :: y in b.items ==> HasEqual(a, y))
  {
    forall x | x in a.items ensures Canonicalize(x) in FormSet(b.items) <==> Among(x, b.items) {
      FormIsAmong(x, b.items);
    }
    forall y | y in b.items ensures Canonicalize(y) in FormSet(a.items) <==> HasEqual(a, y) {
      FormHasEqual(a, y);
    }
    SetEquality(a.items, b.items);
  }

  lemma SetEquality(a: seq<Value>, b: seq<Value>)
    ensures FormSet(a) == FormSet(b) <==>
            (forall x :: x in a ==> Canonicalize(x) in FormSet(b)) && (forall y :: y in b ==> Canonicalize(y) in FormSet(a))
  {
    forall x | x in a ensures Canonicalize(x) in FormSet(a) {}
    forall y | y in b ensures Canonicalize(y) in FormSet(b) {}
  }

  lemma ItemsAgree(a: seq<Value>, b: seq<Value>)
    requires forall i :: 0 <= i < |a| && i < |b| ==> Agree(a[i], b[i])
    ensures Forms(a) == Forms(b) <==> |a| == |b| && forall i :: 0 <= i < |a| ==> Equal(a[i], b[i])
  {
    if Forms(a) == Forms(b) {
      forall i | 0 <= i < |a| ensures Equal(a[i], b[i]) {
        assert Forms(a)[i] == Forms(b)[i];
        assert Agree(a[i], b[i]);
      }
    }
    if |a| == |b| && forall i :: 0 <= i < |a| ==> Equal(a[i], b[i]) {
      forall i | 0 <= i < |a| ensures Forms(a)[i] == Forms(b)[i] {
        assert Agree(a[i], b[i]);
      }
    }
  }

  /** Two containers of one kind have equal forms exactly when their elements do. */
  lemma FormsOf(a: Value, b: Value)
    ensures a.List? && b.List? ==> (Canonicalize(a) == Canonicalize(b) <==> Forms(a.items) == Forms(b.items))
    ensures a.Tuple? && b.Tuple? ==> (Canonicalize(a) == Canonicalize(b) <==> Forms(a.items) == Forms(b.items))
    ensures a.Set? && b.Set? ==> (Canonicalize(a) == Canonicalize(b) <==> FormSet(a.items) == FormSet(b.items))
    ensures a.Dict? && b.Dict? ==> (Canonicalize(a) == Canonicalize(b) <==> EntryForms(a.entries) == EntryForms(b.entries))
  {
    var p, q := Canonicalize(a), Canonicalize(b);
    if a.List? && b.List? {
      assert p.parts[1] == Pack(Forms(a.items)) && q.parts[1] == Pack(Forms(b.items));
    } else if a.Tuple? && b.Tuple? {
      assert p.parts[1] == Pack(Forms(a.items)) && q.parts[1] == Pack(Forms(b.items));
    } else if a.Set? && b.Set? {
      assert p.parts[1] == Bag(FormSet(a.items)) && q.parts[1] == Bag(FormSet(b.items));
    } else if a.Dict? && b.Dict? {
      assert p.parts[1] == Bag(EntryForms(a.entries)) && q.parts[1] == Bag(EntryForms(b.entries));
    }
  }

  lemma SameKindAgree(a: Value, b: Value)
    requires WellFormed(a) && WellFormed(b)
    requires (a.List? && b.List?) || (a.Tuple? && b.Tuple?)
    requires forall i :: 0 <= i < |a.items| && i < |b.items| ==> Agree(a.items[i], b.items[i])
    ensures Agree(a, b)
  {
    ItemsAgree(a.items, b.items);
    FormsOf(a, b);
  }

  lemma SameSetsAgree(a: Value, b: Value)
    requires a.Set? && b.Set? && forall x, y :: x in a.items && y in b.items ==> Agree(x, y)
    ensures Agree(a, b)
  {
    SetsAgree(a, b);
    FormsOf(a, b);
  }

  lemma SameDictsAgree(a: Value, b: Value)
    requires a.Dict? && b.Dict? && WellFormed(a) && WellFormed(b)
    requires forall e, f :: e in a.entries && f in b.entries ==> Agree(e.value, f.value)
    ensures Agree(a, b)
  {
    DictsAgree(a.entries, b.entries);
    FormsOf(a, b);
  }

  /** For arbitrarily nested values, canonical forms are equal exactly when the
      values are. */
  lemma {:induction false} CanonicalIffEqual(a: Value, b: Value)
    requires WellFormed(a) && WellFormed(b)
    ensures Canonicalize(a) == Canonicalize(b) <==> Equal(a, b)
    decreases a
  {
    if Canonicalize(a) == Canonicalize(b) {
      KindIsKept(a, b);
    }
    if (a.List? && b.List?) || (a.Tuple? && b.Tuple?) {
      forall i | 0 <= i < |a.items| && i < |b.items| ensures Agree(a.items[i], b.items[i]) {
        assert a.items[i] in a.items && b.items[i] in b.items;
        CanonicalIffEqual(a.items[i], b.items[i]);
      }
      SameKindAgree(a, b);
    } else if a.Dict? && b.Dict? {
      forall e, f | e in a.entries && f in b.entries ensures Agree(e.value, f.value) {
        CanonicalIffEqual(e.value, f.value);
      }
      SameDictsAgree(a, b);
    } else if a.Set? && b.Set? {
      forall x, y | x in a.items && y in b.items ensures Agree(x, y) {
        CanonicalIffEqual(x, y);
      }
      SameSetsAgree(a, b);
    }
  }

  // ----- Hashable keys ---------------------------------------------------------------

  /** What hash() accepts: atoms, frozen sets, and tuples of hashable values. */
  predicate Hashable(v: Value)
    decreases v
  {
    match v
    case Atom(_) => true
    case Tuple(items) => forall x | x in items :: Hashable(x)
    case Set(items, frozen) => frozen
    case _ => false
  }

  /** A hashable value is its own key; any other gets a wrapped canonical form, which
      equals no plain value. */
  datatype Key = Own(value: Value) | Canon(form: Plain)

  function HashableKey(v: Value): Key {
    if Hashable(v) then Own(v) else Canon(Canonicalize(v))
  }

  ghost predicate SameKey(k: Key, l: Key) {
    match k
    case Own(v) => l.Own? && Equal(v, l.value)
    case Canon(form) => l.Canon? && form == l.form
  }

  /** Keys coincide exactly for equal values of which both or neither are hashable. */
  lemma KeysCoincideIff(a: Value, b: Value)
    requires WellFormed(a) && WellFormed(b)
    ensures SameKey(HashableKey(a), HashableKey(b)) <==> Equal(a, b) && (Hashable(a) <==> Hashable(b))
  {
    CanonicalIffEqual(a, b);
  }

  ghost predicate SetFree(v: Value)
    decreases v
  {
    match v
    case Atom(_) => true
    case List(items) => forall x | x in items :: SetFree(x)
    case Tuple(items) => forall x | x in items :: SetFree(x)
    case Dict(entries) => forall e | e in entries :: SetFree(e.value)
    case Set(_, _) => false
  }

  lemma {:induction false} EqualIsEquallyHashable(a: Value, b: Value)
    requires SetFree(a) && SetFree(b) && Equal(a, b)
    ensures Hashable(a) <==> Hashable(b)
    decreases a
  {
    match a
    case Tuple(items) =>
      forall i | 0 <= i < |items| ensures Hashable(items[i]) <==> Hashable(b.items[i]) {
        assert items[i] in items && b.items[i] in b.items;
        EqualIsEquallyHashable(items[i], b.items[i]);
      }
      if Hashable(b) {
        forall x | x in items ensures Hashable(x) {
          var i :| 0 <= i < |items| && items[i] == x;
          assert b.items[i] in b.items;
        }
      }
      if Hashable(a) {
        forall y | y in b.items ensures Hashable(y) {
          var i :| 0 <= i < |b.items| && b.items[i] == y;
          assert items[i] in items;
        }
      }
    case _ =>
  }

  /** On values without sets, keys coincide exactly when the values are equal. */
  lemma SetFreeKeysCoincide(a: Value, b: Value)
    requires WellFormed(a) && WellFormed(b) && SetFree(a) && SetFree(b)
    ensures SameKey(HashableKey(a), HashableKey(b)) <==> Equal(a, b)
  {
    KeysCoincideIff(a, b);
    if Equal(a, b) {
      EqualIsEquallyHashable(a, b);
    }
  }

  /** With sets they need not: a set and an equal frozen set have different keys, and
      share one again inside a list. */
  lemma SetAndFrozenSet(items: seq<Value>)
    requires WellFormed(Set(items, false))
    ensures var s, f := Set(items, false), Set(items, true);
            && Equal(s, f)
            && !SameKey(HashableKey(s), HashableKey(f))
            && SameKey(HashableKey(List([s])), HashableKey(List([f])))
  {
    var s, f := Set(items, false), Set(items, true);
    assert Canonicalize(s) == Canonicalize(f);
    CanonicalIffEqual(s, f);
    KeysCoincideIff(List([s]), List([f]));
  }
}
