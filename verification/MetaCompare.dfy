/** What the in-memory filter accepts of one text: comparisons of numbers by value and of texts by letters, searches. */
module MetaCompare {
  import opened Wrappers
  import opened Text
  import opened Patterns
  import opened PythonValues
  import opened MetaFilter

  /** Some first character at which they differ is smaller, or the one text begins the other. */
  ghost predicate IsBefore(a: string, b: string) {
    exists k: nat :: DiffersAt(a, b, k)
  }

  predicate DiffersAt(a: string, b: string, k: nat) {
    k <= |a| && k < |b| && a[..k] == b[..k] && (k < |a| ==> a[k] < b[k])
  }

  lemma {:induction false} BeforeIff(a: string, b: string)
    ensures Before(a, b) <==> IsBefore(a, b)
  {
    if b != [] && a != [] && a[0] == b[0] {
      BeforeIff(a[1..], b[1..]);
      if k: nat :| DiffersAt(a[1..], b[1..], k) {
        assert a[..k + 1] == [a[0]] + a[1..][..k] && b[..k + 1] == [b[0]] + b[1..][..k];
        assert DiffersAt(a, b, k + 1);
      }
      if k: nat :| DiffersAt(a, b, k) {
        if k > 0 {
          assert a[1..][..k - 1] == a[..k][1..] && b[1..][..k - 1] == b[..k][1..];
          assert DiffersAt(a[1..], b[1..], k - 1);
        }
      }
    } else if b != [] && (a == [] || a[0] < b[0]) {
      assert DiffersAt(a, b, 0);
    } else if b != [] {
      forall k: nat ensures !DiffersAt(a, b, k) {
        if 0 < k <= |a| && k <= |b| {
          assert a[..k][0] == a[0] && b[..k][0] == b[0];
        }
      }
    }
  }

  /** The text has the shape of a date, white space aside. */
  predicate IsDated(py: Python, s: string) {
    var t := Strip(s);
    |t| == 10 && t[4] == '-' && t[7] == '-' && forall i :: 0 <= i < 10 && i != 4 && i != 7 ==> py.isDigit(t[i])
  }

  lemma DatedIff(py: Python, s: string)
    ensures IsDated(py, s) <==> AsDate(py, PStr(s)).Some?
  {
    var t := Strip(s);
    if |t| == 10 {
      var year, month, day := t[..4], t[5..7], t[8..];
      assert forall i :: 0 <= i < 4 ==> year[i] == t[i];
      assert forall i :: 0 <= i < 2 ==> month[i] == t[i + 5] && day[i] == t[i + 8];
      if AsDate(py, PStr(s)).Some? {
        forall i | 0 <= i < 10 && i != 4 && i != 7 ensures py.isDigit(t[i]) {
          assert if i < 4 then t[i] == year[i] else if i < 7 then t[i] == month[i - 5] else t[i] == day[i - 8];
        }
      }
    }
  }

  /** The text reads as a number, or as a boolean, which counts as 1 or 0. */
  predicate ReadsAs(py: Python, s: string, n: real) {
    match py.literal(s)
    case Some(PNum(m)) => m == n
    case Some(PBool(b)) => n == if b then 1.0 else 0.0
    case _ => false
  }

  /** Where both texts read as numbers, each comparison accepts exactly the values whose number stands in it to
      the number asked for. */
  lemma NumbersAreCompared(py: Python, asked: string, a: real, has: string, h: real)
    requires !IsDated(py, asked) && ReadsAs(py, asked, a) && ReadsAs(py, has, h)
    ensures Accepts(py, Compares(Equal), PStr(asked), PStr(has)) <==> h == a
    ensures Accepts(py, Compares(NotEqual), PStr(asked), PStr(has)) <==> h != a
    ensures Accepts(py, Compares(Greater), PStr(asked), PStr(has)) <==> h > a
    ensures Accepts(py, Compares(Less), PStr(asked), PStr(has)) <==> h < a
    ensures Accepts(py, Compares(AtLeast), PStr(asked), PStr(has)) <==> h >= a
    ensures Accepts(py, Compares(AtMost), PStr(asked), PStr(has)) <==> h <= a
  {
    DatedIff(py, asked);
  }

  /** Where one of the texts, or neither, reads as a literal, the texts are compared letter by letter, without
      regard to case. */
  lemma TextsAreCompared(py: Python, asked: string, has: string)
    requires !IsDated(py, asked) && (py.literal(asked).None? || py.literal(has).None?)
    ensures var a, h := Lower(py, asked), Lower(py, has);
            && (Accepts(py, Compares(Equal), PStr(asked), PStr(has)) <==> h == a)
            && (Accepts(py, Compares(NotEqual), PStr(asked), PStr(has)) <==> h != a)
            && (Accepts(py, Compares(Greater), PStr(asked), PStr(has)) <==> IsBefore(a, h))
            && (Accepts(py, Compares(Less), PStr(asked), PStr(has)) <==> IsBefore(h, a))
            && (Accepts(py, Compares(AtLeast), PStr(asked), PStr(has)) <==> !IsBefore(h, a))
            && (Accepts(py, Compares(AtMost), PStr(asked), PStr(has)) <==> !IsBefore(a, h))
  {
    DatedIff(py, asked);
    BeforeIff(Lower(py, asked), Lower(py, has));
    BeforeIff(Lower(py, has), Lower(py, asked));
    assert Operands(py, PStr(asked), PStr(has)) == Some((PStr(Lower(py, has)), PStr(Lower(py, asked))));
  }

  /** Where both texts read as texts, it is those that are compared. */
  lemma QuotedTextsAreCompared(py: Python, asked: string, a: string, has: string, h: string)
    requires !IsDated(py, asked) && py.literal(asked) == Some(PStr(a)) && py.literal(has) == Some(PStr(h))
    ensures Accepts(py, Compares(Equal), PStr(asked), PStr(has)) <==> Lower(py, h) == Lower(py, a)
    ensures Accepts(py, Compares(Greater), PStr(asked), PStr(has)) <==> IsBefore(Lower(py, a), Lower(py, h))
    ensures Accepts(py, Compares(Less), PStr(asked), PStr(has)) <==> IsBefore(Lower(py, h), Lower(py, a))
  {
    DatedIff(py, asked);
    BeforeIff(Lower(py, a), Lower(py, h));
    BeforeIff(Lower(py, h), Lower(py, a));
    assert Operands(py, PStr(asked), PStr(has)) == Some((PStr(Lower(py, h)), PStr(Lower(py, a))));
  }

  /** A text and a number are never equal and in no order. */
  lemma UnlikeLiterals(py: Python, asked: string, a: string, has: string, h: real)
    requires !IsDated(py, asked) && py.literal(asked) == Some(PStr(a)) && py.literal(has) == Some(PNum(h))
    requires forall c, x, y :: py.order(c, x, y).None?
    ensures !Accepts(py, Compares(Equal), PStr(asked), PStr(has)) && Accepts(py, Compares(NotEqual), PStr(asked), PStr(has))
    ensures !Accepts(py, Compares(Greater), PStr(asked), PStr(has)) && !Accepts(py, Compares(Less), PStr(asked), PStr(has))
  {
    DatedIff(py, asked);
    assert Operands(py, PStr(asked), PStr(has)) == Some((PNum(h), PStr(Lower(py, a))));
  }

  // ----- Searching ---------------------------------------------------------------------

  ghost predicate IsPart(t: string, s: string) {
    exists before, after :: s == before + t + after
  }

  ghost predicate IsEnd(t: string, s: string) {
    exists before :: s == before + t
  }

  lemma OccursIff(t: string, s: string)
    ensures Occurs(t, s) <==> IsPart(t, s)
  {
    if Occurs(t, s) {
      var k :| 0 <= k <= |s| && StartsWith(s[k..], t);
      assert s == s[..k] + t + s[k..][|t|..];
    }
    if IsPart(t, s) {
      var before, after :| s == before + t + after;
      assert s[|before|..] == t + after;
      assert StartsWith(s[|before|..], t);
    }
  }

  lemma EndsIff(t: string, s: string)
    ensures EndsWith(s, t) <==> IsEnd(t, s)
  {
    if EndsWith(s, t) {
      assert s == s[..|s| - |t|] + t;
    }
  }

  /** What the other operators find in a text, without regard to case, where a text is asked for: `in` looks for the
      text in the one asked for. */
  lemma TextsAreSearched(py: Python, asked: string, has: string)
    ensures var a, h := Lower(py, asked), Lower(py, has);
            && (Accepts(py, Contains, PStr(asked), PStr(has)) <==> IsPart(a, h))
            && (Accepts(py, NotContains, PStr(asked), PStr(has)) <==> !IsPart(a, h))
            && (Accepts(py, MetaFilter.In, PStr(asked), PStr(has)) <==> IsPart(h, a))
            && (Accepts(py, NotIn, PStr(asked), PStr(has)) <==> !IsPart(h, a))
            && (Accepts(py, Empty, PStr(asked), PStr(has)) <==> has == "")
            && (Accepts(py, NotEmpty, PStr(asked), PStr(has)) <==> has != "")
  {
    OccursIff(Lower(py, asked), Lower(py, has));
    OccursIff(Lower(py, has), Lower(py, asked));
  }

  /** Where a prefix or a suffix is asked for, both sides are lowered twice. */
  lemma EndsAreSearched(py: Python, asked: string, has: string)
    ensures var a, h := Lower(py, Lower(py, asked)), Lower(py, Lower(py, has));
            && (Accepts(py, StartWith, PStr(asked), PStr(has)) <==> a <= h)
            && (Accepts(py, EndWith, PStr(asked), PStr(has)) <==> IsEnd(a, h))
  {
    EndsIff(Lower(py, Lower(py, asked)), Lower(py, Lower(py, has)));
  }

  /** `in` a list looks for a text among the members, without regard to case. */
  lemma ListsAreSearched(py: Python, items: seq<PyVal>, has: string)
    ensures var found := exists i :: 0 <= i < |items| && items[i].PStr? && Lower(py, items[i].s) == Lower(py, has);
            && (Accepts(py, MetaFilter.In, PList(items), PStr(has)) <==> found)
            && (Accepts(py, NotIn, PList(items), PStr(has)) <==> !found)
  {
    var lowered := LowerItems(py, items);
    assert forall i :: 0 <= i < |items| ==>
             (Same(PStr(Lower(py, has)), lowered[i]) <==> items[i].PStr? && Lower(py, items[i].s) == Lower(py, has));
  }

  /** A value that is no text is contained nowhere and missing nowhere, and nothing is in a number, a boolean or null,
      or not in it: searching it raises an error. */
  lemma OnlyTextsAreSearched(py: Python, asked: PyVal, has: string)
    requires !asked.PStr?
    ensures !Accepts(py, Contains, asked, PStr(has)) && !Accepts(py, NotContains, asked, PStr(has))
    ensures asked.PNum? || asked.PBool? || asked.PNone? ==>
              !Accepts(py, MetaFilter.In, asked, PStr(has)) && !Accepts(py, NotIn, asked, PStr(has))
  {
  }
}
