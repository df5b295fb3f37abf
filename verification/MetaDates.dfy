/** Comparing dates as texts: the order of YYYY-MM-DD strings is the order of the dates. */
module MetaDates {
  import opened Wrappers
  import opened Text
  import opened PythonValues
  import opened MetaFilter

  predicate IsDigit(c: char) {
    '0' <= c <= '9'
  }

  predicate Digits(s: string) {
    forall i | 0 <= i < |s| :: IsDigit(s[i])
  }

  function DigitsValue(s: string): nat
    requires Digits(s)
  {
    if s == [] then 0 else 10 * DigitsValue(s[..|s| - 1]) + (s[|s| - 1] as int - '0' as int)
  }

  predicate WellFormed(s: string) {
    |s| == 10 && s[4] == '-' && s[7] == '-' && Digits(s[..4]) && Digits(s[5..7]) && Digits(s[8..])
  }

  datatype Date = Date(year: nat, month: nat, day: nat)

  function DateOf(s: string): Date
    requires WellFormed(s)
  {
    Date(DigitsValue(s[..4]), DigitsValue(s[5..7]), DigitsValue(s[8..]))
  }

  predicate Precedes(a: Date, b: Date) {
    a.year < b.year || (a.year == b.year && (a.month < b.month || (a.month == b.month && a.day < b.day)))
  }

  predicate Holds(c: Comparison, a: Date, b: Date) {
    match c
    case Equal => a == b
    case NotEqual => a != b
    case Greater => Precedes(b, a)
    case Less => Precedes(a, b)
    case AtLeast => !Precedes(a, b)
    case AtMost => !Precedes(b, a)
  }

  // ----- Lexicographic order ---------------------------------------------------------

  lemma {:induction false} BeforeSplits(a: string, b: string, x: string, y: string)
    requires |a| == |b|
    ensures Before(a + x, b + y) <==> Before(a, b) || (a == b && Before(x, y))
  {
    if a == [] {
      assert a + x == x && b + y == y;
    } else {
      BeforeSplits(a[1..], b[1..], x, y);
      assert (a + x)[1..] == a[1..] + x && (b + y)[1..] == b[1..] + y;
      assert a == [a[0]] + a[1..] && b == [b[0]] + b[1..];
    }
  }

  lemma BeforeOne(c: char, d: char)
    ensures Before([c], [d]) <==> c < d
  {
    assert [c][1..] == [] && [d][1..] == [];
  }

  /** Digit strings of one length are ordered as the numbers they spell. */
  lemma {:induction false} DigitsAreOrdered(a: string, b: string)
    requires |a| == |b| && Digits(a) && Digits(b)
    ensures Before(a, b) <==> DigitsValue(a) < DigitsValue(b)
    ensures a == b <==> DigitsValue(a) == DigitsValue(b)
  {
    if a != [] {
      var n := |a| - 1;
      DigitsAreOrdered(a[..n], b[..n]);
      BeforeSplits(a[..n], b[..n], [a[n]], [b[n]]);
      BeforeOne(a[n], b[n]);
      assert a == a[..n] + [a[n]] && b == b[..n] + [b[n]];
    }
  }

  lemma {:induction false} NeverBeforeItself(s: string)
    ensures !Before(s, s)
  {
    if s != [] {
      NeverBeforeItself(s[1..]);
    }
  }

  lemma DatesAreOrdered(a: string, b: string)
    requires WellFormed(a) && WellFormed(b)
    ensures Before(a, b) <==> Precedes(DateOf(a), DateOf(b))
    ensures a == b <==> DateOf(a) == DateOf(b)
  {
    DigitsAreOrdered(a[..4], b[..4]);
    DigitsAreOrdered(a[5..7], b[5..7]);
    DigitsAreOrdered(a[8..], b[8..]);
    assert a == a[..4] + ("-" + (a[5..7] + ("-" + a[8..])));
    assert b == b[..4] + ("-" + (b[5..7] + ("-" + b[8..])));
    BeforeSplits(a[..4], b[..4], "-" + (a[5..7] + ("-" + a[8..])), "-" + (b[5..7] + ("-" + b[8..])));
    BeforeSplits("-", "-", a[5..7] + ("-" + a[8..]), b[5..7] + ("-" + b[8..]));
    BeforeSplits(a[5..7], b[5..7], "-" + a[8..], "-" + b[8..]);
    BeforeSplits("-", "-", a[8..], b[8..]);
    NeverBeforeItself("-");
  }

  // ----- Filters that name a date --------------------------------------------------------

  predicate KnowsDigits(py: Python) {
    forall c: char :: IsDigit(c) ==> py.isDigit(c)
  }

  lemma DateIsTrimmed(s: string)
    requires |s| > 0 && !IsSpace(s[0]) && !IsSpace(s[|s| - 1])
    ensures Strip(s) == s
  {
  }

  lemma WellFormedIsDate(py: Python, s: string)
    requires KnowsDigits(py) && WellFormed(s)
    ensures AsDate(py, PStr(s)) == Some(s)
  {
    assert s[..4][0] == s[0] && s[8..][1] == s[9];
    DateIsTrimmed(s);
  }

  /** A comparison with a date accepts exactly the dates that stand in the comparison to it: every
      other value is passed over, for `≠` too. */
  lemma DateFilterAccepts(py: Python, c: Comparison, date: string, input: string)
    requires KnowsDigits(py) && WellFormed(date)
    ensures !IsDate(py, Strip(input)) ==> !Accepts(py, Compares(c), PStr(date), PStr(input))
    ensures WellFormed(Strip(input)) ==>
              (Accepts(py, Compares(c), PStr(date), PStr(input)) <==> Holds(c, DateOf(Strip(input)), DateOf(date)))
  {
    WellFormedIsDate(py, date);
    if WellFormed(Strip(input)) {
      var i := Strip(input);
      assert AsDate(py, PStr(input)) == Some(i);
      assert Operands(py, PStr(date), PStr(input)) == Some((PStr(i), PStr(date)));
      DatesAreOrdered(i, date);
      DatesAreOrdered(date, i);
    }
  }
}
