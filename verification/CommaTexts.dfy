/** Texts that are lists: what stands between the commas, or the dots, and which of it counts. */
module CommaTexts {
  import opened Text
  import opened PythonValues
  import opened EsFilter
  import opened Subsequences
  import Gauss = GaussFilter

  function Joined(parts: seq<string>, separator: char): string {
    if parts == [] then ""
    else if |parts| == 1 then parts[0]
    else parts[0] + [separator] + Joined(parts[1..], separator)
  }

  /** Splitting is undone by joining, and no part has a separator. */
  predicate IsSplitOf(parts: seq<string>, text: string, separator: char) {
    parts != [] && Joined(parts, separator) == text && forall p :: p in parts ==> separator !in p
  }

  lemma SplitOfEmpty(separator: char)
    ensures IsSplitOf([""], "", separator)
  {
  }

  lemma AtSeparator(text: string, rest: seq<string>, separator: char)
    requires IsSplitOf(rest, text, separator)
    ensures IsSplitOf([""] + rest, [separator] + text, separator)
  {
    assert ([""] + rest)[1..] == rest;
  }

  lemma LongerJoined(c: char, rest: seq<string>, separator: char)
    requires rest != []
    ensures Joined([[c] + rest[0]] + rest[1..], separator) == [c] + Joined(rest, separator)
  {
    var parts := [[c] + rest[0]] + rest[1..];
    assert parts[1..] == rest[1..];
    if |rest| > 1 {
      assert ([c] + rest[0]) + [separator] + Joined(rest[1..], separator) ==
             [c] + (rest[0] + [separator] + Joined(rest[1..], separator));
    }
  }

  lemma InFirstPart(c: char, text: string, rest: seq<string>, separator: char)
    requires IsSplitOf(rest, text, separator) && c != separator
    ensures IsSplitOf([[c] + rest[0]] + rest[1..], [c] + text, separator)
  {
    LongerJoined(c, rest, separator);
    forall p | p in [[c] + rest[0]] + rest[1..] ensures separator !in p {
      assert p == [c] + rest[0] || p in rest;
    }
  }

  lemma {:induction false} CommasAreSplit(text: string)
    ensures IsSplitOf(SplitCommas(text), text, ',')
  {
    if text == [] {
      SplitOfEmpty(',');
    } else {
      CommasAreSplit(text[1..]);
      if text[0] == ',' {
        AtSeparator(text[1..], SplitCommas(text[1..]), ',');
      } else {
        InFirstPart(text[0], text[1..], SplitCommas(text[1..]), ',');
      }
      assert [text[0]] + text[1..] == text;
    }
  }

  lemma {:induction false} DotsAreSplit(text: string)
    ensures IsSplitOf(Gauss.SplitDots(text), text, '.')
  {
    if text == [] {
      SplitOfEmpty('.');
    } else {
      DotsAreSplit(text[1..]);
      if text[0] == '.' {
        AtSeparator(text[1..], Gauss.SplitDots(text[1..]), '.');
      } else {
        InFirstPart(text[0], text[1..], Gauss.SplitDots(text[1..]), '.');
      }
      assert [text[0]] + text[1..] == text;
    }
  }

  function AllStripped(parts: seq<string>): (r: seq<PyVal>)
    ensures |r| == |parts| && forall i :: 0 <= i < |parts| ==> r[i] == PStr(Strip(parts[i]))
  {
    seq(|parts|, i requires 0 <= i < |parts| => PStr(Strip(parts[i])))
  }

  function NotBlank(): PyVal -> bool {
    (v: PyVal) => v.PStr? && v.s != ""
  }

  /** The parts that count are those that are not blank, trimmed, in order. */
  lemma {:induction false} TrimmedInOrder(parts: seq<string>) returns (at: seq<nat>)
    ensures AreThose(Trimmed(parts), AllStripped(parts), at, NotBlank())
  {
    if parts == [] {
      at := [];
    } else {
      var rest := TrimmedInOrder(parts[1..]);
      at := OneInFront(PStr(Strip(parts[0])), Trimmed(parts[1..]), AllStripped(parts[1..]), rest, NotBlank());
      assert [PStr(Strip(parts[0]))] + AllStripped(parts[1..]) == AllStripped(parts);
    }
  }

  lemma {:induction false} TrimmedHas(parts: seq<string>, v: PyVal)
    ensures v in Trimmed(parts) <==> exists p :: p in parts && v == PStr(Strip(p)) && Strip(p) != ""
  {
    if parts != [] {
      TrimmedHas(parts[1..], v);
      assert forall p :: p in parts <==> p == parts[0] || p in parts[1..];
    }
  }
}
