/** The reference pattern as a regular expression, and that the character-by-character matcher finds
    exactly its matches. */
module ReferencePattern {
  import opened Wrappers
  import opened Text
  import opened VariableRefs

  /** Between 0 and 9, A and Z, or a and z in ASCII. */
  predicate IsWordCode(code: int) {
    48 <= code <= 57 || 65 <= code <= 90 || 97 <= code <= 122
  }

  /** The character classes of the pattern, by their members. */
  lemma CharacterClasses(c: char)
    ensures IsIdChar(c) <==> IsWordCode(c as int) || c in ":_-"
    ensures IsVarChar(c) <==> IsWordCode(c as int) || c in "_.-"
  {
    assert ":_-" == [':', '_', '-'] && "_.-" == ['_', '.', '-'];
  }

  predicate IsOpenBrace(c: char) {
    c == '{'
  }

  predicate IsCloseBrace(c: char) {
    c == '}'
  }

  predicate All(p: char -> bool, s: string) {
    forall i | 0 <= i < |s| :: p(s[i])
  }

  /** The parts of a match, in the order of the pattern's repetitions. */
  datatype Parts = Parts(braces: string, space: string, id: string, name: string, space': string, braces': string) {
    /** What the pattern asks of them. */
    predicate Valid() {
      && All(IsOpenBrace, braces) && braces != ""
      && All(IsSpace, space) && All(IsSpace, space')
      && All(IsIdChar, id) && id != ""
      && All(IsVarChar, name) && name != ""
      && All(IsCloseBrace, braces') && braces' != ""
    }

    function Tail(): string {
      "@" + (name + (space' + braces'))
    }

    function Text(): string {
      braces + (space + (id + Tail()))
    }

    function Lengths(): Span {
      Span(|braces| + |space|, |id|, |Tail()|)
    }
  }

  /** A repetition is greedy: the match takes all closing braces there are. */
  predicate Stops(rest: string) {
    rest == "" || rest[0] != '}'
  }

  // ----- The matcher finds every match ------------------------------------------------

  lemma {:induction false} BracesMatch(trail: Trail, b: string, rest: string)
    requires All(IsCloseBrace, b) && Stops(rest) && (b == "" ==> trail == InBraces)
    ensures MatchTrail(trail, b + rest) == Some(|b|)
    decreases |b|
  {
    if b == "" {
      assert b + rest == rest;
    } else {
      assert (b + rest)[1..] == b[1..] + rest;
      assert All(IsCloseBrace, b[1..]);
      BracesMatch(InBraces, b[1..], rest);
    }
  }

  lemma {:induction false} SpaceMatches(trail: Trail, sp: string, b: string, rest: string)
    requires All(IsSpace, sp) && All(IsCloseBrace, b) && b != "" && Stops(rest) && trail != InBraces
    ensures MatchTrail(trail, sp + (b + rest)) == Some(|sp| + |b|)
    decreases |sp|
  {
    if sp == "" {
      assert sp + (b + rest) == b + rest;
      BracesMatch(trail, b, rest);
    } else {
      assert (sp + (b + rest))[1..] == sp[1..] + (b + rest);
      SpaceMatches(InSpace, sp[1..], b, rest);
    }
  }

  lemma {:induction false} NameMatches(name: string, sp: string, b: string, rest: string)
    requires All(IsVarChar, name) && All(IsSpace, sp) && All(IsCloseBrace, b) && b != "" && Stops(rest)
    ensures MatchTrail(InVariable, name + (sp + (b + rest))) == Some(|name| + |sp| + |b|)
    decreases |name|
  {
    if name == "" {
      assert name + (sp + (b + rest)) == sp + (b + rest);
      SpaceMatches(InVariable, sp, b, rest);
    } else {
      assert (name + (sp + (b + rest)))[1..] == name[1..] + (sp + (b + rest));
      NameMatches(name[1..], sp, b, rest);
    }
  }

  lemma TailMatches(p: Parts, rest: string)
    requires p.Valid() && Stops(rest)
    ensures MatchTail(p.Tail() + rest) == Some(|p.Tail()|)
  {
    var s := p.Tail() + rest;
    assert s[2..] == p.name[1..] + (p.space' + (p.braces' + rest));
    NameMatches(p.name[1..], p.space', p.braces', rest);
  }

  lemma {:induction false} IdMatches(id: string, p: Parts, rest: string)
    requires p.Valid() && Stops(rest) && All(IsIdChar, id)
    ensures MatchId(id + (p.Tail() + rest)) == Some(Span(0, |id|, |p.Tail()|))
    decreases |id|
  {
    if id == "" {
      assert id + (p.Tail() + rest) == p.Tail() + rest;
      TailMatches(p, rest);
    } else {
      assert (id + (p.Tail() + rest))[1..] == id[1..] + (p.Tail() + rest);
      IdMatches(id[1..], p, rest);
    }
  }

  lemma {:induction false} OpenSpaceMatches(inBraces: bool, sp: string, p: Parts, rest: string)
    requires p.Valid() && Stops(rest) && All(IsSpace, sp)
    ensures MatchOpen(inBraces, sp + (p.id + (p.Tail() + rest))) == Some(Span(|sp|, |p.id|, |p.Tail()|))
    decreases |sp|
  {
    var s := sp + (p.id + (p.Tail() + rest));
    if sp == "" {
      assert s == p.id + (p.Tail() + rest);
      IdMatches(p.id, p, rest);
    } else {
      assert s[1..] == sp[1..] + (p.id + (p.Tail() + rest));
      OpenSpaceMatches(false, sp[1..], p, rest);
    }
  }

  lemma {:induction false} OpenBracesMatch(braces: string, p: Parts, rest: string)
    requires p.Valid() && Stops(rest) && All(IsOpenBrace, braces)
    ensures MatchOpen(true, braces + (p.space + (p.id + (p.Tail() + rest)))) ==
            Some(Span(|braces| + |p.space|, |p.id|, |p.Tail()|))
    decreases |braces|
  {
    var after := p.space + (p.id + (p.Tail() + rest));
    if braces == "" {
      assert braces + after == after;
      OpenSpaceMatches(true, p.space, p, rest);
    } else {
      assert (braces + after)[1..] == braces[1..] + after;
      OpenBracesMatch(braces[1..], p, rest);
    }
  }

  /** Wherever the text begins with a match of the pattern, the matcher finds it, with its groups. */
  lemma EveryMatchIsFound(p: Parts, rest: string)
    requires p.Valid() && Stops(rest)
    ensures Match(p.Text() + rest) == Some(p.Lengths())
  {
    var after := p.space + (p.id + (p.Tail() + rest));
    assert p.Text() + rest == p.braces + after;
    assert (p.braces + after)[1..] == p.braces[1..] + after;
    OpenBracesMatch(p.braces[1..], p, rest);
  }

  // ----- The matcher finds only matches -------------------------------------------------

  lemma {:induction false} TrailIsSpaceAndBraces(trail: Trail, s: string) returns (name: string, sp: string, b: string)
    requires MatchTrail(trail, s).Some?
    ensures All(IsVarChar, name) && All(IsSpace, sp) && All(IsCloseBrace, b)
    ensures |name + (sp + b)| == MatchTrail(trail, s).value <= |s| && s[..MatchTrail(trail, s).value] == name + (sp + b)
    ensures trail != InBraces ==> b != ""
    ensures trail != InVariable ==> name == ""
    ensures trail == InBraces ==> sp == ""
    decreases |s|
  {
    var next := NextTrail(trail, s);
    name, sp, b := "", "", "";
    if next.Some? {
      name, sp, b := TrailIsSpaceAndBraces(next.value, s[1..]);
      var n := MatchTrail(next.value, s[1..]).value;
      assert s[..n + 1] == [s[0]] + s[1..][..n];
      match next.value {
        case InVariable => name := [s[0]] + name;
        case InSpace => sp := [s[0]] + sp;
        case InBraces => b := [s[0]] + b;
      }
    }
  }

  lemma TailIsNamed(s: string) returns (p: Parts)
    requires MatchTail(s).Some?
    ensures All(IsVarChar, p.name) && p.name != "" && All(IsSpace, p.space') && All(IsCloseBrace, p.braces') && p.braces' != ""
    ensures MatchTail(s).value <= |s| && s[..MatchTail(s).value] == p.Tail()
  {
    var name, sp, b := TrailIsSpaceAndBraces(InVariable, s[2..]);
    var n := MatchTrail(InVariable, s[2..]).value;
    assert s[..n + 2] == [s[0], s[1]] + s[2..][..n];
    p := Parts("", "", "", [s[1]] + name, sp, b);
    assert p.Tail() == [s[0], s[1]] + (name + (sp + b));
  }

  lemma OneLonger(s: string, n: nat, t: string)
    requires n < |s| && s[1..][..n] == t
    ensures s[..n + 1] == [s[0]] + t
  {
  }

  lemma {:induction false} IdIsFollowed(s: string) returns (p: Parts)
    requires MatchId(s).Some?
    ensures All(IsVarChar, p.name) && p.name != "" && All(IsSpace, p.space') && All(IsCloseBrace, p.braces') && p.braces' != ""
    ensures All(IsIdChar, p.id) && (s != "" && IsIdChar(s[0]) ==> p.id != "")
    ensures MatchId(s).value == Span(0, |p.id|, |p.Tail()|)
    ensures MatchId(s).value.Total() <= |s| && s[..MatchId(s).value.Total()] == p.id + p.Tail()
    decreases |s|
  {
    if s != "" && IsIdChar(s[0]) {
      var q := IdIsFollowed(s[1..]);
      p := q.(id := [s[0]] + q.id);
      OneLonger(s, MatchId(s[1..]).value.Total(), q.id + q.Tail());
      assert p.Tail() == q.Tail();
    } else {
      p := TailIsNamed(s);
      p := p.(id := "");
    }
  }

  lemma Longer(q: Parts, c: char)
    ensures q.(braces := [c] + q.braces).Text() == [c] + q.Text()
    ensures q.braces == "" ==> q.(space := [c] + q.space).Text() == [c] + q.Text()
  {
    assert q.(braces := [c] + q.braces).Tail() == q.Tail();
    assert q.(space := [c] + q.space).Tail() == q.Tail();
  }

  lemma {:induction false} OpenIsFollowed(inBraces: bool, s: string) returns (p: Parts)
    requires MatchOpen(inBraces, s).Some?
    ensures All(IsOpenBrace, p.braces) && All(IsSpace, p.space) && All(IsIdChar, p.id) && p.id != ""
    ensures All(IsVarChar, p.name) && p.name != "" && All(IsSpace, p.space') && All(IsCloseBrace, p.braces') && p.braces' != ""
    ensures !inBraces ==> p.braces == ""
    ensures MatchOpen(inBraces, s).value == p.Lengths()
    ensures p.Lengths().Total() <= |s| && s[..p.Lengths().Total()] == p.Text()
    decreases |s|
  {
    if IsIdChar(s[0]) {
      var q := IdIsFollowed(s);
      p := q.(braces := "", space := "");
      assert p.Tail() == q.Tail();
      assert p.Text() == p.id + p.Tail();
    } else {
      var still := inBraces && s[0] == '{';
      var q := OpenIsFollowed(still, s[1..]);
      OneLonger(s, q.Lengths().Total(), q.Text());
      Longer(q, s[0]);
      p := if still then q.(braces := [s[0]] + q.braces) else q.(space := [s[0]] + q.space);
    }
  }

  /** What the matcher finds at the start of a text is a match of the pattern. */
  lemma EveryFindIsAMatch(s: string) returns (p: Parts)
    requires Match(s).Some?
    ensures p.Valid() && Match(s).value == p.Lengths()
    ensures |p.Text()| <= |s| && s[..|p.Text()|] == p.Text()
  {
    var q := OpenIsFollowed(true, s[1..]);
    p := q.(braces := [s[0]] + q.braces);
    var n := q.Lengths().Total();
    assert s[..n + 1] == [s[0]] + s[1..][..n];
    Longer(q, s[0]);
  }
}
