/** Variable references in templates, `{component@variable}`: finding them, and
    rewriting the component ids inside them. */
module VariableRefs {
  import opened Wrappers
  import opened Text

  // ----- The reference pattern -----------------------------------------------
  //
  // The pattern is braces and space, a component id, `@` and a variable name, space
  // and braces. Neighbouring character classes are disjoint, so the greedy pattern
  // never has to give a character back, and it can be read one character at a time.

  predicate IsAlphanumeric(c: char) {
    'a' <= c <= 'z' || 'A' <= c <= 'Z' || '0' <= c <= '9'
  }

  predicate IsIdChar(c: char) {
    IsAlphanumeric(c) || c == ':' || c == '_' || c == '-'
  }

  predicate IsVarChar(c: char) {
    IsAlphanumeric(c) || c == '_' || c == '.' || c == '-'
  }

  /** The lengths of a match's parts: what stands before the id, the id, and what
      stands behind it (the pattern's groups 1, 2, and 3 with 4). */
  datatype Span = Span(open: nat, id: nat, tail: nat) {
    function Total(): nat {
      open + id + tail
    }
  }

  datatype Trail = InVariable | InSpace | InBraces

  function NextTrail(trail: Trail, s: string): Option<Trail> {
    if s == "" then None
    else if trail.InVariable? && IsVarChar(s[0]) then Some(InVariable)
    else if !trail.InBraces? && IsSpace(s[0]) then Some(InSpace)
    else if s[0] == '}' then Some(InBraces)
    else None
  }

  /** The rest of the variable name, the space and the closing braces. */
  function MatchTrail(trail: Trail, s: string): Option<nat>
    decreases |s|
  {
    var next := NextTrail(trail, s);
    if next.None? then (if trail.InBraces? then Some(0) else None)
    else
      var n := MatchTrail(next.value, s[1..]);
      if n.None? then None else Some(n.value + 1)
  }

  /** From the `@` on. */
  function MatchTail(s: string): Option<nat> {
    if |s| < 2 || s[0] != '@' || !IsVarChar(s[1]) then None
    else
      var n := MatchTrail(InVariable, s[2..]);
      if n.None? then None else Some(n.value + 2)
  }

  /** The rest of the id and what follows it. */
  function MatchId(s: string): Option<Span>
    decreases |s|
  {
    if s != "" && IsIdChar(s[0]) then
      var m := MatchId(s[1..]);
      if m.None? then None else Some(m.value.(id := m.value.id + 1))
    else
      var n := MatchTail(s);
      if n.None? then None else Some(Span(0, 0, n.value))
  }

  /** The rest of the opening braces or the space behind them, and what follows. */
  function MatchOpen(inBraces: bool, s: string): Option<Span>
    decreases |s|
  {
    if s == "" then None
    else if IsIdChar(s[0]) then MatchId(s)
    else if (inBraces && s[0] == '{') || IsSpace(s[0]) then
      var m := MatchOpen(inBraces && s[0] == '{', s[1..]);
      if m.None? then None else Some(m.value.(open := m.value.open + 1))
    else None
  }

  function Match(s: string): Option<Span> {
    if s == "" || s[0] != '{' then None
    else
      var m := MatchOpen(true, s[1..]);
      if m.None? then None else Some(m.value.(open := m.value.open + 1))
  }

  // ----- A match lies inside the text and ends behind all closing braces ---------

  lemma {:induction false} TrailFits(trail: Trail, s: string)
    requires MatchTrail(trail, s).Some?
    ensures var n := MatchTrail(trail, s).value; n <= |s| && (n < |s| ==> s[n] != '}')
    decreases |s|
  {
    var next := NextTrail(trail, s);
    if next.Some? {
      TrailFits(next.value, s[1..]);
    }
  }

  lemma TailFits(s: string)
    requires MatchTail(s).Some?
    ensures var n := MatchTail(s).value; 0 < n <= |s| && (n < |s| ==> s[n] != '}')
  {
    TrailFits(InVariable, s[2..]);
  }

  ghost predicate Fits(m: Span, s: string) {
    && m.tail > 0
    && m.Total() <= |s|
    && (m.Total() < |s| ==> s[m.Total()] != '}')
    && (forall i :: m.open <= i < m.open + m.id ==> IsIdChar(s[i]))
  }

  lemma FitsCons(m: Span, s: string, m': Span)
    requires s != "" && Fits(m, s[1..])
    requires m' == m.(open := m.open + 1) || (m' == m.(id := m.id + 1) && m.open == 0 && IsIdChar(s[0]))
    ensures Fits(m', s)
  {
    forall i | m'.open <= i < m'.open + m'.id ensures IsIdChar(s[i]) {
      if i > 0 {
        assert s[i] == s[1..][i - 1];
      }
    }
  }

  lemma {:induction false} IdFits(s: string)
    requires MatchId(s).Some?
    ensures var m := MatchId(s).value; m.open == 0 && Fits(m, s) && (s != "" && IsIdChar(s[0]) ==> m.id > 0)
    decreases |s|
  {
    if s != "" && IsIdChar(s[0]) {
      IdFits(s[1..]);
      FitsCons(MatchId(s[1..]).value, s, MatchId(s).value);
    } else {
      TailFits(s);
    }
  }

  lemma {:induction false} OpenFits(inBraces: bool, s: string)
    requires MatchOpen(inBraces, s).Some?
    ensures var m := MatchOpen(inBraces, s).value; Fits(m, s) && m.id > 0
    decreases |s|
  {
    if IsIdChar(s[0]) {
      IdFits(s);
    } else {
      var inBraces' := inBraces && s[0] == '{';
      OpenFits(inBraces', s[1..]);
      FitsCons(MatchOpen(inBraces', s[1..]).value, s, MatchOpen(inBraces, s).value);
    }
  }

  lemma MatchFits(s: string)
    requires Match(s).Some?
    ensures var m := Match(s).value; Fits(m, s) && m.id > 0 && m.open > 0
  {
    OpenFits(true, s[1..]);
    FitsCons(MatchOpen(true, s[1..]).value, s, Match(s).value);
  }

  // ----- Scanning and rewriting -----------------------------------------------

  /** A text is literal characters and references, whose ids can be replaced. */
  datatype Token = Literal(c: char) | Reference(open: string, id: string, tail: string)

  function ReferenceAt(s: string, m: Span): Token
    requires m.Total() <= |s|
  {
    Reference(s[..m.open], s[m.open..m.open + m.id], s[m.open + m.id..m.Total()])
  }

  function Scan(s: string): seq<Token>
    decreases |s|
  {
    if s == "" then []
    else match Match(s)
      case None => [Literal(s[0])] + Scan(s[1..])
      case Some(m) =>
        MatchFits(s);
        [ReferenceAt(s, m)] + Scan(s[m.Total()..])
  }

  function Rename(ids: map<string, string>, id: string): string {
    if id in ids then ids[id] else id
  }

  /** The text of a match with another id and another rest behind it. */
  function WithId(s: string, m: Span, id: string, rest: string): string
    requires m.Total() <= |s|
  {
    s[..m.open] + (id + (s[m.open + m.id..m.Total()] + rest))
  }

  /** Replace the id of every match, left to right, and keep everything else. */
  function Substitute(ids: map<string, string>, s: string): string
    decreases |s|
  {
    if s == "" then ""
    else match Match(s)
      case None => [s[0]] + Substitute(ids, s[1..])
      case Some(m) =>
        MatchFits(s);
        WithId(s, m, Rename(ids, s[m.open..m.open + m.id]), Substitute(ids, s[m.Total()..]))
  }

  /** The rewriting of one text: a component id is renamed as a whole. */
  function RewriteText(ids: map<string, string>, s: string): string {
    if s in ids then ids[s] else Substitute(ids, s)
  }

  function RenameTokens(ids: map<string, string>, ts: seq<Token>): seq<Token> {
    if ts == [] then []
    else [if ts[0].Literal? then ts[0] else ts[0].(id := Rename(ids, ts[0].id))] + RenameTokens(ids, ts[1..])
  }

  function ShowTokens(ts: seq<Token>): string {
    if ts == [] then ""
    else (if ts[0].Literal? then [ts[0].c] else ts[0].open + ts[0].id + ts[0].tail) + ShowTokens(ts[1..])
  }

  ghost predicate IsIdText(s: string) {
    s != "" && forall i :: 0 <= i < |s| ==> IsIdChar(s[i])
  }

  /** The id map sends ids that can stand in a reference to ids that can. */
  ghost predicate KeepsIdShape(ids: map<string, string>) {
    forall id :: id in ids && IsIdText(id) ==> IsIdText(ids[id])
  }

  // ----- A match survives the renaming of its id ----------------------------------

  /** A text in front of which a match may end. */
  predicate Ends(rest: string) {
    rest == "" || rest[0] != '}'
  }

  lemma {:induction false} TrailReadsAgain(trail: Trail, s: string, rest: string)
    requires MatchTrail(trail, s).Some? && Ends(rest)
    ensures var n := MatchTrail(trail, s).value; n <= |s| && MatchTrail(trail, s[..n] + rest) == Some(n)
    decreases |s|
  {
    TrailFits(trail, s);
    var n := MatchTrail(trail, s).value;
    var next := NextTrail(trail, s);
    if next.Some? {
      TrailReadsAgain(next.value, s[1..], rest);
      assert (s[..n] + rest)[1..] == s[1..][..n - 1] + rest;
    } else {
      assert s[..n] + rest == rest;
    }
  }

  lemma TailReadsAgain(s: string, rest: string)
    requires MatchTail(s).Some? && Ends(rest)
    ensures var n := MatchTail(s).value; n <= |s| && MatchTail(s[..n] + rest) == Some(n)
  {
    TailFits(s);
    var n := MatchTail(s).value;
    TrailReadsAgain(InVariable, s[2..], rest);
    assert (s[..n] + rest)[2..] == s[2..][..n - 2] + rest;
  }

  /** A tail read behind any id. */
  lemma {:induction false} AnyIdReads(id: string, tail: string, n: nat)
    requires MatchTail(tail) == Some(n)
    requires forall i :: 0 <= i < |id| ==> IsIdChar(id[i])
    ensures MatchId(id + tail) == Some(Span(0, |id|, n))
  {
    if id == "" {
      assert id + tail == tail;
    } else {
      AnyIdReads(id[1..], tail, n);
      assert (id + tail)[1..] == id[1..] + tail;
    }
  }

  lemma {:induction false} IdHasTail(s: string)
    requires MatchId(s).Some?
    ensures var m := MatchId(s).value; m.Total() <= |s| && MatchTail(s[m.id..]) == Some(m.tail)
    decreases |s|
  {
    IdFits(s);
    if s != "" && IsIdChar(s[0]) {
      IdHasTail(s[1..]);
      assert s[1..][MatchId(s).value.id - 1..] == s[MatchId(s).value.id..];
    } else {
      assert s[0..] == s;
    }
  }

  lemma WithIdInFront(s: string, m: Span, id: string, rest: string)
    requires m.open == 0 && m.Total() <= |s|
    ensures WithId(s, m, id, rest) == id + (s[m.id..m.Total()] + rest)
  {
  }

  lemma TailBehindId(s: string, rest: string)
    requires MatchId(s).Some? && Ends(rest)
    ensures var m := MatchId(s).value;
            m.Total() <= |s| && m.open == 0 && MatchTail(s[m.id..m.Total()] + rest) == Some(m.tail)
  {
    IdFits(s);
    IdHasTail(s);
    var m := MatchId(s).value;
    TailReadsAgain(s[m.id..], rest);
    assert s[m.id..][..m.tail] == s[m.id..m.Total()];
  }

  lemma IdReadsAgain(s: string, id: string, rest: string)
    requires MatchId(s).Some? && Ends(rest) && IsIdText(id)
    ensures var m := MatchId(s).value;
            m.Total() <= |s| && m.open == 0 && MatchId(WithId(s, m, id, rest)) == Some(m.(id := |id|))
  {
    var m := MatchId(s).value;
    TailBehindId(s, rest);
    WithIdInFront(s, m, id, rest);
    AnyIdReads(id, s[m.id..m.Total()] + rest, m.tail);
  }

  lemma WithIdCons(s: string, m: Span, id: string, rest: string)
    requires s != "" && m.Total() <= |s[1..]|
    ensures WithId(s, m.(open := m.open + 1), id, rest) == [s[0]] + WithId(s[1..], m, id, rest)
  {
    assert s[1..][m.open + m.id..m.Total()] == s[m.open + 1 + m.id..m.Total() + 1];
  }

  lemma {:induction false} OpenReadsAgain(inBraces: bool, s: string, id: string, rest: string)
    requires MatchOpen(inBraces, s).Some? && Ends(rest) && IsIdText(id)
    ensures var m := MatchOpen(inBraces, s).value;
            m.Total() <= |s| && MatchOpen(inBraces, WithId(s, m, id, rest)) == Some(m.(id := |id|))
    decreases |s|
  {
    OpenFits(inBraces, s);
    if IsIdChar(s[0]) {
      IdReadsAgain(s, id, rest);
    } else {
      var inBraces' := inBraces && s[0] == '{';
      OpenReadsAgain(inBraces', s[1..], id, rest);
      OpenFits(inBraces', s[1..]);
      WithIdCons(s, MatchOpen(inBraces', s[1..]).value, id, rest);
    }
  }

  lemma MatchReadsAgain(s: string, id: string, rest: string)
    requires Match(s).Some? && Ends(rest) && IsIdText(id)
    ensures var m := Match(s).value;
            m.Total() <= |s| && Match(WithId(s, m, id, rest)) == Some(m.(id := |id|))
  {
    OpenFits(true, s[1..]);
    OpenReadsAgain(true, s[1..], id, rest);
    WithIdCons(s, MatchOpen(true, s[1..]).value, id, rest);
  }

  // ----- What is no match stays none -------------------------------------------------

  lemma SubstituteKeepsHead(ids: map<string, string>, s: string)
    requires s != ""
    ensures Substitute(ids, s) != "" && Substitute(ids, s)[0] == s[0]
  {
    if Match(s).Some? {
      MatchFits(s);
    }
  }

  lemma SubstituteCopies(ids: map<string, string>, s: string)
    requires s != "" && Match(s).None?
    ensures Substitute(ids, s) == [s[0]] + Substitute(ids, s[1..])
  {
  }

  lemma {:induction false} TrailFails(ids: map<string, string>, trail: Trail, s: string)
    requires MatchTrail(trail, s).None?
    ensures MatchTrail(trail, Substitute(ids, s)).None?
    decreases |s|
  {
    if s != "" {
      SubstituteKeepsHead(ids, s);
      var next := NextTrail(trail, s);
      if next.Some? {
        assert IsVarChar(s[0]) || IsSpace(s[0]) || s[0] == '}';
        SubstituteCopies(ids, s);
        TrailFails(ids, next.value, s[1..]);
      }
    }
  }

  lemma TailFails(ids: map<string, string>, s: string)
    requires MatchTail(s).None?
    ensures MatchTail(Substitute(ids, s)).None?
  {
    if s != "" {
      SubstituteKeepsHead(ids, s);
      if s[0] == '@' && |s| > 1 {
        SubstituteCopies(ids, s);
        SubstituteKeepsHead(ids, s[1..]);
        if IsVarChar(s[1]) {
          SubstituteCopies(ids, s[1..]);
          TrailFails(ids, InVariable, s[2..]);
          assert s[1..][1..] == s[2..];
          assert Substitute(ids, s)[2..] == Substitute(ids, s[2..]);
        }
      } else if s[0] == '@' {
        SubstituteCopies(ids, s);
      }
    }
  }

  lemma {:induction false} IdFails(ids: map<string, string>, s: string)
    requires MatchId(s).None?
    ensures MatchId(Substitute(ids, s)).None?
    decreases |s|
  {
    if s != "" {
      SubstituteKeepsHead(ids, s);
      if IsIdChar(s[0]) {
        SubstituteCopies(ids, s);
        IdFails(ids, s[1..]);
      } else {
        TailFails(ids, s);
      }
    }
  }

  lemma {:induction false} OpenFails(ids: map<string, string>, inBraces: bool, s: string)
    requires MatchOpen(inBraces, s).None?
    ensures MatchOpen(inBraces, Substitute(ids, s)).None?
    decreases |s|
  {
    if s != "" {
      SubstituteKeepsHead(ids, s);
      if IsIdChar(s[0]) {
        IdFails(ids, s);
      } else if (inBraces && s[0] == '{') || IsSpace(s[0]) {
        SubstituteCopies(ids, s);
        OpenFails(ids, inBraces && s[0] == '{', s[1..]);
      }
    }
  }

  /** What fails to match at a position goes on failing when the text behind it is
      rewritten. */
  lemma MatchFails(ids: map<string, string>, s: string)
    requires s != "" && Match(s).None?
    ensures Match(Substitute(ids, s)).None?
  {
    SubstituteCopies(ids, s);
    if s[0] == '{' {
      OpenFails(ids, true, s[1..]);
    }
  }

  // ----- Main results ------------------------------------------------------------------

  lemma ShowsReference(s: string, m: Span, rest: seq<Token>)
    requires m.Total() <= |s| && ShowTokens(rest) == s[m.Total()..]
    ensures ShowTokens([ReferenceAt(s, m)] + rest) == s
  {
  }

  /** Scanning loses nothing. */
  lemma {:induction false} ScanShows(s: string)
    ensures ShowTokens(Scan(s)) == s
    decreases |s|
  {
    if s != "" {
      var m := Match(s);
      if m.None? {
        ScanShows(s[1..]);
      } else {
        MatchFits(s);
        ScanShows(s[m.value.Total()..]);
        ShowsReference(s, m.value, Scan(s[m.value.Total()..]));
      }
    }
  }

  /** The tokens of t are those of s with the id map applied. */
  predicate ScansAlike(ids: map<string, string>, s: string, t: string) {
    Scan(t) == RenameTokens(ids, Scan(s))
  }

  lemma {:induction false} RewrittenScansAlike(ids: map<string, string>, s: string)
    requires KeepsIdShape(ids)
    ensures ScansAlike(ids, s, Substitute(ids, s))
    decreases |s|
  {
    if s != "" {
      if Match(s).None? {
        RewrittenScansAlike(ids, s[1..]);
        LiteralRewritten(ids, s);
      } else {
        MatchFits(s);
        var m := Match(s).value;
        RewrittenScansAlike(ids, s[m.Total()..]);
        EndsBehindMatch(s, m);
        SubstituteEnds(ids, s[m.Total()..]);
        ReferenceRewritten(ids, s, m, Substitute(ids, s[m.Total()..]));
        SubstituteIsWithId(ids, s);
      }
    }
  }

  /** Rewriting commutes with scanning: the tokens of the rewritten text are those of
      the original, in the same order, with the id map applied inside references and
      every character outside the ids unchanged. */
  lemma RewritingCommutesWithScanning(ids: map<string, string>, s: string)
    requires KeepsIdShape(ids)
    ensures Scan(Substitute(ids, s)) == RenameTokens(ids, Scan(s))
  {
    RewrittenScansAlike(ids, s);
  }

  lemma LiteralRewritten(ids: map<string, string>, s: string)
    requires s != "" && Match(s).None? && ScansAlike(ids, s[1..], Substitute(ids, s[1..]))
    ensures ScansAlike(ids, s, Substitute(ids, s))
  {
    MatchFails(ids, s);
    assert Substitute(ids, s)[1..] == Substitute(ids, s[1..]);
  }

  lemma EndsBehindMatch(s: string, m: Span)
    requires Fits(m, s)
    ensures Ends(s[m.Total()..])
  {
  }

  lemma SlicesOf(open: string, id: string, tail: string, rest: string)
    ensures var text := open + (id + (tail + rest));
            && text[..|open|] == open
            && text[|open|..|open| + |id|] == id
            && text[|open| + |id|..|open| + |id| + |tail|] == tail
            && text[|open| + |id| + |tail|..] == rest
  {
  }

  lemma ScanAtMatch(s: string, m: Span)
    requires s != "" && Match(s) == Some(m)
    ensures m.Total() <= |s| && Scan(s) == [ReferenceAt(s, m)] + Scan(s[m.Total()..])
  {
    MatchFits(s);
  }

  lemma ScanParts(open: string, id: string, tail: string, rest: string)
    requires id != "" && Match(open + (id + (tail + rest))) == Some(Span(|open|, |id|, |tail|))
    ensures Scan(open + (id + (tail + rest))) == [Reference(open, id, tail)] + Scan(rest)
  {
    SlicesOf(open, id, tail, rest);
    ScanAtMatch(open + (id + (tail + rest)), Span(|open|, |id|, |tail|));
  }

  lemma ScanWithId(s: string, m: Span, id: string, rest: string)
    requires m.Total() <= |s| && id != ""
    requires Match(WithId(s, m, id, rest)) == Some(m.(id := |id|))
    ensures Scan(WithId(s, m, id, rest)) ==
            [Reference(s[..m.open], id, s[m.open + m.id..m.Total()])] + Scan(rest)
  {
    ScanParts(s[..m.open], id, s[m.open + m.id..m.Total()], rest);
  }

  lemma RenameTokensCons(ids: map<string, string>, t: Token, ts: seq<Token>)
    requires t.Reference?
    ensures RenameTokens(ids, [t] + ts) == [t.(id := Rename(ids, t.id))] + RenameTokens(ids, ts)
  {
  }

  lemma SubstituteEnds(ids: map<string, string>, s: string)
    requires Ends(s)
    ensures Ends(Substitute(ids, s))
  {
    if s != "" {
      SubstituteKeepsHead(ids, s);
    }
  }

  lemma RenamedAtMatch(ids: map<string, string>, s: string, m: Span)
    requires s != "" && Match(s) == Some(m) && m.Total() <= |s|
    ensures RenameTokens(ids, Scan(s)) ==
            [Reference(s[..m.open], Rename(ids, s[m.open..m.open + m.id]), s[m.open + m.id..m.Total()])]
            + RenameTokens(ids, Scan(s[m.Total()..]))
  {
    ScanAtMatch(s, m);
    RenameTokensCons(ids, ReferenceAt(s, m), Scan(s[m.Total()..]));
  }

  /** A match followed by what has been rewritten. */
  lemma ReferenceRewritten(ids: map<string, string>, s: string, m: Span, rest: string)
    requires KeepsIdShape(ids) && s != "" && Match(s) == Some(m) && Fits(m, s) && m.id > 0 && Ends(rest)
    requires ScansAlike(ids, s[m.Total()..], rest)
    ensures ScansAlike(ids, s, WithId(s, m, Rename(ids, s[m.open..m.open + m.id]), rest))
  {
    var was := s[m.open..m.open + m.id];
    assert IsIdText(was);
    MatchReadsAgain(s, Rename(ids, was), rest);
    ScanWithId(s, m, Rename(ids, was), rest);
    RenamedAtMatch(ids, s, m);
  }

  lemma SubstituteIsWithId(ids: map<string, string>, s: string)
    requires s != "" && Match(s).Some? && Match(s).value.Total() <= |s|
    ensures var m := Match(s).value;
            Substitute(ids, s) ==
            WithId(s, m, Rename(ids, s[m.open..m.open + m.id]), Substitute(ids, s[m.Total()..]))
  {
    var m := Match(s).value;
    Reassociate(s[..m.open], Rename(ids, s[m.open..m.open + m.id]), s[m.open + m.id..m.Total()],
                Substitute(ids, s[m.Total()..]));
  }

  lemma Reassociate(a: string, b: string, c: string, d: string)
    ensures ((a + b) + c) + d == a + (b + (c + d))
  {
  }
}
