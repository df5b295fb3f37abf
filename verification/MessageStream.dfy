/** The streaming answer of a message component: chunks are shown as they arrive,
    the text outside think markers is cut into sentences and handed to speech. */
module MessageStream {
  import opened Wrappers
  import opened Text
  import Speech

  const THINK := "<think>"
  const END_THINK := "</think>"

  // ----- Finding the end of a sentence --------------------------------------

  predicate EndsSentence(c: char) {
    c == '。' || c == '！' || c == '？' || c == '!' || c == '?' || c == '；'
    || c == ';' || c == '\n'
  }

  predicate ClosesQuote(c: char) {
    c == '”' || c == '’' || c == '\"' || c == '』' || c == '」' || c == '】'
    || c == '》' || c == '）' || c == ')'
  }

  predicate EndsAbbreviation(c: char) {
    c == '.' || c == '!' || c == '?'
  }

  function ClosersFrom(s: string, p: nat): (end: nat)
    requires p <= |s|
    ensures p <= end <= |s|
    decreases |s| - p
  {
    if p < |s| && ClosesQuote(s[p]) then ClosersFrom(s, p + 1) else p
  }

  /** The end of the leftmost match at or after `p`: a terminator with the closing
      quotes after it, or the gap between a full stop and white space or the end. */
  function SentenceEndFrom(s: string, p: nat): (end: Option<nat>)
    requires p <= |s|
    ensures end.Some? ==> p <= end.value <= |s| && end.value > 0
    decreases |s| - p
  {
    if p < |s| && EndsSentence(s[p]) then Some(ClosersFrom(s, p + 1))
    else if p > 0 && EndsAbbreviation(s[p - 1]) && (p == |s| || IsSpace(s[p])) then Some(p)
    else if p == |s| then None
    else SentenceEndFrom(s, p + 1)
  }

  function SentenceEnd(s: string): (end: Option<nat>)
    ensures end.Some? ==> 1 <= end.value <= |s|
  {
    SentenceEndFrom(s, 0)
  }

  /** The pattern of a sentence end matches from p to e: a terminator with all closing quotes behind it, or the
      empty text between a full stop and white space or the end. */
  predicate MatchesAt(s: string, p: nat, e: nat) {
    if p < |s| && s[p] in "。！？!?；;\n" then
      && p < e <= |s| && (forall k :: p < k < e ==> s[k] in "”’\"』」】》）)")
      && (e < |s| ==> s[e] !in "”’\"』」】》）)")
    else e == p && 0 < p <= |s| && s[p - 1] in ".!?" && (p < |s| ==> IsSpace(s[p]))
  }

  lemma {:induction false} ClosersAreTaken(s: string, p: nat)
    requires p <= |s|
    ensures var e := ClosersFrom(s, p);
            (forall k :: p <= k < e ==> ClosesQuote(s[k])) && (e < |s| ==> !ClosesQuote(s[e]))
    decreases |s| - p
  {
    if p < |s| && ClosesQuote(s[p]) {
      ClosersAreTaken(s, p + 1);
    }
  }

  lemma QuotesAre(c: char)
    ensures ClosesQuote(c) <==> c in "”’\"』」】》）)"
    ensures EndsSentence(c) <==> c in "。！？!?；;\n"
    ensures EndsAbbreviation(c) <==> c in ".!?"
  {
  }

  lemma {:induction false} EndIsLeftmost(s: string, p: nat) returns (at: nat)
    requires p <= |s|
    ensures var e := SentenceEndFrom(s, p);
            if e.Some? then p <= at <= |s| && MatchesAt(s, at, e.value) && forall q, f :: p <= q < at ==> !MatchesAt(s, q, f)
            else forall q, f :: p <= q <= |s| ==> !MatchesAt(s, q, f)
    decreases |s| - p
  {
    at := p;
    if p < |s| {
      QuotesAre(s[p]);
    }
    if p > 0 {
      QuotesAre(s[p - 1]);
    }
    if p < |s| && EndsSentence(s[p]) {
      ClosersAreTaken(s, p + 1);
      forall k | 0 <= k < |s| ensures ClosesQuote(s[k]) <==> s[k] in "”’\"』」】》）)" {
        QuotesAre(s[k]);
      }
    } else if p < |s| && !(p > 0 && EndsAbbreviation(s[p - 1]) && IsSpace(s[p])) {
      at := EndIsLeftmost(s, p + 1);
      assert forall f :: !MatchesAt(s, p, f);
    }
  }

  /** A sentence ends where the leftmost match of the pattern does, and nowhere if there is none. */
  lemma SentenceEndsAtMatch(s: string) returns (at: nat)
    ensures SentenceEnd(s).Some? ==>
              at <= |s| && MatchesAt(s, at, SentenceEnd(s).value) && forall q: nat, f :: q < at ==> !MatchesAt(s, q, f)
    ensures SentenceEnd(s).None? ==> forall q: nat, f :: q <= |s| ==> !MatchesAt(s, q, f)
  {
    at := EndIsLeftmost(s, 0);
  }

  datatype Pieces = Pieces(sentences: seq<string>, rest: string)

  /** Cut sentences off the front until no sentence end is left. */
  function Split(buffer: string): Pieces
    decreases |buffer|
  {
    var end := SentenceEnd(buffer);
    if end.None? then Pieces([], buffer)
    else
      var more := Split(buffer[end.value..]);
      Pieces([buffer[..end.value]] + more.sentences, more.rest)
  }

  // ----- One chunk ----------------------------------------------------------

  datatype Event = Content(text: string) | StartToThink | EndToThink

  datatype State = State(buffer: string, content: string, thinking: bool)

  /** The new state, the texts handed to the speech scheduler, and the events. */
  datatype Step = Step(state: State, handed: seq<string>, events: seq<Event>)

  function Process(s: State, chunk: string): Step {
    if chunk == "" then Step(s, [], [])
    else if chunk == THINK then
      Step(s.(thinking := true, buffer := ""), [s.buffer], [StartToThink])
    else if chunk == END_THINK then
      Step(s.(thinking := false), [], [EndToThink])
    else if s.thinking then
      Step(s.(content := s.content + chunk), [], [Content(chunk)])
    else
      var pieces := Split(s.buffer + chunk);
      Step(State(pieces.rest, s.content + chunk, false), pieces.sentences, [Content(chunk)])
  }

  function ProcessAll(s: State, chunks: seq<string>): Step
    decreases |chunks|
  {
    if chunks == [] then Step(s, [], [])
    else
      var first := Process(s, chunks[0]);
      var rest := ProcessAll(first.state, chunks[1..]);
      Step(rest.state, first.handed + rest.handed, first.events + rest.events)
  }

  /** What is handed over once the stream is exhausted. */
  function Tail(s: State): seq<string> {
    if s.buffer == "" then [] else [s.buffer]
  }

  const FRESH := State("", "", false)

  // ----- The streaming loop, in place ---------------------------------------

  class Message {
    var buffer: string
    var content: string
    var thinking: bool
    var handed: seq<string>
    var events: seq<Event>

    function Now(): State
      reads this
    {
      State(buffer, content, thinking)
    }

    constructor ()
      ensures Now() == FRESH && handed == [] && events == []
    {
      buffer, content, thinking, handed, events := "", "", false, [], [];
    }

    method ProcessChunk(chunk: string)
      modifies this
      ensures var step := Process(old(Now()), chunk);
              && Now() == step.state
              && handed == old(handed) + step.handed
              && events == old(events) + step.events
    {
      if chunk == "" {
        return;
      }
      if chunk == THINK {
        handed := handed + [buffer];
        thinking, buffer := true, "";
        events := events + [StartToThink];
      } else if chunk == END_THINK {
        thinking := false;
        events := events + [EndToThink];
      } else {
        content := content + chunk;
        if !thinking {
          buffer := buffer + chunk;
          ghost var all := Split(buffer);
          var end := SentenceEnd(buffer);
          while end.Some?
            invariant end == SentenceEnd(buffer)
            invariant content == old(content) + chunk && !thinking
            invariant events == old(events)
            invariant all.rest == Split(buffer).rest
            invariant old(handed) + all.sentences == handed + Split(buffer).sentences
            decreases |buffer|
          {
            var sentence := buffer[..end.value];
            assert handed + Split(buffer).sentences ==
                   (handed + [sentence]) + Split(buffer[end.value..]).sentences;
            buffer := buffer[end.value..];
            handed := handed + [sentence];
            end := SentenceEnd(buffer);
          }
          assert handed + [] == handed;
        }
        events := events + [Content(chunk)];
      }
    }

    /** The whole stream: every chunk in turn, then the unfinished sentence. */
    method Consume(stream: seq<string>)
      requires Now() == FRESH && handed == [] && events == []
      modifies this
      ensures var all := ProcessAll(FRESH, stream);
              && handed == all.handed + Tail(all.state)
              && events == all.events
              && content == all.state.content && buffer == ""
    {
      var i := 0;
      while i < |stream|
        invariant 0 <= i <= |stream|
        invariant Step(Now(), handed, events) == ProcessAll(FRESH, stream[..i])
      {
        ProcessAllSnoc(FRESH, stream[..i], stream[i]);
        assert stream[..i + 1] == stream[..i] + [stream[i]];
        ProcessChunk(stream[i]);
        i := i + 1;
      }
      assert stream[..i] == stream;
      if buffer != "" {
        handed := handed + [buffer];
        buffer := "";
      }
    }
  }

  lemma {:induction false} ProcessAllSnoc(s: State, chunks: seq<string>, chunk: string)
    ensures var before := ProcessAll(s, chunks);
            var last := Process(before.state, chunk);
            ProcessAll(s, chunks + [chunk]) ==
            Step(last.state, before.handed + last.handed, before.events + last.events)
    decreases |chunks|
  {
    if chunks == [] {
      assert ProcessAll(s, [chunk]) == Process(s, chunk) by {
        var p := Process(s, chunk);
        assert [chunk][1..] == [];
        assert p.handed + [] == p.handed && p.events + [] == p.events;
      }
      assert chunks + [chunk] == [chunk];
    } else {
      var first := Process(s, chunks[0]);
      ProcessAllSnoc(first.state, chunks[1..], chunk);
      assert (chunks + [chunk])[1..] == chunks[1..] + [chunk];
    }
  }

  // ----- What streaming promises --------------------------------------------

  function Concat(texts: seq<string>): string {
    if texts == [] then "" else texts[0] + Concat(texts[1..])
  }

  lemma {:induction false} ConcatAppend(a: seq<string>, b: seq<string>)
    ensures Concat(a + b) == Concat(a) + Concat(b)
  {
    if a == [] {
      assert a + b == b;
    } else {
      assert (a + b)[1..] == a[1..] + b;
      ConcatAppend(a[1..], b);
      assert a[0] + (Concat(a[1..]) + Concat(b)) == (a[0] + Concat(a[1..])) + Concat(b);
    }
  }

  predicate IsMarker(chunk: string) {
    chunk == THINK || chunk == END_THINK
  }

  /** All text of the stream: the chunks that are not markers. */
  function Visible(chunks: seq<string>): string {
    if chunks == [] then ""
    else (if IsMarker(chunks[0]) then "" else chunks[0]) + Visible(chunks[1..])
  }

  /** The text to be spoken: the chunks outside think markers. */
  function Spoken(chunks: seq<string>, thinking: bool): string
    decreases |chunks|
  {
    if chunks == [] then ""
    else if IsMarker(chunks[0]) then Spoken(chunks[1..], chunks[0] == THINK)
    else (if thinking then "" else chunks[0]) + Spoken(chunks[1..], thinking)
  }

  function Shown(events: seq<Event>): string {
    if events == [] then ""
    else (if events[0].Content? then events[0].text else "") + Shown(events[1..])
  }

  lemma ConcatCons(first: string, more: seq<string>, rest: string)
    ensures Concat([first] + more) + rest == first + (Concat(more) + rest)
  {
    assert ([first] + more)[1..] == more;
  }

  lemma SentenceFirst(buffer: string, end: nat, more: Pieces)
    requires 0 < end <= |buffer| && Concat(more.sentences) + more.rest == buffer[end..] && "" !in more.sentences
    ensures Concat([buffer[..end]] + more.sentences) + more.rest == buffer && "" !in [buffer[..end]] + more.sentences
  {
    ConcatCons(buffer[..end], more.sentences, more.rest);
    assert buffer[..end] + buffer[end..] == buffer;
  }

  /** Splitting loses nothing, makes only non-empty sentences, and leaves a rest in
      which no sentence ends. */
  lemma {:induction false} SplitConserves(buffer: string)
    ensures var pieces := Split(buffer);
            && Concat(pieces.sentences) + pieces.rest == buffer
            && "" !in pieces.sentences
            && SentenceEnd(pieces.rest).None?
    decreases |buffer|
  {
    var end := SentenceEnd(buffer);
    if end.None? {
      assert Concat([]) + buffer == buffer;
    } else {
      SplitConserves(buffer[end.value..]);
      SentenceFirst(buffer, end.value, Split(buffer[end.value..]));
    }
  }

  /** The leftmost match of the pattern of a sentence end ends here. */
  ghost predicate EndsFirstAt(s: string, e: nat) {
    exists p: nat :: p <= |s| && MatchesAt(s, p, e) && forall q: nat, f :: q < p ==> !MatchesAt(s, q, f)
  }

  ghost predicate EndsNowhere(s: string) {
    forall q: nat, f :: q <= |s| ==> !MatchesAt(s, q, f)
  }

  /** The sentences lie between these places, each ending with the leftmost match behind the one before. */
  ghost predicate CutAt(buffer: string, sentences: seq<string>, cuts: seq<nat>) {
    && |cuts| == |sentences| + 1 && cuts[0] == 0
    && forall k :: 0 <= k < |sentences| ==> IsCut(buffer, sentences[k], cuts[k], cuts[k + 1])
  }

  ghost predicate IsCut(buffer: string, sentence: string, from: nat, end: nat) {
    from <= end <= |buffer| && sentence == buffer[from..end] && EndsFirstAt(buffer[from..], end - from)
  }

  lemma CutBehind(buffer: string, end: nat, sentence: string, from: nat, until: nat)
    requires end <= |buffer| && IsCut(buffer[end..], sentence, from, until)
    ensures IsCut(buffer, sentence, end + from, end + until)
  {
    assert buffer[end..][from..] == buffer[end + from..];
    assert buffer[end..][from..until] == buffer[end + from..end + until];
  }

  function From(n: nat, cuts: seq<nat>): (r: seq<nat>)
    ensures |r| == |cuts| + 1 && r[0] == 0 && forall i :: 0 <= i < |cuts| ==> r[i + 1] == n + cuts[i]
  {
    [0] + seq(|cuts|, i requires 0 <= i < |cuts| => n + cuts[i])
  }

  lemma FirstCut(buffer: string, n: nat)
    requires n <= |buffer| && EndsFirstAt(buffer, n)
    ensures IsCut(buffer, buffer[..n], 0, n)
  {
    assert buffer[0..] == buffer;
  }

  lemma LaterCut(buffer: string, n: nat, sentences: seq<string>, cuts: seq<nat>, k: nat)
    requires n <= |buffer| && k < |sentences| && CutAt(buffer[n..], sentences, cuts)
    ensures IsCut(buffer, sentences[k], n + cuts[k], n + cuts[k + 1])
  {
    assert IsCut(buffer[n..], sentences[k], cuts[k], cuts[k + 1]);
    CutBehind(buffer, n, sentences[k], cuts[k], cuts[k + 1]);
  }

  lemma CutsBehind(buffer: string, n: nat, sentences: seq<string>, cuts: seq<nat>)
    requires n <= |buffer| && EndsFirstAt(buffer, n) && CutAt(buffer[n..], sentences, cuts)
    ensures CutAt(buffer, [buffer[..n]] + sentences, From(n, cuts))
  {
    var all, from := [buffer[..n]] + sentences, From(n, cuts);
    FirstCut(buffer, n);
    forall k | 0 <= k < |all| ensures IsCut(buffer, all[k], from[k], from[k + 1]) {
      if k > 0 {
        LaterCut(buffer, n, sentences, cuts, k - 1);
      }
    }
  }

  lemma EndsFirst(s: string)
    ensures if SentenceEnd(s).Some? then EndsFirstAt(s, SentenceEnd(s).value) else EndsNowhere(s)
  {
    var at := SentenceEndsAtMatch(s);
  }

  /** A buffer is cut at every leftmost match, until there is none. */
  lemma {:induction false} SplitsAtMatches(buffer: string) returns (cuts: seq<nat>)
    ensures CutAt(buffer, Split(buffer).sentences, cuts) && cuts[|cuts| - 1] <= |buffer|
    ensures Split(buffer).rest == buffer[cuts[|cuts| - 1]..] && EndsNowhere(Split(buffer).rest)
    decreases |buffer|
  {
    EndsFirst(buffer);
    var end := SentenceEnd(buffer);
    if end.None? {
      cuts := [0];
    } else {
      var n := end.value;
      var later := SplitsAtMatches(buffer[n..]);
      cuts := From(n, later);
      CutsBehind(buffer, n, Split(buffer[n..]).sentences, later);
      assert buffer[n..][later[|later| - 1]..] == buffer[n + later[|later| - 1]..];
    }
  }

  /** One chunk: what is handed over plus what stays buffered is what was buffered
      plus the chunk's own spoken text. */
  lemma ChunkConserves(s: State, chunk: string)
    requires s.thinking ==> s.buffer == ""
    ensures var step := Process(s, chunk);
            && Concat(step.handed) + step.state.buffer ==
               s.buffer + (if IsMarker(chunk) || s.thinking then "" else chunk)
            && (step.state.thinking ==> step.state.buffer == "")
            && step.state.thinking == (if IsMarker(chunk) then chunk == THINK else s.thinking)
            && step.state.content == s.content + (if IsMarker(chunk) then "" else chunk)
            && |step.events| <= 1
            && Shown(step.events) == (if IsMarker(chunk) then "" else chunk)
  {
    if chunk == THINK {
      ConcatCons(s.buffer, [], "");
    } else if chunk != END_THINK && chunk != "" && !s.thinking {
      SplitConserves(s.buffer + chunk);
    }
  }

  /** Handing over one chunk and then the later ones, with `kept` still buffered. */
  lemma HandedInTurn(first: seq<string>, between: string, rest: seq<string>, kept: string,
                     before: string, spoken: string, later: string)
    requires Concat(first) + between == before + spoken
    requires Concat(rest) + kept == between + later
    ensures Concat(first + rest) + kept == before + (spoken + later)
  {
    ConcatAppend(first, rest);
    calc {
      Concat(first + rest) + kept;
      Concat(first) + (Concat(rest) + kept);
      Concat(first) + (between + later);
      (Concat(first) + between) + later;
      (before + spoken) + later;
      before + (spoken + later);
    }
  }

  lemma {:induction false} HandedIsSpoken(s: State, chunks: seq<string>)
    requires s.thinking ==> s.buffer == ""
    ensures var all := ProcessAll(s, chunks);
            Concat(all.handed) + all.state.buffer == s.buffer + Spoken(chunks, s.thinking)
    decreases |chunks|
  {
    if chunks != [] {
      var first := Process(s, chunks[0]);
      ChunkConserves(s, chunks[0]);
      HandedIsSpoken(first.state, chunks[1..]);
      var rest := ProcessAll(first.state, chunks[1..]);
      HandedInTurn(first.handed, first.state.buffer, rest.handed, rest.state.buffer, s.buffer,
                   if IsMarker(chunks[0]) || s.thinking then "" else chunks[0],
                   Spoken(chunks[1..], first.state.thinking));
    }
  }

  lemma ShownInTurn(first: seq<Event>, rest: seq<Event>)
    requires |first| <= 1
    ensures Shown(first + rest) == Shown(first) + Shown(rest)
  {
    if first == [] {
      assert first + rest == rest;
    } else {
      assert (first + rest)[1..] == rest;
    }
  }

  lemma JoinShown(s: State, first: Step, rest: Step, own: string, more: string)
    requires first.state.content == s.content + own && Shown(first.events) == own && |first.events| <= 1
    requires rest.state.content == first.state.content + more && Shown(rest.events) == more
    ensures rest.state.content == s.content + (own + more) && Shown(first.events + rest.events) == own + more
  {
    ShownInTurn(first.events, rest.events);
  }

  lemma {:induction false} ShownIsStored(s: State, chunks: seq<string>)
    requires s.thinking ==> s.buffer == ""
    ensures var all := ProcessAll(s, chunks);
            all.state.content == s.content + Visible(chunks) && Shown(all.events) == Visible(chunks)
    decreases |chunks|
  {
    if chunks != [] {
      var first := Process(s, chunks[0]);
      ChunkConserves(s, chunks[0]);
      ShownIsStored(first.state, chunks[1..]);
      var own := if IsMarker(chunks[0]) then "" else chunks[0];
      JoinShown(s, first, ProcessAll(first.state, chunks[1..]), own, Visible(chunks[1..]));
    }
  }

  /** For every stream of chunks, the texts handed to speech concatenate to exactly
      the text outside think markers, and the shown contents to the stored answer. */
  lemma TextIsConserved(chunks: seq<string>)
    ensures var all := ProcessAll(FRESH, chunks);
            && Concat(all.handed + Tail(all.state)) == Spoken(chunks, false)
            && Shown(all.events) == all.state.content == Visible(chunks)
  {
    HandedIsSpoken(FRESH, chunks);
    ShownIsStored(FRESH, chunks);
    var all := ProcessAll(FRESH, chunks);
    ConcatAppend(all.handed, Tail(all.state));
    assert Concat([all.state.buffer]) == all.state.buffer;
  }

  // ----- The producer's program for the speech protocol ----------------------

  /** Nothing is queued without a speech model, nor for an empty text. */
  function Puts(speaking: bool, handed: seq<string>): seq<Speech.Op> {
    if handed == [] then []
    else (if speaking && handed[0] != "" then [Speech.Put(handed[0])] else []) + Puts(speaking, handed[1..])
  }

  /** Drain before every chunk, then queue what the chunk hands over. */
  function Program(speaking: bool, s: State, chunks: seq<string>): seq<Speech.Op>
    decreases |chunks|
  {
    if chunks == [] then Puts(speaking, Tail(s))
    else
      var first := Process(s, chunks[0]);
      [Speech.Drain] + Puts(speaking, first.handed) + Program(speaking, first.state, chunks[1..])
  }

  /** The texts that are not empty. */
  function NonEmpty(texts: seq<string>): seq<string> {
    if texts == [] then [] else (if texts[0] != "" then [texts[0]] else []) + NonEmpty(texts[1..])
  }

  lemma {:induction false} NonEmptyAppend(a: seq<string>, b: seq<string>)
    ensures NonEmpty(a + b) == NonEmpty(a) + NonEmpty(b)
  {
    if a == [] {
      assert a + b == b;
    } else {
      assert (a + b)[1..] == a[1..] + b;
      NonEmptyAppend(a[1..], b);
    }
  }

  lemma {:induction false} PutsAreWellFormed(speaking: bool, handed: seq<string>)
    ensures Speech.Join !in Puts(speaking, handed)
    ensures !speaking ==> Puts(speaking, handed) == []
    ensures speaking ==> Concat(Speech.PutTexts(Puts(speaking, handed))) == Concat(handed)
  {
    if handed != [] {
      PutsAreWellFormed(speaking, handed[1..]);
      var first := if speaking && handed[0] != "" then [Speech.Put(handed[0])] else [];
      Speech.PutTextsAppend(first, Puts(speaking, handed[1..]));
      ConcatAppend(Speech.PutTexts(first), Speech.PutTexts(Puts(speaking, handed[1..])));
      if speaking && handed[0] != "" {
        assert Speech.PutTexts(first) == [handed[0]] by { assert first[1..] == []; }
        assert Concat([handed[0]]) == handed[0] + Concat([]) == handed[0];
      }
    }
  }

  lemma {:induction false} ProgramSpeaksHanded(speaking: bool, s: State, chunks: seq<string>)
    ensures var program := Program(speaking, s, chunks);
            var all := ProcessAll(s, chunks);
            && Speech.Join !in program
            && (!speaking ==> forall op | op in program :: op == Speech.Drain)
            && (speaking ==> Concat(Speech.PutTexts(program)) == Concat(all.handed + Tail(all.state)))
    decreases |chunks|
  {
    if chunks == [] {
      PutsAreWellFormed(speaking, Tail(s));
      assert [] + Tail(s) == Tail(s);
    } else {
      var first := Process(s, chunks[0]);
      var rest := ProcessAll(first.state, chunks[1..]);
      var later := Program(speaking, first.state, chunks[1..]);
      var puts := Puts(speaking, first.handed);
      ProgramSpeaksHanded(speaking, first.state, chunks[1..]);
      PutsAreWellFormed(speaking, first.handed);
      Speech.PutTextsAppend([Speech.Drain] + puts, later);
      Speech.PutTextsAppend([Speech.Drain], puts);
      assert Speech.PutTexts([Speech.Drain]) == [];
      assert [] + Speech.PutTexts(puts) == Speech.PutTexts(puts);
      ConcatAppend(Speech.PutTexts(puts), Speech.PutTexts(later));
      assert (first.handed + rest.handed) + Tail(rest.state) == first.handed + (rest.handed + Tail(rest.state));
      ConcatAppend(first.handed, rest.handed + Tail(rest.state));
    }
  }

  lemma {:induction false} PutsAreNonEmpty(handed: seq<string>)
    ensures Speech.PutTexts(Puts(true, handed)) == NonEmpty(handed)
  {
    if handed != [] {
      PutsAreNonEmpty(handed[1..]);
      var first := if handed[0] != "" then [Speech.Put(handed[0])] else [];
      Speech.PutTextsAppend(first, Puts(true, handed[1..]));
      if handed[0] != "" {
        assert Speech.PutTexts(first) == [handed[0]] by { assert first[1..] == []; }
      }
    }
  }

  /** The program queues each sentence that is not empty, in order. */
  lemma {:induction false} ProgramQueuesSentences(s: State, chunks: seq<string>)
    ensures var all := ProcessAll(s, chunks);
            Speech.PutTexts(Program(true, s, chunks)) == NonEmpty(all.handed + Tail(all.state))
    decreases |chunks|
  {
    if chunks == [] {
      PutsAreNonEmpty(Tail(s));
      assert [] + Tail(s) == Tail(s);
    } else {
      var first := Process(s, chunks[0]);
      var rest := ProcessAll(first.state, chunks[1..]);
      var puts, later := Puts(true, first.handed), Program(true, first.state, chunks[1..]);
      ProgramQueuesSentences(first.state, chunks[1..]);
      PutsAreNonEmpty(first.handed);
      Speech.PutTextsAppend([Speech.Drain] + puts, later);
      Speech.PutTextsAppend([Speech.Drain], puts);
      assert Speech.PutTexts([Speech.Drain]) == [];
      assert [] + Speech.PutTexts(puts) == Speech.PutTexts(puts);
      assert (first.handed + rest.handed) + Tail(rest.state) == first.handed + (rest.handed + Tail(rest.state));
      NonEmptyAppend(first.handed, rest.handed + Tail(rest.state));
    }
  }

  function Drains(ops: seq<Speech.Op>): nat {
    if ops == [] then 0 else (if ops[0].Drain? then 1 else 0) + Drains(ops[1..])
  }

  lemma {:induction false} DrainsAppend(a: seq<Speech.Op>, b: seq<Speech.Op>)
    ensures Drains(a + b) == Drains(a) + Drains(b)
  {
    if a == [] {
      assert a + b == b;
    } else {
      assert (a + b)[1..] == a[1..] + b;
      DrainsAppend(a[1..], b);
    }
  }

  lemma {:induction false} PutsDoNotDrain(speaking: bool, handed: seq<string>)
    ensures Drains(Puts(speaking, handed)) == 0
  {
    if handed != [] {
      PutsDoNotDrain(speaking, handed[1..]);
      var one: seq<Speech.Op> := if speaking && handed[0] != "" then [Speech.Put(handed[0])] else [];
      DrainsAppend(one, Puts(speaking, handed[1..]));
      assert one != [] ==> one[1..] == [];
    }
  }

  /** The program begins every chunk by draining what is ready. */
  lemma {:induction false} DrainsBeforeEveryChunk(speaking: bool, s: State, chunks: seq<string>)
    ensures Drains(Program(speaking, s, chunks)) == |chunks|
    ensures chunks != [] ==> Program(speaking, s, chunks)[0] == Speech.Drain
    decreases |chunks|
  {
    if chunks == [] {
      PutsDoNotDrain(speaking, Tail(s));
    } else {
      var first := Process(s, chunks[0]);
      var puts, later := Puts(speaking, first.handed), Program(speaking, first.state, chunks[1..]);
      DrainsBeforeEveryChunk(speaking, first.state, chunks[1..]);
      PutsDoNotDrain(speaking, first.handed);
      DrainsAppend([Speech.Drain] + puts, later);
      DrainsAppend([Speech.Drain], puts);
      assert [Speech.Drain][1..] == [];
    }
  }

  /** Every chunk that is not empty is told by one event, in order: a marker by its own, other text as it is. */
  lemma {:induction false} EventsFollowChunks(s: State, chunks: seq<string>)
    ensures var events, told := ProcessAll(s, chunks).events, NonEmpty(chunks);
            && |events| == |told|
            && forall k :: 0 <= k < |told| ==>
                 events[k] == if told[k] == "<think>" then StartToThink
                              else if told[k] == "</think>" then EndToThink
                              else Content(told[k])
    decreases |chunks|
  {
    if chunks != [] {
      EventsFollowChunks(Process(s, chunks[0]).state, chunks[1..]);
    }
  }

  /** End to end: for every stream and every interleaving of the two workers, a
      finished run has spoken exactly the text outside think markers, sentence by
      sentence, and released its audio in that order. */
  lemma FinishedStreamSpokeEverything(chunks: seq<string>, actions: seq<Speech.Action>)
    requires Speech.Run(Speaking(chunks), actions).Some?
    requires Speech.Run(Speaking(chunks), actions).value.todo == []
    ensures var s := Speech.Run(Speaking(chunks), actions).value;
            var all := ProcessAll(FRESH, chunks);
            && Concat(s.texts) == Spoken(chunks, false)
            && s.texts == NonEmpty(all.handed + Tail(all.state))
            && s.next == |s.texts|
            && Speech.InOrder(s.clips) && Speech.AudioOf(s.clips, |s.texts|, s.outcomes)
            && Speech.Sound(s.clips) == Speech.Spoken(0, |s.texts|, s.outcomes)
  {
    var program := Program(true, FRESH, chunks);
    ProgramSpeaksHanded(true, FRESH, chunks);
    ProgramQueuesSentences(FRESH, chunks);
    TextIsConserved(chunks);
    FinishedProgram(program, actions);
  }

  function Speaking(chunks: seq<string>): Speech.State {
    Speech.Start(Program(true, FRESH, chunks), 2)
  }

  lemma FinishedProgram(program: seq<Speech.Op>, actions: seq<Speech.Action>)
    requires Speech.WellFormedProgram(program, 2)
    requires Speech.Run(Speech.Start(program, 2), actions).Some?
    requires Speech.Run(Speech.Start(program, 2), actions).value.todo == []
    ensures var s := Speech.Run(Speech.Start(program, 2), actions).value;
            && s.texts == Speech.PutTexts(program)
            && s.next == |s.texts|
            && Speech.InOrder(s.clips) && Speech.AudioOf(s.clips, |s.texts|, s.outcomes)
            && Speech.Sound(s.clips) == Speech.Spoken(0, |s.texts|, s.outcomes)
  {
    Speech.FinishedMeansAllReleased(program, 2, actions);
    Speech.AudioInSentenceOrder(program, 2, actions);
  }

  /** Without a speech model nothing is ever queued and the stream never waits. */
  lemma SilentStreamNeverWaits(chunks: seq<string>, actions: seq<Speech.Action>)
    requires Speech.Run(Speech.Start(Program(false, FRESH, chunks), 0), actions).Some?
    ensures var s := Speech.Run(Speech.Start(Program(false, FRESH, chunks), 0), actions).value;
            s.scheduled == 0 && s.clips == [] && (s.todo != [] ==> Speech.Next(s, Speech.Produce).Some?)
  {
    ProgramSpeaksHanded(false, FRESH, chunks);
    Speech.WithoutWorkers(Program(false, FRESH, chunks), actions);
  }
}
