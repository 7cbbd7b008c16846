/**
  Near-miss correction of the operational vocabulary.  A message is a sequence of
  code points; the distance and the length tests work on UTF-16 units, as the
  original's strings do.
 */
module OperationalLanguage {
  import EditDistance
  import Unicode

  type CodeUnit = nat

  const OPERATIONAL_TERMS: seq<string> := [
    "crea", "crear", "calendario", "calendar", "evento", "eventos", "minuto", "minutos",
    "reunion", "reuniones", "responde", "responder", "contesta", "contestar", "mail", "mails",
    "correo", "correos", "email", "emails", "tarea", "tareas", "drive"
  ]

  /** The UTF-16 units of a text: one per code point, two above the basic plane. */
  function Utf16(text: string): seq<CodeUnit> {
    if text == "" then [] else Unicode.Utf16(text[0] as int) + Utf16(text[1..])
  }

  function Points(text: string): (points: seq<Unicode.CodePoint>)
    ensures |points| == |text| && forall k :: 0 <= k < |text| ==> points[k] == text[k] as int
  {
    seq(|text|, k requires 0 <= k < |text| => text[k] as int)
  }

  /** The units spell the text: read as UTF-16 they are its characters again. */
  lemma {:induction false} UnitsSpellTheText(text: string)
    ensures Utf16(text) == Unicode.Utf16All(Points(text))
    ensures Unicode.CodePoints(Unicode.Utf16All(Points(text))) == Points(text)
  {
    Unicode.PointsAreRead(Points(text));
    if text != "" {
      UnitsSpellTheText(text[1..]);
      assert Points(text)[1..] == Points(text[1..]);
    }
  }

  /**
    The parts the model leaves abstract: which code points are letters or digits,
    accent folding with lower-casing, and the vocabulary itself.
   */
  datatype Language = Language(
    isToken: char -> bool,
    accentless: string -> seq<CodeUnit>,
    vocabulary: seq<string>)
  {
    predicate AllToken(text: string) {
      forall k :: 0 <= k < |text| ==> isToken(text[k])
    }

    /** Terms are words, and folding a term does not change its length. */
    ghost predicate Valid() {
      forall i :: 0 <= i < |vocabulary| ==> ProperTerm(vocabulary[i])
    }

    ghost predicate ProperTerm(term: string) {
      term != "" && AllToken(term) && |accentless(term)| == |Utf16(term)|
    }

    function Edits(normalized: seq<CodeUnit>, term: string): nat {
      EditDistance.Distance(normalized, accentless(term))
    }

    predicate IsCandidate(normalized: seq<CodeUnit>, term: string) {
      -1 <= |Utf16(term)| - |normalized| <= 1 && Edits(normalized, term) <= 1
    }

    function Candidates(normalized: seq<CodeUnit>, terms: seq<string>): seq<string> {
      if terms == [] then []
      else (if IsCandidate(normalized, terms[0]) then [terms[0]] else []) + Candidates(normalized, terms[1..])
    }

    function NormalizeToken(token: string): string {
      var normalized := accentless(token);
      if |normalized| < 3 then token
      else
        var candidates := Candidates(normalized, vocabulary);
        if |candidates| == 1 then candidates[0] else token
    }

    /** How far the maximal run of letters and digits at the start of `text` reaches. */
    function RunLength(text: string): (n: nat)
      ensures n <= |text|
      ensures AllToken(text[..n]) && (n < |text| ==> !isToken(text[n]))
    {
      if text != "" && isToken(text[0]) then 1 + RunLength(text[1..]) else 0
    }

    /** Replace every maximal run of letters and digits. */
    function Normalize(message: string): string {
      if message == "" then ""
      else if isToken(message[0]) then
        var n := RunLength(message);
        NormalizeToken(message[..n]) + Normalize(message[n..])
      else [message[0]] + Normalize(message[1..])
    }

    // ----- tokens and the characters between them

    function Segments(message: string): seq<Segment> {
      if message == "" then []
      else if isToken(message[0]) then
        var n := RunLength(message);
        [Token(message[..n])] + Segments(message[n..])
      else [Gap(message[0])] + Segments(message[1..])
    }

    function Rewrite(segments: seq<Segment>): seq<Segment> {
      seq(|segments|, k requires 0 <= k < |segments| =>
        if segments[k].Token? then Token(NormalizeToken(segments[k].text)) else segments[k])
    }
  }

  datatype Segment = Token(text: string) | Gap(c: char)

  function Text(segments: seq<Segment>): string {
    if segments == [] then ""
    else (if segments[0].Token? then segments[0].text else [segments[0].c]) + Text(segments[1..])
  }

  // ----- the candidate set

  /** The length pre-filter never changes the candidate set. */
  lemma PreFilterIsRedundant(language: Language, normalized: seq<CodeUnit>, term: string)
    requires language.ProperTerm(term)
    ensures language.IsCandidate(normalized, term) <==> language.Edits(normalized, term) <= 1
  {
    EditDistance.AtLeastLengthDifference(normalized, language.accentless(term));
  }

  lemma {:induction false} NoCandidate(language: Language, normalized: seq<CodeUnit>, terms: seq<string>)
    ensures language.Candidates(normalized, terms) == [] <==>
            forall i :: 0 <= i < |terms| ==> !language.IsCandidate(normalized, terms[i])
  {
    if terms != [] {
      NoCandidate(language, normalized, terms[1..]);
      assert forall i :: 0 < i < |terms| ==> terms[i] == terms[1..][i - 1];
    }
  }

  lemma {:induction false} TheCandidate(language: Language, normalized: seq<CodeUnit>, terms: seq<string>, i: nat)
    requires i < |terms| && language.IsCandidate(normalized, terms[i])
    ensures |language.Candidates(normalized, terms)| == 1 <==>
            forall j :: 0 <= j < |terms| && language.IsCandidate(normalized, terms[j]) ==> j == i
    ensures |language.Candidates(normalized, terms)| == 1 ==> language.Candidates(normalized, terms)[0] == terms[i]
  {
    var rest := terms[1..];
    assert forall j :: 0 < j < |terms| ==> terms[j] == rest[j - 1];
    NoCandidate(language, normalized, rest);
    if i == 0 {
      assert forall j :: 0 <= j < |rest| ==> rest[j] == terms[j + 1];
    } else {
      TheCandidate(language, normalized, rest, i - 1);
      if language.IsCandidate(normalized, terms[0]) {
        assert language.IsCandidate(normalized, rest[i - 1]);
      } else {
        assert forall j :: 0 <= j < |rest| ==> rest[j] == terms[j + 1];
      }
    }
  }

  ghost predicate OnlyNeighbour(language: Language, token: string, i: nat)
    requires i < |language.vocabulary|
  {
    forall j :: 0 <= j < |language.vocabulary| ==>
      (language.Edits(language.accentless(token), language.vocabulary[j]) <= 1 <==> j == i)
  }

  /** A token of three or more units becomes a term exactly when only that term is within one edit; others stay. */
  lemma TokenRewriting(language: Language, token: string)
    requires language.Valid()
    ensures |language.accentless(token)| < 3 ==> language.NormalizeToken(token) == token
    ensures |language.accentless(token)| >= 3 ==>
              forall i :: 0 <= i < |language.vocabulary| && OnlyNeighbour(language, token, i) ==>
                language.NormalizeToken(token) == language.vocabulary[i]
    ensures (forall i :: 0 <= i < |language.vocabulary| ==> !OnlyNeighbour(language, token, i)) ==>
              language.NormalizeToken(token) == token
  {
    var normalized, terms := language.accentless(token), language.vocabulary;
    forall j | 0 <= j < |terms|
      ensures language.IsCandidate(normalized, terms[j]) <==> language.Edits(normalized, terms[j]) <= 1
    {
      PreFilterIsRedundant(language, normalized, terms[j]);
    }
    NoCandidate(language, normalized, terms);
    forall i | 0 <= i < |terms| && language.IsCandidate(normalized, terms[i])
      ensures OnlyNeighbour(language, token, i) <==> |language.Candidates(normalized, terms)| == 1
      ensures |language.Candidates(normalized, terms)| == 1 ==> language.Candidates(normalized, terms)[0] == terms[i]
    {
      TheCandidate(language, normalized, terms, i);
    }
  }

  /** A rewritten token is a term of the vocabulary, and rewriting once more changes nothing. */
  lemma TokenIdempotent(language: Language, token: string)
    requires language.Valid()
    ensures language.NormalizeToken(token) == token || language.NormalizeToken(token) in language.vocabulary
    ensures language.NormalizeToken(language.NormalizeToken(token)) == language.NormalizeToken(token)
  {
    var term := language.NormalizeToken(token);
    if term != token {
      var candidates := language.Candidates(language.accentless(token), language.vocabulary);
      assert term == candidates[0] && term in candidates;
      CandidatesAreTerms(language, language.accentless(token), language.vocabulary);
      var i :| 0 <= i < |language.vocabulary| && language.vocabulary[i] == term;
      var normalized := language.accentless(term);
      EditDistance.ZeroIffEqual(normalized, normalized);
      assert language.ProperTerm(language.vocabulary[i]);
      assert language.IsCandidate(normalized, term);
      TheCandidate(language, normalized, language.vocabulary, i);
    }
  }

  lemma {:induction false} CandidatesAreTerms(language: Language, normalized: seq<CodeUnit>, terms: seq<string>)
    ensures forall term :: term in language.Candidates(normalized, terms) ==> term in terms
  {
    if terms != [] {
      CandidatesAreTerms(language, normalized, terms[1..]);
    }
  }

  // ----- whole messages

  lemma {:induction false} SegmentsSpell(language: Language, message: string)
    ensures Text(language.Segments(message)) == message
    decreases |message|
  {
    if message != "" {
      if language.isToken(message[0]) {
        var n := language.RunLength(message);
        SegmentsSpell(language, message[n..]);
        assert message == message[..n] + message[n..];
      } else {
        SegmentsSpell(language, message[1..]);
      }
    }
  }

  lemma {:induction false} RunOfToken(language: Language, token: string, rest: string)
    requires language.AllToken(token) && (rest == "" || !language.isToken(rest[0]))
    ensures language.RunLength(token + rest) == |token|
  {
    var text := token + rest;
    var n := language.RunLength(text);
    assert forall k :: 0 <= k < n ==> text[..n][k] == text[k];
    assert forall k :: 0 <= k < n ==> language.isToken(text[k]);
    assert forall k :: 0 <= k < |token| ==> text[k] == token[k];
    assert rest != "" ==> text[|token|] == rest[0];
  }

  lemma TokensStayWords(language: Language, token: string)
    requires language.Valid() && token != "" && language.AllToken(token)
    ensures language.NormalizeToken(token) != "" && language.AllToken(language.NormalizeToken(token))
  {
    TokenIdempotent(language, token);
    if language.NormalizeToken(token) != token {
      var i :| 0 <= i < |language.vocabulary| && language.vocabulary[i] == language.NormalizeToken(token);
      assert language.ProperTerm(language.vocabulary[i]);
    }
  }

  /** Nothing between tokens changes and no token boundary moves: only whole tokens are replaced. */
  lemma {:induction false} KeepsSegments(language: Language, message: string)
    requires language.Valid()
    ensures language.Segments(language.Normalize(message)) == language.Rewrite(language.Segments(message))
    decreases |message|
  {
    if message != "" {
      if language.isToken(message[0]) {
        var n := language.RunLength(message);
        var token, rest := message[..n], message[n..];
        var term, tail := language.NormalizeToken(token), language.Normalize(rest);
        assert token[0] == message[0];
        TokensStayWords(language, token);
        KeepsSegments(language, rest);
        RunOfToken(language, term, tail);
        assert (term + tail)[0] == term[0];
        assert (term + tail)[..|term|] == term && (term + tail)[|term|..] == tail;
      } else {
        KeepsSegments(language, message[1..]);
        assert language.Normalize(message)[1..] == language.Normalize(message[1..]);
      }
    }
  }

  lemma Idempotent(language: Language, message: string)
    requires language.Valid()
    ensures language.Normalize(language.Normalize(message)) == language.Normalize(message)
  {
    var once := language.Normalize(message);
    KeepsSegments(language, message);
    KeepsSegments(language, once);
    forall k | 0 <= k < |language.Segments(message)| && language.Segments(message)[k].Token? {
      TokenIdempotent(language, language.Segments(message)[k].text);
    }
    assert language.Rewrite(language.Rewrite(language.Segments(message))) == language.Rewrite(language.Segments(message));
    SegmentsSpell(language, once);
    SegmentsSpell(language, language.Normalize(once));
  }

  // ----- the vocabulary that is shipped

  predicate Plain(text: string) {
    forall k :: 0 <= k < |text| ==> 'a' <= text[k] <= 'z'
  }

  /** Plain lower-case letters are tokens, and folding leaves words made of them alone. */
  ghost predicate FoldsPlainWords(language: Language) {
    && (forall c :: 'a' <= c <= 'z' ==> language.isToken(c))
    && (forall text :: Plain(text) ==> language.accentless(text) == Utf16(text))
  }

  lemma OperationalTermsAreValid(language: Language)
    requires FoldsPlainWords(language) && language.vocabulary == OPERATIONAL_TERMS
    ensures language.Valid()
  {
    forall i | 0 <= i < |OPERATIONAL_TERMS| ensures language.ProperTerm(OPERATIONAL_TERMS[i]) {
      assert Plain(OPERATIONAL_TERMS[i]);
    }
  }
}
