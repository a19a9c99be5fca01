/**
 * The analysis agent's local path: normalising the transcript to text, the
 * punctuation-based sentence splitter, the threshold classification of each
 * sentence with the question/answer pairing loop, and lexicon sentiment.
 * The intent classifier, the word tokenizer, the TF-IDF ranking and the
 * remote analysis service are inputs.
 */
module Analyzer {
  import opened Wrappers
  import opened Text
  import Config
  import opened Transcriber

  /** What the intent classifier reports for a sentence. */
  datatype Classification = Classification(intent: string, score: real)

  datatype Question = Question(text: string, confidence: real, answer: Option<string>)
  datatype Item = Item(text: string, confidence: real)
  datatype Answer = Answer(question: string, answer: string)
  datatype Topic = Topic(term: string, tfidf: real)

  /** `comparative` is `None` where JavaScript computes `0 / 0` (no tokens at all). */
  datatype Sentiment = Sentiment(score: real, comparative: Option<real>, positiveCount: nat, negativeCount: nat)

  /** The lists the per-sentence loop fills. */
  datatype Sections = Sections(questions: seq<Question>, answers: seq<Answer>, objectives: seq<Item>, tasks: seq<Item>)

  datatype Analysis = Analysis(sections: Sections, keyTopics: seq<Topic>, sentiment: Sentiment)

  const QuestionIntent: string := "pregunta"
  const ObjectiveIntent: string := "objetivo"
  const TaskIntent: string := "tarea"

  /** A sentence is taken only when its score is strictly above this. */
  const Threshold: real := 0.7

  const NoTranscriptError: string := "No se proporcionó transcripción para analizar"
  const TooShortError: string := "El texto de la transcripción es demasiado corto para analizar"
  const UnsupportedPrefix: string := "Formato de transcripción no soportado: "
  const MinLength: nat := 10
  const MaxTopics: nat := 10

  // ---------------------------------------------------------------------------
  // Transcript normalisation
  // ---------------------------------------------------------------------------

  /** `parts.filter(t => t.length > 0).join(' ')` */
  function JoinNonEmpty(parts: seq<string>): string {
    Join(NonEmpty(parts), " ")
  }

  function NonEmpty(parts: seq<string>): (r: seq<string>)
    ensures |r| <= |parts|
    ensures forall i :: 0 <= i < |r| ==> r[i] != []
  {
    if parts == [] then []
    else (if parts[0] == [] then [] else [parts[0]]) + NonEmpty(parts[1..])
  }

  /** The joined text is empty exactly when every part is. */
  lemma {:induction false} JoinNonEmptyBlank(parts: seq<string>)
    ensures JoinNonEmpty(parts) == [] <==> forall i :: 0 <= i < |parts| ==> parts[i] == []
  {
    NonEmptyEmpty(parts);
    var ne := NonEmpty(parts);
    if ne != [] {
      if |ne| == 1 {
        assert Join(ne, " ") == ne[0];
      } else {
        assert Join(ne, " ") == ne[0] + " " + Join(ne[1..], " ");
      }
    }
  }

  lemma {:induction false} NonEmptyEmpty(parts: seq<string>)
    ensures NonEmpty(parts) == [] <==> forall i :: 0 <= i < |parts| ==> parts[i] == []
  {
    if parts != [] {
      NonEmptyEmpty(parts[1..]);
      if parts[0] == [] {
        forall i | 0 < i < |parts| ensures parts[i] == parts[1..][i - 1] { }
      }
    }
  }

  /** The first alternative's transcript of each Google Speech result, `''` when there is none. */
  function FirstAlternatives(results: seq<SpeechResult>): (r: seq<string>)
    ensures |r| == |results|
    ensures forall i :: 0 <= i < |r| ==> r[i] == (if results[i].alternatives == [] then [] else results[i].alternatives[0])
  {
    if results == [] then []
    else [if results[0].alternatives == [] then [] else results[0].alternatives[0]] + FirstAlternatives(results[1..])
  }

  function SegmentTexts(segments: seq<Segment>): (r: seq<string>)
    ensures |r| == |segments|
    ensures forall i :: 0 <= i < |r| ==> r[i] == segments[i].text
  {
    if segments == [] then [] else [segments[0].text] + SegmentTexts(segments[1..])
  }

  /**
   * `_extractTextFromTranscription` on an object: its `text`, else its Google
   * Speech results, else its segments, else `json`, the value's `JSON.stringify`.
   */
  function ExtractText(e: Envelope, json: string): (t: string)
    ensures e.text != [] ==> t == e.text
    ensures e.text == [] && e.results.None? && e.segments.None? ==> t == json
  {
    if e.text != [] then e.text
    else if e.results.Some? then JoinNonEmpty(FirstAlternatives(e.results.value))
    else if e.segments.Some? then JoinNonEmpty(SegmentTexts(e.segments.value))
    else json
  }

  /**
   * Precedence of the shapes: a non-empty `text` makes every other field
   * irrelevant, results make segments irrelevant, and the serialised form
   * matters only when no field is usable.
   */
  lemma ExtractPrecedence(e: Envelope, json: string, other: Envelope, json2: string)
    ensures e.text != [] ==> ExtractText(e, json) == e.text
    ensures e.text != [] && other.text == e.text ==> ExtractText(other, json2) == ExtractText(e, json)
    ensures e.text == [] && e.results.Some? && other == e.(segments := other.segments)
      ==> ExtractText(other, json2) == ExtractText(e, json)
    ensures e.text == [] && e.results.Some? ==>
      (ExtractText(e, json) == [] <==> forall i :: 0 <= i < |e.results.value| ==>
         e.results.value[i].alternatives == [] || e.results.value[i].alternatives[0] == [])
    ensures (e.text != [] || e.results.Some? || e.segments.Some?) ==> ExtractText(e, json) == ExtractText(e, json2)
  {
    if e.text == [] && e.results.Some? {
      JoinNonEmptyBlank(FirstAlternatives(e.results.value));
    }
  }

  /**
   * The guards of `analyze`: the text to analyse, or the error it fails with.
   * A string is used as it is; an object goes through `ExtractText`.
   */
  function NormalizedText(v: TranscriptValue, json: string): (r: Result<string>)
    ensures r.Ok? ==> |r.value| >= MinLength
    ensures v.Missing? || v == Plain([]) ==> r == Err(NoTranscriptError)
    ensures v.OtherValue? ==> r == Err(UnsupportedPrefix + v.typeName)
    ensures v.Plain? && |v.text| >= MinLength ==> r == Ok(v.text)
    ensures v.Plain? && 0 < |v.text| < MinLength ==> r == Err(TooShortError)
    ensures v.Shaped? ==> (r.Ok? <==> |ExtractText(v.envelope, json)| >= MinLength)
    ensures r.Ok? && v.Shaped? ==> r.value == ExtractText(v.envelope, json)
  {
    match v
    case Missing => Err(NoTranscriptError)
    case Plain(t) =>
      if t == [] then Err(NoTranscriptError)
      else if |t| < MinLength then Err(TooShortError)
      else Ok(t)
    case Shaped(e) =>
      var t := ExtractText(e, json);
      if |t| < MinLength then Err(TooShortError) else Ok(t)
    case OtherValue(name) =>
      Err(UnsupportedPrefix + name)
  }

  // ---------------------------------------------------------------------------
  // Sentence splitting
  // ---------------------------------------------------------------------------

  predicate IsTerminator(c: char) {
    c == '.' || c == '?' || c == '!'
  }

  /**
   * `text.replace(/([.?!])\s*(?=[A-Z])/g, "$1|")`: every terminator followed by
   * optional whitespace and an ASCII capital keeps the terminator, loses the
   * whitespace and gains a `|`.
   */
  function MarkBoundaries(s: string): (r: string)
    ensures s != [] ==> r != [] && r[0] == s[0]
    decreases |s|
  {
    if s == [] then []
    else if IsTerminator(s[0]) && DropSpaces(s[1..]) != [] && IsUpperAscii(DropSpaces(s[1..])[0]) then
      [s[0], '|'] + MarkBoundaries(DropSpaces(s[1..]))
    else [s[0]] + MarkBoundaries(s[1..])
  }

  /** Trims each piece and drops the pieces that are then empty. */
  function TrimNonEmpty(parts: seq<string>): (r: seq<string>)
    ensures |r| <= |parts|
    ensures forall i :: 0 <= i < |r| ==> r[i] != [] && !IsSpace(r[i][0]) && !IsSpace(r[i][|r[i]| - 1])
  {
    if parts == [] then []
    else (if Trim(parts[0]) == [] then [] else [Trim(parts[0])]) + TrimNonEmpty(parts[1..])
  }

  /** `_splitIntoSentences` */
  function SplitSentences(text: string): (r: seq<string>)
    ensures forall i :: 0 <= i < |r| ==> r[i] != [] && !IsSpace(r[i][0]) && !IsSpace(r[i][|r[i]| - 1])
    ensures forall i :: 0 <= i < |r| ==> '|' !in r[i]
  {
    var pieces := SplitOn(MarkBoundaries(text), '|');
    TrimNonEmptyNoBar(pieces);
    TrimNonEmpty(pieces)
  }

  lemma {:induction false} TrimNonEmptyNoBar(parts: seq<string>)
    requires forall i :: 0 <= i < |parts| ==> '|' !in parts[i]
    ensures forall i :: 0 <= i < |TrimNonEmpty(parts)| ==> '|' !in TrimNonEmpty(parts)[i]
  {
    if parts != [] {
      TrimNonEmptyNoBar(parts[1..]);
      TrimInside(parts[0]);
      var head := if Trim(parts[0]) == [] then [] else [Trim(parts[0])];
      assert forall i :: 0 <= i < |head| ==> '|' !in head[i];
    }
  }

  /** The characters of `s` that are neither whitespace nor `|`: what sentence splitting must keep. */
  function Visible(s: string): string {
    if s == [] then [] else (if IsSpace(s[0]) || s[0] == '|' then [] else [s[0]]) + Visible(s[1..])
  }

  lemma {:induction false} VisibleAppend(a: string, b: string)
    ensures Visible(a + b) == Visible(a) + Visible(b)
  {
    if a != [] {
      VisibleAppend(a[1..], b);
      assert (a + b)[0] == a[0];
      assert (a + b)[1..] == a[1..] + b;
      var h := if IsSpace(a[0]) || a[0] == '|' then [] else [a[0]];
      calc {
        Visible(a + b);
        h + Visible(a[1..] + b);
        h + (Visible(a[1..]) + Visible(b));
        (h + Visible(a[1..])) + Visible(b);
      }
    } else {
      assert a + b == b;
    }
  }

  lemma VisibleChar(c: char)
    ensures Visible([c]) == if IsSpace(c) || c == '|' then [] else [c]
  {
    assert [c][1..] == [];
  }

  lemma {:induction false} VisibleOfSpaces(s: string)
    requires AllSpace(s)
    ensures Visible(s) == []
  {
    if s != [] {
      VisibleOfSpaces(s[1..]);
    }
  }

  /** Dropping leading whitespace keeps the visible characters. */
  lemma DropSpacesVisible(t: string)
    ensures Visible(DropSpaces(t)) == Visible(t)
  {
    var rest := DropSpaces(t);
    var gap := t[..|t| - |rest|];
    assert t == gap + rest;
    VisibleOfSpaces(gap);
    VisibleAppend(gap, rest);
  }

  /** A terminator followed by the marker: only the terminator is visible. */
  lemma {:induction false} MarkedBoundaryVisible(c: char, markedRest: string)
    requires IsTerminator(c)
    ensures Visible([c, '|'] + markedRest) == [c] + Visible(markedRest)
  {
    var m := [c, '|'] + markedRest;
    assert m[0] == c && m[1..] == ['|'] + markedRest;
    assert !IsSpace(c) && c != '|';
    assert Visible(m) == [c] + Visible(['|'] + markedRest);
    var m2 := ['|'] + markedRest;
    assert m2[0] == '|' && m2[1..] == markedRest;
  }

  lemma {:induction false} PlainCharVisible(s: string, markedTail: string)
    requires s != []
    requires Visible(markedTail) == Visible(s[1..])
    ensures Visible([s[0]] + markedTail) == Visible(s)
  {
    assert s == [s[0]] + s[1..];
    VisibleAppend([s[0]], s[1..]);
    VisibleAppend([s[0]], markedTail);
  }

  lemma {:induction false} MarkKeepsVisible(s: string)
    ensures Visible(MarkBoundaries(s)) == Visible(s)
    decreases |s|
  {
    if s != [] {
      var rest := DropSpaces(s[1..]);
      if IsTerminator(s[0]) && rest != [] && IsUpperAscii(rest[0]) {
        MarkKeepsVisible(rest);
        MarkedBoundaryVisible(s[0], MarkBoundaries(rest));
        DropSpacesVisible(s[1..]);
        assert Visible(s) == [s[0]] + Visible(s[1..]);
      } else {
        MarkKeepsVisible(s[1..]);
        PlainCharVisible(s, MarkBoundaries(s[1..]));
      }
    }
  }

  lemma {:induction false} SplitKeepsVisible(s: string, cur: string)
    requires '|' !in cur
    ensures Visible(Concat(SplitOnFrom(s, '|', cur))) == Visible(cur) + Visible(s)
    decreases |s|
  {
    if s == [] {
      assert SplitOnFrom(s, '|', cur) == [cur];
      assert [cur][1..] == [];
      assert Concat([cur]) == cur + Concat([]);
      assert cur + [] == cur;
      assert Visible(s) == [];
      assert Visible(cur) + [] == Visible(cur);
    } else if s[0] == '|' {
      SplitKeepsVisible(s[1..], []);
      var rest := SplitOnFrom(s[1..], '|', []);
      assert ([cur] + rest)[1..] == rest;
      assert Concat([cur] + rest) == cur + Concat(rest);
      VisibleAppend(cur, Concat(rest));
      assert Visible(s) == Visible(s[1..]);
      assert Visible([]) == [];
    } else {
      SplitKeepsVisible(s[1..], cur + [s[0]]);
      VisibleAppend(cur, [s[0]]);
      VisibleChar(s[0]);
      assert Visible(s) == Visible([s[0]]) + Visible(s[1..]);
    }
  }

  lemma TrimKeepsVisible(s: string)
    ensures Visible(Trim(s)) == Visible(s)
  {
    var a := TrimStart(s);
    var gap := s[..|s| - |a|];
    assert s == gap + a;
    VisibleAppend(gap, a);
    VisibleOfSpaces(gap);
    var b := TrimEnd(a);
    var tailGap := a[|b|..];
    assert a == b + tailGap;
    VisibleAppend(b, tailGap);
    VisibleOfSpaces(tailGap);
  }

  lemma {:induction false} TrimNonEmptyKeepsVisible(parts: seq<string>)
    ensures Visible(Concat(TrimNonEmpty(parts))) == Visible(Concat(parts))
  {
    if parts != [] {
      var rest := TrimNonEmpty(parts[1..]);
      TrimNonEmptyKeepsVisible(parts[1..]);
      TrimKeepsVisible(parts[0]);
      var t := Trim(parts[0]);
      var head := if t == [] then [] else [t];
      assert TrimNonEmpty(parts) == head + rest;
      ConcatAppend(head, rest);
      assert Concat(head) == t by {
        if head != [] {
          assert head[1..] == [];
        }
      }
      VisibleAppend(t, Concat(rest));
      VisibleAppend(parts[0], Concat(parts[1..]));
    }
  }

  lemma {:induction false} ConcatAppend(a: seq<string>, b: seq<string>)
    ensures Concat(a + b) == Concat(a) + Concat(b)
  {
    if a != [] {
      ConcatAppend(a[1..], b);
      assert (a + b)[0] == a[0];
      assert (a + b)[1..] == a[1..] + b;
    } else {
      assert a + b == b;
    }
  }

  /**
   * Splitting loses nothing but whitespace: the sentences, glued together,
   * have the same non-blank characters as the text, in the same order
   * (`|` aside, which the splitter uses as its marker).
   */
  lemma SentencesKeepText(text: string)
    ensures Visible(Concat(SplitSentences(text))) == Visible(text)
  {
    var marked := MarkBoundaries(text);
    MarkKeepsVisible(text);
    SplitKeepsVisible(marked, []);
    TrimNonEmptyKeepsVisible(SplitOn(marked, '|'));
  }

  lemma {:induction false} SplitWithoutSeparator(s: string, c: char, cur: string)
    requires c !in cur && c !in s
    ensures SplitOnFrom(s, c, cur) == [cur + s]
  {
    if s != [] {
      assert s == [s[0]] + s[1..];
      assert s[0] != c && c !in s[1..];
      SplitWithoutSeparator(s[1..], c, cur + [s[0]]);
      assert cur + [s[0]] + s[1..] == cur + s;
    } else {
      assert cur + s == cur;
    }
  }

  /**
   * The pattern `([.?!])\s*(?=[A-Z])` matches at `i`: a terminator followed,
   * after optional whitespace, by an ASCII capital.
   */
  predicate Boundary(s: string, i: nat) {
    i < |s| && IsTerminator(s[i])
    && var rest := DropSpaces(s[i + 1..]); rest != [] && IsUpperAscii(rest[0])
  }

  lemma {:induction false} MarkWithoutBoundaries(s: string)
    requires forall i: nat :: !Boundary(s, i)
    ensures MarkBoundaries(s) == s
    decreases |s|
  {
    if s != [] {
      assert !Boundary(s, 0);
      forall i: nat ensures !Boundary(s[1..], i) {
        if i < |s[1..]| {
          assert s[1..][i + 1..] == s[i + 2..];
          assert !Boundary(s, i + 1);
        }
      }
      MarkWithoutBoundaries(s[1..]);
    }
  }

  /**
   * Where the pattern does not match, nothing is cut: a text without `|` in
   * which no terminator is followed by an ASCII capital is one trimmed
   * sentence, or none when blank.
   */
  lemma NoBoundaryOneSentence(text: string)
    requires '|' !in text
    requires forall i: nat :: !Boundary(text, i)
    ensures SplitSentences(text) == if IsBlank(text) then [] else [Trim(text)]
  {
    MarkWithoutBoundaries(text);
    SplitWithoutSeparator(text, '|', []);
    assert [] + text == text;
  }

  /** Every marker the replacement inserts sits between a terminator and an ASCII capital. */
  predicate MarksPlaced(m: string) {
    forall k :: 0 <= k < |m| && m[k] == '|' ==> 0 < k && IsTerminator(m[k - 1]) && k + 1 < |m| && IsUpperAscii(m[k + 1])
  }

  lemma {:induction false} MarkPlacesMarks(s: string)
    requires '|' !in s
    ensures MarksPlaced(MarkBoundaries(s))
    decreases |s|
  {
    if s != [] {
      var m := MarkBoundaries(s);
      var rest := DropSpaces(s[1..]);
      if IsTerminator(s[0]) && rest != [] && IsUpperAscii(rest[0]) {
        assert forall c :: c in rest ==> c in s[1..];
        MarkPlacesMarks(rest);
        var mr := MarkBoundaries(rest);
        assert m == [s[0], '|'] + mr;
        assert mr[0] == rest[0];
        forall k | 0 <= k < |m| && m[k] == '|'
          ensures 0 < k && IsTerminator(m[k - 1]) && k + 1 < |m| && IsUpperAscii(m[k + 1])
        {
          if k == 1 {
            assert m[2] == mr[0] == rest[0];
          } else {
            assert k >= 2 && m[k] == mr[k - 2];
          }
        }
      } else {
        MarkPlacesMarks(s[1..]);
        var mr := MarkBoundaries(s[1..]);
        assert m == [s[0]] + mr;
        forall k | 0 <= k < |m| && m[k] == '|'
          ensures 0 < k && IsTerminator(m[k - 1]) && k + 1 < |m| && IsUpperAscii(m[k + 1])
        {
          assert k > 0 && m[k] == mr[k - 1];
        }
      }
    }
  }

  /**
   * `split("|")` with the accumulated piece `cur`: a piece followed by a marker
   * ends with a terminator, and a piece after a marker opens with a capital.
   */
  predicate PlacedFrom(s: string, cur: string) {
    forall k :: 0 <= k < |s| && s[k] == '|' ==>
      (if k == 0 then cur != [] && IsTerminator(cur[|cur| - 1]) else IsTerminator(s[k - 1]))
      && k + 1 < |s| && IsUpperAscii(s[k + 1])
  }

  lemma PlacedAt(s: string, cur: string, k: nat)
    requires PlacedFrom(s, cur) && k < |s| && s[k] == '|'
    ensures k == 0 ==> cur != [] && IsTerminator(cur[|cur| - 1])
    ensures k > 0 ==> IsTerminator(s[k - 1])
    ensures k + 1 < |s| && IsUpperAscii(s[k + 1])
  {
  }

  predicate PiecesCut(p: seq<string>) {
    && (forall i :: 0 <= i < |p| - 1 ==> p[i] != [] && IsTerminator(p[i][|p[i]| - 1]))
    && (forall i :: 0 < i < |p| ==> p[i] != [] && IsUpperAscii(p[i][0]))
  }

  lemma {:induction false} SplitCutsAtMarks(s: string, cur: string)
    requires '|' !in cur && PlacedFrom(s, cur)
    ensures PiecesCut(SplitOnFrom(s, '|', cur))
    ensures cur + s != [] && (cur + s)[0] != '|' ==>
      SplitOnFrom(s, '|', cur)[0] != [] && SplitOnFrom(s, '|', cur)[0][0] == (cur + s)[0]
    decreases |s|
  {
    var p := SplitOnFrom(s, '|', cur);
    if s == [] {
      assert p == [cur] && cur + s == cur;
    } else if s[0] == '|' {
      var t := s[1..];
      assert PlacedFrom(t, []) by {
        forall k | 0 <= k < |t| && t[k] == '|'
          ensures (if k == 0 then false else IsTerminator(t[k - 1])) && k + 1 < |t| && IsUpperAscii(t[k + 1])
        {
          assert s[k + 1] == '|';
          assert k != 0 by { assert IsUpperAscii(s[1]); }
        }
      }
      SplitCutsAtMarks(t, []);
      var q := SplitOnFrom(t, '|', []);
      assert p == [cur] + q;
      assert IsUpperAscii(s[1]) && t[0] == s[1] && ([] + t) == t;
      PlacedAt(s, cur, 0);
      assert q[0] != [] && IsUpperAscii(q[0][0]);
      assert cur[0] != '|' by { assert cur[0] in cur; }
      assert (cur + s)[0] == cur[0];
    } else {
      var t := s[1..];
      var next := cur + [s[0]];
      assert '|' !in next;
      assert PlacedFrom(t, next) by {
        forall k | 0 <= k < |t| && t[k] == '|'
          ensures (if k == 0 then next != [] && IsTerminator(next[|next| - 1]) else IsTerminator(t[k - 1]))
                  && k + 1 < |t| && IsUpperAscii(t[k + 1])
        {
          assert s[k + 1] == '|';
        }
      }
      SplitCutsAtMarks(t, next);
      assert next + t == cur + s;
    }
  }

  lemma {:induction false} TrimEndKeepsFirst(s: string)
    requires s != [] && !IsSpace(s[0])
    ensures TrimEnd(s) != [] && TrimEnd(s)[0] == s[0]
    decreases |s|
  {
    if IsSpace(s[|s| - 1]) {
      assert |s| > 1;
      var t := s[..|s| - 1];
      assert t[0] == s[0];
      TrimEndKeepsFirst(t);
    }
  }

  lemma {:induction false} TrimStartKeepsLast(s: string)
    requires s != [] && !IsSpace(s[|s| - 1])
    ensures TrimStart(s) != [] && TrimStart(s)[|TrimStart(s)| - 1] == s[|s| - 1]
    decreases |s|
  {
    if IsSpace(s[0]) {
      assert |s| > 1;
      var t := s[1..];
      assert t[|t| - 1] == s[|s| - 1];
      TrimStartKeepsLast(t);
    }
  }

  /** Trimming keeps a non-space first character and a non-space last character. */
  lemma TrimKeepsEnds(s: string)
    ensures s != [] && !IsSpace(s[0]) ==> Trim(s) != [] && Trim(s)[0] == s[0]
    ensures s != [] && !IsSpace(s[|s| - 1]) ==> Trim(s) != [] && Trim(s)[|Trim(s)| - 1] == s[|s| - 1]
  {
    if s != [] && !IsSpace(s[0]) {
      assert TrimStart(s) == s;
      TrimEndKeepsFirst(s);
    }
    if s != [] && !IsSpace(s[|s| - 1]) {
      TrimStartKeepsLast(s);
      var a := TrimStart(s);
      assert TrimEnd(a) == a;
    }
  }

  lemma {:induction false} TrimNonEmptyAll(parts: seq<string>)
    requires forall i :: 0 <= i < |parts| ==> Trim(parts[i]) != []
    ensures |TrimNonEmpty(parts)| == |parts|
    ensures forall i :: 0 <= i < |parts| ==> TrimNonEmpty(parts)[i] == Trim(parts[i])
  {
    if parts != [] {
      TrimNonEmptyAll(parts[1..]);
      assert TrimNonEmpty(parts) == [Trim(parts[0])] + TrimNonEmpty(parts[1..]);
    }
  }

  /** Trimming pieces cut at markers keeps the cut: no piece is blank, and each keeps its end and its start. */
  lemma TrimKeepsCut(p: seq<string>)
    requires PiecesCut(p) && |p| > 1
    ensures PiecesCut(TrimNonEmpty(p))
  {
    forall i | 0 <= i < |p| ensures Trim(p[i]) != [] {
      TrimPieceKeepsCut(p, i);
    }
    TrimNonEmptyAll(p);
    var r := TrimNonEmpty(p);
    forall i | 0 <= i < |r| - 1 ensures r[i] != [] && IsTerminator(r[i][|r[i]| - 1]) {
      TrimPieceKeepsCut(p, i);
    }
    forall i | 0 < i < |r| ensures r[i] != [] && IsUpperAscii(r[i][0]) {
      TrimPieceKeepsCut(p, i);
    }
  }

  lemma TrimPieceKeepsCut(p: seq<string>, i: nat)
    requires PiecesCut(p) && |p| > 1 && i < |p|
    ensures Trim(p[i]) != []
    ensures i < |p| - 1 ==> IsTerminator(Trim(p[i])[|Trim(p[i])| - 1])
    ensures 0 < i ==> IsUpperAscii(Trim(p[i])[0])
  {
    TrimKeepsEnds(p[i]);
  }

  /**
   * `_splitIntoSentences` cuts only where the pattern matched: in a text
   * without `|`, every sentence but the last ends with `.`, `?` or `!`, and
   * every sentence but the first opens with an ASCII capital.
   */
  lemma SentencesCutAtBoundaries(text: string)
    requires '|' !in text
    ensures var r := SplitSentences(text);
      (forall i :: 0 <= i < |r| - 1 ==> IsTerminator(r[i][|r[i]| - 1]))
      && (forall i :: 0 < i < |r| ==> IsUpperAscii(r[i][0]))
  {
    var m := MarkBoundaries(text);
    MarkPlacesMarks(text);
    assert PlacedFrom(m, []);
    SplitCutsAtMarks(m, []);
    var p := SplitOn(m, '|');
    if |p| > 1 {
      TrimKeepsCut(p);
    }
  }

  // ---------------------------------------------------------------------------
  // Classification and question/answer pairing
  // ---------------------------------------------------------------------------

  predicate Confident(c: Classification, intent: string) {
    c.intent == intent && c.score > Threshold
  }

  const NoSections: Sections := Sections([], [], [], [])

  /** The if / else-if chain that files a sentence under at most one list. */
  function File(st: Sections, sentence: string, c: Classification): (r: Sections)
    ensures r.answers == st.answers
  {
    if Confident(c, QuestionIntent) then st.(questions := st.questions + [Question(sentence, c.score, None)])
    else if Confident(c, ObjectiveIntent) then st.(objectives := st.objectives + [Item(sentence, c.score)])
    else if Confident(c, TaskIntent) then st.(tasks := st.tasks + [Item(sentence, c.score)])
    else st
  }

  /** Gives the last question, if it has no answer yet, `sentence` as its answer. */
  function AnswerPending(st: Sections, sentence: string): (r: Sections)
    ensures |r.questions| == |st.questions| && r.objectives == st.objectives && r.tasks == st.tasks
  {
    var n := |st.questions|;
    if n > 0 && st.questions[n - 1].answer.None? then
      var q := st.questions[n - 1];
      st.(questions := st.questions[n - 1 := q.(answer := Some(sentence))],
          answers := st.answers + [Answer(q.text, sentence)])
    else st
  }

  /** One iteration of the loop in `analyze`, as written: file the sentence, then look for a pending question. */
  function Step(st: Sections, sentence: string, c: Classification): Sections {
    AnswerPending(File(st, sentence, c), sentence)
  }

  /** The loop over all sentences, as written: each sentence is filed under at most one list. */
  function Process(sentences: seq<string>, classify: string -> Classification): (r: Sections)
    ensures |r.questions| + |r.objectives| + |r.tasks| <= |sentences|
    decreases |sentences|
  {
    if sentences == [] then NoSections
    else
      var n := |sentences| - 1;
      Step(Process(sentences[..n], classify), sentences[n], classify(sentences[n]))
  }

  /** The sentences a list receives: those classified under `intent` above the threshold, in order. */
  function Picked(sentences: seq<string>, classify: string -> Classification, intent: string): seq<string>
    decreases |sentences|
  {
    if sentences == [] then []
    else
      var n := |sentences| - 1;
      Picked(sentences[..n], classify, intent) + (if Confident(classify(sentences[n]), intent) then [sentences[n]] else [])
  }

  function QuestionTexts(qs: seq<Question>): (r: seq<string>)
    ensures |r| == |qs| && forall i :: 0 <= i < |qs| ==> r[i] == qs[i].text
  {
    if qs == [] then [] else [qs[0].text] + QuestionTexts(qs[1..])
  }

  function ItemTexts(items: seq<Item>): (r: seq<string>)
    ensures |r| == |items| && forall i :: 0 <= i < |items| ==> r[i] == items[i].text
  {
    if items == [] then [] else [items[0].text] + ItemTexts(items[1..])
  }

  predicate AllAboveThreshold(st: Sections) {
    (forall i :: 0 <= i < |st.questions| ==> st.questions[i].confidence > Threshold)
    && (forall i :: 0 <= i < |st.objectives| ==> st.objectives[i].confidence > Threshold)
    && (forall i :: 0 <= i < |st.tasks| ==> st.tasks[i].confidence > Threshold)
  }

  /** Every question is answered by its own sentence, and `answers` mirrors `questions`. */
  predicate SelfAnswered(st: Sections) {
    |st.answers| == |st.questions|
    && forall i :: 0 <= i < |st.questions| ==>
         st.questions[i].answer == Some(st.questions[i].text)
         && st.answers[i] == Answer(st.questions[i].text, st.questions[i].text)
  }

  /** The three lists hold exactly the sentences picked for their intent, all above the threshold. */
  predicate Filed(st: Sections, sentences: seq<string>, classify: string -> Classification) {
    QuestionTexts(st.questions) == Picked(sentences, classify, QuestionIntent)
    && ItemTexts(st.objectives) == Picked(sentences, classify, ObjectiveIntent)
    && ItemTexts(st.tasks) == Picked(sentences, classify, TaskIntent)
    && AllAboveThreshold(st)
  }

  lemma FileStep(st: Sections, sentences: seq<string>, classify: string -> Classification)
    requires sentences != []
    requires Filed(st, sentences[..|sentences| - 1], classify)
    ensures Filed(File(st, sentences[|sentences| - 1], classify(sentences[|sentences| - 1])), sentences, classify)
  {
    var n := |sentences| - 1;
    var x := sentences[n];
    var c := classify(x);
    var r := File(st, x, c);
    IntentsDistinct();
    if Confident(c, QuestionIntent) {
      assert QuestionTexts(r.questions) == QuestionTexts(st.questions) + [x];
    } else if Confident(c, ObjectiveIntent) {
      assert ItemTexts(r.objectives) == ItemTexts(st.objectives) + [x];
    } else if Confident(c, TaskIntent) {
      assert ItemTexts(r.tasks) == ItemTexts(st.tasks) + [x];
    }
  }

  lemma AnswerPendingKeepsFiled(st: Sections, sentence: string, sentences: seq<string>, classify: string -> Classification)
    requires Filed(st, sentences, classify)
    ensures Filed(AnswerPending(st, sentence), sentences, classify)
  {
    var r := AnswerPending(st, sentence);
    assert QuestionTexts(r.questions) == QuestionTexts(st.questions);
  }

  /**
   * The loop as written files under each list exactly the sentences
   * classified under its intent with a score above 0.7, in order.
   */
  lemma {:induction false} ProcessFiles(sentences: seq<string>, classify: string -> Classification)
    ensures Filed(Process(sentences, classify), sentences, classify)
    decreases |sentences|
  {
    if sentences != [] {
      var n := |sentences| - 1;
      ProcessFiles(sentences[..n], classify);
      var prev := Process(sentences[..n], classify);
      FileStep(prev, sentences, classify);
      AnswerPendingKeepsFiled(File(prev, sentences[n], classify(sentences[n])), sentences[n], sentences, classify);
    }
  }

  /**
   * Because the pending-question check runs in the same iteration as the
   * push, the loop as written answers every question with itself, and
   * `answers` mirrors `questions`.
   */
  lemma {:induction false} ProcessSelfAnswers(sentences: seq<string>, classify: string -> Classification)
    ensures SelfAnswered(Process(sentences, classify))
    decreases |sentences|
  {
    if sentences != [] {
      var n := |sentences| - 1;
      ProcessSelfAnswers(sentences[..n], classify);
      var prev := Process(sentences[..n], classify);
      var filed := File(prev, sentences[n], classify(sentences[n]));
      var k := |prev.questions|;
      if |filed.questions| > k {
        assert filed.questions[k] == Question(sentences[n], classify(sentences[n]).score, None);
      } else {
        assert filed.questions == prev.questions;
      }
    }
  }

  /** The three intents are distinct, so no sentence is filed twice. */
  lemma IntentsDistinct()
    ensures QuestionIntent != ObjectiveIntent && QuestionIntent != TaskIntent && ObjectiveIntent != TaskIntent
  {
    assert QuestionIntent[0] == 'p' && ObjectiveIntent[0] == 'o' && TaskIntent[0] == 't';
  }

  /** The loop as its comment describes it: a sentence answers the question pending before it, then is filed. */
  function StepIntended(st: Sections, sentence: string, c: Classification): Sections {
    File(AnswerPending(st, sentence), sentence, c)
  }

  function ProcessIntended(sentences: seq<string>, classify: string -> Classification): Sections
    decreases |sentences|
  {
    if sentences == [] then NoSections
    else
      var n := |sentences| - 1;
      StepIntended(ProcessIntended(sentences[..n], classify), sentences[n], classify(sentences[n]))
  }

  /** Indices of the sentences classified as questions. */
  function QuestionPositions(sentences: seq<string>, classify: string -> Classification): (r: seq<nat>)
    ensures forall i :: 0 <= i < |r| ==> r[i] < |sentences|
    ensures forall i, j :: 0 <= i < j < |r| ==> r[i] < r[j]
    decreases |sentences|
  {
    if sentences == [] then []
    else
      var n := |sentences| - 1;
      QuestionPositions(sentences[..n], classify) + (if Confident(classify(sentences[n]), QuestionIntent) then [n] else [])
  }

  /**
   * The corrected loop's invariant: question `i` is the sentence at `pos[i]`,
   * answered by the sentence after it when there is one; `answers` lists those
   * pairs, in order, for every question that has its answer.
   */
  predicate Paired(st: Sections, sentences: seq<string>, pos: seq<nat>) {
    |st.questions| == |pos| && |st.answers| <= |pos|
    && (forall i :: 0 <= i < |pos| ==> pos[i] < |sentences|)
    && (forall i :: 0 <= i < |pos| ==>
          st.questions[i].text == sentences[pos[i]]
          && st.questions[i].answer == (if pos[i] + 1 < |sentences| then Some(sentences[pos[i] + 1]) else None))
    && (forall i :: 0 <= i < |st.answers| ==>
          pos[i] + 1 < |sentences| && st.answers[i] == Answer(sentences[pos[i]], sentences[pos[i] + 1]))
    && (forall i :: 0 <= i < |pos| && pos[i] + 1 < |sentences| ==> i < |st.answers|)
  }

  /** Every question so far has an answer drawn from `sentences` (one sentence past those it was filed from). */
  predicate AllAnswered(st: Sections, sentences: seq<string>, pos: seq<nat>) {
    |st.questions| == |pos| && |st.answers| == |pos|
    && (forall i :: 0 <= i < |pos| ==> pos[i] + 1 < |sentences|)
    && (forall i :: 0 <= i < |pos| ==>
          st.questions[i].text == sentences[pos[i]]
          && st.questions[i].answer == Some(sentences[pos[i] + 1])
          && st.answers[i] == Answer(sentences[pos[i]], sentences[pos[i] + 1]))
  }

  /** The next sentence answers the only question that can be pending: one filed from the last sentence so far. */
  lemma AnswerStep(st: Sections, sentences: seq<string>, pos: seq<nat>)
    requires sentences != []
    requires forall i, j :: 0 <= i < j < |pos| ==> pos[i] < pos[j]
    requires Paired(st, sentences[..|sentences| - 1], pos)
    ensures AllAnswered(AnswerPending(st, sentences[|sentences| - 1]), sentences, pos)
  {
    var n := |sentences| - 1;
    var pre := sentences[..n];
    var x := sentences[n];
    var k := |pos|;
    assert forall i :: 0 <= i < n ==> pre[i] == sentences[i];
    var r := AnswerPending(st, x);
    if k > 0 && st.questions[k - 1].answer.None? {
      assert pos[k - 1] == n - 1;
      if k >= 2 {
        assert pos[k - 2] < pos[k - 1];
        assert k - 2 < |st.answers|;
      }
      assert |st.answers| == k - 1;
    } else if k > 0 {
      assert pos[k - 1] + 1 < n;
    }
  }

  lemma FileAfterAnswer(st: Sections, sentences: seq<string>, pos: seq<nat>, classify: string -> Classification)
    requires sentences != []
    requires AllAnswered(st, sentences, pos)
    ensures var n := |sentences| - 1;
      var q := if Confident(classify(sentences[n]), QuestionIntent) then [n] else [];
      Paired(File(st, sentences[n], classify(sentences[n])), sentences, pos + q)
  {
  }

  /**
   * The corrected loop pairs each question with the sentence that follows it,
   * and records one answer per question that is not the last sentence.
   */
  lemma {:induction false} ProcessIntendedPairs(sentences: seq<string>, classify: string -> Classification)
    ensures Paired(ProcessIntended(sentences, classify), sentences, QuestionPositions(sentences, classify))
    decreases |sentences|
  {
    if sentences != [] {
      var n := |sentences| - 1;
      var pre := sentences[..n];
      ProcessIntendedPairs(pre, classify);
      var prev := ProcessIntended(pre, classify);
      var pos0 := QuestionPositions(pre, classify);
      AnswerStep(prev, sentences, pos0);
      FileAfterAnswer(AnswerPending(prev, sentences[n]), sentences, pos0, classify);
    }
  }

  /**
   * The discrepancy, on a two-sentence meeting whose first sentence is a
   * question: the loop as written answers the question with the question
   * itself, the corrected loop with the reply that follows it.
   */
  lemma SelfAnswerCounterexample()
    ensures var s := ["¿Qué opinas?", "Me parece bien."];
      var classify := (t: string) => if t == s[0] then Classification(QuestionIntent, 0.9) else Classification("None", 0.0);
      Process(s, classify).questions[0].answer == Some(s[0])
      && ProcessIntended(s, classify).questions[0].answer == Some(s[1])
      && s[0] != s[1]
  {
    var s := ["¿Qué opinas?", "Me parece bien."];
    var classify := (t: string) => if t == s[0] then Classification(QuestionIntent, 0.9) else Classification("None", 0.0);
    assert s[0][0] != s[1][0];
    assert s[..1] == [s[0]];
    assert s[..1][..0] == [];
    assert !Confident(classify(s[1]), QuestionIntent);
    assert !Confident(classify(s[1]), ObjectiveIntent);
    assert !Confident(classify(s[1]), TaskIntent);
  }

  // ---------------------------------------------------------------------------
  // Sentiment
  // ---------------------------------------------------------------------------

  const PositiveWords: seq<string> := [
    "bueno", "excelente", "genial", "increíble", "maravilloso", "fantástico",
    "positivo", "éxito", "logro", "feliz", "contento", "alegre", "satisfecho",
    "eficiente", "eficaz", "productivo", "innovador", "creativo", "motivado",
    "optimista", "mejorar", "progreso", "avance", "solución", "oportunidad"]

  const NegativeWords: seq<string> := [
    "malo", "terrible", "pésimo", "horrible", "deficiente", "negativo",
    "fracaso", "problema", "error", "fallo", "triste", "enojado", "frustrado",
    "ineficiente", "ineficaz", "improductivo", "desmotivado", "pesimista",
    "empeorar", "retroceso", "obstáculo", "dificultad", "amenaza"]

  /** Number of tokens that occur in `words`. */
  function Occurrences(tokens: seq<string>, words: seq<string>): (n: nat)
    ensures n <= |tokens|
  {
    if tokens == [] then 0 else (if tokens[0] in words then 1 else 0) + Occurrences(tokens[1..], words)
  }

  /** The `forEach` count: a token is positive first, otherwise negative, otherwise ignored. */
  function Tally(tokens: seq<string>): (r: (nat, nat))
  {
    if tokens == [] then (0, 0)
    else
      var rest := Tally(tokens[1..]);
      if Listed(tokens[0], PositiveWords) then (rest.0 + 1, rest.1)
      else if Listed(tokens[0], NegativeWords) then (rest.0, rest.1 + 1)
      else rest
  }

  /**
   * `list.includes(w)`, read one entry at a time: the verifier then looks at
   * the lexicons only as far as a proof needs, rather than at all fifty words at once.
   */
  predicate Listed(w: string, list: seq<string>) {
    list != [] && (w == list[0] || Listed(w, list[1..]))
  }

  lemma {:induction false} ListedIff(w: string, list: seq<string>)
    ensures Listed(w, list) <==> w in list
  {
    if list != [] {
      ListedIff(w, list[1..]);
      assert list == [list[0]] + list[1..];
    }
  }

  /** Each token is counted at most once: positives are the positive-list tokens, and the two counts together are the lexicon tokens. */
  lemma {:induction false} TallyCounts(tokens: seq<string>)
    ensures Tally(tokens).0 == Occurrences(tokens, PositiveWords)
    ensures Tally(tokens).0 + Tally(tokens).1 == Occurrences(tokens, PositiveWords + NegativeWords)
  {
    if tokens != [] {
      TallyCounts(tokens[1..]);
      ListedIff(tokens[0], PositiveWords);
      ListedIff(tokens[0], NegativeWords);
      assert tokens[0] in PositiveWords + NegativeWords <==> tokens[0] in PositiveWords || tokens[0] in NegativeWords;
    }
  }

  /** `(pos - neg) / (pos + neg || 1)` lies in [-1, 1] and has the sign of `pos - neg`. */
  lemma ScoreBounds(pos: nat, neg: nat, total: nat, score: real)
    requires total == if pos + neg == 0 then 1 else pos + neg
    requires score == (pos - neg) as real / total as real
    ensures -1.0 <= score <= 1.0
    ensures score == 0.0 <==> pos == neg
    ensures score > 0.0 <==> pos > neg
  {
    var t := total as real;
    assert t > 0.0;
    assert score * t == (pos - neg) as real;
    assert -t <= (pos - neg) as real <= t;

  }

  function Score(pos: nat, neg: nat): (score: real)
    ensures -1.0 <= score <= 1.0
    ensures score == 0.0 <==> pos == neg
    ensures score > 0.0 <==> pos > neg
  {
    var total := if pos + neg == 0 then 1 else pos + neg;
    ScoreBounds(pos, neg, total, (pos - neg) as real / total as real);
    (pos - neg) as real / total as real
  }

  lemma Ratio(score: real, n: nat)
    ensures n > 0 ==> (score / n as real) * (n as real) == score
  {
  }

  lemma {:induction false} TallyBound(tokens: seq<string>)
    ensures Tally(tokens).0 + Tally(tokens).1 <= |tokens|
  {
    if tokens != [] {
      TallyBound(tokens[1..]);
    }
  }

  /** The sentiment of `n` tokens of which `pos` are positive and `neg` negative. */
  function FromCounts(pos: nat, neg: nat, n: nat): (s: Sentiment)
    requires pos + neg <= n
    ensures -1.0 <= s.score <= 1.0
    ensures s.score == 0.0 <==> s.positiveCount == s.negativeCount
    ensures s.score > 0.0 <==> s.positiveCount > s.negativeCount
    ensures s.positiveCount == pos && s.negativeCount == neg
    ensures s.comparative.None? <==> n == 0
    ensures s.comparative.Some? ==> s.comparative.value * (n as real) == s.score
  {
    var score := Score(pos, neg);
    Ratio(score, n);
    Sentiment(score, if n == 0 then None else Some(score / n as real), pos, neg)
  }

  /** `_analyzeSentiment` on the tokens of the lower-cased text. */
  function SentimentOf(tokens: seq<string>): (s: Sentiment)
    ensures -1.0 <= s.score <= 1.0
    ensures s.score == 0.0 <==> s.positiveCount == s.negativeCount
    ensures s.score > 0.0 <==> s.positiveCount > s.negativeCount
    ensures s.positiveCount + s.negativeCount <= |tokens|
    ensures s.comparative.None? <==> tokens == []
    ensures s.comparative.Some? ==> s.comparative.value * (|tokens| as real) == s.score
  {
    TallyBound(tokens);
    FromCounts(Tally(tokens).0, Tally(tokens).1, |tokens|)
  }

  /** A text with no lexicon word scores 0. */
  lemma NeutralWithoutLexicon(tokens: seq<string>)
    requires forall i :: 0 <= i < |tokens| ==> tokens[i] !in PositiveWords && tokens[i] !in NegativeWords
    ensures SentimentOf(tokens).score == 0.0
    ensures SentimentOf(tokens).positiveCount == 0 && SentimentOf(tokens).negativeCount == 0
  {
    NoLexiconTally(tokens);
  }

  lemma {:induction false} NoLexiconTally(tokens: seq<string>)
    requires forall i :: 0 <= i < |tokens| ==> tokens[i] !in PositiveWords && tokens[i] !in NegativeWords
    ensures Tally(tokens) == (0, 0)
  {
    if tokens != [] {
      NoLexiconTally(tokens[1..]);
      ListedIff(tokens[0], PositiveWords);
      ListedIff(tokens[0], NegativeWords);
    }
  }

  // ---------------------------------------------------------------------------
  // analyze
  // ---------------------------------------------------------------------------

  /** `listTerms(0).slice(0, 10)` */
  function KeyTopics(ranked: seq<Topic>): (r: seq<Topic>)
    ensures |r| <= MaxTopics && |r| <= |ranked|
    ensures r == ranked[..|r|]
    ensures |r| == MaxTopics || r == ranked
  {
    if |ranked| <= MaxTopics then ranked else ranked[..MaxTopics]
  }

  /** The analysis computed locally from the normalised text, with the sentence loop as written. */
  function LocalAnalysis(text: string, classify: string -> Classification,
                         tokenize: string -> seq<string>, rank: seq<string> -> seq<Topic>): Analysis
  {
    Analysis(Process(SplitSentences(text), classify), KeyTopics(rank(tokenize(text))), SentimentOf(tokenize(Lower(text))))
  }

  /**
   * `analyze(transcription)`. `json` is the value's `JSON.stringify`, `apiKey`
   * the `OPENAI_API_KEY` setting (`""` when unset), `remote` what the remote
   * analysis resolves to or throws; `classify`, `tokenize` and `rank` stand for
   * the intent classifier, the word tokenizer and the TF-IDF term list.
   */
  function Analyze(v: TranscriptValue, json: string, apiKey: string, remote: Result<Analysis>,
                   classify: string -> Classification, tokenize: string -> seq<string>,
                   rank: seq<string> -> seq<Topic>): (r: Reply<Analysis>)
    ensures NormalizedText(v, json).Err? ==> r == Failure(NormalizedText(v, json).message)
    ensures NormalizedText(v, json).Ok? ==> r.Success?
    ensures r.Success? ==> r.service == Some("openai") || r.service == Some("local")
    ensures r.Success? ==> (r.service == Some("openai") <==> Config.RemoteConfigured(apiKey) && remote.Ok?)
    ensures r.Success? && r.service == Some("openai") ==> r.payload == remote.value
    ensures r.Success? && r.service == Some("local") ==>
      |r.payload.keyTopics| <= MaxTopics && AllAboveThreshold(r.payload.sections)
      && -1.0 <= r.payload.sentiment.score <= 1.0
    ensures r.Success? && r.service == Some("local") ==>
      var text := NormalizedText(v, json).value;
      var sentences := SplitSentences(text);
      r.payload.sections == Process(sentences, classify)
      && Filed(r.payload.sections, sentences, classify) && SelfAnswered(r.payload.sections)
      && r.payload.keyTopics == KeyTopics(rank(tokenize(text)))
      && r.payload.sentiment == SentimentOf(tokenize(Lower(text)))
  {
    match NormalizedText(v, json)
    case Err(m) => Failure(m)
    case Ok(text) =>
      if Config.RemoteConfigured(apiKey) && remote.Ok? then Success(remote.value, Some("openai"))
      else
        var a := LocalAnalysis(text, classify, tokenize, rank);
        ProcessFiles(SplitSentences(text), classify);
        ProcessSelfAnswers(SplitSentences(text), classify);
        assert "local" != "openai" by { assert "local"[0] != "openai"[0]; }
        Success(a, Some("local"))
  }

  /** The corrected loop files the same sentences under the same lists as the loop as written. */
  lemma {:induction false} IntendedFiles(sentences: seq<string>, classify: string -> Classification)
    ensures Filed(ProcessIntended(sentences, classify), sentences, classify)
    decreases |sentences|
  {
    if sentences != [] {
      var n := |sentences| - 1;
      IntendedFiles(sentences[..n], classify);
      var prev := ProcessIntended(sentences[..n], classify);
      AnswerPendingKeepsFiled(prev, sentences[n], sentences[..n], classify);
      FileStep(AnswerPending(prev, sentences[n]), sentences, classify);
    }
  }
}
