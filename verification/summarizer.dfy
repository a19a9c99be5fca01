/**
 * The summary agent's extractive path: text extraction, word frequencies,
 * sentence scores, the top-K executive summary restored to text order, key
 * points, and the question/answer and objective sections. The sentence
 * tokenizer, the word tokenizer and the remote summary service are inputs.
 */
module Summarizer {
  import opened Wrappers
  import opened Text
  import Config
  import opened Sorting
  import Sequences
  import opened Transcriber
  import opened Analyzer

  datatype QA = QA(question: string, answer: string)

  datatype Summary = Summary(executive: string, keyPoints: seq<string>, questionsAndAnswers: seq<QA>, objectives: seq<string>)

  /** A sentence with its frequency score. */
  datatype Scored = Scored(sentence: string, score: real)

  const DefaultMaxSentences: nat := 5
  const MaxKeyPoints: nat := 5
  const NoAnswer: string := "Sin respuesta registrada"

  /** `options.maxSentences || 5`: an absent or zero option means 5. */
  function MaxSentences(option: Option<nat>): (n: nat)
    ensures n > 0
    ensures option.Some? && option.value > 0 ==> n == option.value
  {
    if option.Some? && option.value > 0 then option.value else DefaultMaxSentences
  }

  // ---------------------------------------------------------------------------
  // Text extraction
  // ---------------------------------------------------------------------------

  /**
   * The text `summarize` works on. An object is read as Google Speech results
   * (the first alternative of each, joined with spaces; a result without
   * alternatives throws a `TypeError`), else its `text`, else `json`, its
   * `JSON.stringify`. A string is used as it is. Any other value makes the
   * tokenizers throw; `typeError` stands for the message the runtime gives.
   */
  function SummaryText(v: TranscriptValue, json: string, typeError: string): (r: Result<string>)
    ensures v.Plain? ==> r == Ok(v.text)
    ensures v.Missing? || v.OtherValue? ==> r == Err(typeError)
    ensures v.Shaped? && v.envelope.results.None? && v.envelope.text != [] ==> r == Ok(v.envelope.text)
    ensures v.Shaped? && v.envelope.results.None? && v.envelope.text == [] ==> r == Ok(json)
  {
    match v
    case Plain(t) => Ok(t)
    case Shaped(e) =>
      if e.results.Some? then
        if exists i :: 0 <= i < |e.results.value| && e.results.value[i].alternatives == [] then Err(typeError)
        else Ok(Join(FirstAlternatives(e.results.value), " "))
      else if e.text != [] then Ok(e.text)
      else Ok(json)
    case _ => Err(typeError)
  }

  /**
   * Google Speech results win over `text` here, the reverse of the analysis
   * agent's order: an object carrying both yields different texts in the two agents.
   */
  lemma ResultsBeforeText(e: Envelope, json: string, typeError: string)
    requires e.results.Some? && e.results.value == [SpeechResult(["hola a todos"])]
    requires e.text == "buenos días"
    ensures SummaryText(Shaped(e), json, typeError) == Ok("hola a todos")
    ensures ExtractText(e, json) == "buenos días"
  {
    assert FirstAlternatives(e.results.value) == ["hola a todos"];
  }

  /** A result with no alternatives makes extraction throw; otherwise extraction succeeds. */
  lemma ExtractionFailsOnlyOnEmptyResult(e: Envelope, json: string, typeError: string)
    ensures SummaryText(Shaped(e), json, typeError).Err? <==>
      e.results.Some? && exists i :: 0 <= i < |e.results.value| && e.results.value[i].alternatives == []
  {
  }

  // ---------------------------------------------------------------------------
  // Word frequencies and sentence scores
  // ---------------------------------------------------------------------------

  /** Tokens shorter than three characters are ignored. */
  predicate Counted(w: string) { |w| > 2 }

  function Get(freq: map<string, nat>, w: string): nat {
    if w in freq then freq[w] else 0
  }

  /** Number of occurrences of `w` in `toks`. */
  function CountIn(w: string, toks: seq<string>): (n: nat)
    ensures n <= |toks|
  {
    if toks == [] then 0 else (if toks[0] == w then 1 else 0) + CountIn(w, toks[1..])
  }

  lemma {:induction false} CountInAppend(w: string, a: seq<string>, b: seq<string>)
    ensures CountIn(w, a + b) == CountIn(w, a) + CountIn(w, b)
  {
    if a != [] {
      CountInAppend(w, a[1..], b);
      assert (a + b)[0] == a[0];
      assert (a + b)[1..] == a[1..] + b;
    } else {
      assert a + b == b;
    }
  }

  /** The inner `forEach`: increments the count of every counted token, left to right. */
  function Bump(freq: map<string, nat>, toks: seq<string>): map<string, nat>
    decreases |toks|
  {
    if toks == [] then freq
    else
      var t := toks[0];
      Bump(if Counted(t) then freq[t := Get(freq, t) + 1] else freq, toks[1..])
  }

  /** The tokens of every sentence, in order. */
  function Flatten(tss: seq<seq<string>>): seq<string>
    decreases |tss|
  {
    if tss == [] then [] else Flatten(tss[..|tss| - 1]) + tss[|tss| - 1]
  }

  /** The outer `forEach`: the frequency table built over all sentences. */
  function Frequencies(tss: seq<seq<string>>): map<string, nat>
    decreases |tss|
  {
    if tss == [] then map[] else Bump(Frequencies(tss[..|tss| - 1]), tss[|tss| - 1])
  }

  lemma {:induction false} BumpCount(freq: map<string, nat>, toks: seq<string>, w: string)
    ensures Get(Bump(freq, toks), w) == Get(freq, w) + (if Counted(w) then CountIn(w, toks) else 0)
    decreases |toks|
  {
    if toks != [] {
      var t := toks[0];
      var next := if Counted(t) then freq[t := Get(freq, t) + 1] else freq;
      BumpCount(next, toks[1..], w);
    }
  }

  /** The table maps each word of three or more characters to its number of occurrences in the document. */
  lemma {:induction false} FrequenciesCount(tss: seq<seq<string>>, w: string)
    ensures Get(Frequencies(tss), w) == if Counted(w) then CountIn(w, Flatten(tss)) else 0
    decreases |tss|
  {
    if tss != [] {
      var n := |tss| - 1;
      FrequenciesCount(tss[..n], w);
      BumpCount(Frequencies(tss[..n]), tss[n], w);
      CountInAppend(w, Flatten(tss[..n]), tss[n]);
    }
  }

  /** The numerator of a score: the table entries of the counted tokens present in the table. */
  function FreqSum(toks: seq<string>, freq: map<string, nat>): nat {
    if toks == [] then 0
    else (if Counted(toks[0]) && Get(freq, toks[0]) > 0 then Get(freq, toks[0]) else 0) + FreqSum(toks[1..], freq)
  }

  /** The same sum stated on the document itself: the document frequency of each counted token. */
  function DocumentFrequencySum(toks: seq<string>, doc: seq<string>): nat {
    if toks == [] then 0
    else (if Counted(toks[0]) then CountIn(toks[0], doc) else 0) + DocumentFrequencySum(toks[1..], doc)
  }

  lemma {:induction false} FreqSumIsDocumentFrequency(toks: seq<string>, tss: seq<seq<string>>)
    ensures FreqSum(toks, Frequencies(tss)) == DocumentFrequencySum(toks, Flatten(tss))
  {
    if toks != [] {
      FreqSumIsDocumentFrequency(toks[1..], tss);
      FrequenciesCount(tss, toks[0]);
    }
  }

  /** `score / tokens.length`, with 0 for a sentence without tokens. */
  function ScoreOf(toks: seq<string>, freq: map<string, nat>): real {
    if toks == [] then 0.0 else FreqSum(toks, freq) as real / |toks| as real
  }

  /** The tokens of each sentence, from its lower-cased text. */
  function TokensOf(sentences: seq<string>, tokenize: string -> seq<string>): (r: seq<seq<string>>)
    ensures |r| == |sentences|
    ensures forall i :: 0 <= i < |r| ==> r[i] == tokenize(Lower(sentences[i]))
  {
    if sentences == [] then [] else [tokenize(Lower(sentences[0]))] + TokensOf(sentences[1..], tokenize)
  }

  /** Every sentence with its score against the frequency table of the whole text. */
  function ScoreAll(sentences: seq<string>, tokenize: string -> seq<string>): (r: seq<Scored>)
    ensures |r| == |sentences|
    ensures forall i :: 0 <= i < |r| ==>
      (r[i].sentence == sentences[i]
       && r[i].score == ScoreOf(tokenize(Lower(sentences[i])), Frequencies(TokensOf(sentences, tokenize))))
  {
    var freq := Frequencies(TokensOf(sentences, tokenize));
    ScoreWith(sentences, tokenize, freq)
  }

  function ScoreWith(sentences: seq<string>, tokenize: string -> seq<string>, freq: map<string, nat>): (r: seq<Scored>)
    ensures |r| == |sentences|
    ensures forall i :: 0 <= i < |r| ==> r[i] == Scored(sentences[i], ScoreOf(tokenize(Lower(sentences[i])), freq))
  {
    if sentences == [] then []
    else [Scored(sentences[0], ScoreOf(tokenize(Lower(sentences[0])), freq))] + ScoreWith(sentences[1..], tokenize, freq)
  }

  /**
   * A sentence's score is the summed document frequency of its tokens of
   * three or more characters, over its number of tokens.
   */
  lemma ScoreIsDocumentFrequency(sentences: seq<string>, tokenize: string -> seq<string>, i: int)
    requires 0 <= i < |sentences|
    ensures var toks := tokenize(Lower(sentences[i]));
      ScoreAll(sentences, tokenize)[i].score ==
        if toks == [] then 0.0
        else DocumentFrequencySum(toks, Flatten(TokensOf(sentences, tokenize))) as real / |toks| as real
  {
    FreqSumIsDocumentFrequency(tokenize(Lower(sentences[i])), TokensOf(sentences, tokenize));
  }

  // ---------------------------------------------------------------------------
  // Top-K selection
  // ---------------------------------------------------------------------------

  /** Sort key for `(a, b) => b.score - a.score`: descending score. */
  function NegScore(x: Scored): real { -x.score }

  /** `sentences.indexOf(s)`: the first position of `s`, or -1. */
  function IndexOf(sentences: seq<string>, s: string): (i: int)
    ensures -1 <= i < |sentences|
    ensures i >= 0 ==> sentences[i] == s && forall j :: 0 <= j < i ==> sentences[j] != s
    ensures i == -1 <==> s !in sentences
  {
    if sentences == [] then -1
    else if sentences[0] == s then 0
    else
      var k := IndexOf(sentences[1..], s);
      if k == -1 then -1 else k + 1
  }

  /** Sort key for `(a, b) => indexOf(a) - indexOf(b)`: original position. */
  function TextOrder(sentences: seq<string>): Scored -> real {
    (x: Scored) => IndexOf(sentences, x.sentence) as real
  }

  function Sentences(items: seq<Scored>): (r: seq<string>)
    ensures |r| == |items| && forall i :: 0 <= i < |items| ==> r[i] == items[i].sentence
  {
    if items == [] then [] else [items[0].sentence] + Sentences(items[1..])
  }

  function Min(a: nat, b: nat): nat { if a <= b then a else b }

  /** The `k` best-scoring items, best first. */
  function Best(scored: seq<Scored>, k: nat): (r: seq<Scored>)
    ensures |r| == Min(k, |scored|)
    ensures SortedBy(r, NegScore)
  {
    var sorted := SortBy(scored, NegScore);
    sorted[..Min(k, |scored|)]
  }

  /**
   * `Best` is a top-K choice: it draws from the input, and no item it leaves
   * out scores higher than any item it keeps.
   */
  lemma BestIsTopK(scored: seq<Scored>, k: nat)
    ensures var sorted := SortBy(scored, NegScore);
      var m := Min(k, |scored|);
      multiset(Best(scored, k)) + multiset(sorted[m..]) == multiset(scored)
      && forall x, y :: x in Best(scored, k) && y in sorted[m..] ==> x.score >= y.score
  {
    var sorted := SortBy(scored, NegScore);
    PrefixBeforeSuffix(sorted, NegScore, Min(k, |scored|));
  }

  /** Whatever `Best` keeps comes from the input. */
  lemma BestDrawsFromInput(scored: seq<Scored>, k: nat)
    ensures multiset(Best(scored, k)) <= multiset(scored)
    ensures forall i :: 0 <= i < |Best(scored, k)| ==> Best(scored, k)[i] in scored
  {
    var sorted := SortBy(scored, NegScore);
    Sequences.PrefixDrawsFrom(sorted, Min(k, |scored|));
    forall x | x in sorted ensures x in scored {
      assert x in multiset(sorted);
    }
  }

  /** The chosen sentences of the executive summary, in text order. */
  function ExecutiveItems(sentences: seq<string>, tokenize: string -> seq<string>, maxSentences: nat): seq<Scored> {
    SortBy(Best(ScoreAll(sentences, tokenize), maxSentences), TextOrder(sentences))
  }

  /** `_generateExtractiveSummary(text)` */
  function Executive(sentences: seq<string>, tokenize: string -> seq<string>, maxSentences: nat): string {
    Join(Sentences(ExecutiveItems(sentences, tokenize, maxSentences)), " ")
  }

  /**
   * The executive summary keeps at most `maxSentences` sentences, each taken
   * from the text, as the best-scoring ones, and lists them in text order.
   */
  lemma ExecutiveSelection(sentences: seq<string>, tokenize: string -> seq<string>, maxSentences: nat)
    ensures var items := ExecutiveItems(sentences, tokenize, maxSentences);
      |items| <= maxSentences && |items| <= |sentences|
      && multiset(items) == multiset(Best(ScoreAll(sentences, tokenize), maxSentences))
      && (forall i :: 0 <= i < |items| ==> items[i].sentence in sentences)
      && (forall i, j :: 0 <= i < j < |items| ==>
            IndexOf(sentences, items[i].sentence) <= IndexOf(sentences, items[j].sentence))
  {
    var scored := ScoreAll(sentences, tokenize);
    var best := Best(scored, maxSentences);
    var items := ExecutiveItems(sentences, tokenize, maxSentences);
    BestDrawsFromInput(scored, maxSentences);
    forall i | 0 <= i < |items| ensures items[i].sentence in sentences {
      assert items[i] in multiset(best);
      assert items[i] in best;
      ScoredFromSentences(sentences, tokenize, items[i]);
    }
    forall i, j | 0 <= i < j < |items|
      ensures IndexOf(sentences, items[i].sentence) <= IndexOf(sentences, items[j].sentence)
    {
      assert TextOrder(sentences)(items[i]) <= TextOrder(sentences)(items[j]);
    }
  }

  lemma ScoredFromSentences(sentences: seq<string>, tokenize: string -> seq<string>, x: Scored)
    requires x in ScoreAll(sentences, tokenize)
    ensures x.sentence in sentences
  {
    var scored := ScoreAll(sentences, tokenize);
    var k :| 0 <= k < |scored| && scored[k] == x;
    assert sentences[k] == x.sentence;
  }

  // ---------------------------------------------------------------------------
  // Key points, questions and answers, objectives
  // ---------------------------------------------------------------------------

  /** `sentence.toLowerCase().includes(topic.toLowerCase())` */
  predicate Mentions(sentence: string, topic: string) {
    Contains(Lower(sentence), Lower(topic))
  }

  /** The first sentence mentioning `topic`, if any. */
  function FirstMention(sentences: seq<string>, topic: string): (r: Option<string>)
    ensures r.Some? ==> r.value in sentences && Mentions(r.value, topic)
    ensures r.None? <==> forall i :: 0 <= i < |sentences| ==> !Mentions(sentences[i], topic)
  {
    if sentences == [] then None
    else if Mentions(sentences[0], topic) then Some(sentences[0])
    else FirstMention(sentences[1..], topic)
  }

  /** Nothing before the first mention mentions the topic. */
  lemma {:induction false} FirstMentionIsFirst(sentences: seq<string>, topic: string)
    requires FirstMention(sentences, topic).Some?
    ensures var i := IndexOf(sentences, FirstMention(sentences, topic).value);
      0 <= i && forall j :: 0 <= j < i ==> !Mentions(sentences[j], topic)
  {
    if !Mentions(sentences[0], topic) {
      FirstMentionIsFirst(sentences[1..], topic);
    }
  }

  /** The `forEach` over the topics: the first mention of each, skipping topics never mentioned. */
  function MentionsOf(sentences: seq<string>, topics: seq<string>): (r: seq<string>)
    ensures |r| <= |topics|
    ensures forall i :: 0 <= i < |r| ==> r[i] in sentences
  {
    if topics == [] then []
    else
      var first := FirstMention(sentences, topics[0]);
      (if first.Some? then [first.value] else []) + MentionsOf(sentences, topics[1..])
  }

  /** Each key point from topics is the first sentence mentioning one of the topics, in topic order. */
  lemma {:induction false} MentionsOfSpec(sentences: seq<string>, topics: seq<string>)
    ensures var r := MentionsOf(sentences, topics);
      |r| == |topics| - |NeverMentioned(sentences, topics)|
      && forall i :: 0 <= i < |r| ==> FirstMentionOfSome(sentences, topics, r[i])
  {
    if topics != [] {
      MentionsOfSpec(sentences, topics[1..]);
      var first := FirstMention(sentences, topics[0]);
      var head := if first.Some? then [first.value] else [];
      var rest := MentionsOf(sentences, topics[1..]);
      var never := if first.None? then [topics[0]] else [];
      assert MentionsOf(sentences, topics) == head + rest;
      assert NeverMentioned(sentences, topics) == never + NeverMentioned(sentences, topics[1..]);
      assert |head| + |never| == 1;
      forall i | 0 <= i < |head + rest|
        ensures FirstMentionOfSome(sentences, topics, (head + rest)[i])
      {
        if i < |head| {
          assert topics[0] in topics;
        } else {
          assert (head + rest)[i] == rest[i - |head|];
          assert FirstMentionOfSome(sentences, topics[1..], rest[i - |head|]);
          var t :| t in topics[1..] && FirstMention(sentences, t) == Some(rest[i - |head|]);
          assert t in topics;
        }
      }
    }
  }

  /** `x` is the first sentence mentioning one of `topics`. */
  predicate FirstMentionOfSome(sentences: seq<string>, topics: seq<string>, x: string) {
    exists t :: t in topics && FirstMention(sentences, t) == Some(x)
  }

  /** The topics no sentence mentions. */
  function NeverMentioned(sentences: seq<string>, topics: seq<string>): (r: seq<string>)
    ensures |r| <= |topics|
  {
    if topics == [] then []
    else (if FirstMention(sentences, topics[0]).None? then [topics[0]] else []) + NeverMentioned(sentences, topics[1..])
  }

  function Terms(topics: seq<Topic>): (r: seq<string>)
    ensures |r| == |topics| && forall i :: 0 <= i < |topics| ==> r[i] == topics[i].term
  {
    if topics == [] then [] else [topics[0].term] + Terms(topics[1..])
  }

  /** Whether `_generateKeyPoints` takes the topic branch. */
  predicate HasTopics(analysis: Option<Analysis>) {
    analysis.Some? && analysis.value.keyTopics != []
  }

  /** `_generateKeyPoints(text, analysis)` */
  function KeyPoints(sentences: seq<string>, tokenize: string -> seq<string>, analysis: Option<Analysis>): (r: seq<string>)
    ensures |r| <= MaxKeyPoints
    ensures forall i :: 0 <= i < |r| ==> r[i] in sentences
  {
    if HasTopics(analysis) then
      var topics := analysis.value.keyTopics;
      MentionsOf(sentences, Terms(topics[..Min(MaxKeyPoints, |topics|)]))
    else
      var best := Best(ScoreAll(sentences, tokenize), MaxKeyPoints);
      BestFromSentences(sentences, tokenize, MaxKeyPoints);
      Sentences(best)
  }

  lemma BestFromSentences(sentences: seq<string>, tokenize: string -> seq<string>, k: nat)
    ensures forall i :: 0 <= i < |Best(ScoreAll(sentences, tokenize), k)| ==>
      Best(ScoreAll(sentences, tokenize), k)[i].sentence in sentences
  {
    var scored := ScoreAll(sentences, tokenize);
    var best := Best(scored, k);
    BestDrawsFromInput(scored, k);
    forall i | 0 <= i < |best| ensures best[i].sentence in sentences {
      ScoredFromSentences(sentences, tokenize, best[i]);
    }
  }

  /** Without topics the key points are the best five sentences in score order, not text order. */
  lemma KeyPointsWithoutTopics(sentences: seq<string>, tokenize: string -> seq<string>, analysis: Option<Analysis>)
    requires !HasTopics(analysis)
    ensures var r := KeyPoints(sentences, tokenize, analysis);
      var best := Best(ScoreAll(sentences, tokenize), MaxKeyPoints);
      |r| == Min(MaxKeyPoints, |sentences|)
      && forall i, j :: 0 <= i < j < |r| ==> best[i].score >= best[j].score && r[i] == best[i].sentence
  {
  }

  /** `question.answer || 'Sin respuesta registrada'` */
  function AnswerText(q: Question): (a: string)
    ensures a != []
    ensures q.answer.Some? && q.answer.value != [] ==> a == q.answer.value
  {
    if q.answer.Some? && q.answer.value != [] then q.answer.value else NoAnswer
  }

  /** `_generateQASection(analysis)` */
  function QASection(analysis: Option<Analysis>): (r: seq<QA>)
    ensures analysis.None? ==> r == []
    ensures analysis.Some? ==>
      (|r| == |analysis.value.sections.questions|
       && forall i :: 0 <= i < |r| ==>
            r[i] == QA(analysis.value.sections.questions[i].text, AnswerText(analysis.value.sections.questions[i])))
  {
    if analysis.None? then [] else QAPairs(analysis.value.sections.questions)
  }

  function QAPairs(qs: seq<Question>): (r: seq<QA>)
    ensures |r| == |qs| && forall i :: 0 <= i < |qs| ==> r[i] == QA(qs[i].text, AnswerText(qs[i]))
  {
    if qs == [] then [] else [QA(qs[0].text, AnswerText(qs[0]))] + QAPairs(qs[1..])
  }

  /** `_generateObjectivesSection(analysis)`: the objective texts, verbatim and in order. */
  function ObjectivesSection(analysis: Option<Analysis>): (r: seq<string>)
    ensures analysis.None? ==> r == []
    ensures analysis.Some? ==> r == ItemTexts(analysis.value.sections.objectives)
  {
    if analysis.None? then [] else ItemTexts(analysis.value.sections.objectives)
  }

  /** The summary the extractive path builds from the text's sentences. */
  function Extractive(sentences: seq<string>, tokenize: string -> seq<string>, analysis: Option<Analysis>, maxSentences: nat): Summary {
    Summary(Executive(sentences, tokenize, maxSentences), KeyPoints(sentences, tokenize, analysis),
            QASection(analysis), ObjectivesSection(analysis))
  }

  /**
   * `summarize(transcription, analysis)`. `split` and `tokenize` stand for the
   * sentence and word tokenizers, `remote` for what the remote summary service
   * resolves to or throws, `apiKey` for `OPENAI_API_KEY` (`""` when unset).
   * A number or boolean is not an object, so it reaches the remote call
   * unextracted; only the extractive fallback trips over it.
   */
  function Summarize(v: TranscriptValue, json: string, typeError: string, analysis: Option<Analysis>,
                     apiKey: string, remote: Result<Summary>, split: string -> seq<string>,
                     tokenize: string -> seq<string>, maxSentences: Option<nat>): (r: Reply<Summary>)
    ensures r.Failure? <==>
      SummaryText(v, json, typeError).Err? && !(v.OtherValue? && Config.RemoteConfigured(apiKey) && remote.Ok?)
    ensures r.Failure? ==> r.error == typeError
    ensures r.Success? ==> (r.service == Some("openai") <==> Config.RemoteConfigured(apiKey) && remote.Ok?)
    ensures v.OtherValue? ==> (r.Success? <==> Config.RemoteConfigured(apiKey) && remote.Ok?)
    ensures r.Success? && r.service != Some("openai") ==>
      (r.service == Some("extractive")
       && |r.payload.keyPoints| <= MaxKeyPoints
       && r.payload.questionsAndAnswers == QASection(analysis)
       && r.payload.objectives == ObjectivesSection(analysis))
    ensures r.Success? && r.service != Some("openai") ==>
      SummaryText(v, json, typeError).Ok?
      && var sentences := split(SummaryText(v, json, typeError).value);
      r.payload.executive == Executive(sentences, tokenize, MaxSentences(maxSentences))
      && r.payload.keyPoints == KeyPoints(sentences, tokenize, analysis)
  {
    match SummaryText(v, json, typeError)
    case Err(m) =>
      if v.OtherValue? && Config.RemoteConfigured(apiKey) && remote.Ok? then Success(remote.value, Some("openai"))
      else Failure(m)
    case Ok(text) =>
      if Config.RemoteConfigured(apiKey) && remote.Ok? then Success(remote.value, Some("openai"))
      else
        assert "extractive" != "openai" by { assert "extractive"[0] != "openai"[0]; }
        Success(Extractive(split(text), tokenize, analysis, MaxSentences(maxSentences)), Some("extractive"))
  }
}
