/**
 * The natural-language helpers: guards around the library's tokenizers,
 * keyword extraction with its stop-word filter and limit, sentiment as a
 * per-token average, the top pick of a trained classifier, question
 * detection, and the three regular-expression scanners that find dates,
 * times and proper names.
 *
 * The `natural` library itself is a parameter: its word and sentence
 * tokenizers, TF-IDF ranking, AFINN sentiment score and Bayes classifier
 * are functions supplied by the caller.
 */
module NlpUtils {
  import opened Wrappers
  import opened Text
  import opened Sequences

  /** A JavaScript argument: a string, or a value of any other type. */
  datatype Input = Str(s: string) | NonString

  /** `!text || typeof text !== 'string'` */
  predicate Rejected(x: Input) {
    x.NonString? || x.s == ""
  }

  /** `tokenize(text)` */
  function Tokenize(x: Input, tokenizer: string -> seq<string>): (r: seq<string>)
    ensures Rejected(x) ==> r == []
    ensures !Rejected(x) ==> r == tokenizer(x.s)
  {
    if Rejected(x) then [] else tokenizer(x.s)
  }

  /** `splitIntoSentences(text)` */
  function SplitIntoSentences(x: Input, splitter: string -> seq<string>): (r: seq<string>)
    ensures Rejected(x) ==> r == []
    ensures !Rejected(x) ==> r == splitter(x.s)
  {
    if Rejected(x) then [] else splitter(x.s)
  }

  // ---------------------------------------------------------------- keywords

  const Stopwords: seq<string> :=
    ["el", "la", "los", "las", "un", "una", "unos", "unas", "y", "o", "a", "ante", "bajo", "con", "de",
     "desde", "en", "entre", "hacia", "hasta", "para", "por", "según", "sin", "sobre", "tras", "que",
     "como", "cuando", "donde", "si", "no", "es", "son", "está", "están"]

  const DefaultKeywordLimit: int := 10

  /** A token worth ranking: longer than two characters and not a stop word. */
  predicate Significant(token: string) {
    |token| > 2 && token !in Stopwords
  }

  datatype Keyword = Keyword(term: string, score: real)

  /** `list.slice(0, end)` for an integer `end`; a negative end counts from the back. */
  function SliceTo<T>(s: seq<T>, end: int): (r: seq<T>)
    ensures |r| <= |s| && r == s[..|r|]
    ensures end >= 0 ==> |r| <= end && (|r| < end ==> r == s)
    ensures end < 0 ==> (|r| == |s| + end || (r == [] && |s| <= -end))
  {
    if end >= 0 then (if end < |s| then s[..end] else s)
    else if |s| + end > 0 then s[..|s| + end] else []
  }

  /**
   * `extractKeywords(text, limit)`: the library's TF-IDF ranking of the
   * significant tokens of the lower-cased text, cut to the first `limit`
   * terms (10 when the argument is absent).
   */
  function ExtractKeywords(x: Input, limit: Option<int>, tokenizer: string -> seq<string>,
                           rank: seq<string> -> seq<Keyword>): (r: seq<Keyword>)
    ensures Rejected(x) ==> r == []
    ensures !Rejected(x) ==>
      var ranked := rank(Filter(tokenizer(Lower(x.s)), Significant));
      |r| <= |ranked| && r == ranked[..|r|] && (|ranked| <= limit.GetOr(DefaultKeywordLimit) ==> r == ranked)
    ensures limit.GetOr(DefaultKeywordLimit) >= 0 ==> |r| <= limit.GetOr(DefaultKeywordLimit)
    ensures limit.None? ==> |r| <= 10
  {
    if Rejected(x) then []
    else
      var tokens := Tokenize(Str(Lower(x.s)), tokenizer);
      SliceTo(rank(Filter(tokens, Significant)), limit.GetOr(DefaultKeywordLimit))
  }

  /** Every token the ranking sees is a significant token of the lower-cased text, and none is dropped. */
  lemma RankedTokensAreSignificant(text: string, tokenizer: string -> seq<string>)
    ensures var tokens := tokenizer(Lower(text)); var kept := Filter(tokens, Significant);
      IsSubsequence(kept, tokens) && forall t :: t in kept <==> t in tokens && |t| > 2 && t !in Stopwords
  {
  }

  // --------------------------------------------------------------- sentiment

  /** `{score, comparative, tokens}`; `tokens` is absent from the answer to a rejected input. */
  datatype SentimentResult = SentimentResult(score: real, comparative: real, tokens: Option<nat>)

  /** `analyzeSentiment(text)`: the library's score and its average over the tokens. */
  function AnalyzeSentiment(x: Input, tokenizer: string -> seq<string>, score: seq<string> -> real): (r: SentimentResult)
    ensures r.tokens.None? <==> Rejected(x)
    ensures Rejected(x) ==> r.score == 0.0 && r.comparative == 0.0
    ensures r.tokens.Some? ==>
      var tokens := tokenizer(Lower(x.s)); r.tokens.value == |tokens| && r.score == score(tokens)
    ensures r.tokens.Some? && r.tokens.value > 0 ==> r.comparative * (r.tokens.value as real) == r.score
    ensures r.tokens == Some(0) ==> r.comparative == 0.0
  {
    if Rejected(x) then SentimentResult(0.0, 0.0, None)
    else
      var tokens := Tokenize(Str(Lower(x.s)), tokenizer);
      var s := score(tokens);
      SentimentResult(s, if |tokens| > 0 then s / (|tokens| as real) else 0.0, Some(|tokens|))
  }

  // ---------------------------------------------------------- classification

  /** A category and its examples; `examples` is absent when it is not an array. */
  datatype Category = Category(name: string, examples: Option<seq<string>>)

  datatype Label = Label(name: string, value: real)

  datatype Classification = Classification(category: Option<string>, confidence: real, allCategories: Option<seq<Label>>)

  /** Category `c` trains the classifier on `doc` = (example, label). */
  predicate Trains(c: Category, doc: (string, string)) {
    c.examples.Some? && doc.0 in c.examples.value && doc.1 == c.name
  }

  function Examples(c: Category): (docs: seq<(string, string)>)
    ensures forall d :: d in docs <==> Trains(c, d)
  {
    if c.examples.None? then []
    else
      var ex := c.examples.value;
      var docs := seq(|ex|, k requires 0 <= k < |ex| => (ex[k], c.name));
      assert forall d :: Trains(c, d) ==> d in docs by {
        forall d | Trains(c, d) ensures d in docs {
          var k :| 0 <= k < |ex| && ex[k] == d.0;
          assert docs[k] == d;
        }
      }
      docs
  }

  /** The `addDocument` calls, in order: every example of every category that has examples, labelled with its category. */
  function TrainingDocuments(categories: seq<Category>): (docs: seq<(string, string)>)
    ensures forall d :: d in docs <==> exists i :: 0 <= i < |categories| && Trains(categories[i], d)
    decreases |categories|
  {
    if categories == [] then []
    else
      var rest := TrainingDocuments(categories[1..]);
      assert forall d :: (exists i :: 0 <= i < |categories| && Trains(categories[i], d)) <==>
                         Trains(categories[0], d) || exists i :: 0 <= i < |categories[1..]| && Trains(categories[1..][i], d) by {
        forall d | exists i :: 0 <= i < |categories| && Trains(categories[i], d)
          ensures Trains(categories[0], d) || exists i :: 0 <= i < |categories[1..]| && Trains(categories[1..][i], d)
        {
          var i :| 0 <= i < |categories| && Trains(categories[i], d);
          if i > 0 {
            assert Trains(categories[1..][i - 1], d);
          }
        }
      }
      Examples(categories[0]) + rest
  }

  /**
   * `classifyText(text, categories)`: a classifier trained on the examples
   * classifies the text; its first classification is the answer.
   */
  function ClassifyText(x: Input, categories: Option<seq<Category>>,
                        classify: (seq<(string, string)>, string) -> seq<Label>): (r: Classification)
    ensures Rejected(x) || categories.None? ==> r == Classification(None, 0.0, None)
    ensures r.allCategories.Some? ==>
      (!Rejected(x) && categories.Some? && r.allCategories.value == classify(TrainingDocuments(categories.value), x.s))
    ensures r.allCategories.Some? ==> var all := r.allCategories.value;
      (r.category.Some? <==> all != []) && (all != [] ==> r.category.value == all[0].name && r.confidence == all[0].value)
      && (all == [] ==> r.confidence == 0.0)
  {
    if Rejected(x) || categories.None? then Classification(None, 0.0, None)
    else
      var all := classify(TrainingDocuments(categories.value), x.s);
      if all == [] then Classification(None, 0.0, Some(all))
      else Classification(Some(all[0].name), all[0].value, Some(all))
  }

  // --------------------------------------------------------------- questions

  const Interrogatives: seq<string> :=
    ["qué", "quién", "quiénes", "cuál", "cuáles", "cómo", "dónde", "cuándo", "cuánto", "cuánta",
     "cuántos", "cuántas", "por qué"]

  /** A lower-cased sentence opening with an interrogative word and a space, or with `¿` and the word. */
  predicate OpensWithInterrogative(lower: string) {
    exists i :: 0 <= i < |Interrogatives| &&
      (StartsWith(lower, Interrogatives[i] + " ") || StartsWith(lower, "¿" + Interrogatives[i]))
  }

  predicate IsQuestion(sentence: string) {
    Contains(sentence, "?") || OpensWithInterrogative(Lower(sentence))
  }

  /** `findQuestions(text)`: the sentences that are questions, in order. */
  function FindQuestions(x: Input, splitter: string -> seq<string>): (r: seq<string>)
    ensures Rejected(x) ==> r == []
    ensures !Rejected(x) ==> IsSubsequence(r, splitter(x.s))
    ensures !Rejected(x) ==> forall q :: q in r <==> q in splitter(x.s) && IsQuestion(q)
  {
    Filter(SplitIntoSentences(x, splitter), IsQuestion)
  }

  /** Every sentence holding a question mark, wherever it stands, is reported. */
  lemma QuestionMarkSuffices(x: Input, splitter: string -> seq<string>, q: string, i: nat)
    requires !Rejected(x) && q in splitter(x.s) && i < |q| && q[i] == '?'
    ensures q in FindQuestions(x, splitter)
  {
    assert OccursAt(q, "?", i);
    ContainsIffOccurs(q, "?");
  }

  // ---------------------------------------------------------------- entities

  datatype Kind = Date | Time | Person

  datatype Entity = Entity(kind: Kind, text: string, position: nat)

  /** The order in which the three scans append their entities. */
  function KindRank(k: Kind): nat {
    match k
    case Date => 0
    case Time => 1
    case Person => 2
  }

  /** `s[i..i + n]` lies in `s` and is all digits. */
  predicate Digits(s: string, i: int, n: int) {
    forall k :: i <= k < i + n ==> DigitAt(s, k)
  }

  predicate CharAt(s: string, i: int, c: char) {
    0 <= i < |s| && s[i] == c
  }

  /** Length of the match of `/(\d{1,2})[\/\-](\d{1,2})[\/\-](\d{2,4})/` starting at `p`; 0 for none. */
  function DateLen(s: string, p: nat): (n: nat)
    ensures n > 0 ==> p + n <= |s|
  {
    var a := DigitRun(s, p, 2);
    var b := DigitRun(s, p + a + 1, 2);
    var c := DigitRun(s, p + a + b + 2, 4);
    if a >= 1 && SepAt(s, p + a) && b >= 1 && SepAt(s, p + a + 1 + b) && c >= 2 then
      assert DigitAt(s, p + a + b + 2 + c - 1);
      a + b + c + 2
    else 0
  }

  /** The groups of the date pattern, `a`, `b` and the rest digits wide, spell `s[p..p + m]`. */
  predicate DateGroups(s: string, p: nat, m: nat, a: nat, b: nat) {
    && 1 <= a <= 2 && 1 <= b <= 2 && 2 <= m - a - b - 2 <= 4
    && Digits(s, p, a) && SepAt(s, p + a)
    && Digits(s, p + a + 1, b) && SepAt(s, p + a + 1 + b)
    && Digits(s, p + a + b + 2, m - a - b - 2)
  }

  /** The date pattern, read without its greed, matches `s[p..p + m]`. */
  ghost predicate DateSpan(s: string, p: nat, m: nat) {
    exists a: nat, b: nat :: DateGroups(s, p, m, a, b)
  }

  /** The greedy digit run covers every digit group it could stop at. */
  lemma RunCovers(s: string, i: nat, w: nat, cap: nat)
    requires w <= cap && Digits(s, i, w)
    ensures DigitRun(s, i, cap) >= w
  {
    var n := DigitRun(s, i, cap);
  }

  /** A digit group cut short by a separator has exactly the width of its digit run. */
  lemma GroupWidth(s: string, i: nat, w: nat, cap: nat)
    requires 1 <= w <= cap && Digits(s, i, w) && (w == cap || !DigitAt(s, i + w))
    ensures DigitRun(s, i, cap) == w
  {
    RunCovers(s, i, w, cap);
  }

  /** The date scanner's match at `p`, when there is one, is a span the pattern fits. */
  lemma DateMatchFits(s: string, p: nat)
    ensures DateLen(s, p) > 0 ==> DateSpan(s, p, DateLen(s, p))
  {
    var a := DigitRun(s, p, 2);
    var b := DigitRun(s, p + a + 1, 2);
    if DateLen(s, p) > 0 {
      assert DateGroups(s, p, DateLen(s, p), a, b);
    }
  }

  /** The date scanner matches at `p` whenever some span fits the pattern there, and its match is the longest. */
  lemma DateMatchIsLongest(s: string, p: nat, m: nat)
    requires DateSpan(s, p, m)
    ensures 0 < m <= DateLen(s, p)
  {
    var a: nat, b: nat :| DateGroups(s, p, m, a, b);
    GroupWidth(s, p, a, 2);
    GroupWidth(s, p + a + 1, b, 2);
    RunCovers(s, p + a + b + 2, m - a - b - 2, 4);
    DateLenFromGroups(s, p, a, b);
  }

  /** The date scanner's length once its first two groups are known. */
  lemma DateLenFromGroups(s: string, p: nat, a: nat, b: nat)
    requires 1 <= a == DigitRun(s, p, 2) && SepAt(s, p + a)
    requires 1 <= b == DigitRun(s, p + a + 1, 2) && SepAt(s, p + a + 1 + b)
    requires DigitRun(s, p + a + b + 2, 4) >= 2
    ensures DateLen(s, p) == a + b + DigitRun(s, p + a + b + 2, 4) + 2
  {
  }

  /** `AM`, `PM`, `am` or `pm` at `i`. */
  predicate Meridiem(s: string, i: int) {
    && 0 <= i && i + 2 <= |s|
    && (((s[i] == 'A' || s[i] == 'P') && s[i + 1] == 'M') || ((s[i] == 'a' || s[i] == 'p') && s[i + 1] == 'm'))
  }

  /** Length of the match of `/(\d{1,2}):(\d{2})(?:\s*(?:AM|PM|am|pm))?/` starting at `p`; 0 for none. */
  function TimeLen(s: string, p: nat): (n: nat)
    ensures n > 0 ==> p + n <= |s|
  {
    var a := DigitRun(s, p, 2);
    if a >= 1 && CharAt(s, p + a, ':') && DigitRun(s, p + a + 1, 2) == 2 then
      assert DigitAt(s, p + a + 2);
      var k := SpaceRun(s, p + a + 3);
      if Meridiem(s, p + a + 3 + k) then a + 3 + k + 2 else a + 3
    else 0
  }

  /** `s[i..i + n]` lies in `s` and is all whitespace. */
  predicate Spaces(s: string, i: int, n: int) {
    forall k :: i <= k < i + n ==> 0 <= k < |s| && IsSpace(s[k])
  }

  /** The groups of the time pattern, the hours `a` digits wide, spell `s[p..p + m]`. */
  predicate TimeGroups(s: string, p: nat, m: nat, a: nat) {
    && 1 <= a <= 2 && Digits(s, p, a) && CharAt(s, p + a, ':') && Digits(s, p + a + 1, 2)
    && (m == a + 3 || (m >= a + 5 && Spaces(s, p + a + 3, m - a - 5) && Meridiem(s, p + m - 2)))
  }

  ghost predicate TimeSpan(s: string, p: nat, m: nat) {
    exists a: nat :: TimeGroups(s, p, m, a)
  }

  /** The time scanner's match at `p`, when there is one, is a span the pattern fits. */
  lemma TimeMatchFits(s: string, p: nat)
    ensures TimeLen(s, p) > 0 ==> TimeSpan(s, p, TimeLen(s, p))
  {
    var a := DigitRun(s, p, 2);
    if TimeLen(s, p) > 0 {
      assert TimeGroups(s, p, TimeLen(s, p), a);
    }
  }

  /** The time scanner matches at `p` whenever some span fits the pattern there, and its match is the longest. */
  lemma TimeMatchIsLongest(s: string, p: nat, m: nat)
    requires TimeSpan(s, p, m)
    ensures 0 < m <= TimeLen(s, p)
  {
    var a: nat :| TimeGroups(s, p, m, a);
    TimeGroupsAreGreedy(s, p, m, a);
    TimeLenFromGroups(s, p, a);
  }

  /** Each group of a fitting time span is as wide as the greedy run the scanner reads there. */
  lemma TimeGroupsAreGreedy(s: string, p: nat, m: nat, a: nat)
    requires TimeGroups(s, p, m, a)
    ensures a == DigitRun(s, p, 2) && DigitRun(s, p + a + 1, 2) == 2
    ensures m > a + 3 ==> m == a + 5 + SpaceRun(s, p + a + 3) && Meridiem(s, p + a + 3 + SpaceRun(s, p + a + 3))
  {
    GroupWidth(s, p, a, 2);
    GroupWidth(s, p + a + 1, 2, 2);
    if m > a + 3 {
      var k := m - a - 5;
      SpacesBeforeMeridiem(s, p + a + 3, k);
      assert p + m - 2 == p + a + 3 + k;
    }
  }

  /** The whitespace the pattern lets stand before a meridiem is all the whitespace there is. */
  lemma SpacesBeforeMeridiem(s: string, i: nat, n: nat)
    requires Spaces(s, i, n) && Meridiem(s, i + n)
    ensures SpaceRun(s, i) == n
  {
    var k := SpaceRun(s, i);
  }

  /** The time scanner's length once its hours group is known. */
  lemma TimeLenFromGroups(s: string, p: nat, a: nat)
    requires 1 <= a == DigitRun(s, p, 2) && CharAt(s, p + a, ':') && DigitRun(s, p + a + 1, 2) == 2
    ensures Meridiem(s, p + a + 3 + SpaceRun(s, p + a + 3)) ==> TimeLen(s, p) == a + 5 + SpaceRun(s, p + a + 3)
    ensures !Meridiem(s, p + a + 3 + SpaceRun(s, p + a + 3)) ==> TimeLen(s, p) == a + 3
  {
  }

  /** `\w` without the `u` flag: the ASCII letters and digits and `_`. */
  predicate IsWordChar(c: char) {
    'A' <= c <= 'Z' || 'a' <= c <= 'z' || IsDigit(c) || c == '_'
  }

  /** `[a-zñáéíóú]` */
  predicate IsNameTail(c: char) {
    'a' <= c <= 'z' || c == 'ñ' || c == 'á' || c == 'é' || c == 'í' || c == 'ó' || c == 'ú'
  }

  /**
   * A word character at `i`. With `spanish` the accented tail letters count
   * as word characters too, as a name boundary evidently means them to.
   */
  predicate WordAt(s: string, i: int, spanish: bool) {
    0 <= i < |s| && (IsWordChar(s[i]) || (spanish && IsNameTail(s[i])))
  }

  /** `\b` at position `i`: a word character on exactly one side. */
  predicate Boundary(s: string, i: int, spanish: bool) {
    WordAt(s, i - 1, spanish) != WordAt(s, i, spanish)
  }

  predicate TailAt(s: string, i: int) {
    0 <= i < |s| && IsNameTail(s[i])
  }

  /** Number of `[a-zñáéíóú]` characters from `i`: how far the greedy `+` reaches. */
  function TailRun(s: string, i: nat): (n: nat)
    ensures forall k :: i <= k < i + n ==> TailAt(s, k)
    ensures !TailAt(s, i + n)
    decreases |s| - i
  {
    if TailAt(s, i) then 1 + TailRun(s, i + 1) else 0
  }

  /** The `+` giving back letters until `\b` holds: the largest `k <= n`, at least 1, with a boundary after `k` letters; 0 if none. */
  function TailEnd(s: string, p: nat, n: nat, spanish: bool): (k: nat)
    ensures k <= n
    ensures k > 0 ==> Boundary(s, p + 1 + k, spanish)
    ensures forall e :: p + 1 + k < e <= p + 1 + n ==> !Boundary(s, e, spanish)
    decreases n
  {
    if n == 0 then 0
    else if Boundary(s, p + 1 + n, spanish) then n
    else TailEnd(s, p, n - 1, spanish)
  }

  /** Length of the match of `/\b[A-Z][a-zñáéíóú]+\b/` starting at `p`; 0 for none. */
  function NameLenWith(s: string, p: nat, spanish: bool): (n: nat)
    ensures n > 0 ==> p + n <= |s|
  {
    if p < |s| && IsUpperAscii(s[p]) && Boundary(s, p, spanish) then
      var k := TailEnd(s, p, TailRun(s, p + 1), spanish);
      if k > 0 then
        assert TailAt(s, p + k);
        k + 1
      else 0
    else 0
  }

  /** The name pattern as written, whose `\b` does not know `ñ`, `á`, `é`, `í`, `ó` or `ú`. */
  function NameLen(s: string, p: nat): nat {
    NameLenWith(s, p, false)
  }

  /** The name pattern with a boundary that counts the accented letters as letters. */
  function NameLenIntended(s: string, p: nat): nat {
    NameLenWith(s, p, true)
  }

  /** The name pattern, read without its greed, matches `s[p..p + m]`. */
  predicate NameSpan(s: string, p: nat, m: nat, spanish: bool) {
    && m >= 2 && p + m <= |s| && Boundary(s, p, spanish) && IsUpperAscii(s[p])
    && (forall k :: p < k < p + m ==> TailAt(s, k))
    && Boundary(s, p + m, spanish)
  }

  /** The name scanner's match at `p` is the longest span the pattern fits there, and it fits whenever some span does. */
  lemma NameMatchIsLongest(s: string, p: nat, m: nat, spanish: bool)
    ensures NameLenWith(s, p, spanish) > 0 ==> NameSpan(s, p, NameLenWith(s, p, spanish), spanish)
    ensures NameSpan(s, p, m, spanish) ==> 0 < m <= NameLenWith(s, p, spanish)
  {
    if NameSpan(s, p, m, spanish) {
      var run := TailRun(s, p + 1);
    }
  }

  /** With the intended boundary a name never stops in the middle of its letters. */
  lemma IntendedNameTakesAllLetters(s: string, p: nat)
    ensures NameLenIntended(s, p) > 0 ==> !TailAt(s, p + NameLenIntended(s, p))
  {
    var run := TailRun(s, p + 1);
    var k := TailEnd(s, p, run, true);
    var n := NameLenIntended(s, p);
    if n > 0 {
      assert n == k + 1;
      assert 0 < k ==> TailAt(s, p + k) && WordAt(s, p + k, true);
      assert k < run ==> TailAt(s, p + 1 + k) && WordAt(s, p + 1 + k, true);
    }
  }

  /** As written, "José" after a space is found as "Jos": the `\b` falls before the `é`. */
  lemma AccentedNameIsCut()
    ensures NameLen("Con José", 4) == 3
    ensures NameLenIntended("Con José", 4) == 4
  {
    var s := "Con José";
    assert TailRun(s, 8) == 0;
    assert TailRun(s, 5) == 3;
    assert !Boundary(s, 8, false) && Boundary(s, 7, false);
    assert Boundary(s, 8, true);
  }

  /** The length of the match of the pattern for `kind` at `p`; names use the boundary as written. */
  function MatchLen(kind: Kind, s: string, p: nat): (n: nat)
    ensures n > 0 ==> p + n <= |s|
  {
    match kind
    case Date => DateLen(s, p)
    case Time => TimeLen(s, p)
    case Person => NameLen(s, p)
  }

  /** A stretch of the text: where a match starts and how long it is. */
  datatype Span = Span(start: nat, len: nat)

  function End(m: Span): nat {
    m.start + m.len
  }

  /** A matcher for `s`: the length of the match at each position, 0 for none; a match lies inside `s`. */
  ghost predicate Fits(s: string, len: nat -> nat) {
    forall q: nat :: len(q) > 0 ==> q + len(q) <= |s|
  }

  /** The matcher of the pattern for `kind`. */
  function Matcher(kind: Kind, s: string): (len: nat -> nat)
    ensures Fits(s, len)
    ensures forall q: nat :: len(q) == MatchLen(kind, s, q)
  {
    q => MatchLen(kind, s, q)
  }

  /** The stretches lie in `s` from `p` on, none empty, each starting at or after the end of the one before. */
  predicate Ordered(s: string, p: nat, r: seq<Span>) {
    && (forall i :: 0 <= i < |r| ==> p <= r[i].start && 0 < r[i].len && End(r[i]) <= |s|)
    && (forall i, j :: 0 <= i < j < |r| ==> End(r[i]) <= r[j].start)
  }

  /**
   * `while ((match = regex.exec(text)) !== null)` for a global regex whose
   * matches `len` gives, from `lastIndex = p`: each search starts where the
   * previous match ended.
   */
  function Scan(s: string, len: nat -> nat, p: nat): (r: seq<Span>)
    requires Fits(s, len)
    ensures Ordered(s, p, r)
    decreases |s| - p
  {
    if p >= |s| then []
    else if len(p) > 0 then
      var rest := Scan(s, len, p + len(p));
      assert forall i :: 0 < i < |[Span(p, len(p))] + rest| ==> ([Span(p, len(p))] + rest)[i] == rest[i - 1];
      [Span(p, len(p))] + rest
    else Scan(s, len, p + 1)
  }

  /** Each stretch a scan reports is a whole match: its length is the match length at its start. */
  lemma {:induction false} ScanReportsMatches(s: string, len: nat -> nat, p: nat, i: nat)
    requires Fits(s, len) && i < |Scan(s, len, p)|
    ensures Scan(s, len, p)[i].len == len(Scan(s, len, p)[i].start)
    decreases |s| - p
  {
    if len(p) > 0 {
      var rest := Scan(s, len, p + len(p));
      assert Scan(s, len, p) == [Span(p, len(p))] + rest;
      if i > 0 {
        ScanReportsMatches(s, len, p + len(p), i - 1);
      }
    } else {
      ScanReportsMatches(s, len, p + 1, i);
    }
  }

  /** Some stretch of `r` spans position `q`. */
  predicate Covered(r: seq<Span>, q: int) {
    exists i :: 0 <= i < |r| && r[i].start <= q < End(r[i])
  }

  /** No match is missed: every position from `p` where a match starts lies inside a reported stretch. */
  lemma {:induction false} ScanFindsEveryMatch(s: string, len: nat -> nat, p: nat, q: nat)
    requires Fits(s, len) && p <= q < |s| && len(q) > 0
    ensures Covered(Scan(s, len, p), q)
    decreases |s| - p
  {
    if len(p) > 0 {
      var rest := Scan(s, len, p + len(p));
      assert Scan(s, len, p) == [Span(p, len(p))] + rest;
      if p + len(p) <= q {
        ScanFindsEveryMatch(s, len, p + len(p), q);
      }
      CoveredCons(Span(p, len(p)), rest, q);
    } else {
      ScanFindsEveryMatch(s, len, p + 1, q);
    }
  }

  /** A stretch put in front keeps what was covered and adds what it covers itself. */
  lemma CoveredCons(x: Span, rest: seq<Span>, q: int)
    ensures Covered([x] + rest, q) <==> (x.start <= q < End(x)) || Covered(rest, q)
  {
    var r := [x] + rest;
    if Covered(rest, q) {
      var i :| 0 <= i < |rest| && rest[i].start <= q < End(rest[i]);
      assert r[i + 1] == rest[i];
    }
    if Covered(r, q) && !(x.start <= q < End(x)) {
      var i :| 0 <= i < |r| && r[i].start <= q < End(r[i]);
      assert rest[i - 1] == r[i];
    }
    if x.start <= q < End(x) {
      assert r[0] == x;
    }
  }

  /** Entity `e` is a match of its kind's pattern at its position, and its text is that match. */
  predicate Matched(s: string, e: Entity) {
    e.text != [] && |e.text| == MatchLen(e.kind, s, e.position) && OccursAt(s, e.text, e.position)
  }

  /** Every entity has kind `k`. */
  predicate AllOf(r: seq<Entity>, k: Kind) {
    forall e :: e in r ==> e.kind == k
  }

  /** Each entity ends at or before the start of every later one. */
  predicate Disjoint(r: seq<Entity>) {
    forall i, j :: 0 <= i < j < |r| ==> r[i].position + |r[i].text| <= r[j].position
  }

  /** The entity for each stretch: its text is the stretch of `s`. */
  function Entities(kind: Kind, s: string, spans: seq<Span>): (r: seq<Entity>)
    requires forall i :: 0 <= i < |spans| ==> spans[i].start + spans[i].len <= |s|
    ensures |r| == |spans| && AllOf(r, kind)
    ensures forall i :: 0 <= i < |r| ==>
      (r[i].position == spans[i].start && |r[i].text| == spans[i].len && OccursAt(s, r[i].text, r[i].position))
  {
    seq(|spans|, i requires 0 <= i < |spans| => Entity(kind, s[spans[i].start..spans[i].start + spans[i].len], spans[i].start))
  }

  /** `{type, text: match[0], position: match.index}` for every match of the pattern for `kind`, in order. */
  function ScanAll(kind: Kind, s: string): (r: seq<Entity>)
    ensures AllOf(r, kind)
  {
    Entities(kind, s, Scan(s, Matcher(kind, s), 0))
  }

  /** Each entity of a scan is a match of the pattern at its position. */
  lemma ScanAllMatched(kind: Kind, s: string)
    ensures forall e :: e in ScanAll(kind, s) ==> Matched(s, e)
  {
    var len := Matcher(kind, s);
    var spans := Scan(s, len, 0);
    var r := ScanAll(kind, s);
    forall e | e in r ensures Matched(s, e) {
      var i :| 0 <= i < |r| && r[i] == e;
      ScanReportsMatches(s, len, 0, i);
    }
  }

  lemma ScanAllDisjoint(kind: Kind, s: string)
    ensures Disjoint(ScanAll(kind, s))
  {
    var spans := Scan(s, Matcher(kind, s), 0);
    var r := ScanAll(kind, s);
    forall i, j | 0 <= i < j < |r| ensures r[i].position + |r[i].text| <= r[j].position {
      assert End(spans[i]) <= spans[j].start;
    }
  }

  /** A scan misses no match: every position where the pattern matches lies inside some entity. */
  lemma ScanAllComplete(kind: Kind, s: string, q: nat)
    requires q < |s| && MatchLen(kind, s, q) > 0
    ensures exists i :: 0 <= i < |ScanAll(kind, s)| && ScanAll(kind, s)[i].position <= q < ScanAll(kind, s)[i].position + |ScanAll(kind, s)[i].text|
  {
    var len := Matcher(kind, s);
    var spans := Scan(s, len, 0);
    var r := ScanAll(kind, s);
    assert len(q) > 0;
    ScanFindsEveryMatch(s, len, 0, q);
    var i :| 0 <= i < |spans| && spans[i].start <= q < End(spans[i]);
    assert r[i].position <= q < r[i].position + |r[i].text|;
  }

  /** The first character of a sentence, or the word after `". "`, is taken for a capital and not a name. */
  predicate Skipped(s: string, i: int) {
    i == 0 || (2 <= i < |s| + 2 && s[i - 2] == '.')
  }

  /** The name matches the scan keeps: those not skipped by the `continue`. */
  function People(s: string): (r: seq<Entity>)
    ensures AllOf(r, Person) && Disjoint(r)
    ensures forall e :: e in r <==> e in ScanAll(Person, s) && !Skipped(s, e.position)
  {
    var names := ScanAll(Person, s);
    var keep := (e: Entity) => !Skipped(s, e.position);
    ScanAllDisjoint(Person, s);
    FilterKeepsPairs(names, keep, (a: Entity, b: Entity) => a.position + |a.text| <= b.position);
    Filter(names, keep)
  }

  /** `findNamedEntities(text)`: the dates, then the times, then the names that do not open a sentence. */
  function FindNamedEntities(x: Input): (r: seq<Entity>)
    ensures Rejected(x) ==> r == []
    ensures !Rejected(x) ==> forall e :: e in r <==>
              || e in ScanAll(Date, x.s) || e in ScanAll(Time, x.s)
              || (e in ScanAll(Person, x.s) && !Skipped(x.s, e.position))
  {
    if Rejected(x) then []
    else ScanAll(Date, x.s) + ScanAll(Time, x.s) + People(x.s)
  }

  /** Every reported entity is a match of its kind's pattern, its text the matched stretch of the input. */
  lemma EntitiesAreMatches(x: Input)
    ensures forall e :: e in FindNamedEntities(x) ==> !Rejected(x) && Matched(x.s, e)
    ensures forall e :: e in FindNamedEntities(x) && e.kind == Person ==> !Skipped(x.s, e.position)
  {
    if !Rejected(x) {
      var d, t, p := ScanAll(Date, x.s), ScanAll(Time, x.s), People(x.s);
      ScanAllMatched(Date, x.s);
      ScanAllMatched(Time, x.s);
      ScanAllMatched(Person, x.s);
      assert forall e :: e in d + t + p <==> e in d || e in t || e in p;
    }
  }

  /** Three lists of one kind each, each in text order without overlaps, concatenated in kind order. */
  lemma ConcatByKind(d: seq<Entity>, t: seq<Entity>, p: seq<Entity>)
    requires AllOf(d, Date) && AllOf(t, Time) && AllOf(p, Person)
    requires Disjoint(d) && Disjoint(t) && Disjoint(p)
    ensures var r := d + t + p;
      forall i, j :: 0 <= i < j < |r| ==>
        (KindRank(r[i].kind) <= KindRank(r[j].kind) && (r[i].kind == r[j].kind ==> r[i].position + |r[i].text| <= r[j].position))
  {
    var r := d + t + p;
    forall i, j | 0 <= i < j < |r|
      ensures KindRank(r[i].kind) <= KindRank(r[j].kind)
      ensures r[i].kind == r[j].kind ==> r[i].position + |r[i].text| <= r[j].position
    {
      if j < |d| {
        assert r[i] == d[i] && r[j] == d[j];
      } else if j < |d| + |t| {
        assert r[j] == t[j - |d|] && r[j] in t;
        if i >= |d| {
          assert r[i] == t[i - |d|];
        } else {
          assert r[i] == d[i] && r[i] in d;
        }
      } else {
        assert r[j] == p[j - |d| - |t|] && r[j] in p;
        if i >= |d| + |t| {
          assert r[i] == p[i - |d| - |t|];
        } else if i >= |d| {
          assert r[i] == t[i - |d|] && r[i] in t;
        } else {
          assert r[i] == d[i] && r[i] in d;
        }
      }
    }
  }

  /** All dates come before all times, which come before all names; within a kind, entities are in text order and do not overlap. */
  lemma EntitiesOrdered(x: Input)
    ensures var r := FindNamedEntities(x);
      forall i, j :: 0 <= i < j < |r| ==>
        (KindRank(r[i].kind) <= KindRank(r[j].kind) && (r[i].kind == r[j].kind ==> r[i].position + |r[i].text| <= r[j].position))
  {
    if !Rejected(x) {
      ScanAllDisjoint(Date, x.s);
      ScanAllDisjoint(Time, x.s);
      ConcatByKind(ScanAll(Date, x.s), ScanAll(Time, x.s), People(x.s));
    }
  }

  /** Every date in the text is reported, inside a date entity. */
  lemma EntitiesFindEveryDate(text: string, q: nat)
    requires text != [] && q < |text| && DateLen(text, q) > 0
    ensures exists e :: e in FindNamedEntities(Str(text)) && e.kind == Date && e.position <= q < e.position + |e.text|
  {
    var d, t, p := ScanAll(Date, text), ScanAll(Time, text), People(text);
    assert MatchLen(Date, text, q) > 0;
    ScanAllComplete(Date, text, q);
    var i :| 0 <= i < |d| && d[i].position <= q < d[i].position + |d[i].text|;
    assert d[i] in d && d[i] in d + t + p;
  }

  /** Every time in the text is reported, inside a time entity. */
  lemma EntitiesFindEveryTime(text: string, q: nat)
    requires text != [] && q < |text| && TimeLen(text, q) > 0
    ensures exists e :: e in FindNamedEntities(Str(text)) && e.kind == Time && e.position <= q < e.position + |e.text|
  {
    var d, t, p := ScanAll(Date, text), ScanAll(Time, text), People(text);
    assert MatchLen(Time, text, q) > 0;
    ScanAllComplete(Time, text, q);
    var i :| 0 <= i < |t| && t[i].position <= q < t[i].position + |t[i].text|;
    assert t[i] in t && t[i] in d + t + p;
  }
}
