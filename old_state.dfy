/**
 * `SimpleAnalyzer`, the keyword-counting analyzer the application shows
 * as the "old state": sentiment from two fixed word lists, keywords as the
 * most frequent alphabetic non-stop-words, and a yes/no answer from the
 * share of question words that also occur in the context.
 *
 * Every operation lower-cases the text and splits it on whitespace first.
 */
module OldState {
  import opened Outcomes
  import opened Text
  import opened Counter

  const AnalyzerName := "Simple Keyword-Based"
  const PositiveWords: seq<string> := ["good", "great", "excellent", "amazing", "love", "fantastic", "wonderful"]
  const NegativeWords: seq<string> := ["bad", "terrible", "awful", "hate", "horrible", "worst", "sad"]
  const StopWords: set<string> := {"the", "a", "is", "in", "it", "and", "of", "to", "that", "was", "i", "for", "be"}
  const YesAnswer := "Yes (based on keyword presence)"
  const NoAnswer := "No (keywords not found)"

  /** The lower-cased whitespace tokens of `text`, as every operation sees them. */
  function Tokens(text: string): (r: seq<string>)
    ensures |r| == |Split(text)|
  {
    WordCountLower(text);
    Split(Lower(text))
  }

  // ---------------------------------------------------------------------
  // analyze

  /**
   * The dictionary `analyze` returns. Its `details` sentence is built from
   * the two counts, which are kept here as numbers.
   */
  datatype SimpleAnalysis = SimpleAnalysis(
    analyzer: string,
    wordCount: nat,
    sentiment: string,
    positiveCount: nat,
    negativeCount: nat)

  /** `sum(1 for word in words if word in lexicon)`: at most one per word, and none without a listed word. */
  function CountIn(words: seq<string>, lexicon: seq<string>): (n: nat)
    ensures n <= |words|
    ensures n > 0 ==> exists w :: w in words && w in lexicon
  {
    if words == [] then 0
    else (if words[0] in lexicon then 1 else 0) + CountIn(words[1..], lexicon)
  }

  /**
   * The count is at most the number of words; it is zero exactly when no
   * word is in the lexicon, and full exactly when every word is.
   */
  lemma {:induction false} CountInBounds(words: seq<string>, lexicon: seq<string>)
    ensures CountIn(words, lexicon) <= |words|
    ensures CountIn(words, lexicon) == 0 <==> forall w :: w in words ==> w !in lexicon
    ensures CountIn(words, lexicon) == |words| <==> forall w :: w in words ==> w in lexicon
  {
    if words != [] {
      CountInBounds(words[1..], lexicon);
      assert words == [words[0]] + words[1..];
    }
  }

  /** A word is never counted for two lexicons that share no entry. */
  lemma {:induction false} CountInDisjoint(words: seq<string>, a: seq<string>, b: seq<string>)
    requires forall w :: w in a ==> w !in b
    ensures CountIn(words, a) + CountIn(words, b) <= |words|
  {
    if words != [] {
      CountInDisjoint(words[1..], a, b);
    }
  }

  /** The two word lists share no word. */
  lemma ListsDisjoint()
    ensures forall w :: w in PositiveWords ==> w !in NegativeWords
  {
  }

  /** `SimpleAnalyzer.analyze`. */
  function Analyze(text: string): (r: SimpleAnalysis)
    ensures r.analyzer == AnalyzerName
    ensures r.wordCount == |Split(text)|
    ensures r.positiveCount == CountIn(Tokens(text), PositiveWords)
    ensures r.negativeCount == CountIn(Tokens(text), NegativeWords)
    ensures r.positiveCount + r.negativeCount <= r.wordCount
    ensures r.sentiment == "Positive" <==> r.positiveCount > r.negativeCount
    ensures r.sentiment == "Negative" <==> r.negativeCount > r.positiveCount
    ensures r.sentiment == "Neutral" <==> r.positiveCount == r.negativeCount
  {
    var words := Tokens(text);
    var positive := CountIn(words, PositiveWords);
    var negative := CountIn(words, NegativeWords);
    WordCountLower(text);
    ListsDisjoint();
    CountInDisjoint(words, PositiveWords, NegativeWords);
    var sentiment :=
      if positive > negative then "Positive"
      else if negative > positive then "Negative"
      else "Neutral";
    SimpleAnalysis(AnalyzerName, |words|, sentiment, positive, negative)
  }

  /** A text without any listed word is Neutral, with both counts zero. */
  lemma NoListedWordIsNeutral(text: string)
    requires forall w :: w in Tokens(text) ==> w !in PositiveWords && w !in NegativeWords
    ensures Analyze(text).positiveCount == 0 && Analyze(text).negativeCount == 0
    ensures Analyze(text).sentiment == "Neutral"
  {
    CountInBounds(Tokens(text), PositiveWords);
    CountInBounds(Tokens(text), NegativeWords);
  }

  /** Each operation sees the same tokens in a text and in its lower-cased copy. */
  lemma TokensIgnoreCase(text: string)
    ensures Tokens(Lower(text)) == Tokens(text)
  {
    LowerTwice(text);
  }

  /** The analysis does not depend on letter case. */
  lemma AnalyzeIgnoresCase(text: string)
    ensures Analyze(Lower(text)) == Analyze(text)
  {
    TokensIgnoreCase(text);
    WordCountLower(text);
    WordCountLower(Lower(text));
  }

  // ---------------------------------------------------------------------
  // get_keywords

  /** A token kept for keyword counting: letters only, and not a stop word. */
  predicate Candidate(w: string) {
    IsAlpha(w) && w !in StopWords
  }

  /** `[word for word in words if word.isalpha() and word not in stopwords]`: a sub-list of candidates. */
  function Candidates(words: seq<string>): (r: seq<string>)
    ensures |r| <= |words|
    ensures forall i :: 0 <= i < |r| ==> Candidate(r[i])
  {
    if words == [] then []
    else (if Candidate(words[0]) then [words[0]] else []) + Candidates(words[1..])
  }

  /** The filter keeps exactly the candidate tokens, each as often as it occurs. */
  lemma {:induction false} CandidatesKeep(words: seq<string>)
    ensures forall w :: w in Candidates(words) <==> w in words && Candidate(w)
    ensures forall w :: Candidate(w) ==> Count(Candidates(words), w) == Count(words, w)
  {
    if words != [] {
      CandidatesKeep(words[1..]);
      assert words == [words[0]] + words[1..];
    }
  }

  /** A token of lower-cased text holds no upper-case letter. */
  lemma TokensAreLower(text: string)
    ensures forall w, i :: w in Tokens(text) && 0 <= i < |w| ==> !('A' <= w[i] <= 'Z')
  {
    SplitLower(text);
    forall w, i | w in Tokens(text) && 0 <= i < |w| ensures !('A' <= w[i] <= 'Z') {
      var k :| 0 <= k < |Split(text)| && Tokens(text)[k] == w;
      assert w == Lower(Split(text)[k]);
    }
  }

  /**
   * `SimpleAnalyzer.get_keywords`: the `numKeywords` most frequent
   * candidate tokens, ties in first-seen order, as `Counter.most_common`
   * ranks them.
   */
  function GetKeywords(text: string, numKeywords: int): (r: seq<string>)
    ensures |r| <= numKeywords || r == []
    ensures NoDuplicates(r)
    ensures forall w, i :: w in r && 0 <= i < |w| ==> 'a' <= w[i] <= 'z'
    ensures forall w :: w in r ==> w !in StopWords && w in Tokens(text)
    ensures |r| < numKeywords ==> forall w :: w in Tokens(text) && Candidate(w) ==> w in r
    ensures RankedBy(Candidates(Tokens(text)), r)
    ensures forall w, i :: w in Tokens(text) && Candidate(w) && w !in r && 0 <= i < |r| ==>
      Count(Tokens(text), r[i]) >= Count(Tokens(text), w)
    ensures forall w, i :: w in Candidates(Tokens(text)) && w !in r && 0 <= i < |r| ==>
      Precedes(Candidates(Tokens(text)), r[i], w)
  {
    var r := MostCommon(Candidates(Tokens(text)), numKeywords);
    KeywordsAreCandidates(text, r);
    KeywordsOutrank(text, r, numKeywords);
    r
  }

  /** Words drawn from the candidates are lower-case letters, not stop words, and tokens of the text. */
  lemma KeywordsAreCandidates(text: string, r: seq<string>)
    requires forall w :: w in r ==> w in Candidates(Tokens(text))
    ensures forall w, i :: w in r && 0 <= i < |w| ==> 'a' <= w[i] <= 'z'
    ensures forall w :: w in r ==> w !in StopWords && w in Tokens(text)
  {
    CandidatesKeep(Tokens(text));
    TokensAreLower(text);
  }

  /** Ranking the candidates ranks the text's tokens by their counts in the text. */
  lemma KeywordsOutrank(text: string, r: seq<string>, n: int)
    requires |r| < n ==> forall w :: w in Candidates(Tokens(text)) ==> w in r
    requires forall w, i :: w in Candidates(Tokens(text)) && w !in r && 0 <= i < |r| ==>
      Precedes(Candidates(Tokens(text)), r[i], w)
    ensures |r| < n ==> forall w :: w in Tokens(text) && Candidate(w) ==> w in r
    ensures forall w, i :: w in Tokens(text) && Candidate(w) && w !in r && 0 <= i < |r| ==>
      Count(Tokens(text), r[i]) >= Count(Tokens(text), w)
    ensures forall w, i :: w in Candidates(Tokens(text)) && w !in r && 0 <= i < |r| ==>
      Precedes(Candidates(Tokens(text)), r[i], w)
  {
    var words := Tokens(text);
    var pool := Candidates(words);
    CandidatesKeep(words);
    forall w, i | w in words && Candidate(w) && w !in r && 0 <= i < |r|
      ensures Count(words, r[i]) >= Count(words, w)
    {
      assert Precedes(pool, r[i], w);
    }
  }

  /** The keywords do not depend on letter case. */
  lemma GetKeywordsIgnoresCase(text: string, numKeywords: int)
    ensures GetKeywords(Lower(text), numKeywords) == GetKeywords(text, numKeywords)
  {
    TokensIgnoreCase(text);
  }

  // ---------------------------------------------------------------------
  // answer_question

  /** `set(s.lower().split())`: whitespace-free, lower-case words of `s`. */
  function TokenSet(s: string): (r: set<string>)
    ensures forall w :: w in r ==> IsWord(w) && forall i :: 0 <= i < |w| ==> !('A' <= w[i] <= 'Z')
    ensures |r| <= |Tokens(s)|
  {
    SplitWords(Lower(s));
    TokensAreLower(s);
    SetOfSeqCard(Tokens(s));
    set w | w in Tokens(s)
  }

  /** The set of a list's elements is no larger than the list. */
  lemma {:induction false} SetOfSeqCard(ws: seq<string>)
    ensures |set w | w in ws| <= |ws|
  {
    if ws != [] {
      SetOfSeqCard(ws[1..]);
      assert (set w | w in ws) == (set w | w in ws[1..]) + {ws[0]};
    }
  }

  /** A text has no tokens exactly when it is all whitespace. */
  lemma TokenSetEmpty(s: string)
    ensures TokenSet(s) == {} <==> forall i :: 0 <= i < |s| ==> IsSpace(s[i])
  {
    WordCountLower(s);
    if Tokens(s) != [] {
      assert Tokens(s)[0] in TokenSet(s);
    }
    if Split(s) == [] {
      SplitEmptyIsBlank(s);
    }
    if forall i :: 0 <= i < |s| ==> IsSpace(s[i]) {
      SplitBlank(s);
    }
  }

  /**
   * `SimpleAnalyzer.answer_question`: "Yes" when more than half of the
   * distinct question words occur in the context. A question with no words
   * divides by zero.
   */
  function AnswerQuestion(context: string, question: string): (r: Result<string, Error>)
    ensures r.Err? <==> forall i :: 0 <= i < |question| ==> IsSpace(question[i])
    ensures r.Err? ==> r.error == ZeroDivisionError
    ensures r.Ok? ==> (r.value == YesAnswer <==>
      2 * |TokenSet(question) * TokenSet(context)| > |TokenSet(question)|)
    ensures r.Ok? ==> r.value == YesAnswer || r.value == NoAnswer
  {
    var questionWords := TokenSet(question);
    var contextWords := TokenSet(context);
    var overlap := questionWords * contextWords;
    TokenSetEmpty(question);
    if |questionWords| == 0 then Err(ZeroDivisionError)
    else
      var ratio := (|overlap| as real) / (|questionWords| as real);
      RatioAboveHalf(|overlap|, |questionWords|);
      if ratio > 0.5 then Ok(YesAnswer) else Ok(NoAnswer)
  }

  /** `overlap / total > 0.5` in exact arithmetic. */
  lemma RatioAboveHalf(overlap: nat, total: nat)
    requires total > 0
    ensures (overlap as real) / (total as real) > 0.5 <==> 2 * overlap > total
  {
    var q := total as real;
    var ratio := (overlap as real) / q;
    assert ratio * q == overlap as real;
    ScaleByPositive(ratio, 0.5, q);
    ScaleByPositive(0.5, ratio, q);
  }

  /** Scaling both sides by a positive number keeps their order. */
  lemma ScaleByPositive(a: real, b: real, q: real)
    requires q > 0.0
    ensures a <= b ==> a * q <= b * q
    ensures a < b ==> a * q < b * q
  {
  }

  /** Every question word found in the context: the answer is Yes. */
  lemma AllWordsFoundIsYes(context: string, question: string)
    requires TokenSet(question) != {}
    requires TokenSet(question) <= TokenSet(context)
    ensures AnswerQuestion(context, question) == Ok(YesAnswer)
  {
    assert TokenSet(question) * TokenSet(context) == TokenSet(question);
    TokenSetEmpty(question);
  }

  /** No question word found in the context: the answer is No. */
  lemma NoWordFoundIsNo(context: string, question: string)
    requires TokenSet(question) != {}
    requires TokenSet(question) * TokenSet(context) == {}
    ensures AnswerQuestion(context, question) == Ok(NoAnswer)
  {
    TokenSetEmpty(question);
  }

  /** Adding context never turns a Yes into a No. */
  lemma MoreContextKeepsYes(context: string, more: string, question: string)
    requires TokenSet(context) <= TokenSet(more)
    requires AnswerQuestion(context, question) == Ok(YesAnswer)
    ensures AnswerQuestion(more, question) == Ok(YesAnswer)
  {
    var q := TokenSet(question);
    assert q * TokenSet(context) <= q * TokenSet(more);
    SubsetCard(q * TokenSet(context), q * TokenSet(more));
  }

  /** A subset is no larger than its superset. */
  lemma {:induction false} SubsetCard(a: set<string>, b: set<string>)
    requires a <= b
    ensures |a| <= |b|
    decreases |a|
  {
    if a != {} {
      var x :| x in a;
      SubsetCard(a - {x}, b - {x});
    }
  }

  /** The answer does not depend on letter case. */
  lemma AnswerIgnoresCase(context: string, question: string)
    ensures AnswerQuestion(Lower(context), Lower(question)) == AnswerQuestion(context, question)
  {
    TokensIgnoreCase(context);
    TokensIgnoreCase(question);
    TokenSetEmpty(question);
    TokenSetEmpty(Lower(question));
  }
}
