/**
 * The chunk-and-aggregate core of `QuantumLeapAnalyzer`: the text is cut
 * into groups of at most `chunk_size` whitespace tokens, each pretrained
 * model runs on every chunk, and the per-chunk outputs are combined.
 *
 * The models themselves (sentiment classifier, summariser, question
 * answerer, keyphrase extractor, entity recogniser) are parameters: total
 * functions whose results the model does not interpret. A question
 * answerer call that raises is a `None` result.
 */
module QuantumLeap {
  import opened Outcomes
  import opened Text
  import opened Counter

  const DefaultChunkSize: int := 350
  const EntityChunkSize: int := 400

  /** Chunks with at most this many words are not summarised. */
  const MinChunkWords: nat := 40
  /** Combined chunk summaries with at most this many words are not summarised again. */
  const MinCombinedWords: nat := 50

  /** `max_length` / `min_length` handed to the summariser on the first and second pass. */
  const ChunkSummaryMax: nat := 100
  const ChunkSummaryMin: nat := 20
  const FinalSummaryMax: nat := 150
  const FinalSummaryMin: nat := 40

  const TooShort := "Text is too short or too fragmented to summarize effectively."
  const NoAnswer := "Could not determine an answer from the provided text."

  // ---------------------------------------------------------------------
  // Chunking

  /** The slices `words[i:i + size]` for `i` from `start` in steps of `size`; the last holds what is left. */
  function GroupFrom(words: seq<string>, start: nat, size: nat): (r: seq<seq<string>>)
    requires size > 0 && start <= |words|
    ensures |r| <= |words| - start
    ensures r == [] <==> start == |words|
    decreases |words| - start
  {
    if start == |words| then []
    else
      var next := if start + size < |words| then start + size else |words|;
      [words[start..next]] + GroupFrom(words, next, size)
  }

  /** Consecutive groups of `size` words; the last group holds what is left. */
  function Group(words: seq<string>, size: nat): seq<seq<string>>
    requires size > 0
  {
    GroupFrom(words, 0, size)
  }

  /**
   * What `_chunk_text(text, size)` returns: each group of words joined by
   * single spaces. A negative size makes the stepped range empty.
   */
  function Chunks(text: string, size: int): (r: seq<string>)
    requires size != 0
    ensures |r| <= |Split(text)|
    ensures size > 0 ==> (r == [] <==> Split(text) == [])
  {
    if size < 0 then [] else JoinEach(Group(Split(text), size))
  }

  /** Each group of words joined by single spaces. */
  function JoinEach(groups: seq<seq<string>>): seq<string> {
    seq(|groups|, k requires 0 <= k < |groups| => Join(groups[k]))
  }

  /** Joining one more group adds one more chunk at the end. */
  lemma JoinEachSnoc(groups: seq<seq<string>>, group: seq<string>)
    ensures JoinEach(groups + [group]) == JoinEach(groups) + [Join(group)]
  {
    assert forall k :: 0 <= k < |groups| ==> (groups + [group])[k] == groups[k];
  }

  /** `len(s.split())`. */
  function WordCount(s: string): nat {
    |Split(s)|
  }

  /** The concatenation of a list of word lists. */
  function Concat(lists: seq<seq<string>>): seq<string> {
    if lists == [] then [] else lists[0] + Concat(lists[1..])
  }

  /** The tokens of each chunk. */
  function WordLists(chunks: seq<string>): seq<seq<string>> {
    seq(|chunks|, k requires 0 <= k < |chunks| => Split(chunks[k]))
  }

  /**
   * `_chunk_text`. The source steps `i` through `range(0, len(words), size)`;
   * advancing to `min(i + size, len(words))` visits the same indices inside
   * the list. A size of 0 makes `range` raise, so callers never pass it.
   */
  method ChunkText(text: string, chunkSize: int) returns (chunks: seq<string>)
    requires chunkSize != 0
    ensures chunks == Chunks(text, chunkSize)
  {
    var words := Split(text);
    chunks := [];
    if chunkSize > 0 {
      ghost var groups: seq<seq<string>> := [];
      var i := 0;
      while i < |words|
        invariant 0 <= i <= |words|
        invariant Group(words, chunkSize) == groups + GroupFrom(words, i, chunkSize)
        invariant chunks == JoinEach(groups)
      {
        var next := if i + chunkSize < |words| then i + chunkSize else |words|;
        var group := words[i..next];
        GroupFromStep(words, i, chunkSize);
        JoinEachSnoc(groups, group);
        chunks := chunks + [Join(group)];
        groups := groups + [group];
        i := next;
      }
    }
  }

  /** One step of the stepped range: the slice at `start`, then the groups from the next index. */
  lemma GroupFromStep(words: seq<string>, start: nat, size: nat)
    requires size > 0 && start < |words|
    ensures var next := if start + size < |words| then start + size else |words|;
      forall groups: seq<seq<string>> {:trigger groups + GroupFrom(words, start, size)} ::
        groups + GroupFrom(words, start, size) == (groups + [words[start..next]]) + GroupFrom(words, next, size)
  {
  }

  lemma {:induction false} GroupConcat(words: seq<string>, start: nat, size: nat)
    requires size > 0 && start <= |words|
    ensures Concat(GroupFrom(words, start, size)) == words[start..]
    decreases |words| - start
  {
    if start < |words| {
      var next := if start + size < |words| then start + size else |words|;
      GroupConcat(words, next, size);
      assert words[start..] == words[start..next] + words[next..];
    }
  }

  lemma {:induction false} ConcatMember(lists: seq<seq<string>>, k: nat, i: nat)
    requires k < |lists| && i < |lists[k]|
    ensures lists[k][i] in Concat(lists)
    decreases k
  {
    if k == 0 {
      assert Concat(lists)[i] == lists[0][i];
    } else {
      ConcatMember(lists[1..], k - 1, i);
    }
  }

  lemma {:induction false} GroupShape(words: seq<string>, start: nat, size: nat)
    requires size > 0 && start <= |words|
    ensures var g := GroupFrom(words, start, size);
      && (forall k :: 0 <= k < |g| ==> 1 <= |g[k]| <= size)
      && (forall k :: 0 <= k < |g| - 1 ==> |g[k]| == size)
      && |words| - start <= |g| * size < |words| - start + size
    decreases |words| - start
  {
    if start + size < |words| {
      var next := start + size;
      GroupShape(words, next, size);
      var g := GroupFrom(words, start, size);
      var g' := GroupFrom(words, next, size);
      assert g == [words[start..next]] + g';
      assert |g| * size == |g'| * size + size;
    }
  }

  lemma CeilingDivision(n: nat, size: nat, c: nat)
    requires size > 0 && n <= c * size < n + size
    ensures c == (n + size - 1) / size
  {
    var m := n + size - 1;
    var q := m / size;
    assert q * size <= m < q * size + size;
    assert (q - c) * size == q * size - c * size;
    assert (c - q) * size == c * size - q * size;
    AtLeastOneTimes(q - c, size);
    AtLeastOneTimes(c - q, size);
  }

  lemma AtLeastOneTimes(x: int, size: nat)
    ensures x >= 1 ==> x * size >= size
  {
  }

  /** The tokens of the chunks are exactly the word groups. */
  lemma ChunkWordLists(text: string, size: int)
    requires size > 0
    ensures WordLists(Chunks(text, size)) == Group(Split(text), size)
  {
    var words := Split(text);
    var g := Group(words, size);
    GroupConcat(words, 0, size);
    SplitWords(text);
    forall k | 0 <= k < |g| ensures Split(Join(g[k])) == g[k] {
      forall i | 0 <= i < |g[k]| ensures IsWord(g[k][i]) {
        ConcatMember(g, k, i);
        var m :| 0 <= m < |words| && words[m] == g[k][i];
      }
      SplitJoin(g[k]);
    }
  }

  /** No token is lost, duplicated or reordered: the chunks' tokens, concatenated, are the text's tokens. */
  lemma ChunksPartition(text: string, size: int)
    requires size > 0
    ensures Concat(WordLists(Chunks(text, size))) == Split(text)
  {
    ChunkWordLists(text, size);
    GroupConcat(Split(text), 0, size);
  }

  /**
   * Every chunk has between 1 and `size` words, every chunk but the last
   * has exactly `size`, and there are ceil(n / size) of them.
   */
  lemma ChunksShape(text: string, size: int)
    requires size > 0
    ensures var cs := Chunks(text, size);
      && (forall k :: 0 <= k < |cs| ==> 1 <= WordCount(cs[k]) <= size)
      && (forall k :: 0 <= k < |cs| - 1 ==> WordCount(cs[k]) == size)
      && |cs| == (WordCount(text) + size - 1) / size
  {
    var words := Split(text);
    var g := Group(words, size);
    var cs := Chunks(text, size);
    ChunkWordLists(text, size);
    GroupShape(words, 0, size);
    assert |cs| == |g|;
    forall k | 0 <= k < |cs| ensures WordCount(cs[k]) == |g[k]| {
      assert WordLists(cs)[k] == g[k];
    }
    CeilingDivision(|words|, size, |g|);
  }

  /** Empty or whitespace-only text gives no chunks. */
  lemma ChunksOfBlankText(text: string, size: int)
    requires size != 0
    requires forall i :: 0 <= i < |text| ==> IsSpace(text[i])
    ensures Chunks(text, size) == []
  {
    SplitBlank(text);
  }

  // ---------------------------------------------------------------------
  // Sentiment

  /** One classifier output: a label and the probability of that label. */
  datatype ChunkSentiment = ChunkSentiment(verdict: string, score: real)

  /** The aggregate label and `abs(mean)`; `None` is NaN, the mean of no scores. */
  datatype Sentiment = Sentiment(verdict: string, confidence: Option<real>)

  /** A "POSITIVE" result counts as its score, anything else as the negated score. */
  function SignedScore(r: ChunkSentiment): (s: real)
    ensures Abs(s) == Abs(r.score)
    ensures r.score > 0.0 ==> (s > 0.0 <==> r.verdict == "POSITIVE")
  {
    if r.verdict == "POSITIVE" then r.score else -r.score
  }

  function SignedScores(results: seq<ChunkSentiment>): seq<real> {
    seq(|results|, i requires 0 <= i < |results| => SignedScore(results[i]))
  }

  function Sum(xs: seq<real>): real {
    if xs == [] then 0.0 else xs[0] + Sum(xs[1..])
  }

  function Abs(x: real): real {
    if x < 0.0 then -x else x
  }

  /**
   * The label and confidence `analyze` derives from the per-chunk results:
   * "Positive" when the mean signed score is above zero, otherwise
   * "Negative". With no chunks the mean is NaN, which is not above zero.
   */
  function AggregateSentiment(results: seq<ChunkSentiment>): (s: Sentiment)
    ensures s.verdict == "Positive" || s.verdict == "Negative"
    ensures s.verdict == "Positive" <==> |results| > 0 && Sum(SignedScores(results)) > 0.0
    ensures s.confidence.None? <==> results == []
  {
    var scores := SignedScores(results);
    if |scores| == 0 then Sentiment("Negative", None)
    else
      var mean := Sum(scores) / (|scores| as real);
      MeanSign(Sum(scores), |scores| as real);
      Sentiment(if mean > 0.0 then "Positive" else "Negative", Some(Abs(mean)))
  }

  lemma MeanSign(total: real, n: real)
    requires n > 0.0
    ensures total / n > 0.0 <==> total > 0.0
  {
    assert total == (total / n) * n;
  }

  lemma {:induction false} SumBound(xs: seq<real>)
    requires forall i :: 0 <= i < |xs| ==> -1.0 <= xs[i] <= 1.0
    ensures Abs(Sum(xs)) <= |xs| as real
    decreases |xs|
  {
    if xs != [] {
      SumBound(xs[1..]);
    }
  }

  /** With model scores in [0, 1], the reported confidence is in [0, 1]. */
  lemma ConfidenceBound(results: seq<ChunkSentiment>)
    requires forall i :: 0 <= i < |results| ==> 0.0 <= results[i].score <= 1.0
    ensures var c := AggregateSentiment(results).confidence;
      c.Some? ==> 0.0 <= c.value <= 1.0
  {
    var scores := SignedScores(results);
    if scores != [] {
      SumBound(scores);
      MeanBound(Sum(scores), |scores| as real);
    }
  }

  /** A total of at most `n` in absolute value has a mean over `n` in [-1, 1]. */
  lemma MeanBound(total: real, n: real)
    requires n > 0.0 && -n <= total <= n
    ensures -1.0 <= total / n <= 1.0
  {
    var m := total / n;
    assert m * n == total;
    assert (1.0 - m) * n == n - total;
    assert (m + 1.0) * n == total + n;
  }

  // ---------------------------------------------------------------------
  // Summary

  /**
   * The first pass: the summaries of the chunks with more than 40 words,
   * in chunk order.
   */
  function ChunkSummaries(summarize: (string, nat, nat) -> string, chunks: seq<string>): (r: seq<string>)
    ensures |r| <= |chunks|
    decreases |chunks|
  {
    if chunks == [] then []
    else
      var init := chunks[..|chunks| - 1];
      var c := chunks[|chunks| - 1];
      var rest := ChunkSummaries(summarize, init);
      if WordCount(c) > MinChunkWords then rest + [summarize(c, ChunkSummaryMax, ChunkSummaryMin)] else rest
  }

  /**
   * Only chunks with more than 40 words reach the summariser, and each of
   * them does.
   */
  lemma {:induction false} ChunkSummariesOfLongChunks(summarize: (string, nat, nat) -> string, chunks: seq<string>)
    ensures var r := ChunkSummaries(summarize, chunks);
      && (forall s :: s in r ==>
            exists c :: c in chunks && WordCount(c) > MinChunkWords && s == summarize(c, ChunkSummaryMax, ChunkSummaryMin))
      && (forall c :: c in chunks && WordCount(c) > MinChunkWords ==>
            summarize(c, ChunkSummaryMax, ChunkSummaryMin) in r)
    decreases |chunks|
  {
    if chunks != [] {
      var init := chunks[..|chunks| - 1];
      var c := chunks[|chunks| - 1];
      assert chunks == init + [c];
      ChunkSummariesOfLongChunks(summarize, init);
    }
  }

  /** The summary `analyze` reports for the chunks. */
  function FinalSummary(summarize: (string, nat, nat) -> string, chunks: seq<string>): (r: string)
    ensures var joined := Join(ChunkSummaries(summarize, chunks));
      && (WordCount(joined) > MinCombinedWords ==> r == summarize(joined, FinalSummaryMax, FinalSummaryMin))
      && (WordCount(joined) <= MinCombinedWords ==> r == TooShort)
    ensures (forall c :: c in chunks ==> WordCount(c) <= MinChunkWords) ==> r == TooShort
  {
    var summaries := ChunkSummaries(summarize, chunks);
    ChunkSummariesOfLongChunks(summarize, chunks);
    assert summaries != [] ==> summaries[0] in summaries;
    if summaries != [] && WordCount(Join(summaries)) > MinCombinedWords
    then summarize(Join(summaries), FinalSummaryMax, FinalSummaryMin)
    else TooShort
  }

  /** The first pass keeps chunk order: it distributes over concatenation. */
  lemma {:induction false} ChunkSummariesAppend(summarize: (string, nat, nat) -> string, a: seq<string>, b: seq<string>)
    ensures ChunkSummaries(summarize, a + b) == ChunkSummaries(summarize, a) + ChunkSummaries(summarize, b)
    decreases |b|
  {
    if b != [] {
      var b' := b[..|b| - 1];
      var c := b[|b| - 1];
      assert (a + b)[..|a + b| - 1] == a + b';
      assert (a + b)[|a + b| - 1] == c;
      ChunkSummariesAppend(summarize, a, b');
      var tail := if WordCount(c) > MinChunkWords then [summarize(c, ChunkSummaryMax, ChunkSummaryMin)] else [];
      assert ChunkSummaries(summarize, a + b) == ChunkSummaries(summarize, a + b') + tail;
      assert ChunkSummaries(summarize, b) == ChunkSummaries(summarize, b') + tail;
    } else {
      assert a + b == a;
    }
  }

  /** When every chunk is long enough, each one is summarised, in order. */
  lemma {:induction false} ChunkSummariesAllLong(summarize: (string, nat, nat) -> string, chunks: seq<string>)
    requires forall k :: 0 <= k < |chunks| ==> WordCount(chunks[k]) > MinChunkWords
    ensures ChunkSummaries(summarize, chunks)
      == seq(|chunks|, k requires 0 <= k < |chunks| => summarize(chunks[k], ChunkSummaryMax, ChunkSummaryMin))
    decreases |chunks|
  {
    if chunks != [] {
      var init := chunks[..|chunks| - 1];
      var last := chunks[|chunks| - 1];
      ChunkSummariesAllLong(summarize, init);
      var summaries := seq(|chunks|, k requires 0 <= k < |chunks| => summarize(chunks[k], ChunkSummaryMax, ChunkSummaryMin));
      var initSummaries := seq(|init|, k requires 0 <= k < |init| => summarize(init[k], ChunkSummaryMax, ChunkSummaryMin));
      assert ChunkSummaries(summarize, chunks) == initSummaries + [summarize(last, ChunkSummaryMax, ChunkSummaryMin)];
      assert summaries == initSummaries + [summarize(last, ChunkSummaryMax, ChunkSummaryMin)];
    }
  }

  /**
   * Of the 350-word chunks of a text, every chunk but the last reaches the
   * summariser, in order; only the last one can be dropped.
   */
  lemma OnlyLastChunkDropped(summarize: (string, nat, nat) -> string, text: string)
    ensures var cs := Chunks(text, DefaultChunkSize);
      var r := ChunkSummaries(summarize, cs);
      cs != [] ==>
        && |cs| - 1 <= |r|
        && forall k :: 0 <= k < |cs| - 1 ==> r[k] == summarize(cs[k], ChunkSummaryMax, ChunkSummaryMin)
  {
    var cs := Chunks(text, DefaultChunkSize);
    if cs != [] {
      ChunksShape(text, DefaultChunkSize);
      var m := |cs| - 1;
      assert cs == cs[..m] + [cs[m]];
      ChunkSummariesAppend(summarize, cs[..m], [cs[m]]);
      ChunkSummariesAllLong(summarize, cs[..m]);
    }
  }

  /** A text of at most 40 words gets the fixed "too short" message. */
  lemma ShortTextTooShort(summarize: (string, nat, nat) -> string, text: string)
    requires WordCount(text) <= MinChunkWords
    ensures FinalSummary(summarize, Chunks(text, DefaultChunkSize)) == TooShort
  {
    var cs := Chunks(text, DefaultChunkSize);
    ChunksShape(text, DefaultChunkSize);
    ChunksPartition(text, DefaultChunkSize);
    assert |cs| <= 1;
    if |cs| == 1 {
      assert Concat(WordLists(cs)) == Split(cs[0]) + Concat([]);
      assert WordCount(cs[0]) == WordCount(text);
    }
  }

  const AnalyzerName := "AI-Powered (Chunked Analysis)"

  /**
   * What `analyze` returns: the analyzer's name, the aggregate sentiment,
   * the summary and the number of chunks its `details` sentence reports.
   */
  datatype Analysis = Analysis(analyzer: string, sentiment: Sentiment, summary: string, chunkCount: nat)

  /**
   * `analyze`: chunk at 350 words, classify every chunk and aggregate, then
   * summarise hierarchically.
   */
  method Analyze(classify: string -> ChunkSentiment, summarize: (string, nat, nat) -> string, text: string)
    returns (a: Analysis)
    ensures var cs := Chunks(text, DefaultChunkSize);
      var results := seq(|cs|, i requires 0 <= i < |cs| => classify(cs[i]));
      && a.analyzer == AnalyzerName
      && a.sentiment == AggregateSentiment(results)
      && a.summary == FinalSummary(summarize, cs)
      && a.chunkCount == |cs|
  {
    var chunks := ChunkText(text, DefaultChunkSize);
    var allSentiments := seq(|chunks|, i requires 0 <= i < |chunks| => classify(chunks[i]));
    var sentiment := AggregateSentiment(allSentiments);

    var chunkSummaries := [];
    for i := 0 to |chunks|
      invariant chunkSummaries == ChunkSummaries(summarize, chunks[..i])
    {
      assert chunks[..i + 1][..i] == chunks[..i];
      if WordCount(chunks[i]) > MinChunkWords {
        chunkSummaries := chunkSummaries + [summarize(chunks[i], ChunkSummaryMax, ChunkSummaryMin)];
      }
    }
    assert chunks[..|chunks|] == chunks;

    var finalSummary := TooShort;
    if chunkSummaries != [] {
      var combined := Join(chunkSummaries);
      if WordCount(combined) > MinCombinedWords {
        finalSummary := summarize(combined, FinalSummaryMax, FinalSummaryMin);
      }
    }
    a := Analysis(AnalyzerName, sentiment, finalSummary, |chunks|);
  }

  // ---------------------------------------------------------------------
  // Keywords

  /** One keyphrase the extractor reports, with its relevance score. */
  datatype Keyphrase = Keyphrase(phrase: string, score: real)

  function Phrases(kws: seq<Keyphrase>): seq<string> {
    seq(|kws|, i requires 0 <= i < |kws| => kws[i].phrase)
  }

  /** The phrases of every chunk, chunk after chunk. */
  function PooledKeywords(extract: (string, int) -> seq<Keyphrase>, chunks: seq<string>, topN: int): seq<string>
    decreases |chunks|
  {
    if chunks == [] then []
    else PooledKeywords(extract, chunks[..|chunks| - 1], topN) + Phrases(extract(chunks[|chunks| - 1], topN))
  }

  /** A phrase is in the pool exactly when some chunk's extraction reported it. */
  lemma {:induction false} PooledKeywordsMembers(extract: (string, int) -> seq<Keyphrase>, chunks: seq<string>, topN: int)
    ensures forall p :: p in PooledKeywords(extract, chunks, topN) <==>
      exists c :: c in chunks && p in Phrases(extract(c, topN))
    decreases |chunks|
  {
    if chunks != [] {
      var init := chunks[..|chunks| - 1];
      assert chunks == init + [chunks[|chunks| - 1]];
      PooledKeywordsMembers(extract, init, topN);
    }
  }

  /**
   * `get_keywords`: the `numKeywords` phrases that occur most often across
   * the chunks' keyphrase lists, ties in first-seen order.
   */
  method GetKeywords(extract: (string, int) -> seq<Keyphrase>, text: string, numKeywords: int)
    returns (keywords: seq<string>)
    ensures var pool := PooledKeywords(extract, Chunks(text, DefaultChunkSize), numKeywords);
      && keywords == MostCommon(pool, numKeywords)
      && (|keywords| <= numKeywords || keywords == [])
      && NoDuplicates(keywords)
      && (forall p :: p in keywords ==> p in pool)
      && RankedBy(pool, keywords)
  {
    var chunks := ChunkText(text, DefaultChunkSize);
    var allKeywords := [];
    for i := 0 to |chunks|
      invariant allKeywords == PooledKeywords(extract, chunks[..i], numKeywords)
    {
      assert chunks[..i + 1][..i] == chunks[..i];
      var found := extract(chunks[i], numKeywords);
      allKeywords := allKeywords + Phrases(found);
    }
    assert chunks[..|chunks|] == chunks;
    keywords := MostCommon(allKeywords, numKeywords);
  }

  // ---------------------------------------------------------------------
  // Question answering

  /** One answerer output: an answer span and its confidence. */
  datatype QaResult = QaResult(answer: string, score: real)

  /** The answerer's outcome on every chunk; `None` where the call raised. */
  function Attempts(qa: (string, string) -> Option<QaResult>, question: string, chunks: seq<string>)
    : seq<Option<QaResult>>
  {
    seq(|chunks|, i requires 0 <= i < |chunks| => qa(question, chunks[i]))
  }

  /**
   * Chunk `k` holds the kept answer: it succeeded with a score above 0.0,
   * strictly above every earlier success and at least every later one.
   */
  predicate IsBest(rs: seq<Option<QaResult>>, k: int) {
    && 0 <= k < |rs| && rs[k].Some? && rs[k].value.score > 0.0
    && (forall j :: 0 <= j < k && rs[j].Some? ==> rs[j].value.score < rs[k].value.score)
    && (forall j :: k < j < |rs| && rs[j].Some? ==> rs[j].value.score <= rs[k].value.score)
  }

  predicate NoneAboveZero(rs: seq<Option<QaResult>>) {
    forall j :: 0 <= j < |rs| && rs[j].Some? ==> rs[j].value.score <= 0.0
  }

  /** At most one chunk holds the kept answer. */
  lemma IsBestUnique(rs: seq<Option<QaResult>>, k1: int, k2: int)
    requires IsBest(rs, k1) && IsBest(rs, k2)
    ensures k1 == k2
  {
  }

  /**
   * `answer_question`: the answer of the earliest best-scoring chunk, or
   * the fixed message when no chunk scored above 0.0 or that answer is empty.
   */
  method AnswerQuestion(qa: (string, string) -> Option<QaResult>, context: string, question: string)
    returns (answer: string)
    ensures var rs := Attempts(qa, question, Chunks(context, DefaultChunkSize));
      && (NoneAboveZero(rs) ==> answer == NoAnswer)
      && (!NoneAboveZero(rs) ==> exists k :: IsBest(rs, k))
      && (forall k :: IsBest(rs, k) ==>
            answer == if rs[k].value.answer == "" then NoAnswer else rs[k].value.answer)
  {
    var chunks := ChunkText(context, DefaultChunkSize);
    ghost var rs := Attempts(qa, question, chunks);
    var bestAnswer := "";
    var highestScore := 0.0;
    ghost var best := -1;
    for i := 0 to |chunks|
      invariant best == -1 ==> bestAnswer == "" && highestScore == 0.0
      invariant best == -1 ==> forall j :: 0 <= j < i && rs[j].Some? ==> rs[j].value.score <= 0.0
      invariant best != -1 ==> 0 <= best < i && rs[best].Some?
      invariant best != -1 ==> highestScore == rs[best].value.score > 0.0 && bestAnswer == rs[best].value.answer
      invariant best != -1 ==> forall j :: 0 <= j < best && rs[j].Some? ==> rs[j].value.score < highestScore
      invariant best != -1 ==> forall j :: best < j < i && rs[j].Some? ==> rs[j].value.score <= highestScore
    {
      var result := qa(question, chunks[i]);
      match result
      case None =>
        // the answerer raised on this chunk: skip it
      case Some(r) =>
        if r.score > highestScore {
          highestScore := r.score;
          bestAnswer := r.answer;
          best := i;
        }
    }
    if best != -1 {
      assert IsBest(rs, best);
    }
    if bestAnswer == "" {
      answer := NoAnswer;
    } else {
      answer := bestAnswer;
    }
  }

  // ---------------------------------------------------------------------
  // Named entities

  /** One grouped entity the recogniser reports: its group and its text. */
  datatype Entity = Entity(group: string, word: string)

  const EntityGroups: set<string> := {"PER", "ORG", "LOC", "MISC"}

  /** The entities of every chunk, chunk after chunk. */
  function AllEntities(ner: string -> seq<Entity>, chunks: seq<string>): seq<Entity>
    decreases |chunks|
  {
    if chunks == [] then []
    else AllEntities(ner, chunks[..|chunks| - 1]) + ner(chunks[|chunks| - 1])
  }

  /** An entity is in the pool exactly when the recogniser reported it for some chunk. */
  lemma {:induction false} AllEntitiesMembers(ner: string -> seq<Entity>, chunks: seq<string>)
    ensures forall e :: e in AllEntities(ner, chunks) <==> exists c :: c in chunks && e in ner(c)
    decreases |chunks|
  {
    if chunks != [] {
      var init := chunks[..|chunks| - 1];
      assert chunks == init + [chunks[|chunks| - 1]];
      AllEntitiesMembers(ner, init);
    }
  }

  /** The names reported under `group` among the first `n` entities, in order, repeats included. */
  function NamesBefore(es: seq<Entity>, n: nat, group: string): seq<string>
    requires n <= |es|
  {
    if n == 0 then []
    else NamesBefore(es, n - 1, group) + (if es[n - 1].group == group then [es[n - 1].word] else [])
  }

  /** The names reported under `group`, in order, repeats included. */
  function NamesIn(es: seq<Entity>, group: string): seq<string> {
    NamesBefore(es, |es|, group)
  }

  /** A name is listed under `group` exactly when one of the first `n` entities of that group carries it. */
  lemma {:induction false} NamesBeforeMembers(es: seq<Entity>, n: nat, group: string)
    requires n <= |es|
    ensures forall w :: w in NamesBefore(es, n, group) <==> Entity(group, w) in es[..n]
  {
    if n > 0 {
      NamesBeforeMembers(es, n - 1, group);
      assert es[..n] == es[..n - 1] + [es[n - 1]];
    }
  }

  /** Each of the first `n` entities belongs to one of the four groups. */
  predicate AllKnown(es: seq<Entity>, n: nat)
    requires n <= |es|
  {
    n == 0 || (AllKnown(es, n - 1) && es[n - 1].group in EntityGroups)
  }

  /** `AllKnown` says of every one of the first `n` entities that its group is known. */
  lemma {:induction false} AllKnownEvery(es: seq<Entity>, n: nat)
    requires n <= |es|
    ensures AllKnown(es, n) <==> forall j :: 0 <= j < n ==> es[j].group in EntityGroups
  {
    if n > 0 {
      AllKnownEvery(es, n - 1);
    }
  }

  /** Entity `i` is the first whose group is not one of the four keys. */
  predicate FirstUnknownGroup(es: seq<Entity>, i: int) {
    0 <= i < |es| && es[i].group !in EntityGroups && AllKnown(es, i)
  }

  /** Entity `i` extends only its own group's list of names. */
  lemma NamesBeforeStep(es: seq<Entity>, i: nat, g: string)
    requires i < |es|
    ensures g == es[i].group ==> NamesBefore(es, i + 1, g) == NamesBefore(es, i, g) + [es[i].word]
    ensures g != es[i].group ==> NamesBefore(es, i + 1, g) == NamesBefore(es, i, g)
  {
  }

  /** One step of the grouping loop keeps each group equal to the de-duplicated names seen so far. */
  lemma GroupStep(es: seq<Entity>, i: nat, before: map<string, seq<string>>)
    requires i < |es| && es[i].group in before
    requires forall g :: g in before ==> before[g] == Distinct(NamesBefore(es, i, g))
    ensures forall g :: g in AddName(before, es[i]) ==> AddName(before, es[i])[g] == Distinct(NamesBefore(es, i + 1, g))
  {
    var after := AddName(before, es[i]);
    forall g | g in after ensures after[g] == Distinct(NamesBefore(es, i + 1, g)) {
      NamesBeforeStep(es, i, g);
      if g == es[i].group {
        DistinctSnoc(NamesBefore(es, i, g), es[i].word);
      } else {
        assert after[g] == before[g];
      }
    }
  }

  /**
   * `grouped` files under each of the four groups exactly the names the
   * entities report for it, each once, in first-seen order.
   */
  predicate GroupedAs(es: seq<Entity>, grouped: map<string, seq<string>>) {
    grouped.Keys == EntityGroups
    && forall g :: g in grouped ==> grouped[g] == Distinct(NamesIn(es, g))
  }

  /** The dictionary `get_entities` starts from: the four groups, each with no names. */
  function EmptyGrouping(): (m: map<string, seq<string>>)
    ensures m.Keys == EntityGroups
    ensures forall g :: g in m ==> m[g] == []
  {
    map["PER" := [], "ORG" := [], "LOC" := [], "MISC" := []]
  }

  /** One step of the grouping loop: file the entity's name under its group unless it is already there. */
  function AddName(grouped: map<string, seq<string>>, e: Entity): (r: map<string, seq<string>>)
    requires e.group in grouped
    ensures r.Keys == grouped.Keys
    ensures forall g :: g in grouped && g != e.group ==> r[g] == grouped[g]
    ensures e.word in r[e.group]
  {
    if e.word !in grouped[e.group] then grouped[e.group := grouped[e.group] + [e.word]] else grouped
  }

  /** The dictionary after the first `n` entities, all of whose groups are known. */
  function GroupingAfter(es: seq<Entity>, n: nat): (m: map<string, seq<string>>)
    requires n <= |es|
    requires AllKnown(es, n)
    ensures m.Keys == EntityGroups
  {
    if n == 0 then EmptyGrouping() else AddName(GroupingAfter(es, n - 1), es[n - 1])
  }

  /** After `n` entities each group holds the de-duplicated names reported for it so far. */
  lemma {:induction false} GroupingAfterNames(es: seq<Entity>, n: nat)
    requires n <= |es|
    requires AllKnown(es, n)
    ensures forall g :: g in GroupingAfter(es, n) ==> GroupingAfter(es, n)[g] == Distinct(NamesBefore(es, n, g))
  {
    if n > 0 {
      var before := GroupingAfter(es, n - 1);
      GroupingAfterNames(es, n - 1);
      assert GroupingAfter(es, n) == AddName(before, es[n - 1]);
      GroupStep(es, n - 1, before);
    }
  }

  lemma GroupedMembers(es: seq<Entity>, grouped: map<string, seq<string>>)
    requires GroupedAs(es, grouped)
    ensures forall g :: g in grouped ==> NoDuplicates(grouped[g])
    ensures forall g, w :: g in grouped ==> (w in grouped[g] <==> Entity(g, w) in es)
  {
    forall g | g in grouped
      ensures NoDuplicates(grouped[g])
      ensures forall w :: w in grouped[g] <==> Entity(g, w) in es
    {
      NamesBeforeMembers(es, |es|, g);
      assert es[..|es|] == es;
      DistinctKeys(NamesIn(es, g));
    }
  }

  /**
   * Once every entity's group is known, the final dictionary files under
   * each group its names once each, in first-seen order, and nothing else.
   */
  lemma GroupingOfAll(es: seq<Entity>)
    requires AllKnown(es, |es|)
    ensures GroupedAs(es, GroupingAfter(es, |es|))
    ensures forall g :: g in GroupingAfter(es, |es|) ==> NoDuplicates(GroupingAfter(es, |es|)[g])
    ensures forall g, w :: g in GroupingAfter(es, |es|) ==> (w in GroupingAfter(es, |es|)[g] <==> Entity(g, w) in es)
  {
    GroupingAfterNames(es, |es|);
    GroupedMembers(es, GroupingAfter(es, |es|));
  }

  /**
   * The grouping loop of `get_entities`: file each name under its group
   * once, in first-seen order. The first entity whose group is outside
   * PER/ORG/LOC/MISC raises `KeyError`.
   */
  method GroupEntities(es: seq<Entity>) returns (r: Result<map<string, seq<string>>, Error>)
    ensures r.Ok? <==> forall i :: 0 <= i < |es| ==> es[i].group in EntityGroups
    ensures r.Err? ==> exists i :: FirstUnknownGroup(es, i) && r.error == KeyError(es[i].group)
    ensures r.Ok? ==> AllKnown(es, |es|) && r.value == GroupingAfter(es, |es|)
  {
    var grouped := EmptyGrouping();
    var i := 0;
    while i < |es| && es[i].group in grouped
      invariant 0 <= i <= |es|
      invariant AllKnown(es, i)
      invariant grouped == GroupingAfter(es, i)
    {
      ghost var before := grouped;
      var entityType := es[i].group;
      var entityName := es[i].word;
      if entityName !in grouped[entityType] {
        grouped := grouped[entityType := grouped[entityType] + [entityName]];
      }
      assert grouped == AddName(before, es[i]);
      i := i + 1;
    }
    if i < |es| {
      assert FirstUnknownGroup(es, i);
      AllKnownEvery(es, |es|);
      r := Err(KeyError(es[i].group));
    } else {
      AllKnownEvery(es, |es|);
      r := Ok(grouped);
    }
  }

  /**
   * `get_entities`: chunk at 400 words, run the recogniser on every chunk,
   * then group the names.
   */
  method GetEntities(ner: string -> seq<Entity>, text: string)
    returns (r: Result<map<string, seq<string>>, Error>)
    ensures var es := AllEntities(ner, Chunks(text, EntityChunkSize));
      && (r.Ok? <==> forall i :: 0 <= i < |es| ==> es[i].group in EntityGroups)
      && (r.Err? ==> exists i :: FirstUnknownGroup(es, i) && r.error == KeyError(es[i].group))
      && (r.Ok? ==> AllKnown(es, |es|) && r.value == GroupingAfter(es, |es|))
      && (r.Ok? ==> GroupedAs(es, r.value))
  {
    var chunks := ChunkText(text, EntityChunkSize);
    var allEntities := [];
    for i := 0 to |chunks|
      invariant allEntities == AllEntities(ner, chunks[..i])
    {
      assert chunks[..i + 1][..i] == chunks[..i];
      var entities := ner(chunks[i]);
      allEntities := allEntities + entities;
    }
    assert chunks[..|chunks|] == chunks;
    r := GroupEntities(allEntities);
    if r.Ok? {
      GroupingOfAll(allEntities);
    }
  }
}
