# Text analyzers: chunked AI analyzer and keyword baseline

This project models the two analyzers of a small text-analysis application.

**`QuantumLeapAnalyzer`** (`core/quantum_leap.py`) handles long documents by cutting the text into chunks of at most 350 whitespace tokens (400 for entity extraction). It runs a pretrained model on every chunk and combines the per-chunk outputs:
- **Sentiment** is the mean of signed per-chunk scores.
- **Summary** is built in two passes: first each long chunk is summarised, then the joined summaries are summarised again.
- **Keywords** are the most frequent keyphrases over all chunks.
- **Answer** is the best-scoring answer over the chunks.
- **Entities** are the recognised names, grouped by entity type and de-duplicated.

**`SimpleAnalyzer`** (`core/old_state.py`) is the keyword-counting baseline:
- sentiment from two fixed word lists;
- keywords as the most frequent alphabetic non-stop-words;
- a yes/no answer from the share of question words found in the context.

The project has five modules:
- `Outcomes` (outcomes.dfy): the `Option`, `Result` and error values.
- `Text` (text.dfy): Python's `str.split()`, `" ".join`, `lower()` and `isalpha()`.
- `Counter` (counter.dfy): `collections.Counter` and `most_common(n)`.
- `QuantumLeap` (quantum_leap.dfy): the chunked analyzer. It is imperative: each operation is a method with loops, proved against specification functions.
- `OldState` (old_state.dfy): the baseline, as pure functions.

The pretrained models appear as function parameters, and the model does not interpret their outputs:
- the sentiment classifier, `string -> ChunkSentiment`;
- the summariser, `(text, max_length, min_length) -> string`;
- the question answerer, `(question, context) -> Option<QaResult>`, where `None` means the call raised;
- the keyphrase extractor, `(chunk, top_n) -> seq<Keyphrase>`;
- the entity recogniser, `string -> seq<Entity>`.

Three behaviours of the code are easy to misread; the model does what the code does:
- **Short combined summary.** `analyze` returns the fixed "too short" message when the joined first-pass summaries have 50 words or fewer; it never returns those summaries themselves (`core/quantum_leap.py:49-54`).
- **Sentiment with no chunks.** For empty or whitespace-only text, `analyze` raises no error: it takes `np.mean` of an empty list. The mean is NaN, so the label is "Negative"; the model reports the confidence as `None` (`core/quantum_leap.py:34-37`).
- **Chunk size.** `_chunk_text` returns no chunks for a negative chunk size, because the stepped `range` is empty. A size of 0 makes `range` raise ValueError, so `ChunkText` requires a non-zero size (`core/quantum_leap.py:22`).

## Model

| member | source | states |
|---|---|---|
| Text.Split | core/quantum_leap.py:20 | `str.split()`: the maximal runs of non-whitespace characters, in order; there are at most half as many tokens as characters, rounded up |
| Text.SplitWords | core/quantum_leap.py:20 | every token of `split()` is non-empty and free of whitespace |
| Text.SplitJoin | core/quantum_leap.py:20-23 | splitting the single-space join of a list of tokens gives the list back |
| Text.Join | core/quantum_leap.py:23 | `" ".join`: the joined text is as long as the words together plus one separator between each two of them; no words give the empty text |
| Text.SplitBlank | core/quantum_leap.py:20 | a whitespace-only or empty text has no tokens |
| Text.SplitEmptyIsBlank | core/quantum_leap.py:20 | a text with no tokens is whitespace only |
| Text.Lower | core/old_state.py:13 | `lower()`: the same length, no upper-case letter left, and every other character kept |
| Text.LowerTwice | core/old_state.py:13 | lower-casing is idempotent |
| Text.IsAlpha | core/old_state.py:38 | `isalpha()`: non-empty and letters only, so such a string is a whole whitespace-free token |
| Text.SplitLower | core/old_state.py:13 | lower-casing and then splitting gives the lower-cased tokens of the text |
| Text.WordCountLower | core/old_state.py:13-14 | lower-casing does not change the number of tokens |
| Counter.Distinct | core/quantum_leap.py:73 | the keys of `Counter(xs)` in insertion order: no more keys than elements, no key twice, and at least one key for a non-empty list |
| Counter.DistinctKeys | core/quantum_leap.py:73 | the counter's keys are exactly the elements counted, each once |
| Counter.DistinctFirstSeenOrder | core/quantum_leap.py:73 | the keys are in order of first occurrence |
| Counter.SortByCount | core/quantum_leap.py:73 | ranking the keys is a permutation of them |
| Counter.InsertByCountRanked | core/quantum_leap.py:73 | inserting a key first seen before every key of a ranked list, ahead of the first key with no higher count, keeps the list ranked |
| Counter.SortByCountRanked | core/quantum_leap.py:73 | the ranked keys are in descending count order, with ties in first-seen order (a stable sort) |
| Counter.RankedPrefix | core/quantum_leap.py:73 | a prefix of the ranked keys is still ranked, duplicate-free and drawn from the elements |
| Counter.MostCommon | core/quantum_leap.py:73 | at most n results (none when n <= 0); all keys when fewer than n are returned; no duplicates; only counted elements; ranked by count then first occurrence; every key left out ranks below every key returned |
| QuantumLeap.Chunks | core/quantum_leap.py:18-24 | the value `_chunk_text` returns: no more chunks than tokens, and, for a positive size, no chunks exactly when the text has no tokens |
| QuantumLeap.ChunkText | core/quantum_leap.py:18-24 | the loop returns exactly the specified chunks: the tokens in groups of `chunk_size`, each group space-joined; a negative size gives none |
| QuantumLeap.GroupConcat | core/quantum_leap.py:22-23 | the groups of the stepped range, concatenated, are the tokens from the start index on |
| QuantumLeap.GroupShape | core/quantum_leap.py:22-23 | every group has 1 to size tokens; every group but the last has exactly size tokens; the group count is the ceiling of tokens over size |
| QuantumLeap.ChunkWordLists | core/quantum_leap.py:18-24 | re-splitting each chunk gives back its group of tokens |
| QuantumLeap.ChunksPartition | core/quantum_leap.py:18-24 | the chunks' tokens, concatenated in order, are the text's tokens: a lossless partition |
| QuantumLeap.ChunksShape | core/quantum_leap.py:18-24 | each chunk has 1 to size words; all but the last have exactly size words; there are ceil(words / size) chunks |
| QuantumLeap.ChunksOfBlankText | core/quantum_leap.py:20-24 | empty or whitespace-only text gives no chunks |
| QuantumLeap.SignedScore | core/quantum_leap.py:33 | a chunk's signed score has the magnitude of the classifier's score; with a positive score, the signed score is positive exactly when the label is "POSITIVE" (POSITIVE counts +, anything else −) |
| QuantumLeap.AggregateSentiment | core/quantum_leap.py:31-37 | the label is "Positive" exactly when there is a chunk and the sum of the signed scores is above zero, and "Negative" otherwise; the confidence is missing (NaN) exactly when there are no chunks |
| QuantumLeap.ConfidenceBound | core/quantum_leap.py:33-37 | with classifier scores in [0, 1], the confidence `abs(mean)` is in [0, 1] |
| QuantumLeap.ChunkSummaries | core/quantum_leap.py:41-46 | the first pass yields at most one summary per chunk |
| QuantumLeap.ChunkSummariesOfLongChunks | core/quantum_leap.py:41-46 | every first-pass summary comes from a chunk of more than 40 words; every such chunk is summarised with lengths 100/20 |
| QuantumLeap.ChunkSummariesAppend | core/quantum_leap.py:41-46 | the first pass keeps chunk order: it distributes over concatenation of chunk lists |
| QuantumLeap.ChunkSummariesAllLong | core/quantum_leap.py:41-46 | when every chunk has more than 40 words, the first pass is the summary of each chunk, in order |
| QuantumLeap.OnlyLastChunkDropped | core/quantum_leap.py:28-46 | of a text's 350-word chunks, every chunk but the last is summarised, in order; only the last can be skipped |
| QuantumLeap.ShortTextTooShort | core/quantum_leap.py:41-54 | a text of at most 40 words gets the "too short" message |
| QuantumLeap.FinalSummary | core/quantum_leap.py:48-54 | the second pass: the summary of the joined first-pass summaries (lengths 150/40) when they have more than 50 words, and the "too short" message otherwise, so the emptiness test at line 50 adds nothing; the message also when no chunk has more than 40 words |
| QuantumLeap.Analyze | core/quantum_leap.py:26-61 | the result carries the aggregate sentiment of the per-chunk classifications, the two-pass summary and the number of chunks |
| QuantumLeap.PooledKeywordsMembers | core/quantum_leap.py:65-70 | a phrase is in the pool exactly when some chunk's extraction reported it |
| QuantumLeap.GetKeywords | core/quantum_leap.py:63-74 | the result is `most_common(num_keywords)` of the pooled phrases: at most n, no duplicates, only pooled phrases, ranked by count then first occurrence |
| QuantumLeap.IsBestUnique | core/quantum_leap.py:82-87 | at most one chunk holds the kept answer |
| QuantumLeap.AnswerQuestion | core/quantum_leap.py:76-95 | the sentinel when no successful chunk scored above 0.0; otherwise the answer of the one chunk that scored strictly above every earlier success and at least every later one, or the sentinel if that answer is empty |
| QuantumLeap.AllEntitiesMembers | core/quantum_leap.py:103-108 | an entity is in the pool exactly when the recogniser reported it for some chunk |
| QuantumLeap.NamesBeforeMembers | core/quantum_leap.py:112-116 | a name is listed under a group exactly when an entity of that group with that name has been seen |
| QuantumLeap.AllKnownEvery | core/quantum_leap.py:113-115 | the recursive "all groups known" predicate holds exactly when every entity's group is one of the four |
| QuantumLeap.AddName | core/quantum_leap.py:115-116 | one grouping step keeps the dictionary's groups, changes no other group than the entity's, and leaves the entity's name under its group |
| QuantumLeap.GroupStep | core/quantum_leap.py:112-116 | one loop step keeps every group equal to the de-duplicated names seen so far |
| QuantumLeap.EmptyGrouping | core/quantum_leap.py:111 | the dictionary starts with the four groups, all empty |
| QuantumLeap.GroupingAfter | core/quantum_leap.py:111-116 | the groups stay exactly PER, ORG, LOC and MISC |
| QuantumLeap.GroupingAfterNames | core/quantum_leap.py:111-116 | after n entities, each group holds the de-duplicated names of that group, in first-seen order |
| QuantumLeap.GroupedMembers | core/quantum_leap.py:111-118 | in such a grouping no name repeats, and a name is under a group exactly when an entity of that group carries it |
| QuantumLeap.GroupingOfAll | core/quantum_leap.py:111-118 | when every group is known, the final dictionary is that grouping, with no repeats and exact membership |
| QuantumLeap.GroupEntities | core/quantum_leap.py:110-118 | the result is Ok exactly when every entity's group is one of the four; otherwise it is a KeyError naming the first unknown group; an Ok result is the grouping function's value |
| QuantumLeap.GetEntities | core/quantum_leap.py:97-118 | the same over the entities of the 400-word chunks; an Ok result lists each group's names once, in first-seen order |
| OldState.Tokens | core/old_state.py:13 | `text.lower().split()`: as many tokens as `text.split()` |
| OldState.CountIn | core/old_state.py:16-17 | a keyword count: at most one per word, and positive only when some word is listed |
| OldState.CountInBounds | core/old_state.py:16-17 | a keyword count is at most the word count; it is 0 exactly when no word is listed, and full exactly when every word is |
| OldState.CountInDisjoint | core/old_state.py:16-17 | for two lists with no common word, the two counts add up to at most the word count |
| OldState.ListsDisjoint | core/old_state.py:8-9 | the positive and negative word lists share no word |
| OldState.Analyze | core/old_state.py:11-31 | word count is the text's token count; the positive and negative counts are the numbers of lower-cased tokens found in the positive and negative word lists; positive plus negative is at most the word count; "Positive", "Negative" and "Neutral" each hold exactly when positive > negative, negative > positive, or they are equal |
| OldState.NoListedWordIsNeutral | core/old_state.py:16-24 | a text without listed words has both counts zero and is Neutral |
| OldState.TokensIgnoreCase | core/old_state.py:13 | the tokens of a text and of its lower-cased copy agree |
| OldState.AnalyzeIgnoresCase | core/old_state.py:11-31 | the analysis does not depend on letter case |
| OldState.Candidates | core/old_state.py:38 | the filtered list is no longer than the tokens and holds only alphabetic non-stop-words |
| OldState.CandidatesKeep | core/old_state.py:38 | the filter keeps exactly the alphabetic non-stop-words, each as often as it occurs |
| OldState.TokensAreLower | core/old_state.py:35 | no token of the lower-cased text holds an upper-case letter |
| OldState.GetKeywords | core/old_state.py:33-40 | at most n keywords (none when n <= 0); no duplicates; each is lower-case letters only, not a stop word and a token of the text; all candidates when fewer than n are returned; ranked by count then first occurrence; every candidate left out ranks below every keyword by count then first occurrence, so ties at the cut-off keep the earlier word |
| OldState.GetKeywordsIgnoresCase | core/old_state.py:33-40 | the keywords do not depend on letter case |
| OldState.TokenSet | core/old_state.py:44-45 | `set(s.lower().split())`: whitespace-free words without upper-case letters, no more of them than tokens |
| OldState.TokenSetEmpty | core/old_state.py:44 | a text has no words exactly when it is whitespace only |
| OldState.RatioAboveHalf | core/old_state.py:50 | `overlap / total > 0.5` exactly when `2 * overlap > total` |
| OldState.AnswerQuestion | core/old_state.py:42-53 | ZeroDivisionError exactly when the question is whitespace only; otherwise "Yes" exactly when more than half of the distinct question words occur in the context, and "No" otherwise |
| OldState.AllWordsFoundIsYes | core/old_state.py:48-51 | for a question with at least one word, when every question word occurs in the context, the answer is Yes |
| OldState.NoWordFoundIsNo | core/old_state.py:48-53 | for a question with at least one word, when no question word occurs in the context, the answer is No |
| OldState.MoreContextKeepsYes | core/old_state.py:44-51 | adding words to the context never turns a Yes into a No |
| OldState.AnswerIgnoresCase | core/old_state.py:42-53 | the answer does not depend on letter case |

## Left out

- Model loading in `QuantumLeapAnalyzer.__init__` and the `pipeline(...)` construction in `get_entities` are left out. This includes the model names and the progress `print`s. They are I/O and foreign code.
- The models themselves are left out. They are parameters, and their outputs are not interpreted.
  - The length bounds 100/20 and 150/40 and `do_sample=False` are passed to the summariser unchanged.
  - KeyBERT's `keyphrase_ngram_range=(1, 2)` and `stop_words='english'` are fixed inside the extractor parameter.
  - `grouped_entities=True` is fixed inside the recogniser parameter.
- The sentiment pipeline gets all chunks in one batched call. This is modelled as one classification per chunk, in order.
- Entity records keep only `entity_group` and `word`; the recogniser's other fields are not read by the code.
- The sentiment classifier, the summariser, the keyphrase extractor and the entity recogniser are assumed never to raise. In the code their exceptions are not caught (`core/quantum_leap.py:31`, `45`, `53`, `69`, `107`) and reach the caller of `analyze`, `get_keywords` or `get_entities`. The model does not capture those exceptions.
- The question answerer raises on some chunks. This is modelled as a `None` result, and which inputs make it raise is not modelled.
- Floating point is left out:
  - Scores are exact reals.
  - `np.mean` is the exact sum over the count.
  - The NaN mean of no chunks is `None`.
  - The ratio in `SimpleAnalyzer.answer_question` is compared exactly.
  - Rounding differences of IEEE doubles are not modelled.
- String formatting is left out. This covers the `:.2%` confidence and the f-strings for `sentiment` and `details`. The model keeps their inputs instead: the label, the confidence, the chunk count and the two keyword counts.
- `lower()` and `isalpha()` are modelled for ASCII only. Non-ASCII characters are left unchanged by lower-casing and are not letters.
- `split()` is modelled with the characters Python treats as whitespace, listed by code point.
- QuantumLeap.ChunkText: requires a non-zero chunk size, because `range` raises ValueError for a step of 0. Every caller passes 350 or 400.
- The key order of the returned entity dictionary (PER, ORG, LOC, MISC) is not modelled. The result is a Dafny `map`.
- `num_keywords=None` (`most_common(None)`) is not modelled, and neither is the default argument of 5: the count is always an integer argument.
- `app.py` and `pages/` (the Streamlit user interface) are not part of this model.
