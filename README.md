# Fake-news checker scripts: a Dafny model

The repository holds two Streamlit scripts, `mytool.py` and `faketool.py`.
Each lets a user paste a headline and asks a zero-shot classifier whether it
is "real news" or "fake news". When the classifier says "fake news" with a
confidence strictly above 90%, the script attempts an email alert. Every
check is logged in the browser session. A sidebar lists the ten most common
keywords of the logged texts, and the session also keeps feedback and
ratings. `mytool.py` loads its model lazily and mixes ten fixed topic words
into the keyword ranking. `faketool.py` loads its model at start-up and ranks
only logged words.

The modules follow the parts of the scripts:

- `Keywords` (keywords.dfy) models `extract_keywords`, which is
  `re.findall(r"\b\w{4,}\b", text.lower())`. A match is modelled as a maximal
  run of word characters of length at least four, and the scan is proved to
  return exactly those runs, left to right. The module also proves that
  tokenizing `" ".join(texts)` gives the tokens of each text in turn: the
  space never glues two words together.
- `Ranking` (ranking.dfy) models `Counter(words).most_common(n)`. The
  counter's keys are the distinct words in first-seen order. `most_common` is
  a stable sort by descending count, modelled as an insertion sort of counter
  positions by (count descending, position ascending).
- `Input` (input.dfy) models `text.strip()` with Python's `str.isspace`
  characters, and the "blank input" test.
- `Classifier` (classifier.dfy) covers the zero-shot pipeline object and the
  reading of its result: `result["labels"][0]` and
  `dict(zip(labels, scores))[label] * 100`. It also holds the alert rule and a
  check's outcome.
- `Session` (session.dfy) models `st.session_state`. It is a class with the
  three lists `log`, `feedback` and `ratings`, each absent until initialised,
  and one method per button. The module also holds the mean rating.
- `MyTool` (mytool.dfy) holds the parts of `mytool.py` only: the topic list,
  the trending ranking, the last-five view, the lazily loaded classifier and
  its "Check Now" handler.
- `FakeTool` (faketool.dfy) holds the parts of `faketool.py` only: the
  trending ranking, shown only when the log is non-empty, and its "Check
  Now" handler.

The trained model is the `infer` function held by a `Classifier.Pipeline`
object. It is left uninterpreted: the model applies it to the text and the
candidate labels but says nothing about what it returns. A pipeline
result from which no prediction can be read becomes the `Failed` outcome, which
stands for the `IndexError` or `KeyError` the script would raise; the log is
then left unchanged. The alert is modelled as the boolean `alerted` of a
completed check, meaning "an email was attempted".

## Model

| member | source | states |
|---|---|---|
| Keywords.Lower | mytool.py:37 | lower-casing leaves no upper-case letter, keeps word characters word characters and changes nothing else |
| Keywords.LowerString | mytool.py:37 | `text.lower()`, character by character with `Lower`; its tokens are characterised by `ExtractKeywords` and `SpanTextsAreKeywords` |
| Keywords.SpansFrom | mytool.py:37 | the scan from a boundary yields only keyword spans (maximal runs of four or more word characters), from left to right and not overlapping |
| Keywords.SpansFromComplete | mytool.py:37 | the scan from a boundary finds every keyword span that starts at or after it |
| Keywords.KeywordSpans | mytool.py:37 | the matches of `\b\w{4,}\b` are exactly the keyword spans of the string, in order |
| Keywords.FindAllFrom | mytool.py:37 | the `findall` scan from a position, emitting the text of each run of four or more word characters; `FindAllIsTexts` proves it returns the texts of `SpansFrom` |
| Keywords.FindAllIsTexts | mytool.py:37 | the `findall` scan returns exactly the texts of the keyword spans from the same position |
| Keywords.ExtractKeywords | mytool.py:36-37 | the tokens are the texts of the keyword spans of the lower-cased text, in order, and each is four or more lower-case word characters; `faketool.py` has the same function |
| Keywords.KeywordsSound | mytool.py:37 | every token is the text of some maximal run, at least four long, of the lower-cased text |
| Keywords.KeywordsComplete | mytool.py:37 | the text of every such run is among the tokens, so no run is dropped and no token is a piece of a longer run |
| Keywords.NoLongRunNoKeywords | mytool.py:36-37 | text with no run of four word characters (the empty text included) yields no tokens |
| Keywords.UpperNeverKeyword | mytool.py:37 | a word containing an upper-case letter is never a token |
| Keywords.ScanPrefix | mytool.py:93 | scanning a text followed by a non-word character finds the text's runs and then those after the separator |
| Keywords.Join | mytool.py:93 | `" ".join(texts)`; `KeywordsOfSpaced` and `KeywordsOfJoin` state what tokenizing it gives |
| Keywords.KeywordsOfSpaced | mytool.py:93-94 | the tokens of `x + " " + y` are the tokens of `x` followed by those of `y` |
| Keywords.KeywordsOfJoin | faketool.py:85-86 | the tokens of the space-joined texts are the tokens of each text, in log order |
| Ranking.Distinct | mytool.py:95 | the counter's keys: exactly the words of the input, each once |
| Ranking.DistinctInFirstSeenOrder | mytool.py:95 | the counter's keys are ordered by first occurrence in the input |
| Ranking.Tally | mytool.py:95 | `Counter(words).items()`: one entry per counter key, in first-seen order, with its number of occurrences; used by `MostCommon` |
| Ranking.Insert | mytool.py:96 | inserting a counter position into a sorted list keeps it sorted by (count descending, position ascending) and adds exactly that position |
| Ranking.SortPositions | mytool.py:96 | the stable sort: a permutation of the counter positions, sorted by (count descending, position ascending) |
| Ranking.MostCommon | mytool.py:96 | `most_common(n)`: the first `n` counter entries in stable count order; its length, counts, order and cut-off are stated by `MostCommonLength`, `MostCommonCounts`, `MostCommonOrder` and `MostCommonTop` |
| Ranking.MostCommonLength | mytool.py:96 | `most_common(n)` has `n` entries, or one per distinct word when there are fewer |
| Ranking.MostCommonCounts | mytool.py:95-96 | every entry is a word of the input with its exact number of occurrences, and no word is listed twice |
| Ranking.MostCommonOrder | mytool.py:96 | counts never increase along the list, and equal counts appear in first-seen order |
| Ranking.MostCommonTop | mytool.py:96 | a word left out means the list is full and every listed word has a larger count, or the same count and was seen first |
| Ranking.CountAppendDistinct | mytool.py:94 | appending a list of distinct words adds exactly one occurrence of each |
| Ranking.DistinctSubsetLength | mytool.py:94-96 | a list of distinct words all found in another list is no longer than it |
| Input.Strip | mytool.py:67 | `strip()` is a slice with white space only outside it and non-space characters at both ends |
| Input.BlankIffAllSpace | mytool.py:67 | input is refused as blank exactly when every character is white space, the empty input included; both scripts use this test |
| Input.IsSpace | mytool.py:67 | the characters `str.isspace` accepts: tab to carriage return, 0x1C-0x1F, space, 0x85, 0xA0, 0x1680, 0x2000-0x200A, 0x2028, 0x2029, 0x202F, 0x205F and 0x3000 |
| Input.IsBlank | mytool.py:67 | `not text.strip()`; `BlankIffAllSpace` proves it holds exactly for all-white-space input |
| Classifier.Pipeline.constructor | mytool.py:18 | a pipeline holds its task, model name and inference function |
| Classifier.ZipDict | mytool.py:75 | `dict(zip(labels, scores))`, built pair by pair so a later pair overwrites an earlier one; characterised by `ZipDictKeys` and `ZipDictLastWins` |
| Classifier.ZipDictKeys | mytool.py:75 | `dict(zip(labels, scores))` has exactly the labels paired with a score as keys |
| Classifier.ZipDictLastWins | mytool.py:75 | a label's value in the dictionary is the score at its last paired position |
| Classifier.Interpret | mytool.py:74-75 | `result["labels"][0]` and `dict(zip(...))[label] * 100`, `None` for the exception; characterised by `InterpretFails`, `InterpretIsFirstLabel`, `InterpretDistinctLabels` and `InterpretScoreRange` |
| Classifier.InterpretFails | mytool.py:74-75 | reading the result fails (`IndexError`/`KeyError`) exactly when no labels or no scores come back |
| Classifier.InterpretIsFirstLabel | mytool.py:74-75 | the predicted label is the first label, and its confidence is 100 times the score of its last pairing |
| Classifier.InterpretDistinctLabels | mytool.py:74-75 | with distinct labels the prediction is the first label with 100 times the first score |
| Classifier.InterpretScoreRange | mytool.py:75 | probability scores give a confidence between 0 and 100 |
| Classifier.ShouldAlert | mytool.py:80 | `predicted_label == "fake news" and predicted_score > 90`, strict; `AlertMeansConfidentFake` relates it to the pipeline's result |
| Classifier.AlertMeansConfidentFake | mytool.py:80 | an alert is attempted exactly when "fake news" is ranked first with a score above 0.9; a confidence of exactly 90 sends nothing |
| Classifier.Evaluate | mytool.py:66-80 | blank input gives the warning; otherwise the outcome fails exactly when the result cannot be read, a completed check carries the read prediction, and it alerts exactly when the label is "fake news" and the confidence is strictly above 90 |
| Session.LoggedTexts | mytool.py:93 | `[entry["text"] for entry in log]`: one text per record, in log order |
| Session.AllText | mytool.py:93 | `all_text`: the logged texts joined with single spaces; `AllTextKeywords` gives its tokens |
| Session.AllTextKeywords | faketool.py:85-86 | the tokens of the joined log texts are the tokens of each record's text, in log order |
| Session.Logged | mytool.py:85-89 | the records a check adds: one `{text, label, confidence}` record for a completed check, none otherwise; `RecordCheck` and both `CheckNow` methods append exactly it |
| Session.Mean | mytool.py:127 | the average exists exactly when there are ratings, and times their number it is their sum |
| Session.MeanBounds | mytool.py:126-128 | the average of ratings from the 1-5 slider lies between 1 and 5 |
| Session.SessionState.constructor | mytool.py:22 | a new session has none of the three lists |
| Session.SessionState.Initialize | mytool.py:22-27 | each list is created empty only when absent; lists already present are kept as they are |
| Session.SessionState.RecordCheck | mytool.py:85-89 | a completed check appends exactly one record at the end of the log, and nothing else changes |
| Session.SessionState.SubmitFeedback | mytool.py:111-112 | the suggestion is appended to `feedback`; `log` and `ratings` are unchanged |
| Session.SessionState.SubmitRating | mytool.py:117-119 | the rating is appended to `ratings`; other lists are unchanged, and slider values keep every rating in 1-5 |
| Session.SessionState.TotalChecks | mytool.py:125 | "Total Checks", `len(log)`; both `CheckNow` methods prove it rises by one exactly for a completed check |
| Session.SessionState.AverageRating | mytool.py:126-130 | no average without ratings; otherwise it is sum over count and lies in 1-5 |
| MyTool.PredefinedDistinct | mytool.py:30-33 | the ten topic words are distinct |
| MyTool.TrendingWords | mytool.py:93-94 | `extract_keywords(all_text) + predefined_keywords`; its counts are stated by `TrendingCounts` and `CapitalisedTopicsCountOnce` |
| MyTool.Trending | mytool.py:95-96 | `Counter(keywords).most_common(10)` over those words; stated by `TrendingHasTen`, `TrendingCounts`, `CapitalisedTopicsCountOnce` and `TrendingOrder` |
| MyTool.TrendingHasTen | mytool.py:93-96 | the sidebar always lists exactly ten entries, because the ten topics are always counted |
| MyTool.TrendingCounts | mytool.py:93-96 | each entry is a token or a topic, listed once, and its count is its number of tokens plus one if it is a topic, so a topic such as "health" merges with the token "health" |
| MyTool.CapitalisedTopicCount | mytool.py:30-37 | a topic that starts with a capital letter is never a token, and is counted exactly once |
| MyTool.CapitalisedTopicsCountOnce | mytool.py:32-37 | "AI" and "COVID" always count 1, including where they appear on the sidebar |
| MyTool.TrendingOrder | mytool.py:94-96 | counts never increase down the sidebar, and at equal counts words from the logged texts come before topics found in no text |
| MyTool.Reverse | mytool.py:103 | `reversed`: same length, element `k` is the `k`-th from the end |
| MyTool.PastPredictions | mytool.py:100-103 | the view lists min(5, number of records) records, newest first |
| MyTool.LazyClassifier.constructor | mytool.py:11 | `classifier = None` at the start of a script run: the handle is empty, with no load done |
| MyTool.LazyClassifier.Get | mytool.py:13-19 | the first call of a run creates the pipeline with the zero-shot task and model; later calls on the same global return that same object without loading again, so it is loaded at most once per run |
| MyTool.GetTwice | mytool.py:13-19 | two calls in a row on the same global load once and return the same handle |
| MyTool.CheckNow | mytool.py:66-89 | the run starts with a fresh, empty global; blank input loads nothing and leaves the log untouched; otherwise the model is loaded exactly once in the run, the outcome is `Evaluate`'s with it, the log grows by exactly the completed check's record, and the total number of checks rises by one exactly for a completed check |
| FakeTool.Trending | faketool.py:84-87 | the sidebar entries, `None` while the log is empty; stated by `FakeTool.TrendingCounts` and `FakeTool.TrendingOrder` |
| FakeTool.TrendingCounts | faketool.py:84-87 | entries exist exactly when the log is non-empty: at most ten, one per distinct token when fewer, each a token with its exact count over the log texts' tokens |
| FakeTool.TrendingOrder | faketool.py:87 | counts never increase down the sidebar, and ties keep first-occurrence order |
| FakeTool.CheckNow | faketool.py:65-80 | blank input leaves the log untouched; otherwise the outcome is `Evaluate`'s with the eagerly loaded pipeline, the log grows by exactly the completed check's record, and feedback and ratings are unchanged |

## Left out

- Streamlit presentation is not modelled: page set-up, widgets, spinners, `upper()`/`capitalize()` of displayed words, the 100-character preview and the unused screenshot upload. Views are modelled as functions of the session state.
- Whole-script reruns are not modelled as one program; each button handler is a separate method over the session state.
- The transformers model itself is an uninterpreted `infer` function.
- The weights are whatever `infer` a load is given. The eager load and the demo call with its `print` at faketool.py:14-21 are left out, since they do not touch the session.
- Classifier.Evaluate: an exception raised inside the model (for example the model being unavailable) is not modelled. Only results that cannot be read become `Failed`.
- Email sending is not modelled: `send_email_alert`, SMTP, the message text and the credentials. Its failures are caught inside it and cannot change the session, so only the decision to attempt an alert (`alerted`) is kept.
- The CSV export of the log is left out, since it is file I/O through pandas.
- Session.SessionState.RecordCheck stores the confidence exactly, not `round(score, 2)`. Floating-point arithmetic and `:.2f` formatting are not modelled; scores and averages are exact reals.
- Keywords.ExtractKeywords models `\w` and `lower()` on ASCII only. Word characters are letters, digits and `_`, and only A-Z is lowered. Python's Unicode word characters and length-changing lower-casing are left out, so a non-ASCII letter is treated as a separator.
- MyTool.LazyClassifier.Get: "loaded at most once" holds per script run only. Streamlit re-executes the whole script on every interaction, and that resets the module global `classifier` (mytool.py:11) to `None`, so every "Check Now" press with non-blank text loads the pipeline again. `MyTool.CheckNow` therefore starts each run with a fresh `LazyClassifier`.
- MyTool.LazyClassifier.Get does not model concurrent first calls from several sessions. The source has no synchronisation, so its behaviour there is undefined.
- As modelled here, the classifier result carries the full `labels` and `scores` lists, not a single (label, score) pair, so that the `[0]` indexing and the `dict(zip(...))` lookup are modelled as written.
