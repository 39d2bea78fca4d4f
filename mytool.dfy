/**
  The keyword sidebar, the past-predictions view, the lazily loaded
  classifier and the check handler of the script that loads its model on
  first use and always appends ten topic words to the trending count.
 */
module MyTool {
  import opened Wrappers
  import opened Keywords
  import opened Ranking
  import opened Input
  import opened Classifier
  import opened Session

  /** The topics appended to every trending count. */
  const PREDEFINED: seq<string> := [
    "elections", "government", "health", "technology",
    "AI", "economy", "COVID", "sports", "education", "climate"
  ]

  const TRENDING_SIZE := 10
  const PAST_SIZE := 5

  /** `extract_keywords(all_text) + predefined_keywords`: the words the sidebar counts. */
  function TrendingWords(log: seq<Record>): seq<string> {
    ExtractKeywords(AllText(log)) + PREDEFINED
  }

  /** `Counter(keywords).most_common(10)`. */
  function Trending(log: seq<Record>): seq<Entry> {
    MostCommon(TrendingWords(log), TRENDING_SIZE)
  }

  /** The ten topics are distinct words. */
  lemma PredefinedDistinct()
    ensures NoDuplicates(PREDEFINED)
  {
  }

  /** The sidebar always lists ten entries, because the ten topics are distinct and always counted. */
  lemma TrendingHasTen(log: seq<Record>)
    ensures |Trending(log)| == TRENDING_SIZE
  {
    var ws := TrendingWords(log);
    MostCommonLength(ws, TRENDING_SIZE);
    PredefinedDistinct();
    DistinctSubsetLength(PREDEFINED, Distinct(ws));
  }

  /**
    Each entry is a token of the logged texts or a topic, listed once, and its
    count is its number of tokens plus one when it is also a topic, so a topic
    such as "health" merges with the token "health".
   */
  lemma TrendingCounts(log: seq<Record>)
    ensures var r, tokens := Trending(log), ExtractKeywords(AllText(log));
      && (forall k :: 0 <= k < |r| ==> r[k].word in tokens || r[k].word in PREDEFINED)
      && (forall k :: 0 <= k < |r| ==>
            r[k].count == Count(tokens, r[k].word) + (if r[k].word in PREDEFINED then 1 else 0))
      && (forall a, b :: 0 <= a < b < |r| ==> r[a].word != r[b].word)
  {
    var r, tokens := Trending(log), ExtractKeywords(AllText(log));
    MostCommonCounts(tokens + PREDEFINED, TRENDING_SIZE);
    PredefinedDistinct();
    forall k | 0 <= k < |r|
      ensures r[k].count == Count(tokens, r[k].word) + (if r[k].word in PREDEFINED then 1 else 0)
    {
      CountAppendDistinct(tokens, PREDEFINED, r[k].word);
    }
  }

  /** A topic starting with a capital letter is never a token, so it is counted once: as a topic. */
  lemma CapitalisedTopicCount(log: seq<Record>, w: string)
    requires w in PREDEFINED && |w| > 0 && IsUpper(w[0])
    ensures Count(TrendingWords(log), w) == 1
  {
    PredefinedDistinct();
    UpperNeverKeyword(AllText(log), w, 0);
    CountAppendDistinct(ExtractKeywords(AllText(log)), PREDEFINED, w);
  }

  /** "AI" and "COVID" always count exactly once, on the sidebar too. */
  lemma CapitalisedTopicsCountOnce(log: seq<Record>)
    ensures Count(TrendingWords(log), "AI") == 1 && Count(TrendingWords(log), "COVID") == 1
    ensures var r := Trending(log);
      forall k :: 0 <= k < |r| && (r[k].word == "AI" || r[k].word == "COVID") ==> r[k].count == 1
  {
    CapitalisedTopicCount(log, "AI");
    CapitalisedTopicCount(log, "COVID");
    MostCommonCounts(TrendingWords(log), TRENDING_SIZE);
  }

  /**
    Counts never increase down the sidebar, and among equal counts the words
    of the logged texts come before topics that occur in no text.
   */
  lemma TrendingOrder(log: seq<Record>)
    ensures var r, tokens := Trending(log), ExtractKeywords(AllText(log));
      && (forall a, b :: 0 <= a < b < |r| ==> r[a].count >= r[b].count)
      && (forall a, b :: 0 <= a < b < |r| && r[a].count == r[b].count && r[b].word in tokens ==>
            r[a].word in tokens)
  {
    var r, tokens := Trending(log), ExtractKeywords(AllText(log));
    MostCommonOrder(tokens + PREDEFINED, TRENDING_SIZE);
    forall a, b | 0 <= a < b < |r| && r[a].count == r[b].count && r[b].word in tokens
      ensures r[a].word in tokens
    {
      SeenBeforeInPrefix(tokens, PREDEFINED, r[a].word, r[b].word);
    }
  }

  /** `s` backwards. */
  function Reverse(s: seq<Record>): (r: seq<Record>)
    ensures |r| == |s| && forall k :: 0 <= k < |s| ==> r[k] == s[|s| - 1 - k]
  {
    if s == [] then [] else Reverse(s[1..]) + [s[0]]
  }

  /** `reversed(log[-5:])`: the newest record first, at most five of them. */
  function PastPredictions(log: seq<Record>): (r: seq<Record>)
    ensures |r| == Min(PAST_SIZE, |log|)
    ensures forall k :: 0 <= k < |r| ==> r[k] == log[|log| - 1 - k]
  {
    var start := if |log| > PAST_SIZE then |log| - PAST_SIZE else 0;
    Reverse(log[start..])
  }

  /** The module global `classifier` of one script run: `None` until the first check of that run needs it. */
  class LazyClassifier {
    var classifier: Pipeline?
    ghost var loads: nat

    /** The handle is loaded at most once, and it is present exactly when it was loaded. */
    ghost predicate Valid()
      reads this
    {
      loads <= 1 && (classifier == null <==> loads == 0)
    }

    constructor ()
      ensures Valid() && classifier == null && loads == 0
    {
      classifier := null;
      loads := 0;
    }

    /**
      `get_classifier()`: build the pipeline only when there is none; afterwards
      every call in the same run returns that same object without loading again.
     */
    method Get(infer: (string, seq<string>) -> ZeroShotResult) returns (clf: Pipeline)
      requires Valid()
      modifies this
      ensures Valid() && classifier == clf
      ensures old(classifier) != null ==> clf == old(classifier) && loads == old(loads)
      ensures old(classifier) == null ==>
        && fresh(clf) && loads == 1
        && clf.task == TASK && clf.model == MODEL && clf.infer == infer
    {
      if classifier == null {
        classifier := new Pipeline(TASK, MODEL, infer);
        loads := loads + 1;
      }
      clf := classifier;
    }
  }

  /** Two calls in a row load once and give the same handle. */
  method GetTwice(lazy: LazyClassifier, infer: (string, seq<string>) -> ZeroShotResult)
    returns (first: Pipeline, second: Pipeline)
    requires lazy.Valid()
    modifies lazy
    ensures first == second && lazy.classifier == first && lazy.loads == 1
  {
    first := lazy.Get(infer);
    second := lazy.Get(infer);
  }

  /**
    "Check Now", in one run of the script. Streamlit runs the whole script
    again on every interaction, so each run starts with the module global
    `classifier` set back to `None`: `handle` is that fresh global. Blank input
    only warns and loads nothing; otherwise the model is loaded once in this
    run, the text classified, an alert attempted when `ShouldAlert` holds and
    the record appended.
   */
  method CheckNow(session: SessionState, text: string, infer: (string, seq<string>) -> ZeroShotResult)
    returns (o: CheckOutcome, handle: LazyClassifier)
    requires session.Ready()
    modifies session
    ensures fresh(handle) && handle.Valid()
    ensures session.Ready() && session.Valid() == old(session.Valid())
    ensures IsBlank(text) ==> o == Blank && handle.classifier == null && handle.loads == 0
    ensures !IsBlank(text) ==>
      && handle.classifier != null && handle.loads == 1
      && handle.classifier.infer == infer && o == Evaluate(text, handle.classifier)
    ensures session.log == Some(old(session.log).value + Logged(text, o))
    ensures session.TotalChecks() == old(session.TotalChecks()) + (if o.Checked? then 1 else 0)
    ensures session.feedback == old(session.feedback) && session.ratings == old(session.ratings)
  {
    handle := new LazyClassifier();
    if IsBlank(text) {
      o := Blank;
      assert session.log.value + [] == session.log.value;
    } else {
      var clf := handle.Get(infer);
      o := Evaluate(text, clf);
      session.RecordCheck(text, o);
    }
  }
}
