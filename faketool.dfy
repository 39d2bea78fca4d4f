/**
  The trending sidebar and the check handler of the script that loads its
  classifier eagerly and counts only the tokens of the logged texts.
 */
module FakeTool {
  import opened Wrappers
  import opened Keywords
  import opened Ranking
  import opened Input
  import opened Classifier
  import opened Session

  const TRENDING_SIZE := 10

  /** The sidebar entries: shown only once something is logged. */
  function Trending(log: seq<Record>): Option<seq<Entry>> {
    if log == [] then None else Some(MostCommon(ExtractKeywords(AllText(log)), TRENDING_SIZE))
  }

  /**
    With a non-empty log there are at most ten entries, one per distinct
    token when fewer, and each count is the word's number of occurrences among
    the tokens of the log texts taken one by one.
   */
  lemma TrendingCounts(log: seq<Record>)
    ensures Trending(log).None? <==> log == []
    ensures log != [] ==>
      var r, tokens := Trending(log).value, KeywordsOfEach(LoggedTexts(log));
      && |r| == Min(TRENDING_SIZE, |Distinct(tokens)|)
      && (forall k :: 0 <= k < |r| ==> r[k].word in tokens && r[k].count == Count(tokens, r[k].word))
      && (forall a, b :: 0 <= a < b < |r| ==> r[a].word != r[b].word)
  {
    if log != [] {
      AllTextKeywords(log);
      MostCommonLength(ExtractKeywords(AllText(log)), TRENDING_SIZE);
      MostCommonCounts(ExtractKeywords(AllText(log)), TRENDING_SIZE);
    }
  }

  /** Counts never increase down the sidebar, and equal counts keep the order the tokens first occur in. */
  lemma TrendingOrder(log: seq<Record>)
    requires log != []
    ensures var r, tokens := Trending(log).value, KeywordsOfEach(LoggedTexts(log));
      forall a, b :: 0 <= a < b < |r| ==>
        r[a].count > r[b].count || (r[a].count == r[b].count && SeenBefore(tokens, r[a].word, r[b].word))
  {
    AllTextKeywords(log);
    MostCommonOrder(ExtractKeywords(AllText(log)), TRENDING_SIZE);
  }

  /**
    "Check Now" with the pipeline loaded at start-up: blank input only warns;
    otherwise the text is classified, an alert attempted when `ShouldAlert`
    holds and the record appended.
   */
  method CheckNow(session: SessionState, classifier: Pipeline, text: string) returns (o: CheckOutcome)
    requires session.Ready()
    modifies session
    ensures session.Ready() && session.Valid() == old(session.Valid())
    ensures o == Evaluate(text, classifier)
    ensures session.log == Some(old(session.log).value + Logged(text, o))
    ensures session.TotalChecks() == old(session.TotalChecks()) + (if o.Checked? then 1 else 0)
    ensures session.feedback == old(session.feedback) && session.ratings == old(session.ratings)
  {
    if IsBlank(text) {
      o := Blank;
      assert session.log.value + [] == session.log.value;
    } else {
      o := Evaluate(text, classifier);
      session.RecordCheck(text, o);
    }
  }
}
