/**
  `st.session_state`: three lists that live across reruns of a script. Each
  is created only when absent, and the button handlers only ever append.
 */
module Session {
  import opened Wrappers
  import opened Keywords
  import opened Classifier

  /** One entry of `log`: `{"text", "label", "confidence"}`. */
  datatype Record = Record(text: string, category: string, confidence: real)

  /** The records a check adds to the log: only a completed check adds one. */
  function Logged(text: string, o: CheckOutcome): seq<Record> {
    if o.Checked? then [Record(text, o.prediction.category, o.prediction.score)] else []
  }

  /** `[entry["text"] for entry in log]`. */
  function LoggedTexts(log: seq<Record>): (r: seq<string>)
    ensures |r| == |log| && forall k :: 0 <= k < |log| ==> r[k] == log[k].text
  {
    if log == [] then [] else [log[0].text] + LoggedTexts(log[1..])
  }

  /** `" ".join(...)` of the logged texts: what the trending sidebar tokenizes. */
  function AllText(log: seq<Record>): string {
    Join(LoggedTexts(log), " ")
  }

  /** The tokens of all logged texts are the tokens of each text, in log order. */
  lemma AllTextKeywords(log: seq<Record>)
    ensures ExtractKeywords(AllText(log)) == KeywordsOfEach(LoggedTexts(log))
  {
    KeywordsOfJoin(LoggedTexts(log));
  }

  const MIN_RATING := 1
  const MAX_RATING := 5

  /** A value the rating slider can take. */
  predicate IsRating(r: int) {
    MIN_RATING <= r <= MAX_RATING
  }

  function Sum(xs: seq<int>): int {
    if xs == [] then 0 else xs[0] + Sum(xs[1..])
  }

  /** `sum(xs) / len(xs)`, only when `xs` is non-empty. */
  function Mean(xs: seq<int>): (m: Option<real>)
    ensures m.None? <==> xs == []
    ensures m.Some? ==> m.value * |xs| as real == Sum(xs) as real
  {
    if xs == [] then None else Some(Sum(xs) as real / |xs| as real)
  }

  lemma {:induction false} SumBounds(xs: seq<int>, lo: int, hi: int)
    requires forall k :: 0 <= k < |xs| ==> lo <= xs[k] <= hi
    ensures lo * |xs| <= Sum(xs) <= hi * |xs|
  {
    if xs != [] {
      SumBounds(xs[1..], lo, hi);
    }
  }

  /** The mean of slider ratings is itself between the lowest and the highest rating. */
  lemma MeanBounds(xs: seq<int>)
    requires xs != [] && forall k :: 0 <= k < |xs| ==> IsRating(xs[k])
    ensures MIN_RATING as real <= Mean(xs).value <= MAX_RATING as real
  {
    SumBounds(xs, MIN_RATING, MAX_RATING);
    var n, total := |xs| as real, Sum(xs) as real;
    assert Mean(xs).value == total / n;
    assert MIN_RATING as real * n <= total <= MAX_RATING as real * n;
    DivideBounds(total, n, MIN_RATING as real, MAX_RATING as real);
  }

  lemma DivideBounds(x: real, n: real, lo: real, hi: real)
    requires n > 0.0 && lo * n <= x <= hi * n
    ensures lo <= x / n <= hi
  {
    assert lo == (lo * n) / n && hi == (hi * n) / n;
  }

  class SessionState {
    var log: Option<seq<Record>>
    var feedback: Option<seq<string>>
    var ratings: Option<seq<int>>

    /** A fresh browser session: no key is present yet. */
    constructor ()
      ensures log == None && feedback == None && ratings == None
    {
      log := None;
      feedback := None;
      ratings := None;
    }

    /** All three lists exist. */
    predicate Ready()
      reads this
    {
      log.Some? && feedback.Some? && ratings.Some?
    }

    /** Every stored rating came from the slider. */
    predicate Valid()
      reads this
    {
      ratings.Some? ==> forall k :: 0 <= k < |ratings.value| ==> IsRating(ratings.value[k])
    }

    /** The initialisation block: each list is set to `[]` only if its key is absent. */
    method Initialize()
      modifies this
      ensures Ready()
      ensures log == (if old(log).Some? then old(log) else Some([]))
      ensures feedback == (if old(feedback).Some? then old(feedback) else Some([]))
      ensures ratings == (if old(ratings).Some? then old(ratings) else Some([]))
      ensures old(Valid()) ==> Valid()
    {
      if log.None? {
        log := Some([]);
      }
      if feedback.None? {
        feedback := Some([]);
      }
      if ratings.None? {
        ratings := Some([]);
      }
    }

    /** The end of the check handler: a completed check appends its record, and nothing else changes. */
    method RecordCheck(text: string, o: CheckOutcome)
      requires Ready()
      modifies this
      ensures Ready() && Valid() == old(Valid())
      ensures log == Some(old(log).value + Logged(text, o))
      ensures feedback == old(feedback) && ratings == old(ratings)
    {
      if o.Checked? {
        log := Some(log.value + [Record(text, o.prediction.category, o.prediction.score)]);
      } else {
        assert log.value + [] == log.value;
      }
    }

    /** "Submit Feedback": the suggestion is appended, whatever it is. */
    method SubmitFeedback(suggestion: string)
      requires Ready()
      modifies this
      ensures Ready() && Valid() == old(Valid())
      ensures feedback == Some(old(feedback).value + [suggestion])
      ensures log == old(log) && ratings == old(ratings)
    {
      feedback := Some(feedback.value + [suggestion]);
    }

    /** "Submit Rating": the slider value is appended. */
    method SubmitRating(rating: int)
      requires Ready()
      modifies this
      ensures Ready()
      ensures ratings == Some(old(ratings).value + [rating])
      ensures log == old(log) && feedback == old(feedback)
      ensures old(Valid()) && IsRating(rating) ==> Valid()
    {
      ratings := Some(ratings.value + [rating]);
    }

    /** "Total Checks": the number of logged records. */
    function TotalChecks(): nat
      reads this
      requires log.Some?
    {
      |log.value|
    }

    /** "Average Rating", or `None` for "No ratings yet.". */
    function AverageRating(): (m: Option<real>)
      reads this
      requires ratings.Some?
      ensures m.None? <==> ratings.value == []
      ensures m.Some? ==> m.value * |ratings.value| as real == Sum(ratings.value) as real
      ensures m.Some? && Valid() ==> MIN_RATING as real <= m.value <= MAX_RATING as real
    {
      // Both branches are the mean; the first only adds the proof of the 1-5 bound, which needs valid ratings.
      if ratings.value != [] && Valid() then
        MeanBounds(ratings.value);
        Mean(ratings.value)
      else
        Mean(ratings.value)
    }
  }
}
