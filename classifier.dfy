/**
  The zero-shot classifier as the check handlers use it: the pipeline is
  asked to choose between the two candidate labels, the first label it
  returns is the prediction, and its score (as a percentage) is the
  confidence. The trained model itself is an opaque function.
 */
module Classifier {
  import opened Wrappers
  import opened Input

  const TASK := "zero-shot-classification"
  const MODEL := "facebook/bart-large-mnli"
  const REAL_NEWS := "real news"
  const FAKE_NEWS := "fake news"
  const CANDIDATE_LABELS := [REAL_NEWS, FAKE_NEWS]

  /** The alert fires only for a confidence strictly above this percentage. */
  const ALERT_THRESHOLD: real := 90.0

  /** What the pipeline returns: `result["labels"]` and `result["scores"]`. */
  datatype ZeroShotResult = ZeroShotResult(labels: seq<string>, scores: seq<real>)

  /** A predicted label with its confidence in percent. */
  datatype Prediction = Prediction(category: string, score: real)

  /** A loaded pipeline. Its identity as an object is what "the same handle" means. */
  class Pipeline {
    const task: string
    const model: string
    const infer: (string, seq<string>) -> ZeroShotResult

    constructor (task: string, model: string, infer: (string, seq<string>) -> ZeroShotResult)
      ensures this.task == task && this.model == model && this.infer == infer
    {
      this.task := task;
      this.model := model;
      this.infer := infer;
    }
  }

  /** The number of pairs `zip(labels, scores)` produces: the length of the shorter list. */
  function PairCount(labels: seq<string>, scores: seq<real>): nat {
    if |labels| < |scores| then |labels| else |scores|
  }

  /** `dict(zip(labels, scores))`: one pair per position of the shorter list, a later pair overwriting an earlier one with the same label. */
  function ZipDict(labels: seq<string>, scores: seq<real>): map<string, real>
    decreases PairCount(labels, scores)
  {
    var m := PairCount(labels, scores);
    if m == 0 then map[]
    else ZipDict(labels[..m - 1], scores[..m - 1])[labels[m - 1] := scores[m - 1]]
  }

  /** The labels the dictionary holds are those paired with a score. */
  lemma {:induction false} ZipDictKeys(labels: seq<string>, scores: seq<real>, key: string)
    ensures key in ZipDict(labels, scores) <==> exists i :: 0 <= i < PairCount(labels, scores) && labels[i] == key
    decreases PairCount(labels, scores)
  {
    var m := PairCount(labels, scores);
    if m > 0 {
      var ls, ss := labels[..m - 1], scores[..m - 1];
      assert PairCount(ls, ss) == m - 1;
      ZipDictKeys(ls, ss, key);
      if exists i :: 0 <= i < m && labels[i] == key {
        var i :| 0 <= i < m && labels[i] == key;
        if i < m - 1 {
          assert ls[i] == key;
        }
      }
    }
  }

  /** A label's entry is the score paired with its last occurrence. */
  lemma {:induction false} ZipDictLastWins(labels: seq<string>, scores: seq<real>, i: nat)
    requires i < PairCount(labels, scores)
    requires forall j :: i < j < PairCount(labels, scores) ==> labels[j] != labels[i]
    ensures labels[i] in ZipDict(labels, scores) && ZipDict(labels, scores)[labels[i]] == scores[i]
    decreases PairCount(labels, scores)
  {
    var m := PairCount(labels, scores);
    if i < m - 1 {
      var ls, ss := labels[..m - 1], scores[..m - 1];
      assert PairCount(ls, ss) == m - 1;
      assert labels[m - 1] != labels[i];
      ZipDictLastWins(ls, ss, i);
    }
  }

  /**
    `result["labels"][0]` and `dict(zip(...))[label] * 100`. `None` stands for
    the exception the script would raise: an `IndexError` when no label comes
    back, a `KeyError` when no score does.
   */
  function Interpret(res: ZeroShotResult): Option<Prediction> {
    if |res.labels| == 0 then None
    else
      var d := ZipDict(res.labels, res.scores);
      var category := res.labels[0];
      if category in d then Some(Prediction(category, d[category] * 100.0)) else None
  }

  /** Interpretation fails exactly when the pipeline returns no labels or no scores. */
  lemma InterpretFails(res: ZeroShotResult)
    ensures Interpret(res).None? <==> res.labels == [] || res.scores == []
  {
    if res.labels != [] && res.scores != [] {
      var m := PairCount(res.labels, res.scores);
      var i := LastIndex(res.labels[..m], res.labels[0]);
      ZipDictLastWins(res.labels, res.scores, i);
    }
  }

  /**
    The prediction is the first label, and its confidence is 100 times the
    score of that label's last pairing; when the first label is not repeated,
    that is the first score.
   */
  lemma InterpretIsFirstLabel(res: ZeroShotResult)
    requires Interpret(res).Some?
    ensures var p := Interpret(res).value;
      && p.category == res.labels[0]
      && exists i :: 0 <= i < PairCount(res.labels, res.scores) && res.labels[i] == p.category
           && p.score == 100.0 * res.scores[i]
           && forall j :: i < j < PairCount(res.labels, res.scores) ==> res.labels[j] != p.category
  {
    var m := PairCount(res.labels, res.scores);
    assert m > 0;
    var i := LastIndex(res.labels[..m], res.labels[0]);
    ZipDictLastWins(res.labels, res.scores, i);
  }

  /** The position of the last occurrence of `x` in `s`. */
  function LastIndex(s: seq<string>, x: string): (i: nat)
    requires x in s
    ensures i < |s| && s[i] == x
    ensures forall j :: i < j < |s| ==> s[j] != x
  {
    if s[|s| - 1] == x then |s| - 1
    else
      assert x in s[..|s| - 1];
      LastIndex(s[..|s| - 1], x)
  }

  /** With distinct labels the confidence is 100 times the first score. */
  lemma InterpretDistinctLabels(res: ZeroShotResult)
    requires res.labels != [] && res.scores != []
    requires forall j :: 0 < j < |res.labels| ==> res.labels[j] != res.labels[0]
    ensures Interpret(res) == Some(Prediction(res.labels[0], 100.0 * res.scores[0]))
  {
    ZipDictLastWins(res.labels, res.scores, 0);
  }

  /** Scores that are probabilities give a confidence between 0 and 100. */
  lemma InterpretScoreRange(res: ZeroShotResult)
    requires forall k :: 0 <= k < |res.scores| ==> 0.0 <= res.scores[k] <= 1.0
    requires Interpret(res).Some?
    ensures 0.0 <= Interpret(res).value.score <= 100.0
  {
    InterpretIsFirstLabel(res);
  }

  /** `predicted_label == "fake news" and predicted_score > 90`: when an email alert is attempted. */
  predicate ShouldAlert(p: Prediction) {
    p.category == FAKE_NEWS && p.score > ALERT_THRESHOLD
  }

  /**
    With distinct labels and probability scores, an alert means the
    pipeline ranked "fake news" first with a score above 0.9.
   */
  lemma AlertMeansConfidentFake(res: ZeroShotResult)
    requires res.labels != [] && res.scores != []
    requires forall j :: 0 < j < |res.labels| ==> res.labels[j] != res.labels[0]
    ensures Interpret(res).Some?
    ensures ShouldAlert(Interpret(res).value) <==> res.labels[0] == FAKE_NEWS && res.scores[0] > 0.9
  {
    InterpretDistinctLabels(res);
  }

  /** The outcome of pressing "Check Now". */
  datatype CheckOutcome =
    | Blank                                      // the warning: nothing is classified
    | Failed                                     // the pipeline's result could not be read
    | Checked(prediction: Prediction, alerted: bool)

  /** Classify non-blank `text` with `clf` and decide whether to alert. */
  function Evaluate(text: string, clf: Pipeline): (o: CheckOutcome)
    ensures o.Blank? <==> IsBlank(text)
    ensures o.Checked? ==> Interpret(clf.infer(text, CANDIDATE_LABELS)) == Some(o.prediction)
    ensures o.Checked? ==> (o.alerted <==> ShouldAlert(o.prediction))
    ensures o.Failed? <==> !IsBlank(text) && Interpret(clf.infer(text, CANDIDATE_LABELS)).None?
  {
    if IsBlank(text) then Blank
    else match Interpret(clf.infer(text, CANDIDATE_LABELS))
      case None => Failed
      case Some(p) => Checked(p, ShouldAlert(p))
  }
}
