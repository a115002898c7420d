/** The stand-alone recognizer of src/components/PracticeSession.js: the same
    126-value features as the practice camera, but the predicted letter and
    its confidence are shown without any threshold or hold timing. */
module LegacySession {
  import opened Common
  import opened Features
  import Camera

  /** The confidence text: "-", a percentage, or the "-Infinity" that
      `Math.max()` of an empty output gives. */
  datatype Confidence = NoConfidence | Percent(v: real) | MinusInfinity

  /** What the page shows: `pred` (a letter or "-") and `conf`. */
  datatype Display = Display(pred: Camera.Label, conf: Confidence)

  const Blank: Display := Display(Camera.Dash, NoConfidence)

  /** `LABELS[k] ?? "-"` */
  function LabelOrDash(k: nat): (l: Camera.Label)
    ensures l != Camera.Undefined
    ensures k < |Camera.LABELS| ==> l == Camera.Letter(Camera.LABELS[k])
    ensures k >= |Camera.LABELS| ==> l == Camera.Dash
  {
    if k < |Camera.LABELS| then Camera.LabelAt(k) else Camera.Dash
  }

  /** One `hands.onResults` callback. When the feature encoding raises (it
      runs outside the `try`), the callback ends and the display keeps its
      previous values. */
  function OnResults(shown: Display, hands: seq<Hand>, model: Option<Camera.Classifier>): (d: Display)
    ensures |hands| == 0 || model.None? ==> d == Blank
    ensures |hands| > 0 && model.Some? && Encode(hands).None? ==> d == shown
    ensures d != shown ==> d.pred != Camera.Undefined
    ensures |hands| > 0 && model.Some? && Encode(hands).Some? ==>
      var arr := model.value(Encode(hands).value);
      && (|arr| == 0 ==> d == Display(Camera.Dash, MinusInfinity))
      && (|arr| > 0 ==> var k := Camera.ArgMax(arr);
            d == Display(LabelOrDash(k), Percent(arr[k] * 100.0)))
  {
    if |hands| == 0 || model.None? then Blank
    else
      match Encode(hands)
      case None => shown
      case Some(features) =>
        var arr := model.value(features);
        // indexOf(-Infinity) is -1, and LABELS[-1] is undefined
        if |arr| == 0 then Display(Camera.Dash, MinusInfinity)
        else
          var k := Camera.ArgMax(arr);
          Display(LabelOrDash(k), Percent(arr[k] * 100.0))
  }

  // ---------------------------------------------------------------------
  // Properties

  /** Wherever the practice camera accepts a frame, this page shows the same
      letter (an index past the alphabet shows "-" here and `undefined` there). */
  lemma AgreesWithCameraWhenAccepted(shown: Display, t: Camera.Tracker, hands: seq<Hand>,
                                     model: Option<Camera.Classifier>, now: int)
    requires Camera.OnFrame(t, hands, model, now).report.Some?
    requires Camera.OnFrame(t, hands, model, now) != Camera.Dropped
    ensures var c := Camera.OnFrame(t, hands, model, now).report.value.letter;
      OnResults(shown, hands, model).pred == (if c.Letter? then c else Camera.Dash)
  {
    var arr := model.value(Encode(hands).value);
    var k := Camera.ArgMax(arr);
  }

  /** Without a threshold, an output that is flat at any level up to 0.8 is
      still shown as "A" with that confidence, while the practice camera drops
      the same frame. */
  lemma FlatOutputIsShown(h: Hand, t: Camera.Tracker, shown: Display, now: int, n: nat, v: real)
    requires n > 0 && v <= Camera.CONF_TH
    ensures var model: Camera.Classifier := _ => seq(n, _ => v);
      && OnResults(shown, [h], Some(model)) == Display(Camera.Letter('A'), Percent(v * 100.0))
      && Camera.OnFrame(t, [h], Some(model), now) == Camera.Dropped
  {
    var model: Camera.Classifier := _ => seq(n, _ => v);
    var arr := model(Encode([h]).value);
    assert arr[0] == v;
  }

  /** `toFeatures` is the camera's encoder: 126 values; one hand of 21 is 63
      zeros followed by that hand relative to its wrist; two hands of 21 are
      laid out by ascending wrist x; any other frame is all zeros. */
  lemma ToFeaturesShape(hands: seq<Hand>)
    requires Encode(hands).Some?
    ensures |Encode(hands).value| == WIDTH
    ensures |hands| == 1 && |hands[0]| == POINTS ==>
      Encode(hands).value == Zeros(SLOT) + Normalize(hands[0])
    ensures |hands| == 2 && |hands[0]| == POINTS && |hands[1]| == POINTS ==>
      var (left, right) := if hands[1][0].x < hands[0][0].x then (hands[1], hands[0]) else (hands[0], hands[1]);
      Encode(hands).value == Normalize(left) + Normalize(right)
    ensures !PassesLengthCheck(hands) ==> Encode(hands).value == Zeros(WIDTH)
  {
    if |hands| == 1 && |hands[0]| == POINTS {
      OneHand(hands[0]);
    }
    if |hands| == 2 && |hands[0]| == POINTS && |hands[1]| == POINTS {
      assert hands == [hands[0], hands[1]];
      TwoHands(hands[0], hands[1]);
    }
    if !PassesLengthCheck(hands) {
      OtherInputsAreZero(hands);
    }
  }
}
