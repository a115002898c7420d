/** Per-frame recognition in src/components/practice/PracticeCamera.jsx: the
    classifier's output is reduced to its first arg-max, accepted above a
    confidence threshold, and a two-field tracker decides whether the same
    letter has been held long enough. The classifier is a parameter (a total
    function from features to class probabilities); `Date.now()` is `now`. */
module Camera {
  import opened Common
  import opened Features

  const HOLD_DURATION: int := 2000
  const CONF_TH: real := 0.8
  const LABELS: string := "ABCDEFGHIJKLMNOPQRSTUVWXYZ"

  /** What a frame reports as its letter: a letter of `LABELS`, the "-" of a
      frame without an accepted prediction, or `undefined` when the arg-max
      index lies past the end of `LABELS`. */
  datatype Label = Letter(c: char) | Dash | Undefined

  /** `LABELS[k]` */
  function LabelAt(k: nat): (l: Label)
    ensures k < |LABELS| <==> l.Letter?
    ensures k < |LABELS| ==> l.c == LABELS[k]
  {
    if k < |LABELS| then Letter(LABELS[k]) else Undefined
  }

  /** `predictions.indexOf(Math.max(...predictions))`: the first index of the largest value. */
  function ArgMax(p: seq<real>): (k: nat)
    requires |p| > 0
    ensures k < |p|
    ensures forall j :: 0 <= j < |p| ==> p[j] <= p[k]
    ensures forall j :: 0 <= j < k ==> p[j] < p[k]
  {
    if |p| == 1 then 0
    else
      var k := ArgMax(p[..|p| - 1]);
      assert forall j :: 0 <= j < |p| - 1 ==> p[..|p| - 1][j] == p[j];
      if p[|p| - 1] > p[k] then |p| - 1 else k
  }

  type Classifier = seq<real> -> seq<real>

  /** `lastLetterRef` (None is `null`) and `holdStartRef` (0 means unset). */
  datatype Tracker = Tracker(last: Option<Label>, holdStart: int)

  const Idle: Tracker := Tracker(None, 0)

  /** The argument of `onPrediction`, without the display-only confidence text. */
  datatype Report = Report(letter: Label, isHolding: bool)

  /** The tracker after a frame, and the report passed on (none when the frame
      raised before reaching `onPrediction`). */
  datatype FrameResult = FrameResult(tracker: Tracker, report: Option<Report>)

  /** No hands, no model, or a weak prediction: forget the hold, report "-". */
  const Dropped: FrameResult := FrameResult(Idle, Some(Report(Dash, false)))

  /** An accepted letter at time `now`. */
  function Observe(t: Tracker, letter: Label, now: int): (r: FrameResult)
    ensures r.tracker.last == Some(letter)
    ensures r.report.Some? && r.report.value.letter == letter
    ensures t.last != Some(letter) ==> r == FrameResult(Tracker(Some(letter), now), Some(Report(letter, false)))
    ensures t.last == Some(letter) && t.holdStart != 0 ==>
      r.tracker == t && r.report.value.isHolding == (now - t.holdStart >= HOLD_DURATION)
  {
    if t.last == Some(letter) then
      var start := if t.holdStart == 0 then now else t.holdStart;
      FrameResult(Tracker(t.last, start), Some(Report(letter, now - start >= HOLD_DURATION)))
    else
      FrameResult(Tracker(Some(letter), now), Some(Report(letter, false)))
  }

  /** The classifier's probabilities for one frame. */
  function Classify(t: Tracker, probs: seq<real>, now: int): (r: FrameResult)
    ensures (|probs| == 0 || probs[ArgMax(probs)] <= CONF_TH) ==> r == Dropped
    ensures |probs| > 0 && probs[ArgMax(probs)] > CONF_TH ==>
      r == Observe(t, LabelAt(ArgMax(probs)), now)
  {
    // Math.max() of nothing is -Infinity, never above the threshold
    if |probs| == 0 then Dropped
    else
      var k := ArgMax(probs);
      if probs[k] > CONF_TH then Observe(t, LabelAt(k), now) else Dropped
  }

  /** One `hands.onResults` callback: the hands detected in the frame, the
      model if it loaded, and the clock. */
  function OnFrame(t: Tracker, hands: seq<Hand>, model: Option<Classifier>, now: int): (r: FrameResult)
    ensures |hands| == 0 || model.None? ==> r == Dropped
    ensures |hands| > 0 && model.Some? && Encode(hands).None? ==> r == FrameResult(t, None)
    ensures |hands| > 0 && model.Some? && Encode(hands).Some? ==>
      r == Classify(t, model.value(Encode(hands).value), now)
  {
    if |hands| == 0 || model.None? then Dropped
    else
      match Encode(hands)
      case None => FrameResult(t, None)
      case Some(features) => Classify(t, model.value(features), now)
  }

  // ---------------------------------------------------------------------
  // Properties

  /** An accepted prediction needs a maximum strictly above 0.8, and names the
      first class reaching it. */
  lemma AcceptedIsFirstArgMax(t: Tracker, probs: seq<real>, now: int)
    requires Classify(t, probs, now) != Dropped
    ensures |probs| > 0
    ensures exists k :: (0 <= k < |probs| && probs[k] > CONF_TH
      && (forall j :: 0 <= j < |probs| ==> probs[j] <= probs[k])
      && (forall j :: 0 <= j < k ==> probs[j] < probs[k])
      && Classify(t, probs, now).report.value.letter == LabelAt(k))
  {
    var k := ArgMax(probs);
    assert probs[k] > CONF_TH;
  }

  /** Once a hold is reported, the next frame of the same letter, no earlier,
      reports it again: nothing stops a hold from confirming on every frame. */
  lemma HoldingPersists(t: Tracker, letter: Label, t1: int, t2: int)
    requires t1 <= t2
    requires Observe(t, letter, t1).report.value.isHolding
    ensures var r1 := Observe(t, letter, t1);
      Observe(r1.tracker, letter, t2).report.value.isHolding
  {
  }

  /** The reports of a run of frames that all accept `letter`. */
  function Run(t: Tracker, letter: Label, times: seq<int>): (reports: seq<bool>)
    ensures |reports| == |times|
    decreases |times|
  {
    if |times| == 0 then []
    else
      var r := Observe(t, letter, times[0]);
      [r.report.value.isHolding] + Run(r.tracker, letter, times[1..])
  }

  /** The tracker a run of frames accepting `letter` leaves behind. */
  function RunTracker(t: Tracker, letter: Label, times: seq<int>): (tr: Tracker)
    ensures |times| > 0 ==> tr.last == Some(letter)
    ensures |times| == 0 ==> tr == t
    decreases |times|
  {
    if |times| == 0 then t else RunTracker(Observe(t, letter, times[0]).tracker, letter, times[1..])
  }

  /** A run of one letter that starts fresh at a non-zero time confirms exactly
      on the frames at least 2000 ms after its first frame. */
  lemma {:induction false} RunFromFreshStart(t: Tracker, letter: Label, times: seq<int>)
    requires |times| > 0 && times[0] != 0
    requires t.last != Some(letter)
    ensures forall i :: 0 <= i < |times| ==> Run(t, letter, times)[i] == (times[i] - times[0] >= HOLD_DURATION)
  {
    var t1 := Observe(t, letter, times[0]).tracker;
    assert t1 == Tracker(Some(letter), times[0]);
    RunContinues(t1, letter, times[1..]);
  }

  lemma {:induction false} RunContinues(t: Tracker, letter: Label, times: seq<int>)
    requires t.last == Some(letter) && t.holdStart != 0
    ensures forall i :: 0 <= i < |times| ==> Run(t, letter, times)[i] == (times[i] - t.holdStart >= HOLD_DURATION)
    decreases |times|
  {
    if |times| > 0 {
      var r := Observe(t, letter, times[0]);
      assert r.tracker == t;
      RunContinues(t, letter, times[1..]);
      assert Run(t, letter, times) == [r.report.value.isHolding] + Run(t, letter, times[1..]);
    }
  }

  /** Switching letters restarts the clock: after a run of `a`, a run of `b`
      confirms only 2000 ms after its own first frame. */
  lemma SwitchRestartsHold(t: Tracker, a: Label, b: Label, before: seq<int>, after: seq<int>)
    requires a != b && |after| > 0 && after[0] != 0
    requires t.last != Some(b)
    ensures var mid := RunTracker(t, a, before);
      forall i :: 0 <= i < |after| ==> Run(mid, b, after)[i] == (after[i] - after[0] >= HOLD_DURATION)
  {
    RunFromFreshStart(RunTracker(t, a, before), b, after);
  }

  /** A hold that started at time 0 (`holdStartRef` falsy) is restarted by the
      next frame of the same letter instead of being continued. */
  lemma ZeroStartRestarts(letter: Label, now: int)
    requires now >= HOLD_DURATION
    ensures Observe(Tracker(Some(letter), 0), letter, now).tracker == Tracker(Some(letter), now)
    ensures !Observe(Tracker(Some(letter), 0), letter, now).report.value.isHolding
  {
  }
}
