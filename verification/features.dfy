/** The 126-value feature vector built from hand landmarks
    (`normalizeLandmarks` and the feature-building part of `processLandmarks`
    in src/components/practice/PracticeCamera.jsx, repeated as `toFeatures` in
    src/components/PracticeSession.js). Coordinates are exact reals. */
module Features {
  import opened Common

  datatype Point = Point(x: real, y: real, z: real)

  /** One detected hand: normally 21 landmarks, landmark 0 being the wrist. */
  type Hand = seq<Point>

  const POINTS: nat := 21
  const SLOT: nat := 63
  const WIDTH: nat := 126

  function Zeros(n: nat): (z: seq<real>)
    ensures |z| == n
    ensures forall i :: 0 <= i < n ==> z[i] == 0.0
  {
    seq(n, _ => 0.0)
  }

  /** `normalizeLandmarks(hand, wrist)` flattened as `features.push(...coord)` does:
      three values per landmark, each landmark taken relative to `wrist`. */
  function Relative(hand: Hand, wrist: Point): (f: seq<real>)
    ensures |f| == 3 * |hand|
    ensures forall i :: 0 <= i < |hand| ==>
      f[3 * i] == hand[i].x - wrist.x && f[3 * i + 1] == hand[i].y - wrist.y && f[3 * i + 2] == hand[i].z - wrist.z
  {
    if |hand| == 0 then []
    else
      var rest := Relative(hand[1..], wrist);
      var f := [hand[0].x - wrist.x, hand[0].y - wrist.y, hand[0].z - wrist.z] + rest;
      assert forall i :: 1 <= i < |hand| ==> f[3 * i] == rest[3 * (i - 1)] && hand[i] == hand[1..][i - 1];
      f
  }

  /** A hand relative to its own wrist (an empty hand gives nothing). */
  function Normalize(hand: Hand): (f: seq<real>)
    ensures |f| == 3 * |hand|
    ensures |hand| > 0 ==> f[0] == 0.0 && f[1] == 0.0 && f[2] == 0.0
    ensures forall i :: 0 <= i < |hand| ==>
      f[3 * i] == hand[i].x - hand[0].x && f[3 * i + 1] == hand[i].y - hand[0].y && f[3 * i + 2] == hand[i].z - hand[0].z
  {
    if |hand| == 0 then [] else Relative(hand, hand[0])
  }

  /** `if (features.length !== 126) features = Array(126).fill(0)` */
  function Fit(f: seq<real>): (r: seq<real>)
    ensures |r| == WIDTH
    ensures |f| == WIDTH ==> r == f
    ensures |f| != WIDTH ==> r == Zeros(WIDTH)
  {
    if |f| == WIDTH then f else Zeros(WIDTH)
  }

  /** The two hands in the order `[...hands].sort((a, b) => a[0].x - b[0].x)`
      leaves them: swapped only when the second wrist is strictly left of the first. */
  function Order(first: Hand, second: Hand): (hs: (Hand, Hand))
    requires |first| > 0 && |second| > 0
    ensures |hs.0| > 0 && |hs.1| > 0 && hs.0[0].x <= hs.1[0].x
    ensures multiset{hs.0, hs.1} == multiset{first, second}
    ensures hs.0[0].x == hs.1[0].x ==> hs == (first, second)
  {
    if second[0].x < first[0].x then (second, first) else (first, second)
  }

  /** The feature vector of one frame. `None` is the TypeError the sort
      comparator raises when one of two hands has no landmarks. */
  function Encode(hands: seq<Hand>): (r: Option<seq<real>>)
    ensures r.None? <==> |hands| == 2 && (|hands[0]| == 0 || |hands[1]| == 0)
    ensures r.Some? ==> |r.value| == WIDTH
  {
    if |hands| == 1 then
      Some(Fit(Zeros(SLOT) + Normalize(hands[0])))
    else if |hands| == 2 then
      if |hands[0]| == 0 || |hands[1]| == 0 then None
      else
        var (left, right) := Order(hands[0], hands[1]);
        Some(Fit(Normalize(left) + Normalize(right)))
    else
      Some(Zeros(WIDTH))
  }

  /** The inputs whose concatenated features have the right length. The check
      is on the total, so two hands of 20 and 22 landmarks also pass. */
  predicate PassesLengthCheck(hands: seq<Hand>) {
    || (|hands| == 1 && |hands[0]| == POINTS)
    || (|hands| == 2 && |hands[0]| > 0 && |hands[1]| > 0 && |hands[0]| + |hands[1]| == 2 * POINTS)
  }

  // ---------------------------------------------------------------------
  // Properties

  /** Anything but one hand of 21 landmarks, or two non-empty hands of 42 in
      all, encodes as 126 zeros (when it encodes at all). */
  lemma OtherInputsAreZero(hands: seq<Hand>)
    requires !PassesLengthCheck(hands)
    requires Encode(hands).Some?
    ensures Encode(hands).value == Zeros(WIDTH)
  {
  }

  /** No hands at all: 126 zeros. */
  lemma NoHandsIsZero()
    ensures Encode([]) == Some(Zeros(WIDTH))
  {
  }

  /** One hand: a zero left slot, then the hand relative to its wrist. */
  lemma OneHand(h: Hand)
    requires |h| == POINTS
    ensures var f := Encode([h]).value;
      && f[..SLOT] == Zeros(SLOT)
      && f[SLOT..] == Normalize(h)
      && f[SLOT] == 0.0 && f[SLOT + 1] == 0.0 && f[SLOT + 2] == 0.0
      && forall i :: 0 <= i < POINTS ==> f[SLOT + 3 * i] == h[i].x - h[0].x
  {
    var f := Encode([h]).value;
    assert f == Zeros(SLOT) + Normalize(h);
  }

  /** Two hands of 21: the one whose wrist is further left (the first on a tie)
      fills 0..62, the other 63..125, each relative to its own wrist. */
  lemma TwoHands(a: Hand, b: Hand)
    requires |a| == POINTS && |b| == POINTS
    ensures var f := Encode([a, b]).value;
      var (left, right) := if b[0].x < a[0].x then (b, a) else (a, b);
      && f[..SLOT] == Normalize(left)
      && f[SLOT..] == Normalize(right)
      && left[0].x <= right[0].x
      && f[0] == 0.0 && f[1] == 0.0 && f[2] == 0.0
      && f[SLOT] == 0.0 && f[SLOT + 1] == 0.0 && f[SLOT + 2] == 0.0
  {
    var (left, right) := Order(a, b);
    var f := Encode([a, b]).value;
    assert f == Normalize(left) + Normalize(right);
  }

  /** Swapping the two hands in the input does not change the vector, unless
      the wrists are level (then input order decides). */
  lemma TwoHandsOrderIndependent(a: Hand, b: Hand)
    requires |a| > 0 && |b| > 0 && a[0].x != b[0].x
    ensures Encode([a, b]) == Encode([b, a])
  {
  }

  /** The check is on the total length: any two non-empty hands of 42
      landmarks in all are encoded as they are, so with malformed hands the
      second hand's wrist lands at 3 * |left| rather than at 63. */
  lemma MismatchedHandsPassLengthCheck(a: Hand, b: Hand)
    requires |a| > 0 && |b| > 0 && |a| + |b| == 2 * POINTS
    ensures PassesLengthCheck([a, b])
    ensures var (left, right) := Order(a, b);
      && Encode([a, b]) == Some(Normalize(left) + Normalize(right))
      && Encode([a, b]).value[3 * |left|] == 0.0
  {
    var (left, right) := Order(a, b);
    var f := Normalize(left) + Normalize(right);
    assert |f| == WIDTH;
    assert f[3 * |left|] == Normalize(right)[0];
  }
}
