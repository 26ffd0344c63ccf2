/** Greedy per-class non-maximum suppression over real-valued boxes. */
module Nms {

  /** A box in model-input pixels. */
  datatype PixelBox = PixelBox(left: real, top: real, right: real, bottom: real) {
    function Width(): real { AtLeastZero(right - left) }
    function Height(): real { AtLeastZero(bottom - top) }
  }

  /** One decoded box before it is mapped back to the frame. */
  datatype RawDetection = RawDetection(classIndex: int, score: real, box: PixelBox)

  function AtLeastZero(x: real): real { if x < 0.0 then 0.0 else x }
  function Max(x: real, y: real): real { if x < y then y else x }
  function Min(x: real, y: real): real { if x < y then x else y }

  function InterWidth(a: PixelBox, b: PixelBox): real {
    AtLeastZero(Min(a.right, b.right) - Max(a.left, b.left))
  }

  function InterHeight(a: PixelBox, b: PixelBox): real {
    AtLeastZero(Min(a.bottom, b.bottom) - Max(a.top, b.top))
  }

  /** Intersection over union, from the spans of the intersection and of the two boxes. */
  function Share(interW: real, interH: real, aW: real, aH: real, bW: real, bH: real): real {
    var inter := interW * interH;
    var union := aW * aH + bW * bH - inter;
    if union <= 0.0 then 0.0 else inter / union
  }

  /** Intersection over union of two boxes in the same coordinate space. */
  function Iou(a: PixelBox, b: PixelBox): real {
    Share(InterWidth(a, b), InterHeight(a, b), a.Width(), a.Height(), b.Width(), b.Height())
  }

  predicate Suppresses(a: RawDetection, b: RawDetection, threshold: real) {
    a.classIndex == b.classIndex && Iou(a.box, b.box) > threshold
  }

  // ---- The stable sort by descending score ----------------------------------

  function Insert(x: RawDetection, s: seq<RawDetection>): seq<RawDetection> {
    if s == [] || x.score >= s[0].score then [x] + s else [s[0]] + Insert(x, s[1..])
  }

  function SortedByScore(s: seq<RawDetection>): seq<RawDetection> {
    if s == [] then [] else Insert(s[0], SortedByScore(s[1..]))
  }

  ghost predicate Descending(s: seq<RawDetection>) {
    forall i, j :: 0 <= i < j < |s| ==> s[i].score >= s[j].score
  }

  // ---- Which boxes survive ---------------------------------------------------

  /** Box `i` survives iff no earlier survivor suppresses it. */
  predicate Keeps(s: seq<RawDetection>, threshold: real, i: nat)
    requires i < |s|
    decreases i
  {
    forall j | 0 <= j < i :: Keeps(s, threshold, j) ==> !Suppresses(s[j], s[i], threshold)
  }

  /** The survivors among the first `n` boxes. */
  function Survivors(s: seq<RawDetection>, threshold: real, n: nat): (r: seq<RawDetection>)
    requires n <= |s|
    ensures |r| <= n
  {
    if n == 0 then []
    else if Keeps(s, threshold, n - 1) then Survivors(s, threshold, n - 1) + [s[n - 1]]
    else Survivors(s, threshold, n - 1)
  }

  function FirstUpTo(s: seq<RawDetection>, cap: int): seq<RawDetection> {
    var m := if cap < 1 then 1 else cap;
    if |s| <= m then s else s[..m]
  }

  /** What `suppress` returns. A cap below one still lets one box through. */
  function Kept(detections: seq<RawDetection>, threshold: real, cap: int): seq<RawDetection> {
    var byScore := SortedByScore(detections);
    FirstUpTo(Survivors(byScore, threshold, |byScore|), cap)
  }

  lemma {:induction false} SurvivorsGrow(s: seq<RawDetection>, threshold: real, n: nat, m: nat)
    requires n <= m <= |s|
    ensures Survivors(s, threshold, n) <= Survivors(s, threshold, m)
    decreases m - n
  {
    if n < m {
      SurvivorsGrow(s, threshold, n, m - 1);
    }
  }

  /** Once the cap is reached, the boxes not yet looked at do not matter. */
  lemma CapReached(s: seq<RawDetection>, threshold: real, n: nat, cap: int)
    requires n <= |s|
    requires |Survivors(s, threshold, n)| == if cap < 1 then 1 else cap
    ensures FirstUpTo(Survivors(s, threshold, |s|), cap) == Survivors(s, threshold, n)
  {
    SurvivorsGrow(s, threshold, n, |s|);
  }

  /** Has some survivor among the first `i` boxes suppressed box `k`? */
  predicate SuppressedBefore(s: seq<RawDetection>, threshold: real, i: nat, k: nat)
    requires i <= k < |s|
  {
    exists j | 0 <= j < i :: Keeps(s, threshold, j) && Suppresses(s[j], s[k], threshold)
  }

  /** The flag array after `i` rounds of the outer loop. */
  ghost predicate FlagsAfter(s: seq<RawDetection>, threshold: real, i: nat, removed: seq<bool>)
    requires i <= |s|
  {
    && |removed| == |s|
    && forall k :: i <= k < |s| ==> (removed[k] <==> SuppressedBefore(s, threshold, i, k))
  }

  lemma UnflaggedIsKept(s: seq<RawDetection>, threshold: real, i: nat, removed: seq<bool>)
    requires i < |s| && FlagsAfter(s, threshold, i, removed)
    ensures Keeps(s, threshold, i) <==> !removed[i]
  {
    assert removed[i] <==> SuppressedBefore(s, threshold, i, i);
  }

  lemma FlagsStep(s: seq<RawDetection>, threshold: real, i: nat, before: seq<bool>, after: seq<bool>)
    requires i < |s| && FlagsAfter(s, threshold, i, before) && |after| == |s|
    requires forall k :: i < k < |s| ==>
               (after[k] <==> before[k] || (!before[i] && Suppresses(s[i], s[k], threshold)))
    ensures FlagsAfter(s, threshold, i + 1, after)
  {
    UnflaggedIsKept(s, threshold, i, before);
    forall k | i < k < |s| ensures after[k] <==> SuppressedBefore(s, threshold, i + 1, k) {
      assert SuppressedBefore(s, threshold, i + 1, k) <==>
             SuppressedBefore(s, threshold, i, k) || (Keeps(s, threshold, i) && Suppresses(s[i], s[k], threshold));
    }
  }

  method Suppress(detections: seq<RawDetection>, threshold: real, maxDetections: int)
    returns (kept: seq<RawDetection>)
    ensures kept == Kept(detections, threshold, maxDetections)
  {
    kept := [];
    if detections == [] {
      return;
    }
    var byScore := SortedByScore(detections);
    var removed := new bool[|byScore|](_ => false);
    for i := 0 to |byScore|
      invariant kept == Survivors(byScore, threshold, i)
      invariant kept == [] || |kept| < maxDetections
      invariant FlagsAfter(byScore, threshold, i, removed[..])
    {
      ghost var before := removed[..];
      UnflaggedIsKept(byScore, threshold, i, before);
      if !removed[i] {
        kept := kept + [byScore[i]];
        if |kept| >= maxDetections {
          CapReached(byScore, threshold, i + 1, maxDetections);
          return;
        }
        RemoveOverlapping(byScore, i, threshold, removed);
      }
      FlagsStep(byScore, threshold, i, before, removed[..]);
    }
  }

  /** The inner loop: flag every later box that the survivor at `i` suppresses. */
  method RemoveOverlapping(byScore: seq<RawDetection>, i: nat, threshold: real, removed: array<bool>)
    requires i < |byScore| == removed.Length
    modifies removed
    ensures forall k :: 0 <= k <= i ==> removed[k] == old(removed[k])
    ensures forall k :: i < k < |byScore| ==>
              (removed[k] <==> old(removed[k]) || Suppresses(byScore[i], byScore[k], threshold))
  {
    var a := byScore[i];
    for j := i + 1 to |byScore|
      invariant forall k :: 0 <= k <= i || j <= k < |byScore| ==> removed[k] == old(removed[k])
      invariant forall k :: i < k < j ==> (removed[k] <==> old(removed[k]) || Suppresses(a, byScore[k], threshold))
    {
      if removed[j] {
        continue;
      }
      var b := byScore[j];
      if b.classIndex != a.classIndex {
        continue;
      }
      if Iou(a.box, b.box) > threshold {
        removed[j] := true;
      }
    }
  }
}
