/** What suppression guarantees: the sort, the survivors, the cap, and the metric. */
module NmsTheory {
  import opened Nms

  // ---- The sort --------------------------------------------------------------

  lemma {:induction false} InsertPermutes(x: RawDetection, s: seq<RawDetection>)
    ensures multiset(Insert(x, s)) == multiset{x} + multiset(s)
  {
    if s != [] {
      InsertPermutes(x, s[1..]);
      assert s == [s[0]] + s[1..];
    }
  }

  lemma DescendingPrepends(x: RawDetection, s: seq<RawDetection>)
    requires Descending(s) && (s != [] ==> x.score >= s[0].score)
    ensures Descending([x] + s)
  {
  }

  lemma {:induction false} InsertKeepsOrder(x: RawDetection, s: seq<RawDetection>)
    requires Descending(s)
    ensures Descending(Insert(x, s))
    ensures Insert(x, s)[0].score >= x.score
    ensures s != [] ==> Insert(x, s)[0] == x || Insert(x, s)[0] == s[0]
  {
    if s != [] && x.score < s[0].score {
      InsertKeepsOrder(x, s[1..]);
      DescendingPrepends(s[0], Insert(x, s[1..]));
    } else {
      DescendingPrepends(x, s);
    }
  }

  lemma {:induction false} SortIsSorted(s: seq<RawDetection>)
    ensures Descending(SortedByScore(s))
    ensures multiset(SortedByScore(s)) == multiset(s)
  {
    if s != [] {
      SortIsSorted(s[1..]);
      InsertKeepsOrder(s[0], SortedByScore(s[1..]));
      InsertPermutes(s[0], SortedByScore(s[1..]));
      assert s == [s[0]] + s[1..];
    }
  }

  /** The boxes of one score, in the order given. */
  function WithScore(s: seq<RawDetection>, score: real): seq<RawDetection> {
    if s == [] then []
    else (if s[0].score == score then [s[0]] else []) + WithScore(s[1..], score)
  }

  lemma {:induction false} InsertIsStable(x: RawDetection, s: seq<RawDetection>, score: real)
    requires Descending(s)
    ensures WithScore(Insert(x, s), score) == WithScore([x] + s, score)
  {
    if s != [] && x.score < s[0].score {
      InsertIsStable(x, s[1..], score);
      assert Insert(x, s)[1..] == Insert(x, s[1..]);
      assert ([x] + s)[1..] == s && ([x] + s[1..])[1..] == s[1..];
    }
  }

  /** Boxes of equal score keep their relative order. */
  lemma {:induction false} SortIsStable(s: seq<RawDetection>, score: real)
    ensures WithScore(SortedByScore(s), score) == WithScore(s, score)
  {
    if s != [] {
      SortIsStable(s[1..], score);
      SortIsSorted(s[1..]);
      InsertIsStable(s[0], SortedByScore(s[1..]), score);
      assert ([s[0]] + SortedByScore(s[1..]))[1..] == SortedByScore(s[1..]);
    }
  }

  lemma {:induction false} SortOfSorted(s: seq<RawDetection>)
    requires Descending(s)
    ensures SortedByScore(s) == s
  {
    if s != [] {
      SortOfSorted(s[1..]);
      assert s == [s[0]] + s[1..];
    }
  }

  // ---- The survivors -----------------------------------------------------------

  /** No box suppresses a later one. */
  ghost predicate Clean(s: seq<RawDetection>, threshold: real) {
    forall i, j :: 0 <= i < j < |s| ==> !Suppresses(s[i], s[j], threshold)
  }

  lemma {:induction false} SurvivorIndex(s: seq<RawDetection>, threshold: real, n: nat, k: nat) returns (i: nat)
    requires n <= |s| && k < |Survivors(s, threshold, n)|
    ensures i < n && Keeps(s, threshold, i)
    ensures Survivors(s, threshold, n)[k] == s[i] && |Survivors(s, threshold, i)| == k
  {
    if k < |Survivors(s, threshold, n - 1)| {
      i := SurvivorIndex(s, threshold, n - 1, k);
    } else {
      i := n - 1;
    }
  }

  lemma {:induction false} KeptIsSurvivor(s: seq<RawDetection>, threshold: real, n: nat, i: nat)
    requires i < n <= |s| && Keeps(s, threshold, i)
    ensures |Survivors(s, threshold, i)| < |Survivors(s, threshold, n)|
    ensures Survivors(s, threshold, n)[|Survivors(s, threshold, i)|] == s[i]
  {
    if i < n - 1 {
      KeptIsSurvivor(s, threshold, n - 1, i);
    }
  }

  lemma SurvivorsInOrder(s: seq<RawDetection>, threshold: real, n: nat, k: nat, l: nat) returns (i: nat, j: nat)
    requires n <= |s| && k < l < |Survivors(s, threshold, n)|
    ensures i < j < n && Keeps(s, threshold, i) && Keeps(s, threshold, j)
    ensures Survivors(s, threshold, n)[k] == s[i] && Survivors(s, threshold, n)[l] == s[j]
  {
    i := SurvivorIndex(s, threshold, n, k);
    j := SurvivorIndex(s, threshold, n, l);
    if j <= i {
      SurvivorsGrow(s, threshold, j, i);
    }
  }

  /** Survivors come in the order of the boxes and none suppresses another. */
  lemma SurvivorsAreClean(s: seq<RawDetection>, threshold: real, n: nat)
    requires n <= |s|
    ensures Clean(Survivors(s, threshold, n), threshold)
    ensures Descending(s) ==> Descending(Survivors(s, threshold, n))
  {
    var r := Survivors(s, threshold, n);
    forall k, l | 0 <= k < l < |r|
      ensures !Suppresses(r[k], r[l], threshold)
      ensures Descending(s) ==> r[k].score >= r[l].score
    {
      var i, j := SurvivorsInOrder(s, threshold, n, k, l);
    }
  }

  /** Nothing is dropped from a clean list. */
  lemma {:induction false} CleanSurvives(s: seq<RawDetection>, threshold: real, n: nat)
    requires Clean(s, threshold) && n <= |s|
    ensures Survivors(s, threshold, n) == s[..n]
  {
    if n > 0 {
      CleanSurvives(s, threshold, n - 1);
      assert Keeps(s, threshold, n - 1);
      assert s[..n] == s[..n - 1] + [s[n - 1]];
    }
  }

  lemma {:induction false} SurvivorsAreBoxes(s: seq<RawDetection>, threshold: real, n: nat)
    requires n <= |s|
    ensures multiset(Survivors(s, threshold, n)) <= multiset(s[..n])
  {
    if n > 0 {
      SurvivorsAreBoxes(s, threshold, n - 1);
      assert s[..n] == s[..n - 1] + [s[n - 1]];
    }
  }

  // ---- What `suppress` returns ------------------------------------------------

  lemma CapKeeps(s: seq<RawDetection>, threshold: real, cap: int)
    requires Descending(s) && Clean(s, threshold)
    ensures var r := FirstUpTo(s, cap);
            && Descending(r) && Clean(r, threshold) && multiset(r) <= multiset(s)
            && |r| <= (if cap < 1 then 1 else cap)
            && (s != [] ==> r != [])
  {
    var r := FirstUpTo(s, cap);
    assert s == r + s[|r|..];
  }

  /** The result is a sub-collection of the input in descending score, at most
      max(cap, 1) long, and no box in it suppresses another. */
  lemma KeptIsSound(detections: seq<RawDetection>, threshold: real, cap: int)
    ensures var kept := Kept(detections, threshold, cap);
            && Descending(kept) && Clean(kept, threshold)
            && multiset(kept) <= multiset(detections)
            && |kept| <= (if cap < 1 then 1 else cap)
            && (detections != [] ==> kept != [])
  {
    var byScore := SortedByScore(detections);
    var n := |byScore|;
    SortIsSorted(detections);
    SurvivorsAreClean(byScore, threshold, n);
    SurvivorsAreBoxes(byScore, threshold, n);
    assert byScore[..n] == byScore;
    CapKeeps(Survivors(byScore, threshold, n), threshold, cap);
    if detections != [] {
      assert detections[0] in multiset(byScore);
      KeptIsSurvivor(byScore, threshold, n, 0);
    }
  }

  /** When the cap was not reached, every box not in the result lost to a box in it of
      the same class, no lower score, and overlap above the threshold. */
  lemma DroppedIsDominated(detections: seq<RawDetection>, threshold: real, cap: int, d: RawDetection)
    returns (winner: RawDetection)
    requires d in detections && d !in Kept(detections, threshold, cap)
    requires |Kept(detections, threshold, cap)| < cap
    ensures winner in Kept(detections, threshold, cap)
    ensures winner.classIndex == d.classIndex && winner.score >= d.score && Iou(winner.box, d.box) > threshold
  {
    var byScore := SortedByScore(detections);
    SortIsSorted(detections);
    assert d in multiset(byScore);
    var i: nat :| i < |byScore| && byScore[i] == d;
    if Keeps(byScore, threshold, i) {
      KeptIsSurvivor(byScore, threshold, |byScore|, i);
      assert false;
    }
    var j: nat :| j < i && Keeps(byScore, threshold, j) && Suppresses(byScore[j], byScore[i], threshold);
    KeptIsSurvivor(byScore, threshold, |byScore|, j);
    winner := byScore[j];
  }

  /** A cap only truncates: the result is the first max(cap, 1) boxes of the uncapped one. */
  lemma CapTruncates(detections: seq<RawDetection>, threshold: real, cap: int, wide: int)
    requires wide >= |detections| && wide >= 1
    ensures Kept(detections, threshold, cap) == FirstUpTo(Kept(detections, threshold, wide), cap)
  {
    SortIsSorted(detections);
    assert |SortedByScore(detections)| == |detections| by {
      assert |multiset(SortedByScore(detections))| == |multiset(detections)|;
    }
  }

  /** Suppressing twice changes nothing, whatever the cap. */
  lemma SuppressIsIdempotent(detections: seq<RawDetection>, threshold: real, cap: int)
    ensures Kept(Kept(detections, threshold, cap), threshold, cap) == Kept(detections, threshold, cap)
  {
    var kept := Kept(detections, threshold, cap);
    KeptIsSound(detections, threshold, cap);
    SortOfSorted(kept);
    CleanSurvives(kept, threshold, |kept|);
    assert kept[..|kept|] == kept;
  }

  // ---- The metric ---------------------------------------------------------------

  lemma ProductMonotone(a: real, b: real, x: real, y: real)
    requires 0.0 <= a <= x && 0.0 <= b <= y
    ensures 0.0 <= a * b <= x * y
  {
    assert a * b <= x * b;
    assert x * b <= x * y;
  }

  /** The intersection is no wider and no taller than either box. */
  lemma IntersectionFits(a: PixelBox, b: PixelBox)
    ensures 0.0 <= InterWidth(a, b) <= a.Width() && InterWidth(a, b) <= b.Width()
    ensures 0.0 <= InterHeight(a, b) <= a.Height() && InterHeight(a, b) <= b.Height()
  {
  }

  lemma ShareIsSymmetric(iw: real, ih: real, aw: real, ah: real, bw: real, bh: real)
    ensures Share(iw, ih, aw, ah, bw, bh) == Share(iw, ih, bw, bh, aw, ah)
  {
  }

  lemma IouIsSymmetric(a: PixelBox, b: PixelBox)
    ensures Iou(a, b) == Iou(b, a)
  {
    assert InterWidth(a, b) == InterWidth(b, a) && InterHeight(a, b) == InterHeight(b, a);
    ShareIsSymmetric(InterWidth(a, b), InterHeight(a, b), a.Width(), a.Height(), b.Width(), b.Height());
  }

  lemma QuotientInUnit(x: real, y: real)
    requires 0.0 <= x <= y && 0.0 < y
    ensures 0.0 <= x / y <= 1.0
    ensures x / y == 1.0 <==> x == y
  {
    assert (x / y) * y == x;
  }

  lemma ShareInUnit(iw: real, ih: real, aw: real, ah: real, bw: real, bh: real)
    requires 0.0 <= iw <= aw && iw <= bw && 0.0 <= ih <= ah && ih <= bh
    ensures 0.0 <= Share(iw, ih, aw, ah, bw, bh) <= 1.0
  {
    ProductMonotone(iw, ih, aw, ah);
    ProductMonotone(iw, ih, bw, bh);
    var union := aw * ah + bw * bh - iw * ih;
    if union > 0.0 {
      QuotientInUnit(iw * ih, union);
    }
  }

  lemma IouInUnit(a: PixelBox, b: PixelBox)
    ensures 0.0 <= Iou(a, b) <= 1.0
  {
    IntersectionFits(a, b);
    ShareInUnit(InterWidth(a, b), InterHeight(a, b), a.Width(), a.Height(), b.Width(), b.Height());
  }

  lemma ProductStrict(a: real, b: real, x: real, y: real)
    requires 0.0 <= a <= x && 0.0 <= b <= y && 0.0 < y
    ensures a < x ==> a * b < x * y
  {
    if a < x {
      assert a * b <= a * y;
      assert a * y < x * y;
    }
  }

  lemma ProductTight(a: real, b: real, x: real, y: real)
    requires 0.0 <= a <= x && 0.0 <= b <= y && 0.0 < x && 0.0 < y && a * b == x * y
    ensures a == x && b == y
  {
    ProductStrict(a, b, x, y);
    ProductStrict(b, a, y, x);
  }

  lemma ShareIsOne(iw: real, ih: real, aw: real, ah: real, bw: real, bh: real)
    requires 0.0 <= iw <= aw && iw <= bw && 0.0 <= ih <= ah && ih <= bh
    requires aw > 0.0 && ah > 0.0 && bw > 0.0 && bh > 0.0
    ensures Share(iw, ih, aw, ah, bw, bh) == 1.0 <==> iw == aw == bw && ih == ah == bh
  {
    ProductMonotone(iw, ih, aw, ah);
    ProductMonotone(iw, ih, bw, bh);
    var inter, areaA, areaB := iw * ih, aw * ah, bw * bh;
    assert areaA > 0.0 && areaB > 0.0;
    QuotientInUnit(inter, areaA + areaB - inter);
    if inter == areaA == areaB {
      ProductTight(iw, ih, aw, ah);
      ProductTight(iw, ih, bw, bh);
    }
  }

  /** Two boxes of positive area overlap completely exactly when they are the same box. */
  lemma IouIsOneIffEqual(a: PixelBox, b: PixelBox)
    requires a.left < a.right && a.top < a.bottom && b.left < b.right && b.top < b.bottom
    ensures Iou(a, b) == 1.0 <==> a == b
  {
    IntersectionFits(a, b);
    ShareIsOne(InterWidth(a, b), InterHeight(a, b), a.Width(), a.Height(), b.Width(), b.Height());
  }
}
