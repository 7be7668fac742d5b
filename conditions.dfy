/**
 * The two condition predicates of the selfie view model: whether the face
 * landmarker result shows a smile, and whether the gesture recognizer result
 * shows a thumb up.  Both are pure chains of Kotlin collection operations
 * (`take`, `filter`, `all`, `mapNotNull`) and are modelled as functions.
 */
module Conditions {
  import opened Optional

  /** One classifier category: a label and its confidence score. */
  datatype Category = Category(name: string, score: real)

  const FACE_CATEGORY_MOUTH_SMILE: string := "mouthSmile"
  const GESTURE_CATEGORY_THUMB_UP: string := "Thumb_Up"

  // ---------------------------------------------------------------------
  // Kotlin library operations used by the predicates

  /** `sub` occurs in `s` starting at index `i`. */
  predicate OccursAt(s: string, sub: string, i: nat) {
    i + |sub| <= |s| && s[i..i + |sub|] == sub
  }

  /** Kotlin's `String.contains(other)`: a case-sensitive substring search. */
  function Contains(s: string, sub: string): bool
    decreases |s|
  {
    (|sub| <= |s| && s[..|sub|] == sub) || (|s| > 0 && Contains(s[1..], sub))
  }

  /** An occurrence in the tail of `s` is an occurrence in `s` one index further on. */
  lemma OccursAtShift(s: string, sub: string, j: nat)
    requires |s| > 0
    ensures OccursAt(s[1..], sub, j) <==> OccursAt(s, sub, j + 1)
  {
    if j + 1 + |sub| <= |s| {
      assert s[1..][j..j + |sub|] == s[j + 1..j + 1 + |sub|];
    }
  }

  /** The search finds `sub` exactly when `sub` occurs at some index of `s`. */
  lemma {:induction false} ContainsIffOccurs(s: string, sub: string)
    ensures Contains(s, sub) <==> exists i: nat :: OccursAt(s, sub, i)
    decreases |s|
  {
    if |sub| <= |s| && s[..|sub|] == sub {
      assert OccursAt(s, sub, 0);
    } else if |s| > 0 {
      assert Contains(s, sub) == Contains(s[1..], sub);
      ContainsIffOccurs(s[1..], sub);
      if j: nat :| OccursAt(s[1..], sub, j) {
        OccursAtShift(s, sub, j);
      }
      if i: nat :| OccursAt(s, sub, i) {
        assert i != 0;
        OccursAtShift(s, sub, i - 1);
      }
    } else {
      assert !Contains(s, sub);
      forall i: nat ensures !OccursAt(s, sub, i) {
      }
    }
  }

  /** Kotlin's `take(n)`: the first `n` elements, or all of them when there are fewer. */
  function Take<T>(s: seq<T>, n: nat): (r: seq<T>)
    ensures |r| == if n < |s| then n else |s|
    ensures r == s[..|r|]
  {
    if n < |s| then s[..n] else s
  }

  // ---------------------------------------------------------------------
  // faceOk

  /** A blendshape category that the face check looks at. */
  predicate IsMouthSmile(c: Category) {
    Contains(c.name, FACE_CATEGORY_MOUTH_SMILE)
  }

  /** `shapes.filter { it.categoryName().contains("mouthSmile") }` */
  function MouthSmiles(shapes: seq<Category>): (r: seq<Category>)
    ensures forall c :: c in r <==> c in shapes && IsMouthSmile(c)
  {
    if shapes == [] then []
    else
      assert shapes == [shapes[0]] + shapes[1..];
      (if IsMouthSmile(shapes[0]) then [shapes[0]] else []) + MouthSmiles(shapes[1..])
  }

  /** `.all { it.score() > threshold }`: vacuously true of an empty list. */
  function AllScoresAbove(cats: seq<Category>, threshold: real): (r: bool)
    ensures r <==> forall c :: c in cats ==> c.score > threshold
  {
    if cats == [] then true
    else
      assert cats == [cats[0]] + cats[1..];
      cats[0].score > threshold && AllScoresAbove(cats[1..], threshold)
  }

  /** The per-face test: every smile category of the face scores strictly above the threshold. */
  function FaceShapesOk(shapes: seq<Category>, threshold: real): (r: bool)
    ensures r <==> forall c :: c in shapes && IsMouthSmile(c) ==> c.score > threshold
  {
    AllScoresAbove(MouthSmiles(shapes), threshold)
  }

  /** `faces.all { shapes -> ... }` over the per-face test. */
  function AllFacesOk(faces: seq<seq<Category>>, threshold: real): (r: bool)
    ensures r <==> forall i :: 0 <= i < |faces| ==> FaceShapesOk(faces[i], threshold)
  {
    if faces == [] then true
    else FaceShapesOk(faces[0], threshold) && AllFacesOk(faces[1..], threshold)
  }

  /**
   * `onFaceLandmarkerResults`' condition: absent blendshapes give false;
   * otherwise every one of the first `facesCount` faces must pass.
   */
  function FaceOk(blendshapes: Option<seq<seq<Category>>>, facesCount: nat, threshold: real): (r: bool)
    ensures blendshapes.None? ==> !r
    ensures blendshapes.Some? && (facesCount == 0 || blendshapes.value == []) ==> r
  {
    match blendshapes
    case None => false
    case Some(faces) => AllFacesOk(Take(faces, facesCount), threshold)
  }

  /**
   * What faceOk means: the blendshape data is present, and in each of the
   * first `facesCount` faces every category whose name contains "mouthSmile"
   * scores strictly above the threshold.
   */
  lemma FaceOkMeaning(blendshapes: Option<seq<seq<Category>>>, facesCount: nat, threshold: real)
    ensures FaceOk(blendshapes, facesCount, threshold) <==>
      blendshapes.Some? &&
      forall i, c :: 0 <= i < |blendshapes.value| && i < facesCount && c in blendshapes.value[i] && IsMouthSmile(c)
        ==> c.score > threshold
  {
    if blendshapes.Some? {
      var faces := blendshapes.value;
      var taken := Take(faces, facesCount);
      if FaceOk(blendshapes, facesCount, threshold) {
        forall i, c | 0 <= i < |faces| && i < facesCount && c in faces[i] && IsMouthSmile(c)
          ensures c.score > threshold
        {
          assert taken[i] == faces[i];
          assert FaceShapesOk(taken[i], threshold);
        }
      } else {
        var i :| 0 <= i < |taken| && !FaceShapesOk(taken[i], threshold);
        assert taken[i] == faces[i];
      }
    }
  }

  /** Faces after the first `facesCount` never affect faceOk. */
  lemma FaceOkIgnoresFacesBeyondCount(faces: seq<seq<Category>>, more: seq<seq<Category>>, facesCount: nat, threshold: real)
    requires facesCount <= |faces|
    ensures FaceOk(Some(faces + more), facesCount, threshold) == FaceOk(Some(faces), facesCount, threshold)
  {
    assert Take(faces + more, facesCount) == Take(faces, facesCount);
  }

  /**
   * The `all` is vacuous: with no face, or with faces that carry no smile
   * category at all, faceOk holds as long as blendshape data is present.
   */
  lemma FaceOkWithoutSmileCategories(faces: seq<seq<Category>>, facesCount: nat, threshold: real)
    requires forall i, c :: 0 <= i < |faces| && c in faces[i] ==> !IsMouthSmile(c)
    ensures FaceOk(Some(faces), facesCount, threshold)
  {
    FaceOkMeaning(Some(faces), facesCount, threshold);
  }

  /** A name shorter than the pattern cannot contain it. */
  lemma {:induction false} ShorterNeverContains(s: string, sub: string)
    requires |s| < |sub|
    ensures !Contains(s, sub)
    decreases |s|
  {
    if |s| > 0 {
      ShorterNeverContains(s[1..], sub);
    }
  }

  /** The one-face frame of the smile scenario: left and right smile at `score`, and a short non-smile category. */
  function SmileFrame(score: real): seq<seq<Category>> {
    [[Category("mouthSmileLeft", score), Category("mouthSmileRight", score), Category("jawOpen", 0.9)]]
  }

  /**
   * One face whose two smile categories score `score`: faceOk holds exactly
   * when `score` is strictly above the threshold, so scores 0.3, 0.6 and 0.7
   * in three successive frames give false, true, true against 0.5, and a
   * score equal to the threshold fails.
   */
  lemma SmileFrameScenario(score: real, facesCount: nat, threshold: real)
    requires facesCount >= 1
    ensures FaceOk(Some(SmileFrame(score)), facesCount, threshold) <==> score > threshold
  {
    assert "mouthSmileLeft"[..|FACE_CATEGORY_MOUTH_SMILE|] == FACE_CATEGORY_MOUTH_SMILE;
    ShorterNeverContains("jawOpen", FACE_CATEGORY_MOUTH_SMILE);
    FaceOkMeaning(Some(SmileFrame(score)), facesCount, threshold);
    if FaceOk(Some(SmileFrame(score)), facesCount, threshold) {
      assert Category("mouthSmileLeft", score) in SmileFrame(score)[0];
    }
  }

  // ---------------------------------------------------------------------
  // gestureOk

  /** `hands.mapNotNull { it.firstOrNull() }`: the top-ranked category of each hand that has one. */
  function TopGestures(hands: seq<seq<Category>>): (r: seq<Category>)
    ensures |r| <= |hands|
    ensures forall c :: c in r <==> exists i :: 0 <= i < |hands| && hands[i] != [] && hands[i][0] == c
  {
    if hands == [] then []
    else
      var rest := TopGestures(hands[1..]);
      var r := (if hands[0] != [] then [hands[0][0]] else []) + rest;
      assert forall c :: c in rest <==> exists i :: 1 <= i < |hands| && hands[i] != [] && hands[i][0] == c by {
        forall c | c in rest ensures exists i :: 1 <= i < |hands| && hands[i] != [] && hands[i][0] == c {
          var j :| 0 <= j < |hands[1..]| && hands[1..][j] != [] && hands[1..][j][0] == c;
          assert hands[j + 1] == hands[1..][j];
        }
        forall c, i | 1 <= i < |hands| && hands[i] != [] && hands[i][0] == c ensures c in rest {
          assert hands[1..][i - 1] == hands[i];
        }
      }
      r
  }

  /** `.all { "Thumb_Up" == it.categoryName() }`: vacuously true of an empty list. */
  function AllThumbUp(labels: seq<Category>): (r: bool)
    ensures r <==> forall c :: c in labels ==> c.name == GESTURE_CATEGORY_THUMB_UP
  {
    if labels == [] then true
    else
      assert labels == [labels[0]] + labels[1..];
      labels[0].name == GESTURE_CATEGORY_THUMB_UP && AllThumbUp(labels[1..])
  }

  /**
   * `onGestureResults`' condition on the gestures of the first recognizer
   * result: at least one of the first `handsCount` hands is present, and the
   * top label of each of them that has a label is exactly "Thumb_Up".
   */
  function GestureOk(hands: seq<seq<Category>>, handsCount: nat): (r: bool)
    ensures r ==> 0 < handsCount && 0 < |hands|
  {
    var gestures := Take(hands, handsCount);
    |gestures| > 0 && AllThumbUp(TopGestures(gestures))
  }

  /**
   * What gestureOk means: some hand remains after taking `handsCount`, and
   * every remaining hand with a non-empty label list has "Thumb_Up" on top.
   */
  lemma GestureOkMeaning(hands: seq<seq<Category>>, handsCount: nat)
    ensures GestureOk(hands, handsCount) <==>
      0 < handsCount && 0 < |hands| &&
      forall i :: 0 <= i < |hands| && i < handsCount && hands[i] != [] ==> hands[i][0].name == GESTURE_CATEGORY_THUMB_UP
  {
    var taken := Take(hands, handsCount);
    if GestureOk(hands, handsCount) {
      forall i | 0 <= i < |hands| && i < handsCount && hands[i] != []
        ensures hands[i][0].name == GESTURE_CATEGORY_THUMB_UP
      {
        assert taken[i] == hands[i];
        assert hands[i][0] in TopGestures(taken);
      }
    } else if |taken| > 0 {
      var c :| c in TopGestures(taken) && c.name != GESTURE_CATEGORY_THUMB_UP;
      var i :| 0 <= i < |taken| && taken[i] != [] && taken[i][0] == c;
      assert taken[i] == hands[i];
    }
  }

  /** No hand left after the truncation (none detected, or a count of zero) means no gesture. */
  lemma GestureOkNeedsAHand(hands: seq<seq<Category>>, handsCount: nat)
    requires hands == [] || handsCount == 0
    ensures !GestureOk(hands, handsCount)
  {
  }

  /** Hands after the first `handsCount` never affect gestureOk. */
  lemma GestureOkIgnoresHandsBeyondCount(hands: seq<seq<Category>>, more: seq<seq<Category>>, handsCount: nat)
    requires handsCount <= |hands|
    ensures GestureOk(hands + more, handsCount) == GestureOk(hands, handsCount)
  {
    assert Take(hands + more, handsCount) == Take(hands, handsCount);
  }

  /** Hands with no label at all are skipped by `mapNotNull`, so they never fail the check. */
  lemma GestureOkUnlabelledHands(hands: seq<seq<Category>>, handsCount: nat)
    requires 0 < handsCount && 0 < |hands|
    requires forall i :: 0 <= i < |hands| ==> hands[i] == []
    ensures GestureOk(hands, handsCount)
  {
    GestureOkMeaning(hands, handsCount);
  }

  /** Two thumbs up pass; a thumb up beside an open palm does not. */
  lemma TwoHandsScenario(handsCount: nat)
    requires handsCount >= 2
    ensures GestureOk([[Category("Thumb_Up", 0.9)], [Category("Thumb_Up", 0.8), Category("Open_Palm", 0.1)]], handsCount)
    ensures !GestureOk([[Category("Thumb_Up", 0.9)], [Category("Open_Palm", 0.8), Category("Thumb_Up", 0.1)]], handsCount)
  {
    GestureOkMeaning([[Category("Thumb_Up", 0.9)], [Category("Thumb_Up", 0.8), Category("Open_Palm", 0.1)]], handsCount);
    GestureOkMeaning([[Category("Thumb_Up", 0.9)], [Category("Open_Palm", 0.8), Category("Thumb_Up", 0.1)]], handsCount);
  }
}
