/** MediaPipe's 33 pose landmarks, named for the horizontally flipped image:
  * the table MP_POSE_LANDMARK_NAME2INDEX of mp_landmark_index.py, its name
  * list and its inverse, and the defects of its literal (a repeated key, two
  * misspelled keys, a repeated value). */
module PoseIndex {
  import opened PyDict

  /** The literal of MP_POSE_LANDMARK_NAME2INDEX, item by item: the items
    * before its repeated key "left_eye", that repeated item, and the items
    * after it (with the misspelled "left__elbow"/"left__wrist" and the value
    * 18 given twice). */
  const PoseLiteral: seq<(string, nat)> := PoseLiteralHead + [("left_eye", 8)] + PoseLiteralTail

  const PoseLiteralHead: seq<(string, nat)> := [
    ("nose", 0),
    ("right_eye_inner", 1), ("right_eye", 2), ("right_eye_outer", 3),
    ("left_eye_inner", 4), ("left_eye", 5), ("left_eye_outer", 6),
    ("right_ear", 7)
  ]

  const PoseLiteralTail: seq<(string, nat)> := PoseTailUpper + PoseTailLower

  /** Mouth, arms and hands. */
  const PoseTailUpper: seq<(string, nat)> := [
    ("mouth_right", 9), ("mouth_left", 10),
    ("right_shoulder", 11), ("left_shoulder", 12),
    ("right_elbow", 13), ("left__elbow", 14),
    ("right_wrist", 15), ("left__wrist", 16),
    ("right_pinky", 17), ("left_pinky", 18),
    ("right_index", 18), ("left_index", 20)
  ]

  /** Thumbs and legs. */
  const PoseTailLower: seq<(string, nat)> := [
    ("right_thumb", 21), ("left_thumb", 22),
    ("right_hip", 23), ("left_hip", 24),
    ("right_knee", 25), ("left_knee", 26),
    ("right_ankle", 27), ("left_ankle", 28),
    ("right_heel", 29), ("left_heel", 30),
    ("right_foot_index", 31), ("left_foot_index", 32)
  ]

  /** The first eight items of the evaluated dict: the later "left_eye" item
    * has overwritten the earlier one's value in place. */
  const PoseEvaluatedHead: seq<(string, nat)> := [
    ("nose", 0),
    ("right_eye_inner", 1), ("right_eye", 2), ("right_eye_outer", 3),
    ("left_eye_inner", 4), ("left_eye", 8), ("left_eye_outer", 6),
    ("right_ear", 7)
  ]

  const PoseDict: seq<(string, nat)> := FromItems(PoseLiteral)
  /** MP_POSE_LANDMARK_NAME2INDEX */
  const PoseName2Index: map<string, nat> := ToMap(PoseDict)
  /** MP_POSE_LANDMARK_NAMES */
  const PoseNames: seq<string> := Keys(PoseDict)
  /** MP_POSE_LANDMARK_INDEX2NAME */
  const PoseIndex2Name: map<nat, string> := ToMap(Inverted(PoseDict))

  // ---------------------------------------------------------------------
  // Evaluating the literal

  lemma PoseHeadShape()
    ensures |PoseLiteralHead| == 8 && PoseLiteralHead[5].0 == "left_eye"
    ensures Distinct(Keys(PoseLiteralHead))
    ensures PoseLiteralHead[5 := ("left_eye", 8)] == PoseEvaluatedHead
  {
  }

  lemma PoseUpperShape()
    ensures |PoseTailUpper| == 12 && Distinct(Keys(PoseTailUpper))
    ensures forall k :: k in Keys(PoseTailUpper) ==> k !in Keys(PoseLiteralHead)
  {
  }

  lemma PoseLowerShape()
    ensures |PoseTailLower| == 12 && Distinct(Keys(PoseTailLower))
    ensures forall k :: k in Keys(PoseTailLower) ==> k !in Keys(PoseLiteralHead)
  {
  }

  lemma PoseUpperLowerDisjoint()
    ensures forall k :: k in Keys(PoseTailUpper) ==> k !in Keys(PoseTailLower)
  {
  }

  lemma PoseTailShape()
    ensures |PoseLiteralTail| == 24 && Distinct(Keys(PoseLiteralTail))
    ensures forall k :: k in Keys(PoseLiteralTail) ==> k !in Keys(PoseLiteralHead)
  {
    PoseUpperShape();
    PoseLowerShape();
    PoseUpperLowerDisjoint();
    KeysConcat(PoseTailUpper, PoseTailLower);
    DistinctConcat(Keys(PoseTailUpper), Keys(PoseTailLower));
  }

  /** The dict that the pose literal evaluates to, item by item. */
  lemma PoseDictItems()
    ensures PoseDict == PoseEvaluatedHead + PoseTailUpper + PoseTailLower
  {
    PoseHeadShape();
    PoseTailShape();
    FromItemsRepeatedKey(PoseLiteralHead, 5, 8, PoseLiteralTail);
  }

  lemma PoseValueRanges()
    ensures forall i :: 0 <= i < 8 ==> PoseEvaluatedHead[i].1 <= 8 && PoseEvaluatedHead[i].1 != 5
    ensures forall i :: 0 <= i < 12 ==> 9 <= PoseTailUpper[i].1 <= 20 && PoseTailUpper[i].1 != 19
    ensures forall i :: 0 <= i < 12 ==> PoseTailLower[i].1 > 20
    ensures PoseTailUpper[9] == ("left_pinky", 18) && PoseTailUpper[10] == ("right_index", 18)
    ensures PoseTailUpper[11].1 == 20
  {
  }

  /** The values of the evaluated dict, by position. */
  lemma PoseDictValues()
    ensures |PoseDict| == 32
    ensures forall i :: 0 <= i < 32 ==> PoseDict[i].1 != 5 && PoseDict[i].1 != 19
    ensures PoseDict[17] == ("left_pinky", 18) && PoseDict[18] == ("right_index", 18)
    ensures forall j :: 18 < j < 32 ==> PoseDict[j].1 != 18
  {
    PoseDictItems();
    PoseValueRanges();
    forall i | 0 <= i < 32
      ensures PoseDict[i].1 != 5 && PoseDict[i].1 != 19
      ensures 18 < i ==> PoseDict[i].1 != 18
    {
      if i < 8 {
        assert PoseDict[i] == PoseEvaluatedHead[i];
      } else if i < 20 {
        assert PoseDict[i] == PoseTailUpper[i - 8];
      } else {
        assert PoseDict[i] == PoseTailLower[i - 20];
      }
    }
  }

  lemma PoseMisspelledKeys()
    ensures "left_elbow" !in Keys(PoseEvaluatedHead) && "left_wrist" !in Keys(PoseEvaluatedHead)
    ensures "left_elbow" !in Keys(PoseTailUpper) && "left_wrist" !in Keys(PoseTailUpper)
    ensures "left_elbow" !in Keys(PoseTailLower) && "left_wrist" !in Keys(PoseTailLower)
  {
  }

  // ---------------------------------------------------------------------
  // What the evaluated table says

  /** How Python evaluates the pose literal: the second "left_eye" item
    * overwrites the first in place and adds no key, so
    * MP_POSE_LANDMARK_NAMES has 32 names and "left_eye" maps to 8. */
  lemma PoseTable()
    ensures |PoseNames| == 32 && Distinct(PoseNames)
    ensures PoseNames[5] == "left_eye" && "left_eye" in PoseName2Index && PoseName2Index["left_eye"] == 8
  {
    PoseDictItems();
    assert PoseDict[5] == ("left_eye", 8);
  }

  /** In the flipped-image pose table the right arm is shoulder 11, elbow 13
    * and wrist 15. */
  lemma PoseRightArm()
    ensures "right_shoulder" in PoseName2Index && PoseName2Index["right_shoulder"] == 11
    ensures "right_elbow" in PoseName2Index && PoseName2Index["right_elbow"] == 13
    ensures "right_wrist" in PoseName2Index && PoseName2Index["right_wrist"] == 15
  {
    PoseArmItems();
  }

  /** The left elbow and wrist keys are misspelled with a double underscore,
    * so f'left_{name}' finds the left shoulder but not the left elbow or
    * wrist. */
  lemma PoseLeftArmMisspelled()
    ensures "left__elbow" in PoseName2Index && "left__wrist" in PoseName2Index
    ensures "left_elbow" !in PoseName2Index && "left_wrist" !in PoseName2Index
    ensures "left_shoulder" in PoseName2Index
  {
    PoseLeftArmKeys();
    PoseNamesParts();
    PoseMisspelledKeys();
    assert "left_elbow" !in PoseNames && "left_wrist" !in PoseNames;
  }

  lemma PoseLeftArmKeys()
    ensures "left__elbow" in PoseName2Index && "left__wrist" in PoseName2Index
    ensures "left_shoulder" in PoseName2Index
  {
    PoseArmItems();
  }

  /** The items of both arms in the evaluated dict. */
  lemma PoseArmItems()
    ensures |PoseDict| == 32
    ensures PoseDict[10] == ("right_shoulder", 11) && PoseDict[11] == ("left_shoulder", 12)
    ensures PoseDict[12] == ("right_elbow", 13) && PoseDict[13] == ("left__elbow", 14)
    ensures PoseDict[14] == ("right_wrist", 15) && PoseDict[15] == ("left__wrist", 16)
  {
    PoseUpperItems();
    PoseUpperArms();
  }

  /** The upper tail sits at positions 8..19 of the evaluated dict. */
  lemma PoseUpperItems()
    ensures |PoseDict| == 32
    ensures forall j :: 0 <= j < 12 ==> PoseDict[8 + j] == PoseTailUpper[j]
  {
    PoseDictItems();
    assert |PoseEvaluatedHead| == 8 && |PoseTailUpper| == 12 && |PoseTailLower| == 12;
  }

  lemma PoseUpperArms()
    ensures PoseTailUpper[2] == ("right_shoulder", 11) && PoseTailUpper[3] == ("left_shoulder", 12)
    ensures PoseTailUpper[4] == ("right_elbow", 13) && PoseTailUpper[5] == ("left__elbow", 14)
    ensures PoseTailUpper[6] == ("right_wrist", 15) && PoseTailUpper[7] == ("left__wrist", 16)
  {
  }

  lemma PoseNamesParts()
    ensures PoseNames == Keys(PoseEvaluatedHead) + Keys(PoseTailUpper) + Keys(PoseTailLower)
  {
    PoseDictItems();
    KeysConcat(PoseEvaluatedHead, PoseTailUpper);
    KeysConcat(PoseEvaluatedHead + PoseTailUpper, PoseTailLower);
  }

  /** The pose table is not injective: left_pinky and right_index both map
    * to 18. The inverse keeps the later one for 18 and has no entry for 19. */
  lemma PoseIndex18Shared()
    ensures "left_pinky" in PoseName2Index && PoseName2Index["left_pinky"] == 18
    ensures "right_index" in PoseName2Index && PoseName2Index["right_index"] == 18
    ensures 18 in PoseIndex2Name && PoseIndex2Name[18] == "right_index"
    ensures 19 !in PoseIndex2Name
  {
    PoseDictValues();
    InverseLastWins(PoseDict, 18);
    ValueAbsent(PoseDict, 19);
  }

  /** After the repeated "left_eye" took the value 8, no key maps to 5 and
    * the inverse has no entry for 5. */
  lemma PoseIndex5Unnamed()
    ensures forall name :: name in PoseName2Index ==> PoseName2Index[name] != 5
    ensures 5 !in PoseIndex2Name
  {
    PoseDictValues();
    ValueAbsent(PoseDict, 5);
  }
}
