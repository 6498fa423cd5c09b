/** The name lookups that `process` performs: each one-side name, prefixed
  * with "right_" for the arm, is looked up in the pose table, and each of
  * the remaining names in the hand table. */
module ArmHandNames {
  import opened PyDict
  import opened HandIndex
  import opened PoseIndex
  import opened SingleHandArmIndex

  /** f'right_{name}' for the first three one-side names finds the pose
    * indices 11, 13 and 15 (shoulder, elbow, wrist). */
  lemma RightArmLookups()
    ensures |OneSideHandArmNames| == 23
    ensures forall k :: 0 <= k < 3 ==>
      "right_" + OneSideHandArmNames[k] in PoseName2Index &&
      PoseName2Index["right_" + OneSideHandArmNames[k]] == 11 + 2 * k
  {
    OneSideHead();
    PoseRightArm();
    ArmKeys();
    forall k | 0 <= k < 3
      ensures "right_" + OneSideHandArmNames[k] in PoseName2Index
      ensures PoseName2Index["right_" + OneSideHandArmNames[k]] == 11 + 2 * k
    {
      if k == 0 {
        assert "right_" + OneSideHandArmNames[k] == "right_shoulder";
      } else if k == 1 {
        assert "right_" + OneSideHandArmNames[k] == "right_elbow";
      } else {
        assert "right_" + OneSideHandArmNames[k] == "right_wrist";
      }
    }
  }

  /** The same lookups for the left arm, f'left_{name}', find the shoulder
    * but fail (KeyError) for the elbow and the wrist. */
  lemma LeftArmLookups()
    ensures |OneSideHandArmNames| == 23
    ensures "left_" + OneSideHandArmNames[0] in PoseName2Index
    ensures "left_" + OneSideHandArmNames[1] !in PoseName2Index
    ensures "left_" + OneSideHandArmNames[2] !in PoseName2Index
  {
    OneSideHead();
    PoseLeftArmMisspelled();
    ArmKeys();
  }

  /** The f-strings f'right_{name}' and f'left_{name}' for the three arm
    * names. */
  lemma ArmKeys()
    ensures "right_" + "shoulder" == "right_shoulder" && "left_" + "shoulder" == "left_shoulder"
    ensures "right_" + "elbow" == "right_elbow" && "left_" + "elbow" == "left_elbow"
    ensures "right_" + "wrist" == "right_wrist" && "left_" + "wrist" == "left_wrist"
  {
  }

  /** Every one-side name after shoulder and elbow is a hand name whose hand
    * index is its one-side index minus 2; only the first of them is "wrist". */
  lemma HandLookups()
    ensures |OneSideHandArmNames| == 23
    ensures OneSideHandArmNames[2] == "wrist"
    ensures forall k :: 0 <= k < 21 ==>
      OneSideHandArmNames[2..][k] in HandName2Index && HandName2Index[OneSideHandArmNames[2..][k]] == k
    ensures forall k :: 0 < k < 21 ==> OneSideHandArmNames[2..][k] != "wrist"
  {
    HandTable();
    OneSideHead();
    OneSideTailIsHandNames();
    forall k | 0 < k < 21 ensures OneSideHandArmNames[2..][k] != "wrist" {
      assert HandNames[k] != HandNames[0];
    }
  }
}
