/** MediaPipe's 21 hand landmarks: the table MP_HAND_LANDMARK_NAME2INDEX of
  * mp_landmark_index.py, its name list and its inverse, each derived from the
  * dict literal exactly as Python evaluates it (see PyDict). */
module HandIndex {
  import opened PyDict

  /** The literal of MP_HAND_LANDMARK_NAME2INDEX, item by item. */
  const HandLiteral: seq<(string, nat)> := [
    ("wrist", 0),
    ("thumb_cmc", 1), ("thumb_mcp", 2), ("thumb_ip", 3), ("thumb_tip", 4),
    ("index_finger_mcp", 5), ("index_finger_pip", 6), ("index_finger_dip", 7), ("index_finger_tip", 8),
    ("middle_finger_mcp", 9), ("middle_finger_pip", 10), ("middle_finger_dip", 11), ("middle_finger_tip", 12),
    ("ring_finger_mcp", 13), ("ring_finger_pip", 14), ("ring_finger_dip", 15), ("ring_finger_tip", 16),
    ("pinky_finger_mcp", 17), ("pinky_finger_pip", 18), ("pinky_finger_dip", 19), ("pinky_finger_tip", 20)
  ]

  const HandDict: seq<(string, nat)> := FromItems(HandLiteral)
  /** MP_HAND_LANDMARK_NAME2INDEX */
  const HandName2Index: map<string, nat> := ToMap(HandDict)
  /** MP_HAND_LANDMARK_NAMES */
  const HandNames: seq<string> := Keys(HandDict)
  /** MP_HAND_LANDMARK_INDEX2NAME */
  const HandIndex2Name: map<nat, string> := ToMap(Inverted(HandDict))

  lemma HandLiteralShape()
    ensures |HandLiteral| == 21 && Distinct(Keys(HandLiteral))
    ensures forall i :: 0 <= i < 21 ==> HandLiteral[i].1 == i
  {
  }

  lemma HandLiteralHead()
    ensures |HandLiteral| == 21 && HandLiteral[0].0 == "wrist"
    ensures "shoulder" !in Keys(HandLiteral) && "elbow" !in Keys(HandLiteral)
  {
  }

  lemma HandTable()
    ensures HandNames == Keys(HandLiteral)
    ensures |HandNames| == 21 && Distinct(HandNames)
    ensures forall i :: 0 <= i < 21 ==> HandNames[i] in HandName2Index && HandName2Index[HandNames[i]] == i
    ensures forall name :: name in HandName2Index <==> name in HandNames
  {
    HandLiteralShape();
    FromItemsOfDistinct(HandLiteral);
    HandDictValues();
    forall i | 0 <= i < 21 ensures HandNames[i] in HandName2Index && HandName2Index[HandNames[i]] == i {
      assert HandNames[i] == HandDict[i].0;
    }
    HandDomain();
  }

  lemma HandDomain()
    ensures forall name :: name in HandName2Index <==> name in HandNames
  {
  }

  lemma HandDictValues()
    ensures |HandDict| == 21 && forall i :: 0 <= i < 21 ==> HandDict[i].1 == i
  {
    HandLiteralShape();
    FromItemsOfDistinct(HandLiteral);
  }

  lemma HandValues()
    ensures Distinct(Values(HandDict))
    ensures forall i: nat :: i in Values(HandDict) <==> i < 21
  {
    HandDictValues();
    assert |Values(HandDict)| == 21 && forall i :: 0 <= i < 21 ==> Values(HandDict)[i] == i;
    forall i: nat ensures i in Values(HandDict) <==> i < 21 {
      if i < 21 {
        assert Values(HandDict)[i] == i;
      }
    }
  }

  /** MP_HAND_LANDMARK_INDEX2NAME sends each index 0..20 back to the name
    * that has it, and has no other keys. */
  lemma HandInverse()
    ensures |HandNames| == 21
    ensures forall i: nat :: i in HandIndex2Name <==> i < 21
    ensures forall i :: 0 <= i < 21 ==> i in HandIndex2Name && HandIndex2Name[i] == HandNames[i]
  {
    HandDictValues();
    HandValues();
    InvertedExact(HandDict);
    forall i | 0 <= i < 21 ensures HandIndex2Name[i] == HandNames[i] {
      assert HandDict[i].1 == i;
    }
  }

  /** Looking a hand name up and then its index up gives the name back. */
  lemma HandRoundTrip(name: string)
    requires name in HandName2Index
    ensures HandName2Index[name] in HandIndex2Name && HandIndex2Name[HandName2Index[name]] == name
  {
    HandTable();
    HandInverse();
    var i :| 0 <= i < 21 && HandNames[i] == name;
  }
}
