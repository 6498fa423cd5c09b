/** The 23 landmarks of one arm with its hand: SINGLE_HAND_ARM_LANDMARK_NAME2INDEX
  * of mp_landmark_index.py, ONESIDE_HAND_ARM_LANDMARK_NAMES, the inverse map
  * and the IntEnum SINGLEHANDARM_LANDMARK. */
module SingleHandArmIndex {
  import opened PyDict
  import opened HandIndex

  /** The literal of SINGLE_HAND_ARM_LANDMARK_NAME2INDEX, item by item. */
  const SingleHandArmLiteral: seq<(string, nat)> := [
    ("shoulder", 0),
    ("elbow", 1),
    ("wrist", 2),
    ("thumb_cmc", 3), ("thumb_mcp", 4), ("thumb_ip", 5), ("thumb_tip", 6),
    ("index_finger_mcp", 7), ("index_finger_pip", 8), ("index_finger_dip", 9), ("index_finger_tip", 10),
    ("middle_finger_mcp", 11), ("middle_finger_pip", 12), ("middle_finger_dip", 13), ("middle_finger_tip", 14),
    ("ring_finger_mcp", 15), ("ring_finger_pip", 16), ("ring_finger_dip", 17), ("ring_finger_tip", 18),
    ("pinky_finger_mcp", 19), ("pinky_finger_pip", 20), ("pinky_finger_dip", 21), ("pinky_finger_tip", 22)
  ]

  const SingleHandArmDict: seq<(string, nat)> := FromItems(SingleHandArmLiteral)
  /** SINGLE_HAND_ARM_LANDMARK_NAME2INDEX */
  const SingleHandArmName2Index: map<string, nat> := ToMap(SingleHandArmDict)
  /** ONESIDE_HAND_ARM_LANDMARK_NAMES */
  const OneSideHandArmNames: seq<string> := Keys(SingleHandArmDict)
  /** SINGLE_HAND_ARM_LANDMARK_INDEX2NAME */
  const SingleHandArmIndex2Name: map<nat, string> := ToMap(Inverted(SingleHandArmDict))

  /** The IntEnum SINGLEHANDARM_LANDMARK. */
  datatype SingleHandArmLandmark =
    | Shoulder | Elbow | Wrist
    | ThumbCmc | ThumbMcp | ThumbIp | ThumbTip
    | IndexFingerMcp | IndexFingerPip | IndexFingerDip | IndexFingerTip
    | MiddleFingerMcp | MiddleFingerPip | MiddleFingerDip | MiddleFingerTip
    | RingFingerMcp | RingFingerPip | RingFingerDip | RingFingerTip
    | PinkyMcp | PinkyPip | PinkyDip | PinkyTip

  /** The integer value the enum declares for each member. */
  function Value(e: SingleHandArmLandmark): nat
  {
    match e
    case Shoulder => 0  case Elbow => 1  case Wrist => 2
    case ThumbCmc => 3  case ThumbMcp => 4  case ThumbIp => 5  case ThumbTip => 6
    case IndexFingerMcp => 7  case IndexFingerPip => 8  case IndexFingerDip => 9  case IndexFingerTip => 10
    case MiddleFingerMcp => 11  case MiddleFingerPip => 12  case MiddleFingerDip => 13  case MiddleFingerTip => 14
    case RingFingerMcp => 15  case RingFingerPip => 16  case RingFingerDip => 17  case RingFingerTip => 18
    case PinkyMcp => 19  case PinkyPip => 20  case PinkyDip => 21  case PinkyTip => 22
  }

  /** The member's name, lower-cased (the enum spells it in capitals, the
    * tables in lower case). */
  function MemberName(e: SingleHandArmLandmark): string
  {
    match e
    case Shoulder => "shoulder"
    case Elbow => "elbow"
    case Wrist => "wrist"
    case ThumbCmc => "thumb_cmc"
    case ThumbMcp => "thumb_mcp"
    case ThumbIp => "thumb_ip"
    case ThumbTip => "thumb_tip"
    case IndexFingerMcp => "index_finger_mcp"
    case IndexFingerPip => "index_finger_pip"
    case IndexFingerDip => "index_finger_dip"
    case IndexFingerTip => "index_finger_tip"
    case MiddleFingerMcp => "middle_finger_mcp"
    case MiddleFingerPip => "middle_finger_pip"
    case MiddleFingerDip => "middle_finger_dip"
    case MiddleFingerTip => "middle_finger_tip"
    case RingFingerMcp => "ring_finger_mcp"
    case RingFingerPip => "ring_finger_pip"
    case RingFingerDip => "ring_finger_dip"
    case RingFingerTip => "ring_finger_tip"
    case PinkyMcp => "pinky_mcp"
    case PinkyPip => "pinky_pip"
    case PinkyDip => "pinky_dip"
    case PinkyTip => "pinky_tip"
  }

  // ---------------------------------------------------------------------
  // Evaluating the literal

  lemma SingleHandArmLiteralShape()
    ensures |SingleHandArmLiteral| == 23 && Distinct(Keys(SingleHandArmLiteral))
    ensures forall i :: 0 <= i < 23 ==> SingleHandArmLiteral[i].1 == i
    ensures Keys(SingleHandArmLiteral)[..3] == ["shoulder", "elbow", "wrist"]
    ensures Keys(SingleHandArmLiteral)[2..] == Keys(HandLiteral)
  {
    SingleHandArmLiteralValues();
    SingleHandArmLiteralKeys();
    HandLiteralShape();
    HandLiteralHead();
    DistinctConcat(["shoulder", "elbow"], Keys(HandLiteral));
  }

  lemma SingleHandArmLiteralValues()
    ensures |SingleHandArmLiteral| == 23
    ensures forall i :: 0 <= i < 23 ==> SingleHandArmLiteral[i].1 == i
  {
  }

  /** The one-side keys are shoulder and elbow followed by the hand keys. */
  lemma SingleHandArmLiteralKeys()
    ensures Keys(SingleHandArmLiteral) == ["shoulder", "elbow"] + Keys(HandLiteral)
  {
    SingleHandArmLiteralAlignsWithHand();
    KeysFrom(SingleHandArmLiteral, HandLiteral, 2);
    assert Keys(SingleHandArmLiteral) == Keys(SingleHandArmLiteral)[..2] + Keys(SingleHandArmLiteral)[2..];
  }

  lemma SingleHandArmLiteralAlignsWithHand()
    ensures |SingleHandArmLiteral| == 23 && |HandLiteral| == 21
    ensures SingleHandArmLiteral[0].0 == "shoulder" && SingleHandArmLiteral[1].0 == "elbow"
    ensures forall i :: 0 <= i < 21 ==> SingleHandArmLiteral[2 + i].0 == HandLiteral[i].0
  {
  }

  /** The one-side table gives 23 distinct names the indices 0..22 in the
    * order written, and ONESIDE_HAND_ARM_LANDMARK_NAMES lists them in that
    * order, starting with shoulder, elbow and wrist. */
  lemma SingleHandArmTable()
    ensures OneSideHandArmNames == Keys(SingleHandArmLiteral)
    ensures |OneSideHandArmNames| == 23 && Distinct(OneSideHandArmNames)
    ensures OneSideHandArmNames[..3] == ["shoulder", "elbow", "wrist"]
    ensures forall i :: 0 <= i < 23 ==>
      OneSideHandArmNames[i] in SingleHandArmName2Index && SingleHandArmName2Index[OneSideHandArmNames[i]] == i
    ensures forall name :: name in SingleHandArmName2Index <==> name in OneSideHandArmNames
  {
    SingleHandArmLiteralShape();
    FromItemsOfDistinct(SingleHandArmLiteral);
    SingleHandArmDictValues();
    SingleHandArmDomain();
    forall i | 0 <= i < 23
      ensures OneSideHandArmNames[i] in SingleHandArmName2Index && SingleHandArmName2Index[OneSideHandArmNames[i]] == i
    {
      assert OneSideHandArmNames[i] == SingleHandArmDict[i].0;
    }
  }

  lemma SingleHandArmDomain()
    ensures forall name :: name in SingleHandArmName2Index <==> name in OneSideHandArmNames
  {
  }

  lemma SingleHandArmDictValues()
    ensures |SingleHandArmDict| == 23 && forall i :: 0 <= i < 23 ==> SingleHandArmDict[i].1 == i
  {
    SingleHandArmLiteralShape();
    FromItemsOfDistinct(SingleHandArmLiteral);
  }

  lemma SingleHandArmValues()
    ensures Distinct(Values(SingleHandArmDict))
    ensures forall i: nat :: i in Values(SingleHandArmDict) <==> i < 23
  {
    SingleHandArmDictValues();
    assert |Values(SingleHandArmDict)| == 23 && forall i :: 0 <= i < 23 ==> Values(SingleHandArmDict)[i] == i;
    forall i: nat ensures i in Values(SingleHandArmDict) <==> i < 23 {
      if i < 23 {
        assert Values(SingleHandArmDict)[i] == i;
      }
    }
  }

  /** SINGLE_HAND_ARM_LANDMARK_INDEX2NAME sends each index 0..22 back to the
    * one-side name that has it, and has no other keys. */
  lemma SingleHandArmInverse()
    ensures |OneSideHandArmNames| == 23
    ensures forall i: nat :: i in SingleHandArmIndex2Name <==> i < 23
    ensures forall i :: 0 <= i < 23 ==>
      i in SingleHandArmIndex2Name && SingleHandArmIndex2Name[i] == OneSideHandArmNames[i]
  {
    SingleHandArmDictValues();
    SingleHandArmValues();
    InvertedExact(SingleHandArmDict);
    forall i | 0 <= i < 23 ensures SingleHandArmIndex2Name[i] == OneSideHandArmNames[i] {
      assert SingleHandArmDict[i].1 == i;
    }
  }

  /** After shoulder and elbow, the one-side names are the hand names in
    * the same order: hand-arm slot i + 2 is hand landmark i. */
  lemma OneSideTailIsHandNames()
    ensures OneSideHandArmNames[2..] == HandNames
  {
    HandTable();
    SingleHandArmTable();
    SingleHandArmLiteralShape();
  }

  /** Each enum member's value is the index that the one-side table gives to
    * the member's lower-cased name, wherever that name is a key; and it is a
    * key for every member except the four PINKY_* ones, which the table
    * spells pinky_finger_*. */
  lemma EnumMatchesTable(e: SingleHandArmLandmark)
    ensures MemberName(e) in SingleHandArmName2Index <==> !(e.PinkyMcp? || e.PinkyPip? || e.PinkyDip? || e.PinkyTip?)
    ensures MemberName(e) in SingleHandArmName2Index ==>
      SingleHandArmName2Index[MemberName(e)] == Value(e)
  {
    SingleHandArmTable();
    MemberNameInLiteral(e);
    PinkyNamesMissing();
    if e.PinkyMcp? || e.PinkyPip? || e.PinkyDip? || e.PinkyTip? {
      assert MemberName(e) !in OneSideHandArmNames;
    } else {
      assert OneSideHandArmNames[Value(e)] == MemberName(e);
    }
  }

  lemma MemberNameInLiteral(e: SingleHandArmLandmark)
    ensures Value(e) < 23
    ensures !(e.PinkyMcp? || e.PinkyPip? || e.PinkyDip? || e.PinkyTip?) ==>
      MemberName(e) == SingleHandArmLiteral[Value(e)].0
  {
    match e
    case Shoulder =>
    case Elbow =>
    case Wrist =>
    case ThumbCmc =>
    case ThumbMcp =>
    case ThumbIp =>
    case ThumbTip =>
    case IndexFingerMcp =>
    case IndexFingerPip =>
    case IndexFingerDip =>
    case IndexFingerTip =>
    case MiddleFingerMcp =>
    case MiddleFingerPip =>
    case MiddleFingerDip =>
    case MiddleFingerTip =>
    case RingFingerMcp =>
    case RingFingerPip =>
    case RingFingerDip =>
    case RingFingerTip =>
    case PinkyMcp =>
    case PinkyPip =>
    case PinkyDip =>
    case PinkyTip =>
  }

  lemma PinkyNamesMissing()
    ensures "pinky_mcp" !in Keys(SingleHandArmLiteral) && "pinky_pip" !in Keys(SingleHandArmLiteral)
    ensures "pinky_dip" !in Keys(SingleHandArmLiteral) && "pinky_tip" !in Keys(SingleHandArmLiteral)
  {
  }

  /** The first three one-side names. */
  lemma OneSideHead()
    ensures |OneSideHandArmNames| == 23
    ensures OneSideHandArmNames[0] == "shoulder" && OneSideHandArmNames[1] == "elbow"
    ensures OneSideHandArmNames[2] == "wrist"
  {
    SingleHandArmDictValues();
    SingleHandArmLiteralShape();
    SingleHandArmHead();
    FromItemsOfDistinct(SingleHandArmLiteral);
    assert OneSideHandArmNames[0] == SingleHandArmLiteral[0].0;
    assert OneSideHandArmNames[1] == SingleHandArmLiteral[1].0;
    assert OneSideHandArmNames[2] == SingleHandArmLiteral[2].0;
  }

  lemma SingleHandArmHead()
    ensures |SingleHandArmLiteral| == 23
    ensures SingleHandArmLiteral[0].0 == "shoulder" && SingleHandArmLiteral[1].0 == "elbow"
    ensures SingleHandArmLiteral[2].0 == "wrist"
  {
  }
}
