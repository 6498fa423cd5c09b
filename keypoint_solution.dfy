/** `MPKeyPointSolution.process` from the point where both detectors have
  * answered: the hands are split by handedness, the right shoulder and
  * elbow are checked for visibility, and one arm with its hand is assembled
  * as 23 slots, in world space and in image space. In world space the hand,
  * which the hand detector places around its own origin, is translated so
  * that its wrist lands on the pose detector's right wrist. */
module KeypointSolution {
  import opened DetectorOutput
  import opened Landmarks
  import opened HandIndex
  import opened PoseIndex
  import opened SingleHandArmIndex
  import opened ArmHandNames

  /** VISIBLE_THRESHOLD */
  const VisibleThreshold: real := 0.5

  /** Pose indices of the right arm in the flipped image. */
  const RightShoulder: nat := 11
  const RightElbow: nat := 13
  const RightWrist: nat := 15

  /** What `process` returns or raises: the two lists, the pair
    * `(None, None)`, or NotImplementedError. */
  datatype Outcome =
    | Fused(world: seq<Option<Landmark>>, image: seq<Option<Landmark>>)
    | NonePair
    | NotImplemented

  /** `format_landmark`: the coordinates of a detector point, without its
    * visibility. */
  function Format(p: Point): Landmark
  {
    Landmark(p.x, p.y, p.z)
  }

  /** A point passes the gate unless its visibility is below the threshold. */
  predicate Visible(p: Point)
  {
    !(p.visibility < VisibleThreshold)
  }

  /** The four gated points: right shoulder and elbow, world and image. */
  predicate ArmVisible(pose: Pose)
  {
    Visible(pose.world[RightShoulder]) && Visible(pose.world[RightElbow]) &&
    Visible(pose.image[RightShoulder]) && Visible(pose.image[RightElbow])
  }

  /** The offset from the pose's right wrist to the hand's wrist. */
  function WristOffset(pose: Pose, hand: Hand): Offset
  {
    Difference(Format(hand.world[0]), Format(pose.world[RightWrist]))
  }

  /** The world list: shoulder and elbow from the pose, then the 21 hand
    * points moved by the wrist offset. */
  function WorldSlots(pose: Pose, hand: Hand): seq<Option<Landmark>>
  {
    [Some(Format(pose.world[RightShoulder])), Some(Format(pose.world[RightElbow]))] +
    seq(21, k requires 0 <= k < 21 => Some(Moved(Format(hand.world[k]), WristOffset(pose, hand))))
  }

  /** The image list: shoulder and elbow from the pose, then the 21 hand
    * points as the hand detector gave them. */
  function ImageSlots(pose: Pose, hand: Hand): seq<Option<Landmark>>
  {
    [Some(Format(pose.image[RightShoulder])), Some(Format(pose.image[RightElbow]))] +
    seq(21, k requires 0 <= k < 21 => Some(Format(hand.image[k])))
  }

  /** What `process` computes from the detectors' outputs, stated outcome by
    * outcome. */
  function Fuse(pose: Option<Pose>, hands: Option<seq<Hand>>, side: string): Outcome
  {
    if hands.None? || pose.None? then NonePair
    else if side != "RIGHT_SIDE" then NotImplemented
    else if RightSlot(hands.value).None? then NonePair
    else if !ArmVisible(pose.value) then NonePair
    else Fused(WorldSlots(pose.value, RightSlot(hands.value).value), ImageSlots(pose.value, RightSlot(hands.value).value))
  }

  // ---------------------------------------------------------------------
  // What the outcome is

  /** NotImplementedError is raised only after both detectors have answered
    * and only for a side other than "RIGHT_SIDE" (the default "BOTH_SIDE"
    * included). The lists are returned exactly when, in addition, some hand
    * is not labelled "Left" and the right shoulder and elbow have
    * visibility 0.5 or more in both the world and the image result. In
    * every other case the result is (None, None). */
  lemma FuseOutcome(pose: Option<Pose>, hands: Option<seq<Hand>>, side: string)
    ensures Fuse(pose, hands, side).NotImplemented? <==>
      pose.Some? && hands.Some? && side != "RIGHT_SIDE"
    ensures Fuse(pose, hands, side).Fused? <==>
      pose.Some? && hands.Some? && side == "RIGHT_SIDE" &&
      (exists i :: 0 <= i < |hands.value| && !IsLeft(hands.value[i])) &&
      pose.value.world[11].visibility >= 0.5 && pose.value.world[13].visibility >= 0.5 &&
      pose.value.image[11].visibility >= 0.5 && pose.value.image[13].visibility >= 0.5
  {
    if hands.Some? {
      RightSlotEmpty(hands.value);
    }
  }

  /** On success both lists have 23 slots and none of them is None. */
  lemma FusedShape(pose: Option<Pose>, hands: Option<seq<Hand>>, side: string)
    requires Fuse(pose, hands, side).Fused?
    ensures |Fuse(pose, hands, side).world| == 23 && |Fuse(pose, hands, side).image| == 23
    ensures forall i :: 0 <= i < 23 ==> Fuse(pose, hands, side).world[i].Some?
    ensures forall i :: 0 <= i < 23 ==> Fuse(pose, hands, side).image[i].Some?
  {
  }

  /** On success, with hands[i] the last hand not labelled "Left": slots 0
    * and 1 are the pose's right shoulder and elbow (world points in the
    * world list, image points in the image list); image slot k + 2 is the
    * hand's image point k; world slot k + 2 is the hand's world point k
    * moved by the offset from the pose's right wrist to the hand's wrist. */
  lemma FusedSlots(pose: Option<Pose>, hands: Option<seq<Hand>>, side: string, i: int)
    requires Fuse(pose, hands, side).Fused?
    requires LastRightAt(hands.value, i)
    ensures Fuse(pose, hands, side).world[..2] ==
      [Some(Format(pose.value.world[11])), Some(Format(pose.value.world[13]))]
    ensures Fuse(pose, hands, side).image[..2] ==
      [Some(Format(pose.value.image[11])), Some(Format(pose.value.image[13]))]
    ensures forall k :: 0 <= k < 21 ==>
      Fuse(pose, hands, side).image[2..][k] == Some(Format(hands.value[i].image[k]))
    ensures forall k :: 0 <= k < 21 ==>
      Fuse(pose, hands, side).world[2..][k] ==
        Some(Moved(Format(hands.value[i].world[k]),
                   Difference(Format(hands.value[i].world[0]), Format(pose.value.world[15]))))
  {
    RightSlotIsLast(hands.value, i);
  }

  /** On success the world wrist (slot 2) is exactly the pose's right
    * wrist. */
  lemma WristStitch(pose: Option<Pose>, hands: Option<seq<Hand>>, side: string)
    requires Fuse(pose, hands, side).Fused?
    ensures Fuse(pose, hands, side).world[2] == Some(Format(pose.value.world[15]))
  {
    var hand := RightSlot(hands.value).value;
    MovedOntoTarget(Format(hand.world[0]), Format(pose.value.world[15]));
  }

  /** On success the world hand is the detected hand translated as a whole:
    * any two of its slots are as far apart as the two hand points they
    * come from. */
  lemma WorldHandIsTranslated(pose: Option<Pose>, hands: Option<seq<Hand>>, side: string, j: int, k: int)
    requires Fuse(pose, hands, side).Fused?
    requires 0 <= j < 21 && 0 <= k < 21
    ensures Fuse(pose, hands, side).world[2 + j].Some? && Fuse(pose, hands, side).world[2 + k].Some?
    ensures Difference(Fuse(pose, hands, side).world[2 + j].value, Fuse(pose, hands, side).world[2 + k].value) ==
      Difference(Format(RightSlot(hands.value).value.world[j]), Format(RightSlot(hands.value).value.world[k]))
  {
    var hand := RightSlot(hands.value).value;
    MovedKeepsDifference(Format(hand.world[j]), Format(hand.world[k]), WristOffset(pose.value, hand));
  }

  /** `format_landmark` keeps x, y and z and nothing else: two detector
    * points give the same Landmark exactly when their coordinates agree,
    * whatever their visibility. */
  lemma FormatDropsVisibility(p: Point, q: Point)
    ensures Format(p) == Format(q) <==> p.x == q.x && p.y == q.y && p.z == q.z
    ensures Format(p).x == p.x && Format(p).y == p.y && Format(p).z == p.z
  {
  }

  // ---------------------------------------------------------------------
  // The method itself, loop by loop

  /** The loop over the world results: a hand labelled "Left" goes to the
    * left slot, every other hand to the right slot, and a later hand
    * overwrites an earlier one in its slot. */
  method SplitWorld(hands: seq<Hand>) returns (left: Option<HandPoints>, right: Option<HandPoints>)
    ensures left == WorldOf(LeftSlot(hands)) && right == WorldOf(RightSlot(hands))
  {
    left, right := None, None;
    var i := 0;
    while i < |hands|
      invariant 0 <= i <= |hands|
      invariant left == WorldOf(LeftSlot(hands[..i]))
      invariant right == WorldOf(RightSlot(hands[..i]))
    {
      SlotsStep(hands, i);
      if hands[i].handedness == "Left" {
        left := Some(hands[i].world);
      } else {
        right := Some(hands[i].world);
      }
      i := i + 1;
    }
    assert hands[..|hands|] == hands;
  }

  /** The same loop over the image results. */
  method SplitImage(hands: seq<Hand>) returns (left: Option<HandPoints>, right: Option<HandPoints>)
    ensures left == ImageOf(LeftSlot(hands)) && right == ImageOf(RightSlot(hands))
  {
    left, right := None, None;
    var i := 0;
    while i < |hands|
      invariant 0 <= i <= |hands|
      invariant left == ImageOf(LeftSlot(hands[..i]))
      invariant right == ImageOf(RightSlot(hands[..i]))
    {
      SlotsStep(hands, i);
      if hands[i].handedness == "Left" {
        left := Some(hands[i].image);
      } else {
        right := Some(hands[i].image);
      }
      i := i + 1;
    }
    assert hands[..|hands|] == hands;
  }

  /** The loop over the first two one-side names (shoulder, elbow): each is
    * looked up as f'right_{name}' in the pose table and the point is
    * appended, unless its visibility is below the threshold, which ends
    * `process` with (None, None). `passed` tells the caller which. The
    * tables are parameters; `Process` passes ONESIDE_HAND_ARM_LANDMARK_NAMES
    * and MP_POSE_LANDMARK_NAME2INDEX, which have the lookups required here. */
  method GateArm(points: PosePoints, names: seq<string>, poseIndex: map<string, nat>)
    returns (slots: seq<Option<Landmark>>, passed: bool)
    requires |names| >= 2
    requires "right_" + names[0] in poseIndex && poseIndex["right_" + names[0]] == RightShoulder
    requires "right_" + names[1] in poseIndex && poseIndex["right_" + names[1]] == RightElbow
    ensures passed <==> Visible(points[RightShoulder]) && Visible(points[RightElbow])
    ensures passed ==> slots == [Some(Format(points[RightShoulder])), Some(Format(points[RightElbow]))]
  {
    slots := [];
    var k := 0;
    while k < 2
      invariant 0 <= k <= 2 && |slots| == k
      invariant k >= 1 ==> Visible(points[RightShoulder]) && slots[0] == Some(Format(points[RightShoulder]))
      invariant k >= 2 ==> Visible(points[RightElbow]) && slots[1] == Some(Format(points[RightElbow]))
    {
      var current := points[poseIndex["right_" + names[k]]];
      if current.visibility < VisibleThreshold {
        slots := slots + [None];
        return slots, false;
      }
      slots := slots + [Some(Format(current))];
      k := k + 1;
    }
    passed := true;
  }

  /** The loop over the remaining 21 one-side names: each is looked up in the
    * hand table and the hand's image point is appended as it is. `names` is
    * ONESIDE_HAND_ARM_LANDMARK_NAMES[2:] and `handIndex`
    * MP_HAND_LANDMARK_NAME2INDEX. */
  method HandImage(image: HandPoints, names: seq<string>, handIndex: map<string, nat>)
    returns (slots: seq<Option<Landmark>>)
    requires |names| == 21
    requires forall k :: 0 <= k < 21 ==> names[k] in handIndex && handIndex[names[k]] == k
    ensures |slots| == 21
    ensures forall k :: 0 <= k < 21 ==> slots[k] == Some(Format(image[k]))
  {
    slots := [];
    var k := 0;
    while k < 21
      invariant 0 <= k <= 21 && |slots| == k
      invariant forall j :: 0 <= j < k ==> slots[j] == Some(Format(image[j]))
    {
      slots := slots + [Some(Format(image[handIndex[names[k]]]))];
      k := k + 1;
    }
  }

  /** The last loop: at the first name, "wrist", the offset from the pose's
    * right wrist to the hand's wrist is taken (before it the offset is
    * unset); every hand world point is formatted and its three coordinates
    * reduced by the offset, one after the other. */
  method HandWorld(poseWorld: PosePoints, world: HandPoints, names: seq<string>,
                   handIndex: map<string, nat>, poseIndex: map<string, nat>)
    returns (slots: seq<Option<Landmark>>)
    requires |names| == 21 && names[0] == "wrist"
    requires forall k :: 0 <= k < 21 ==> names[k] in handIndex && handIndex[names[k]] == k
    requires forall k :: 0 < k < 21 ==> names[k] != "wrist"
    requires "right_" + names[0] in poseIndex && poseIndex["right_" + names[0]] == RightWrist
    ensures |slots| == 21
    ensures slots[0] == Some(Format(poseWorld[RightWrist]))
    ensures forall k :: 0 <= k < 21 ==>
      slots[k] == Some(Moved(Format(world[k]), Difference(Format(world[0]), Format(poseWorld[RightWrist]))))
  {
    var offset: Option<Offset> := None;
    slots := [];
    var k := 0;
    while k < 21
      invariant 0 <= k <= 21 && |slots| == k
      invariant k > 0 ==> offset == Some(Difference(Format(world[0]), Format(poseWorld[RightWrist])))
      invariant forall j :: 0 <= j < k ==>
        slots[j] == Some(Moved(Format(world[j]), Difference(Format(world[0]), Format(poseWorld[RightWrist]))))
    {
      var name := names[k];
      if name == "wrist" {
        var poseWrist := poseWorld[poseIndex["right_" + name]];
        var handWrist := world[handIndex[name]];
        offset := Some(Difference(Format(handWrist), Format(poseWrist)));
      }
      var formatted := Format(world[handIndex[name]]);
      formatted := formatted.(x := formatted.x - offset.value.dx);
      formatted := formatted.(y := formatted.y - offset.value.dy);
      formatted := formatted.(z := formatted.z - offset.value.dz);
      slots := slots + [Some(formatted)];
      k := k + 1;
    }
    MovedOntoTarget(Format(world[0]), Format(poseWorld[RightWrist]));
  }

  /** The world list of `Process` is the arm part followed by the hand part. */
  lemma WorldSlotsFromParts(pose: Pose, hand: Hand, arm: seq<Option<Landmark>>, handPart: seq<Option<Landmark>>)
    requires arm == [Some(Format(pose.world[RightShoulder])), Some(Format(pose.world[RightElbow]))]
    requires |handPart| == 21
    requires forall k :: 0 <= k < 21 ==> handPart[k] == Some(Moved(Format(hand.world[k]), WristOffset(pose, hand)))
    ensures arm + handPart == WorldSlots(pose, hand)
  {
  }

  /** The image list of `Process` is the arm part followed by the hand part. */
  lemma ImageSlotsFromParts(pose: Pose, hand: Hand, arm: seq<Option<Landmark>>, handPart: seq<Option<Landmark>>)
    requires arm == [Some(Format(pose.image[RightShoulder])), Some(Format(pose.image[RightElbow]))]
    requires |handPart| == 21
    requires forall k :: 0 <= k < 21 ==> handPart[k] == Some(Format(hand.image[k]))
    ensures arm + handPart == ImageSlots(pose, hand)
  {
  }

  /** `process` once the detectors have run: `pose` is the pose result
    * (None when no pose was found), `hands` the detected hands with their
    * handedness labels (None when no hand was found), `side` the `type`
    * argument. The loops, the gates and the early returns are those of the
    * source; the outcome is the one `Fuse` describes. */
  method Process(pose: Option<Pose>, hands: Option<seq<Hand>>, side: string := "BOTH_SIDE") returns (out: Outcome)
    ensures out == Fuse(pose, hands, side)
  {
    if hands.None? || pose.None? {
      return NonePair;
    }
    var p := pose.value;
    var leftWorld, rightWorld := SplitWorld(hands.value);
    var leftImage, rightImage := SplitImage(hands.value);
    if side == "RIGHT_SIDE" {
      if rightWorld.None? {
        return NonePair;
      }
      RightArmLookups();
      HandLookups();
      var world, worldPassed := GateArm(p.world, OneSideHandArmNames, PoseName2Index);
      if !worldPassed {
        return NonePair;
      }
      var uv, imagePassed := GateArm(p.image, OneSideHandArmNames, PoseName2Index);
      if !imagePassed {
        return NonePair;
      }
      ghost var hand := RightSlot(hands.value).value;
      var handUv := HandImage(rightImage.value, OneSideHandArmNames[2..], HandName2Index);
      ImageSlotsFromParts(p, hand, uv, handUv);
      uv := uv + handUv;
      var handWorld := HandWorld(p.world, rightWorld.value, OneSideHandArmNames[2..], HandName2Index, PoseName2Index);
      WorldSlotsFromParts(p, hand, world, handWorld);
      world := world + handWorld;
      out := Fused(world, uv);
    } else {
      out := NotImplemented;
    }
  }
}
