/** What the two MediaPipe detectors hand to `MPKeyPointSolution.process`,
  * taken as inputs, and the split of the detected hands into a left and a
  * right slot by their handedness label. */
module DetectorOutput {

  datatype Option<T> = None | Some(value: T)

  /** One detector point: coordinates and the detector's visibility score. */
  datatype Point = Point(x: real, y: real, z: real, visibility: real)

  const Origin: Point := Point(0.0, 0.0, 0.0, 0.0)

  /** The 33 points of one pose result (`pose_landmarks.landmark` or
    * `pose_world_landmarks.landmark`). */
  type PosePoints = s: seq<Point> | |s| == 33 witness seq(33, _ => Origin)

  /** The 21 points of one hand result. */
  type HandPoints = s: seq<Point> | |s| == 21 witness seq(21, _ => Origin)

  /** A detected pose: its image-space and its world-space points. */
  datatype Pose = Pose(image: PosePoints, world: PosePoints)

  /** A detected hand: the `classification[0].label` of its handedness,
    * and its image-space and world-space points. */
  datatype Hand = Hand(handedness: string, image: HandPoints, world: HandPoints)

  /** The loops send a hand labelled exactly "Left" to the left slot and
    * every other hand to the right slot. */
  predicate IsLeft(h: Hand)
  {
    h.handedness == "Left"
  }

  /** The left slot after the handedness loop over `hands`: the last hand
    * labelled "Left", or None when there is none. */
  function LeftSlot(hands: seq<Hand>): (r: Option<Hand>)
    ensures r.Some? ==> r.value in hands && IsLeft(r.value)
  {
    if |hands| == 0 then None
    else if IsLeft(hands[|hands| - 1]) then Some(hands[|hands| - 1])
    else LeftSlot(hands[..|hands| - 1])
  }

  /** The right slot after the handedness loop over `hands`: the last hand
    * not labelled "Left", or None when there is none. */
  function RightSlot(hands: seq<Hand>): (r: Option<Hand>)
    ensures r.Some? ==> r.value in hands && !IsLeft(r.value)
  {
    if |hands| == 0 then None
    else if !IsLeft(hands[|hands| - 1]) then Some(hands[|hands| - 1])
    else RightSlot(hands[..|hands| - 1])
  }

  function WorldOf(slot: Option<Hand>): Option<HandPoints>
  {
    if slot.Some? then Some(slot.value.world) else None
  }

  function ImageOf(slot: Option<Hand>): Option<HandPoints>
  {
    if slot.Some? then Some(slot.value.image) else None
  }

  /** The right slot is empty exactly when every hand is labelled "Left". */
  lemma {:induction false} RightSlotEmpty(hands: seq<Hand>)
    ensures RightSlot(hands).None? <==> forall i :: 0 <= i < |hands| ==> IsLeft(hands[i])
  {
    if |hands| > 0 {
      var prefix := hands[..|hands| - 1];
      RightSlotEmpty(prefix);
      assert forall i :: 0 <= i < |prefix| ==> prefix[i] == hands[i];
    }
  }

  /** The left slot is empty exactly when no hand is labelled "Left". */
  lemma {:induction false} LeftSlotEmpty(hands: seq<Hand>)
    ensures LeftSlot(hands).None? <==> forall i :: 0 <= i < |hands| ==> !IsLeft(hands[i])
  {
    if |hands| > 0 {
      var prefix := hands[..|hands| - 1];
      LeftSlotEmpty(prefix);
      assert forall i :: 0 <= i < |prefix| ==> prefix[i] == hands[i];
    }
  }

  /** hands[i] is not labelled "Left" and only "Left" hands follow it. */
  predicate LastRightAt(hands: seq<Hand>, i: int)
  {
    0 <= i < |hands| && !IsLeft(hands[i]) && forall j :: i < j < |hands| ==> IsLeft(hands[j])
  }

  /** hands[i] is labelled "Left" and no "Left" hand follows it. */
  predicate LastLeftAt(hands: seq<Hand>, i: int)
  {
    0 <= i < |hands| && IsLeft(hands[i]) && forall j :: i < j < |hands| ==> !IsLeft(hands[j])
  }

  /** The last hand not labelled "Left" is the one in the right slot: a later
    * right hand overwrites an earlier one. */
  lemma {:induction false} RightSlotIsLast(hands: seq<Hand>, i: int)
    requires LastRightAt(hands, i)
    ensures RightSlot(hands) == Some(hands[i])
  {
    if i < |hands| - 1 {
      var prefix := hands[..|hands| - 1];
      assert prefix[i] == hands[i];
      assert LastRightAt(prefix, i);
      RightSlotIsLast(prefix, i);
    }
  }

  /** The last hand labelled "Left" is the one in the left slot. */
  lemma {:induction false} LeftSlotIsLast(hands: seq<Hand>, i: int)
    requires LastLeftAt(hands, i)
    ensures LeftSlot(hands) == Some(hands[i])
  {
    if i < |hands| - 1 {
      var prefix := hands[..|hands| - 1];
      assert prefix[i] == hands[i];
      assert LastLeftAt(prefix, i);
      LeftSlotIsLast(prefix, i);
    }
  }

  /** Conversely, a filled right slot holds the last hand not labelled
    * "Left". */
  lemma {:induction false} RightSlotPosition(hands: seq<Hand>)
    requires RightSlot(hands).Some?
    ensures exists i :: LastRightAt(hands, i) && hands[i] == RightSlot(hands).value
  {
    var n := |hands|;
    if IsLeft(hands[n - 1]) {
      var prefix := hands[..n - 1];
      RightSlotPosition(prefix);
      assert RightSlot(hands) == RightSlot(prefix);
      var i :| LastRightAt(prefix, i) && prefix[i] == RightSlot(prefix).value;
      assert hands[i] == prefix[i];
      assert forall j :: i < j < n - 1 ==> hands[j] == prefix[j];
      assert LastRightAt(hands, i);
    } else {
      assert RightSlot(hands) == Some(hands[n - 1]);
      assert LastRightAt(hands, n - 1);
    }
  }

  /** Conversely, a filled left slot holds the last hand labelled "Left". */
  lemma {:induction false} LeftSlotPosition(hands: seq<Hand>)
    requires LeftSlot(hands).Some?
    ensures exists i :: LastLeftAt(hands, i) && hands[i] == LeftSlot(hands).value
  {
    var n := |hands|;
    if !IsLeft(hands[n - 1]) {
      var prefix := hands[..n - 1];
      LeftSlotPosition(prefix);
      assert LeftSlot(hands) == LeftSlot(prefix);
      var i :| LastLeftAt(prefix, i) && prefix[i] == LeftSlot(prefix).value;
      assert hands[i] == prefix[i];
      assert forall j :: i < j < n - 1 ==> hands[j] == prefix[j];
      assert LastLeftAt(hands, i);
    } else {
      assert LeftSlot(hands) == Some(hands[n - 1]);
      assert LastLeftAt(hands, n - 1);
    }
  }

  /** One more hand updates exactly one slot: the one its label selects. */
  lemma SlotsStep(hands: seq<Hand>, i: nat)
    requires i < |hands|
    ensures LeftSlot(hands[..i + 1]) == if IsLeft(hands[i]) then Some(hands[i]) else LeftSlot(hands[..i])
    ensures RightSlot(hands[..i + 1]) == if IsLeft(hands[i]) then RightSlot(hands[..i]) else Some(hands[i])
  {
    assert hands[..i + 1][..i] == hands[..i];
  }
}
