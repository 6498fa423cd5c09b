# Arm and hand skeleton fusion, modelled in Dafny

This project models the arm-and-hand fusion of `MPKeyPointSolution.process`
(mediapipe_example_zoo, `mp_keypoint_solution/hand_and_arm_combined`). It
also models the name tables of `mp_landmark_index.py` that the fusion indexes
through, and the `Landmark` record that the fusion produces.

The fusion takes one pose result and the detected hands. It works in four steps:

1. It sorts the hands into a left and a right slot by their handedness label.
2. It requires the pose's right shoulder and elbow to be visible. The check is
   made on the world result and again on the image result.
3. It assembles 23 slots in world space and 23 in image space: shoulder and
   elbow from the pose, then the 21 hand joints.
4. In world space it moves the hand as a whole, so that the hand's wrist lands
   on the pose's right wrist.

Modules, one per file:

- `PyDict` (`py_dict.dfy`): a Python dict as its ordered item list.
  - A literal, or a comprehension, stores its pairs from left to right.
  - Storing an existing key replaces its value in place.
  - `list(d.keys())` is `Keys`, and `{v: k for k, v in d.items()}` is
    `Inverted`.
- `HandIndex`, `PoseIndex`, `SingleHandArmIndex` (`hand_index.dfy`,
  `pose_index.dfy`, `single_hand_arm_index.dfy`): the three tables the fusion
  uses, each written item by item as in the source. Each module also has its
  derived name list and inverse map, and `SINGLEHANDARM_LANDMARK` as a
  datatype.
- `ArmHandNames` (`arm_hand_names.dfy`): the lookups the fusion makes in those
  tables: `f'right_{name}'` in the pose table, and the hand names in the hand
  table.
- `Landmarks` (`landmark.dfy`): the x/y/z record, and the in-place
  translation of a point.
- `DetectorOutput` (`detector_output.dfy`): the two detectors' results, taken
  as inputs, and the split of hands by handedness.
- `KeypointSolution` (`keypoint_solution.dfy`):
  - `Fuse` is the specification, outcome by outcome.
  - `Process` is the imperative method, with the source's loops, gates and
    early returns. It is split into one method per loop and proved equal to
    `Fuse`.
  - Lemmas about `Fuse` state the properties the fusion promises.

The model follows the code as written, including where a reader of the docstrings might expect otherwise:

- The code gates the shoulder and elbow in world space and in image space, not
  in image space only.
- Failure is the pair `(None, None)`, not a single `None`.
- Every side except `"RIGHT_SIDE"` raises NotImplementedError after the
  detection check.
- The result is `(world, image)`, in that order.
- The world hand is translated by the wrist offset.

## Model

| member | source | states |
|---|---|---|
| PyDict.FromItems | mp_keypoint_solution/hand_and_arm_combined/mp_landmark_index.py:5-12 | evaluating a dict literal gives an item list with no key twice |
| PyDict.FromItemsKeys | mp_keypoint_solution/hand_and_arm_combined/mp_landmark_index.py:5-12 | the evaluated dict has exactly the keys written in the literal |
| PyDict.ToMap | mp_keypoint_solution/hand_and_arm_combined/mp_landmark_index.py:5-12 | the mapping a dict denotes: its domain is the key list, and each item's key maps to that item's value |
| PyDict.StoreToMap | mp_keypoint_solution/hand_and_arm_combined/mp_landmark_index.py:38-56 | `d[k] = v` updates the denoted mapping at k and nowhere else |
| PyDict.LastItemWins | mp_keypoint_solution/hand_and_arm_combined/mp_landmark_index.py:41-43 | in a literal that repeats a key, the key maps to the value written last |
| PyDict.FromItemsOfDistinct | mp_keypoint_solution/hand_and_arm_combined/mp_landmark_index.py:5-13 | a literal with distinct keys evaluates to its own items in the order written, so `keys()` lists them in that order |
| PyDict.FromItemsAppendFresh | mp_keypoint_solution/hand_and_arm_combined/mp_landmark_index.py:38-56 | storing pairs whose keys are all new appends them in order |
| PyDict.FromItemsRepeatedKey | mp_keypoint_solution/hand_and_arm_combined/mp_landmark_index.py:38-56 | a repeated key keeps the position of its first occurrence and takes the later value |
| PyDict.InvertedExact | mp_keypoint_solution/hand_and_arm_combined/mp_landmark_index.py:14 | the inverse comprehension of an injective dict is its exact inverse: every value maps back to its key, and nothing else is a key |
| PyDict.InverseLastWins | mp_keypoint_solution/hand_and_arm_combined/mp_landmark_index.py:59 | the inverse comprehension sends a value to the key of the last item that has it |
| PyDict.ValueAbsent | mp_keypoint_solution/hand_and_arm_combined/mp_landmark_index.py:59 | a value no item has is the value of no key, and the inverse has no entry for it |
| HandIndex.HandTable | mp_keypoint_solution/hand_and_arm_combined/mp_landmark_index.py:5-13 | MP_HAND_LANDMARK_NAMES is the 21 distinct literal keys in order; name i maps to i; the table's keys are exactly these names |
| HandIndex.HandInverse | mp_keypoint_solution/hand_and_arm_combined/mp_landmark_index.py:14 | MP_HAND_LANDMARK_INDEX2NAME has exactly the keys 0..20 and sends i to name i |
| HandIndex.HandRoundTrip | mp_keypoint_solution/hand_and_arm_combined/mp_landmark_index.py:13-14 | looking a hand name up, then its index, gives the name back |
| PoseIndex.PoseDictItems | mp_keypoint_solution/hand_and_arm_combined/mp_landmark_index.py:38-56 | the pose literal evaluates to its items with the second "left_eye" merged into the first (value 8 at position 5) |
| PoseIndex.PoseTable | mp_keypoint_solution/hand_and_arm_combined/mp_landmark_index.py:41-58 | MP_POSE_LANDMARK_NAMES has 32 distinct names, not 33; "left_eye" stays at position 5 and maps to 8 |
| PoseIndex.PoseRightArm | mp_keypoint_solution/hand_and_arm_combined/mp_landmark_index.py:45-47 | in the flipped table, right_shoulder, right_elbow and right_wrist map to 11, 13 and 15 |
| PoseIndex.PoseLeftArmMisspelled | mp_keypoint_solution/hand_and_arm_combined/mp_landmark_index.py:45-47 | left_elbow and left_wrist are not keys (they are spelled left__elbow and left__wrist); left_shoulder is a key |
| PoseIndex.PoseIndex18Shared | mp_keypoint_solution/hand_and_arm_combined/mp_landmark_index.py:48-59 | left_pinky and right_index both map to 18; the inverse sends 18 to right_index and has no entry for 19 |
| PoseIndex.PoseIndex5Unnamed | mp_keypoint_solution/hand_and_arm_combined/mp_landmark_index.py:41-59 | once "left_eye" has taken 8, no name maps to 5 and the inverse has no entry for 5 |
| SingleHandArmIndex.SingleHandArmTable | mp_keypoint_solution/hand_and_arm_combined/mp_landmark_index.py:83-120 | ONESIDE_HAND_ARM_LANDMARK_NAMES is the 23 distinct literal keys in order, starting shoulder, elbow, wrist; name i maps to i; the keys are exactly these names |
| SingleHandArmIndex.SingleHandArmInverse | mp_keypoint_solution/hand_and_arm_combined/mp_landmark_index.py:121 | SINGLE_HAND_ARM_LANDMARK_INDEX2NAME has exactly the keys 0..22 and sends i to one-side name i |
| SingleHandArmIndex.OneSideTailIsHandNames | mp_keypoint_solution/hand_and_arm_combined/mp_landmark_index.py:83-120 | ONESIDE_HAND_ARM_LANDMARK_NAMES[2:] equals MP_HAND_LANDMARK_NAMES, so hand-arm slot i + 2 is hand landmark i |
| SingleHandArmIndex.OneSideHead | mp_keypoint_solution/hand_and_arm_combined/mp_landmark_index.py:120 | the one-side name list has 23 names and starts shoulder, elbow, wrist |
| SingleHandArmIndex.EnumMatchesTable | mp_keypoint_solution/hand_and_arm_combined/mp_landmark_index.py:83-118 | each enum member's value is the index the table gives its lower-cased name; that name is a key for every member except the four PINKY_* members |
| ArmHandNames.RightArmLookups | mp_keypoint_solution/hand_and_arm_combined/mp_hand_and_arm_keypoint_solution.py:155-166 | f'right_{name}' for the first three one-side names finds pose indices 11, 13 and 15 |
| ArmHandNames.LeftArmLookups | mp_keypoint_solution/hand_and_arm_combined/mp_landmark_index.py:45-47 | f'left_{name}' finds the shoulder but not the elbow or the wrist (a left-side fusion would raise KeyError) |
| ArmHandNames.HandLookups | mp_keypoint_solution/hand_and_arm_combined/mp_hand_and_arm_keypoint_solution.py:175-188 | one-side name k + 2 is the hand name of index k; only the first of these names is "wrist" |
| Landmarks.Moved | mp_keypoint_solution/hand_and_arm_combined/mp_hand_and_arm_keypoint_solution.py:198-200 | reducing x, then y, then z by an offset leaves the point exactly that offset away from where it started |
| Landmarks.ConstructAndCompare | mp_keypoint_solution/hand_and_arm_combined/data_structures/landmark.py:4-15 | construction stores x, y, z unchanged; two landmarks are equal iff their x, y and z are equal |
| Landmarks.FieldReassignment | mp_keypoint_solution/hand_and_arm_combined/data_structures/landmark.py:13-15 | reassigning one coordinate changes it and keeps the other two |
| Landmarks.MovedOntoTarget | mp_keypoint_solution/hand_and_arm_combined/mp_hand_and_arm_keypoint_solution.py:186-200 | moving a by the offset from b to a sends a exactly onto b |
| Landmarks.MovedKeepsDifference | mp_keypoint_solution/hand_and_arm_combined/mp_hand_and_arm_keypoint_solution.py:196-200 | moving two points by one offset keeps their difference, so the move is a rigid translation |
| DetectorOutput.LeftSlot | mp_keypoint_solution/hand_and_arm_combined/mp_hand_and_arm_keypoint_solution.py:110-115 | a filled left slot holds one of the hands, and that hand is labelled "Left" |
| DetectorOutput.RightSlot | mp_keypoint_solution/hand_and_arm_combined/mp_hand_and_arm_keypoint_solution.py:110-115 | a filled right slot holds one of the hands, and that hand is not labelled "Left" |
| DetectorOutput.RightSlotEmpty | mp_keypoint_solution/hand_and_arm_combined/mp_hand_and_arm_keypoint_solution.py:110-115 | the right slot is empty iff every hand is labelled "Left" |
| DetectorOutput.LeftSlotEmpty | mp_keypoint_solution/hand_and_arm_combined/mp_hand_and_arm_keypoint_solution.py:110-115 | the left slot is empty iff no hand is labelled "Left" |
| DetectorOutput.RightSlotIsLast | mp_keypoint_solution/hand_and_arm_combined/mp_hand_and_arm_keypoint_solution.py:110-115 | the right slot holds the last hand not labelled "Left": a later one overwrites an earlier one |
| DetectorOutput.LeftSlotIsLast | mp_keypoint_solution/hand_and_arm_combined/mp_hand_and_arm_keypoint_solution.py:110-115 | the left slot holds the last hand labelled "Left" |
| DetectorOutput.RightSlotPosition | mp_keypoint_solution/hand_and_arm_combined/mp_hand_and_arm_keypoint_solution.py:110-115 | conversely, a filled right slot is the hand at the position of the last non-"Left" hand |
| DetectorOutput.LeftSlotPosition | mp_keypoint_solution/hand_and_arm_combined/mp_hand_and_arm_keypoint_solution.py:110-115 | conversely, a filled left slot is the hand at the position of the last "Left" hand |
| DetectorOutput.SlotsStep | mp_keypoint_solution/hand_and_arm_combined/mp_hand_and_arm_keypoint_solution.py:111-115 | one more hand updates exactly the slot its label selects and leaves the other unchanged |
| KeypointSolution.FormatDropsVisibility | mp_keypoint_solution/hand_and_arm_combined/mp_hand_and_arm_keypoint_solution.py:143-144 | format_landmark keeps x, y and z: two points format equally iff their coordinates agree, whatever their visibility |
| KeypointSolution.FuseOutcome | mp_keypoint_solution/hand_and_arm_combined/mp_hand_and_arm_keypoint_solution.py:105-208 | NotImplementedError iff both detections are present and side is not "RIGHT_SIDE" (the default "BOTH_SIDE" included). The lists are returned iff, in addition, some hand is not "Left" and the four gated visibilities are >= 0.5 (0.5 passes). Otherwise the result is (None, None) |
| KeypointSolution.FusedShape | mp_keypoint_solution/hand_and_arm_combined/mp_hand_and_arm_keypoint_solution.py:150-205 | on success both lists have 23 slots and none is None |
| KeypointSolution.FusedSlots | mp_keypoint_solution/hand_and_arm_combined/mp_hand_and_arm_keypoint_solution.py:155-201 | on success, with hands[i] the last non-"Left" hand: slots 0-1 are the pose's right shoulder and elbow (world points in the world list, image points in the image list); image slot k+2 is the hand's image point k; world slot k+2 is hand world point k minus (hand wrist - pose right wrist) |
| KeypointSolution.WristStitch | mp_keypoint_solution/hand_and_arm_combined/mp_hand_and_arm_keypoint_solution.py:186-201 | on success, world slot 2 is exactly the pose's world right wrist |
| KeypointSolution.WorldHandIsTranslated | mp_keypoint_solution/hand_and_arm_combined/mp_hand_and_arm_keypoint_solution.py:182-201 | on success, any two world hand slots differ exactly as the two hand world points they come from |
| KeypointSolution.SplitWorld | mp_keypoint_solution/hand_and_arm_combined/mp_hand_and_arm_keypoint_solution.py:110-115 | the world handedness loop leaves the world points of the left and the right slot |
| KeypointSolution.SplitImage | mp_keypoint_solution/hand_and_arm_combined/mp_hand_and_arm_keypoint_solution.py:121-126 | the image handedness loop leaves the image points of the left and the right slot |
| KeypointSolution.GateArm | mp_keypoint_solution/hand_and_arm_combined/mp_hand_and_arm_keypoint_solution.py:155-171 | the shoulder/elbow loop passes iff both points have visibility >= 0.5; on passing it has appended the two formatted points |
| KeypointSolution.HandImage | mp_keypoint_solution/hand_and_arm_combined/mp_hand_and_arm_keypoint_solution.py:175-177 | the image hand loop appends hand image points 0..20 in order, formatted |
| KeypointSolution.HandWorld | mp_keypoint_solution/hand_and_arm_combined/mp_hand_and_arm_keypoint_solution.py:182-201 | the world hand loop appends each hand world point minus the wrist offset; its first slot is the pose's right wrist; the offset is set at "wrist" before any use |
| KeypointSolution.Process | mp_keypoint_solution/hand_and_arm_combined/mp_hand_and_arm_keypoint_solution.py:103-208 | the imperative fusion gives exactly the outcome `Fuse` describes, so every lemma about `Fuse` holds for it |

## Left out

- The image flip, the colour conversion and the writeable flag (cv2 calls on pixel buffers) are not modelled.
- Constructing the MediaPipe detectors and running them are not modelled; their results are the inputs of `Process`.
- The debug drawing block is not modelled. It is dead code, because `vis_landmarks_in_win` is False. Also left out: the commented-out code, the unused `h, w, c = image.shape`, and `center`, which nothing calls.
- Floating point is not modelled: coordinates and visibility are `real`.
  - The wrist stitch is exact only over the reals.
  - A NaN visibility would pass the `<` gate; that case is not represented.
- `zip` truncation is not modelled. Each hand carries its label and both point lists, so the three detector lists are always paired.
- The detection check at line 105 looks only at the world results. The model has one optional pose and one optional hand list, so the image results are present exactly when the world results are.
- Points per result are fixed by subset types: 33 per pose and 21 per hand. A malformed detector output, which would raise IndexError, is not represented.
- The unreachable `else: append(None)` branches of the two hand loops (lines 178-179 and 202-203) are not modelled. The right world hand is known to exist there, because of lines 147-148.
- Landmarks.Moved: the in-place `-=` on a freshly built Landmark is modelled as a functional update of a value. Nothing else refers to that object, so no aliasing is lost.
- SingleHandArmIndex.MemberName: gives each enum member's name already lower-cased. No case conversion is modelled.
- `HAND_ARM_LANDMARK_NAME2INDEX`, its name list and its inverse (the two-arm table) are not modelled, because the fusion does not use them.
- The drawing styles, drawing helpers, connection lists and `webcam_input.py` are presentation and I/O, with no bearing on the fusion result. They are not part of this model.
