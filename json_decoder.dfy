/** The decoders for the JSON (CocoStudio) form of an animation document.
    Unlike the XML form they read every field with a default, store the
    tween-easing code as it is, and take the timeline rules from the
    document's CocoStudio version. */
module JsonDecoder {
  import opened Results
  import opened Documents
  import opened Datas
  import opened Timeline
  import opened Keys

  // ----- nodes and frames -----

  /** The colour block decodeNode reads: the first entry of the `color` array
      below VERSION_COLOR_READING, the `color` object from it on. */
  function ColorInfo(d: Dict, ctx: DataInfo): Option<Dict> {
    if ctx.cocoStudioVersion < VERSION_COLOR_READING then FirstSubItem(d, COLOR_INFO) else SubDictionary(d, COLOR_INFO)
  }

  /** decodeNode: position (scaled twice), z, skews and scales are always
      written, with their defaults; the colour only when a colour block is
      present, which also switches isUseColorInfo on. */
  function DecodeNode(node: BaseData, d: Dict, ctx: DataInfo): BaseData {
    var moved := node.(
      x := ItemReal(d, A_X, 0.0) * ctx.positionReadScale * ctx.contentScale,
      y := ItemReal(d, A_Y, 0.0) * ctx.positionReadScale * ctx.contentScale,
      zOrder := ItemInt(d, A_Z, 0),
      skewX := ItemReal(d, A_SKEW_X, 0.0),
      skewY := ItemReal(d, A_SKEW_Y, 0.0),
      scaleX := ItemReal(d, A_SCALE_X, 1.0),
      scaleY := ItemReal(d, A_SCALE_Y, 1.0));
    match ColorInfo(d, ctx)
    case None => moved
    case Some(c) =>
      moved.(a := ItemInt(c, A_ALPHA, 255), r := ItemInt(c, A_RED, 255),
             g := ItemInt(c, A_GREEN, 255), b := ItemInt(c, A_BLUE, 255),
             isUseColorInfo := true)
  }

  /** A node read from an empty dictionary is a fresh BaseData whatever it
      held before, except for the colour, which is left alone. */
  lemma NodeDefaults(node: BaseData, ctx: DataInfo)
    ensures DecodeNode(node, map[], ctx) == DefaultBase().(
      isUseColorInfo := node.isUseColorInfo, a := node.a, r := node.r, g := node.g, b := node.b)
  {
  }

  /** Below VERSION_COLOR_READING the colour is read from entry 0 of the
      array, and neither an object under `color` nor an object at a later
      array entry is used; from that version on only the object is read. */
  lemma NodeColorGate(node: BaseData, c: Dict, ctx: DataInfo)
    ensures var r := DecodeNode(node, map[COLOR_INFO := JArray([JObject(c)])], ctx);
      if ctx.cocoStudioVersion < VERSION_COLOR_READING then
        r.isUseColorInfo && r.a == ItemInt(c, A_ALPHA, 255) && r.r == ItemInt(c, A_RED, 255)
        && r.g == ItemInt(c, A_GREEN, 255) && r.b == ItemInt(c, A_BLUE, 255)
      else
        r.isUseColorInfo == node.isUseColorInfo && (r.a, r.r, r.g, r.b) == (node.a, node.r, node.g, node.b)
    ensures var r := DecodeNode(node, map[COLOR_INFO := JObject(c)], ctx);
      if ctx.cocoStudioVersion < VERSION_COLOR_READING then
        r.isUseColorInfo == node.isUseColorInfo && (r.a, r.r, r.g, r.b) == (node.a, node.r, node.g, node.b)
      else
        r.isUseColorInfo && r.a == ItemInt(c, A_ALPHA, 255) && r.r == ItemInt(c, A_RED, 255)
        && r.g == ItemInt(c, A_GREEN, 255) && r.b == ItemInt(c, A_BLUE, 255)
    ensures var r := DecodeNode(node, map[COLOR_INFO := JArray([JInt(0), JObject(c)])], ctx);
      ctx.cocoStudioVersion < VERSION_COLOR_READING ==>
        r.isUseColorInfo == node.isUseColorInfo && (r.a, r.r, r.g, r.b) == (node.a, node.r, node.g, node.b)
  {
  }

  /** The colour flag is on exactly when the node already had it or the
      version's colour block is there. */
  lemma NodeColorFlag(node: BaseData, d: Dict, ctx: DataInfo)
    ensures DecodeNode(node, d, ctx).isUseColorInfo <==> node.isUseColorInfo || ColorInfo(d, ctx).Some?
    ensures ColorInfo(d, ctx).None? ==> DecodeNode(node, d, ctx).(x := node.x, y := node.y, zOrder := node.zOrder,
      skewX := node.skewX, skewY := node.skewY, scaleX := node.scaleX, scaleY := node.scaleY) == node
  {
  }

  /** decodeFrame: the node over a fresh FrameData, then the frame fields.
      Below VERSION_COMBINED a frame carries a duration (default 1); from it
      on it carries its own frame index (default 0) instead. */
  function DecodeFrame(d: Dict, ctx: DataInfo): FrameData {
    var f := DefaultFrame();
    var read := f.(
      base := DecodeNode(f.base, d, ctx),
      tweenEasing := ItemInt(d, A_TWEEN_EASING, LINEAR),
      displayIndex := ItemInt(d, A_DISPLAY_INDEX, 0),
      blendType := ItemInt(d, A_BLEND_TYPE, BLEND_NORMAL),
      isTween := ItemBool(d, A_TWEEN_FRAME, true),
      strEvent := ItemString(d, A_EVENT).GetOr(f.strEvent));
    if ctx.cocoStudioVersion < VERSION_COMBINED then read.(duration := ItemInt(d, A_DURATION, 1))
    else read.(frameID := ItemInt(d, A_FRAME_INDEX, 0))
  }

  /** Exactly one of the two timing fields is read, chosen by the version;
      the other keeps the FrameData default. */
  lemma FrameVersionGate(d: Dict, ctx: DataInfo)
    ensures ctx.cocoStudioVersion < VERSION_COMBINED ==>
      DecodeFrame(d, ctx).frameID == 0 && DecodeFrame(d, ctx).duration == ItemInt(d, A_DURATION, 1)
    ensures ctx.cocoStudioVersion >= VERSION_COMBINED ==>
      DecodeFrame(d, ctx).duration == 1 && DecodeFrame(d, ctx).frameID == ItemInt(d, A_FRAME_INDEX, 0)
  {
  }

  /** An empty frame dictionary decodes to a fresh FrameData in either version. */
  lemma FrameDefaults(ctx: DataInfo)
    ensures DecodeFrame(map[], ctx) == DefaultFrame()
  {
  }

  /** The tween-easing code is stored as written, Linear when absent: the
      tool's code 2 is not turned into Sine_EaseInOut as in the XML form. */
  lemma FrameEasingUnmapped(d: Dict, ctx: DataInfo)
    ensures DecodeFrame(d, ctx).tweenEasing == ItemInt(d, A_TWEEN_EASING, LINEAR)
    ensures ItemInt(d, A_TWEEN_EASING, LINEAR) == 2 ==> DecodeFrame(d, ctx).tweenEasing == 2
  {
  }

  // ----- movement bones -----

  /** The frames of a movement bone as decodeFrame returns them, in array order. */
  function Frames(d: Dict, ctx: DataInfo): (r: seq<FrameData>)
    ensures |r| == |SubItems(d, FRAME_DATA)|
  {
    FramesOf(SubItems(d, FRAME_DATA), ctx)
  }

  function FramesOf(items: seq<Dict>, ctx: DataInfo): (r: seq<FrameData>)
    ensures |r| == |items|
  {
    seq(|items|, k requires 0 <= k < |items| => DecodeFrame(items[k], ctx))
  }

  /** The timeline a JSON movement bone ends with, given its decoded frames:
      below VERSION_COMBINED the frames are stamped with running sums and
      the total becomes the bone's duration; below
      VERSION_CHANGE_ROTATION_RANGE the skews are unwrapped with the pair
      rule `step` (the source's is SingleTurn); below VERSION_COMBINED a
      non-empty list gets the end anchor. */
  function Timed(frames: seq<FrameData>, version: real, step: Step): (int, seq<FrameData>)
  {
    var combined := version < VERSION_COMBINED;
    var duration := if combined then SumDurations(frames) else 0;
    var timed := if combined then Stamped(frames) else frames;
    var unwrapped := if version < VERSION_CHANGE_ROTATION_RANGE then UnwrappedWith(timed, step) else timed;
    (duration, if combined && unwrapped != [] then WithEndAnchor(unwrapped, duration) else unwrapped)
  }

  /** decodeMovementBone: name and delay as read (the delay is not adjusted
      as in the XML form), scale as constructed, and the timeline. */
  function MovementBone(d: Dict, ctx: DataInfo, step: Step): MovementBoneData {
    var (duration, frameList) := Timed(Frames(d, ctx), ctx.cocoStudioVersion, step);
    DefaultMovementBone().(
      name := ItemString(d, A_NAME).GetOr(""),
      delay := ItemReal(d, A_MOVEMENT_DELAY, 0.0),
      duration := duration,
      frameList := frameList)
  }

  /** The loop of decodeMovementBone: decoded frames appended one by one,
      stamped with the running duration below VERSION_COMBINED. */
  method DecodeFrameList(items: seq<Dict>, ctx: DataInfo) returns (frameList: seq<FrameData>, duration: int)
    ensures ctx.cocoStudioVersion < VERSION_COMBINED ==>
      frameList == Stamped(FramesOf(items, ctx)) && duration == SumDurations(FramesOf(items, ctx))
    ensures ctx.cocoStudioVersion >= VERSION_COMBINED ==> frameList == FramesOf(items, ctx) && duration == 0
  {
    ghost var frames := FramesOf(items, ctx);
    var combined := ctx.cocoStudioVersion < VERSION_COMBINED;
    frameList, duration := [], 0;
    var i := 0;
    while i < |items|
      invariant i <= |items| && TimedPrefix(frames, combined, i, frameList, duration)
    {
      var frameData := DecodeFrame(items[i], ctx);
      TimedPrefixStep(frames, combined, i, frameList, duration);
      if combined {
        frameData := frameData.(frameID := duration);
        duration := duration + frameData.duration;
      }
      frameList := frameList + [frameData];
      i := i + 1;
    }
    TimedPrefixDone(frames, combined, frameList, duration);
  }

  /** decodeMovementBone as the source runs it. */
  method DecodeMovementBone(d: Dict, ctx: DataInfo, step: Step) returns (r: MovementBoneData)
    ensures r == MovementBone(d, ctx, step)
  {
    r := DefaultMovementBone();
    r := r.(delay := ItemReal(d, A_MOVEMENT_DELAY, 0.0));
    r := r.(name := ItemString(d, A_NAME).GetOr(r.name));
    var frameList, duration := DecodeFrameList(SubItems(d, FRAME_DATA), ctx);
    if ctx.cocoStudioVersion < VERSION_CHANGE_ROTATION_RANGE {
      frameList := UnwrapFrameList(frameList, step);
    }
    if ctx.cocoStudioVersion < VERSION_COMBINED && |frameList| > 0 {
      var frameData := frameList[|frameList| - 1].(frameID := duration);
      frameList := frameList + [frameData];
    }
    r := r.(duration := duration, frameList := frameList);
  }

  /** Below VERSION_COMBINED a non-empty bone has the XML timeline: frame k
      starts where the frames before it end and keeps its duration, the
      bone lasts the total, and the anchor is the last frame moved to that
      total. */
  lemma MovementBoneTimeline(d: Dict, ctx: DataInfo, step: Step, frames: seq<FrameData>, b: MovementBoneData)
    requires ctx.cocoStudioVersion < VERSION_COMBINED
    requires frames == Frames(d, ctx) && frames != []
    requires b == MovementBone(d, ctx, step)
    ensures b.duration == SumDurations(frames)
    ensures |b.frameList| == |frames| + 1
    ensures forall k :: 0 <= k < |frames| ==>
      b.frameList[k].frameID == SumDurations(frames[..k]) && b.frameList[k].duration == frames[k].duration
    ensures b.frameList[|frames|] == b.frameList[|frames| - 1].(frameID := b.duration)
  {
    CombinedTimeline(d, ctx, step, frames, b);
    AnchoredTimeline(frames, step, b.frameList);
  }

  /** Below VERSION_COMBINED the frame list is the XML one: stamped,
      unwrapped and anchored at the total. */
  lemma CombinedTimeline(d: Dict, ctx: DataInfo, step: Step, frames: seq<FrameData>, b: MovementBoneData)
    requires ctx.cocoStudioVersion < VERSION_COMBINED
    requires frames == Frames(d, ctx) && frames != []
    requires b == MovementBone(d, ctx, step)
    ensures b.duration == SumDurations(frames)
    ensures b.frameList == WithEndAnchor(UnwrappedWith(Stamped(frames), step), SumDurations(frames))
  {
    var (duration, frameList) := Timed(frames, ctx.cocoStudioVersion, step);
    assert b.duration == duration && b.frameList == frameList;
    assert ctx.cocoStudioVersion < VERSION_CHANGE_ROTATION_RANGE;
  }

  /** Below VERSION_COMBINED, as the source decodes it with the written
      rule: the last key frame keeps its transform, and every earlier one
      keeps all of it but its skews, each moved by at most one whole turn
      towards its rewritten successor (TurnShift). */
  lemma MovementBoneAsWritten(d: Dict, ctx: DataInfo, frames: seq<FrameData>, b: MovementBoneData)
    requires ctx.cocoStudioVersion < VERSION_COMBINED
    requires frames == Frames(d, ctx) && frames != []
    requires b == MovementBone(d, ctx, SingleTurn)
    ensures ShiftedOnce(frames, b.frameList)
  {
    CombinedTimeline(d, ctx, SingleTurn, frames, b);
    AnchoredAsWritten(frames, b.frameList);
  }

  /** Below VERSION_COMBINED, in the corrected decoder whose pair rule takes
      as many whole turns as a difference needs: no two neighbouring frames,
      anchor included, are more than a half turn apart in either skew. */
  lemma MovementBoneCorrected(d: Dict, ctx: DataInfo, frames: seq<FrameData>, b: MovementBoneData)
    requires ctx.cocoStudioVersion < VERSION_COMBINED
    requires frames == Frames(d, ctx) && frames != []
    requires b == MovementBone(d, ctx, MultiTurn)
    ensures Continuous(b.frameList)
  {
    CombinedTimeline(d, ctx, MultiTurn, frames, b);
    AnchoredCorrected(frames, b.frameList);
  }

  /** From VERSION_COMBINED on nothing is stamped and no anchor is added:
      the bone's duration stays 0 and every frame keeps the index it was
      given; from VERSION_CHANGE_ROTATION_RANGE on the frames are exactly
      as decoded. */
  lemma MovementBoneIndexed(d: Dict, ctx: DataInfo, step: Step, frames: seq<FrameData>, b: MovementBoneData)
    requires ctx.cocoStudioVersion >= VERSION_COMBINED
    requires frames == Frames(d, ctx)
    requires b == MovementBone(d, ctx, step)
    ensures b.duration == 0
    ensures |b.frameList| == |frames|
    ensures forall k :: 0 <= k < |frames| ==>
      b.frameList[k].frameID == frames[k].frameID && b.frameList[k].duration == frames[k].duration
    ensures ctx.cocoStudioVersion >= VERSION_CHANGE_ROTATION_RANGE ==> b.frameList == frames
  {
    UnwrappedKeepsTimes(frames, step);
  }

  /** A bone without frames gets no end anchor in either version. */
  lemma MovementBoneEmpty(d: Dict, ctx: DataInfo, step: Step)
    requires SubItems(d, FRAME_DATA) == []
    ensures MovementBone(d, ctx, step).frameList == [] && MovementBone(d, ctx, step).duration == 0
  {
    assert Frames(d, ctx) == [];
  }

  /** The delay is stored as read, 0 when absent: a positive delay keeps its
      last tick, unlike the XML form. The name is read with default "". */
  lemma MovementBoneDelayKept(d: Dict, ctx: DataInfo, step: Step)
    ensures MovementBone(d, ctx, step).delay == ItemReal(d, A_MOVEMENT_DELAY, 0.0)
    ensures MovementBone(d, ctx, step).name == ItemString(d, A_NAME).GetOr("")
    ensures MovementBone(d, ctx, step).scale == 1.0
  {
  }

  // ----- movements -----

  /** The movement bones of the `mov_bone_data` array, in array order. */
  function BonesOf(items: seq<Dict>, ctx: DataInfo, step: Step): (r: seq<MovementBoneData>)
    ensures |r| == |items|
  {
    seq(|items|, k requires 0 <= k < |items| => MovementBone(items[k], ctx, step))
  }

  /** Bones stored by name in order, so a later bone replaces an earlier
      one of the same name. */
  function ByName(bones: seq<MovementBoneData>): map<string, MovementBoneData> {
    if bones == [] then map[]
    else ByName(bones[..|bones| - 1])[bones[|bones| - 1].name := bones[|bones| - 1]]
  }

  /** decodeMovement: the header fields with their defaults, then the bones. */
  function Movement(d: Dict, ctx: DataInfo, step: Step): MovementData {
    MovementHeader(d).(movBoneDataDic := ByName(BonesOf(SubItems(d, MOVEMENT_BONE_DATA), ctx, step)))
  }

  function MovementHeader(d: Dict): MovementData {
    var m := DefaultMovement();
    m.(loop := ItemBool(d, A_LOOP, true),
       durationTween := ItemInt(d, A_DURATION_TWEEN, 0),
       durationTo := ItemInt(d, A_DURATION_TO, 0),
       duration := ItemInt(d, A_DURATION, 0),
       scale := ItemReal(d, A_MOVEMENT_SCALE, 1.0),
       tweenEasing := ItemInt(d, A_TWEEN_EASING, LINEAR),
       name := ItemString(d, A_NAME).GetOr(m.name))
  }

  /** decodeMovement as the source runs it. */
  method DecodeMovement(d: Dict, ctx: DataInfo, step: Step) returns (r: MovementData)
    ensures r == Movement(d, ctx, step)
  {
    r := MovementHeader(d);
    var items := SubItems(d, MOVEMENT_BONE_DATA);
    ghost var bones := BonesOf(items, ctx, step);
    var i := 0;
    while i < |items|
      invariant 0 <= i <= |items|
      invariant r == MovementHeader(d).(movBoneDataDic := ByName(bones[..i]))
    {
      var movementBoneData := DecodeMovementBone(items[i], ctx, step);
      assert bones[..i + 1] == bones[..i] + [movementBoneData];
      r := r.(movBoneDataDic := r.movBoneDataDic[movementBoneData.name := movementBoneData]);
      i := i + 1;
    }
    assert bones[..|items|] == bones;
  }

  /** The names a movement stores are exactly the names of its bones. */
  lemma {:induction false} ByNameKeys(bones: seq<MovementBoneData>)
    ensures forall name :: name in ByName(bones) <==> exists k :: 0 <= k < |bones| && bones[k].name == name
  {
    if bones != [] {
      var init := bones[..|bones| - 1];
      ByNameKeys(init);
      assert forall k :: 0 <= k < |bones| - 1 ==> bones[k] == init[k];
    }
  }

  /** Each name is stored with the last bone of that name. */
  lemma {:induction false} ByNameLastWins(bones: seq<MovementBoneData>)
    ensures forall k :: 0 <= k < |bones| && LastNamed(bones, k) ==>
      bones[k].name in ByName(bones) && ByName(bones)[bones[k].name] == bones[k]
  {
    if bones != [] {
      var init := bones[..|bones| - 1];
      ByNameLastWins(init);
      forall k | 0 <= k < |bones| - 1 && LastNamed(bones, k) ensures LastNamed(init, k) {
      }
    }
  }

  /** No later bone has the name of bone k. */
  ghost predicate LastNamed(bones: seq<MovementBoneData>, k: nat)
    requires k < |bones|
  {
    forall m :: k < m < |bones| ==> bones[m].name != bones[k].name
  }

  // ----- textures and contours -----

  /** One vertex as read: x and y with default 0, y not flipped. */
  function Vertex(v: Dict): ContourVertex {
    ContourVertex(ItemReal(v, A_X, 0.0), ItemReal(v, A_Y, 0.0))
  }

  /** The vertices of the array, last one first. */
  function ReversedVertices(items: seq<Dict>): (r: seq<ContourVertex>)
    ensures |r| == |items|
  {
    if items == [] then [] else ReversedVertices(items[1..]) + [Vertex(items[0])]
  }

  /** decodeContour: the vertices of the `vertex` array in reverse order. */
  function Contour(d: Dict): ContourData {
    ContourData(ReversedVertices(SubItems(d, VERTEX_POINT)))
  }

  /** Vertex k of the contour is vertex |items| - 1 - k of the array. */
  lemma {:induction false} ReversedVerticesAt(items: seq<Dict>, k: nat)
    requires k < |items|
    ensures ReversedVertices(items)[k] == Vertex(items[|items| - 1 - k])
  {
    if k < |items| - 1 {
      ReversedVerticesAt(items[1..], k);
    }
  }

  /** The stored contour holds the array's vertices, last one first. */
  lemma ContourReversed(d: Dict)
    ensures |Contour(d).vertexList| == |SubItems(d, VERTEX_POINT)|
    ensures forall k :: 0 <= k < |Contour(d).vertexList| ==>
      Contour(d).vertexList[k] == Vertex(SubItems(d, VERTEX_POINT)[|SubItems(d, VERTEX_POINT)| - 1 - k])
  {
    var items := SubItems(d, VERTEX_POINT);
    forall k | 0 <= k < |items| ensures ReversedVertices(items)[k] == Vertex(items[|items| - 1 - k]) {
      ReversedVerticesAt(items, k);
    }
  }

  /** decodeContour as the source runs it: a loop from the last array entry
      down to the first. */
  method DecodeContour(d: Dict) returns (r: ContourData)
    ensures r == Contour(d)
  {
    var items := SubItems(d, VERTEX_POINT);
    var vertexList: seq<ContourVertex> := [];
    var i := |items| - 1;
    while i >= 0
      invariant -1 <= i < |items|
      invariant vertexList == ReversedVertices(items[i + 1..])
    {
      assert items[i..][1..] == items[i + 1..];
      vertexList := vertexList + [Vertex(items[i])];
      i := i - 1;
    }
    assert items[0..] == items;
    r := ContourData(vertexList);
  }

  /** decodeTexture: name, size and pivot read with default 0 (the JSON form
      stores the pivot as given, with no conversion), then the contours in
      array order. */
  function Texture(d: Dict): TextureData {
    var contours := SubItems(d, CONTOUR_DATA);
    DefaultTexture().(
      name := ItemString(d, A_NAME).GetOr(""),
      width := ItemReal(d, A_WIDTH, 0.0),
      height := ItemReal(d, A_HEIGHT, 0.0),
      pivotX := ItemReal(d, A_PIVOT_X, 0.0),
      pivotY := ItemReal(d, A_PIVOT_Y, 0.0),
      contourDataList := seq(|contours|, k requires 0 <= k < |contours| => Contour(contours[k])))
  }

  /** An empty texture dictionary overrides the constructor's centred pivot
      with 0. */
  lemma TextureDefaults()
    ensures Texture(map[]) == TextureData("", 0.0, 0.0, 0.0, 0.0, [])
  {
  }

  /** A decoded texture holds one contour per `contour_data` entry, in array
      order, each with that entry's vertices last one first; the pivot is the
      one written, in whatever units the document uses. */
  lemma TextureContours(d: Dict)
    ensures |Texture(d).contourDataList| == |SubItems(d, CONTOUR_DATA)|
    ensures forall k :: 0 <= k < |SubItems(d, CONTOUR_DATA)| ==>
      var c := SubItems(d, CONTOUR_DATA)[k];
      var vs := SubItems(c, VERTEX_POINT);
      && |Texture(d).contourDataList[k].vertexList| == |vs|
      && forall i :: 0 <= i < |vs| ==> Texture(d).contourDataList[k].vertexList[i] == Vertex(vs[|vs| - 1 - i])
    ensures Texture(d).pivotX == ItemReal(d, A_PIVOT_X, 0.0) && Texture(d).pivotY == ItemReal(d, A_PIVOT_Y, 0.0)
  {
    var contours := SubItems(d, CONTOUR_DATA);
    forall k | 0 <= k < |contours|
      ensures var vs := SubItems(contours[k], VERTEX_POINT);
        && |Texture(d).contourDataList[k].vertexList| == |vs|
        && forall i :: 0 <= i < |vs| ==> Texture(d).contourDataList[k].vertexList[i] == Vertex(vs[|vs| - 1 - i])
    {
      ContourReversed(contours[k]);
    }
  }

  /** decodeTexture as the source runs it. */
  method DecodeTexture(d: Dict) returns (r: TextureData)
    ensures r == Texture(d)
  {
    r := DefaultTexture();
    r := r.(name := ItemString(d, A_NAME).GetOr(r.name));
    r := r.(width := ItemReal(d, A_WIDTH, 0.0), height := ItemReal(d, A_HEIGHT, 0.0));
    r := r.(pivotX := ItemReal(d, A_PIVOT_X, 0.0), pivotY := ItemReal(d, A_PIVOT_Y, 0.0));
    var contours := SubItems(d, CONTOUR_DATA);
    var contourDataList: seq<ContourData> := [];
    var i := 0;
    while i < |contours|
      invariant 0 <= i <= |contours|
      invariant contourDataList == seq(i, k requires 0 <= k < i => Contour(contours[k]))
    {
      var contourData := DecodeContour(contours[i]);
      contourDataList := contourDataList + [contourData];
      i := i + 1;
    }
    r := r.(contourDataList := contourDataList);
  }

  // ----- displays -----

  /** The skin of a sprite display: position scaled by both factors, scales
      and skews read with their defaults, the rest fresh. */
  function Skin(s: Option<Dict>, ctx: DataInfo): BaseData {
    var b := DefaultBase();
    match s
    case None => b
    case Some(d) =>
      b.(x := ItemReal(d, A_X, 0.0) * ctx.positionReadScale * ctx.contentScale,
         y := ItemReal(d, A_Y, 0.0) * ctx.positionReadScale * ctx.contentScale,
         scaleX := ItemReal(d, A_SCALE_X, 1.0), scaleY := ItemReal(d, A_SCALE_Y, 1.0),
         skewX := ItemReal(d, A_SKEW_X, 0.0), skewY := ItemReal(d, A_SKEW_Y, 0.0))
  }

  /** decodeBoneDisplay: the variant chosen by `displayType` (default sprite);
      a sprite takes its skin from the first `skin_data` entry, a particle's
      plist is resolved against the document's directory, and an unknown type
      gives a bare sprite display carrying that type code. */
  function BoneDisplay(d: Dict, ctx: DataInfo): (r: DisplayData)
    ensures r.DisplayType() == ItemInt(d, A_DISPLAY_TYPE, CS_DISPLAY_SPRITE)
    ensures r.ParticleDisplay? <==> ItemInt(d, A_DISPLAY_TYPE, CS_DISPLAY_SPRITE) == CS_DISPLAY_PARTICLE
    ensures r.ArmatureDisplay? <==> ItemInt(d, A_DISPLAY_TYPE, CS_DISPLAY_SPRITE) == CS_DISPLAY_ARMATURE
    ensures r.ParticleDisplay? && ItemString(d, A_PLIST).Some? ==>
      r.plist == ctx.baseFilePath + ItemString(d, A_PLIST).value
    ensures r.ParticleDisplay? && ItemString(d, A_PLIST).None? ==> r.plist == ""
    ensures !r.ParticleDisplay? && 0 <= r.DisplayType() <= CS_DISPLAY_ARMATURE ==>
      r.displayName == ItemString(d, A_NAME).GetOr("")
    ensures r.SpriteDisplay? && r.displayType != CS_DISPLAY_SPRITE ==>
      r.displayName == "" && r.skinData == DefaultBase()
  {
    var displayType := ItemInt(d, A_DISPLAY_TYPE, CS_DISPLAY_SPRITE);
    var name := ItemString(d, A_NAME).GetOr("");
    if displayType == CS_DISPLAY_SPRITE then SpriteDisplay(displayType, name, Skin(FirstSubItem(d, SKIN_DATA), ctx))
    else if displayType == CS_DISPLAY_ARMATURE then ArmatureDisplay(name)
    else if displayType == CS_DISPLAY_PARTICLE then
      ParticleDisplay(match ItemString(d, A_PLIST) case Some(p) => ctx.baseFilePath + p case None => "")
    else SpriteDisplay(displayType, "", DefaultBase())
  }

  /** A sprite display with an empty skin entry has a fresh skin. */
  lemma SkinDefaults(ctx: DataInfo)
    ensures Skin(Some(map[]), ctx) == DefaultBase()
  {
  }
}
