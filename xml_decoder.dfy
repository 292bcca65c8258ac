/** The decoders for the XML (DragonBone) form of an animation document. */
module XmlDecoder {
  import opened Results
  import opened Documents
  import opened Datas
  import opened Timeline
  import opened Keys

  /** TransformHelp::transformFromParent: the child transform resolved against
      the parent frame's. Its matrix arithmetic is supplied by the caller. */
  type Compose = (BaseData, BaseData) -> BaseData

  // ----- small rules -----

  /** The position attribute names a document of this tool version uses. */
  function PositionNames(ctx: DataInfo): (string, string) {
    if ctx.flashToolVersion >= VERSION_2_0 then (A_COCOS2DX_X, A_COCOS2DX_Y) else (A_X, A_Y)
  }

  /** The tween-easing code as stored: code 2 of the tool means Sine_EaseInOut. */
  function MapTweenCode(code: int): int {
    if code == 2 then SINE_EASE_IN_OUT else code
  }

  /** The easing read from `twE`: "NaN" means Linear, an integer is stored with
      2 turned into Sine_EaseInOut, anything else (or no attribute) keeps
      `current`. */
  function TweenEasing(e: XmlElement, current: int): (r: int)
    ensures Attribute(e, A_TWEEN_EASING) == Some(FL_NAN) ==> r == LINEAR
    ensures Attribute(e, A_TWEEN_EASING) != Some(FL_NAN) && QueryInt(e, A_TWEEN_EASING) == Some(2) ==> r == SINE_EASE_IN_OUT
    ensures Attribute(e, A_TWEEN_EASING) != Some(FL_NAN) && QueryInt(e, A_TWEEN_EASING).None? ==> r == current
    ensures (Attribute(e, A_TWEEN_EASING) != Some(FL_NAN) && QueryInt(e, A_TWEEN_EASING).Some?
             && QueryInt(e, A_TWEEN_EASING).value != 2) ==> r == QueryInt(e, A_TWEEN_EASING).value
    ensures r == 2 ==> current == 2
  {
    match Attribute(e, A_TWEEN_EASING)
    case None => current
    case Some(text) =>
      if text != FL_NAN then
        (match QueryInt(e, A_TWEEN_EASING)
         case Some(code) => MapTweenCode(code)
         case None => current)
      else LINEAR
  }

  /** The movement-bone delay: a positive delay loses one tick. */
  function AdjustDelay(delay: real): (r: real)
    ensures delay > 0.0 ==> r == delay - 1.0
    ensures delay <= 0.0 ==> r == delay
  {
    if delay > 0.0 then delay - 1.0 else delay
  }

  // ----- frames -----

  /** decodeFrame without the parent step: the frame's own attributes over
      the FrameData defaults; y and the y skew are flipped, skews turn into
      radians and positions are multiplied by the position read scale. */
  function DecodeLocalFrame(e: XmlElement, ctx: DataInfo): FrameData {
    var d := DefaultFrame();
    d.(
      base := LocalBase(e, ctx),
      strMovement := Attribute(e, A_MOVEMENT).GetOr(d.strMovement),
      strEvent := Attribute(e, A_EVENT).GetOr(d.strEvent),
      strSound := Attribute(e, A_SOUND).GetOr(d.strSound),
      strSoundEffect := Attribute(e, A_SOUND_EFFECT).GetOr(d.strSoundEffect),
      duration := QueryInt(e, A_DURATION).GetOr(d.duration),
      displayIndex := QueryInt(e, A_DISPLAY_INDEX).GetOr(d.displayIndex),
      blendType := QueryInt(e, A_BLEND_TYPE).GetOr(d.blendType),
      tweenEasing := TweenEasing(e, d.tweenEasing))
  }

  /** The transform part of a frame element over the BaseData defaults. */
  function LocalBase(e: XmlElement, ctx: DataInfo): BaseData {
    var (nx, ny) := PositionNames(ctx);
    var b := DefaultBase();
    b.(
      x := (match QueryReal(e, nx) case Some(v) => v * ctx.positionReadScale case None => b.x),
      y := (match QueryReal(e, ny) case Some(v) => -v * ctx.positionReadScale case None => b.y),
      scaleX := QueryReal(e, A_SCALE_X).GetOr(b.scaleX),
      scaleY := QueryReal(e, A_SCALE_Y).GetOr(b.scaleY),
      skewX := (match QueryReal(e, A_SKEW_X) case Some(v) => DegreesToRadians(v) case None => b.skewX),
      skewY := (match QueryReal(e, A_SKEW_Y) case Some(v) => DegreesToRadians(-v) case None => b.skewY),
      zOrder := QueryInt(e, A_Z).GetOr(b.zOrder),
      isUseColorInfo := FirstChild(e, A_COLOR_TRANSFORM).Some? || b.isUseColorInfo)
  }

  /** The parent frame's transform as decodeFrame reads it into helpNode: its
      position (not multiplied by the read scale), y flipped, skews in radians. */
  function ParentNode(p: XmlElement, ctx: DataInfo): BaseData {
    var (nx, ny) := PositionNames(ctx);
    var b := DefaultBase();
    b.(x := QueryReal(p, nx).GetOr(0.0),
       y := -QueryReal(p, ny).GetOr(0.0),
       skewX := DegreesToRadians(QueryReal(p, A_SKEW_X).GetOr(0.0)),
       skewY := DegreesToRadians(-QueryReal(p, A_SKEW_Y).GetOr(0.0)))
  }

  /** decodeFrame: the local frame, resolved against the parent frame if one
      is given. */
  function DecodeFrame(e: XmlElement, parent: Option<XmlElement>, ctx: DataInfo, compose: Compose): (f: FrameData)
    ensures f.(base := DecodeLocalFrame(e, ctx).base) == DecodeLocalFrame(e, ctx)
    ensures parent.None? ==> f == DecodeLocalFrame(e, ctx)
  {
    var local := DecodeLocalFrame(e, ctx);
    match parent
    case None => local
    case Some(p) => local.(base := compose(local.base, ParentNode(p, ctx)))
  }

  /** A frame element with no attributes and no children decodes to a fresh
      FrameData. */
  lemma DecodeLocalFrameDefaults(ctx: DataInfo)
    ensures DecodeLocalFrame(XmlElement(FRAME, map[], []), ctx) == DefaultFrame()
  {
  }

  /** An attribute other than the position reads alike in both elements. */
  lemma SameAttribute(legacy: XmlElement, renamed: XmlElement, n: string)
    requires n != A_X && n != A_Y && n != A_COCOS2DX_X && n != A_COCOS2DX_Y
    requires forall n :: n != A_X && n != A_Y && n != A_COCOS2DX_X && n != A_COCOS2DX_Y ==>
      (n in legacy.attrs <==> n in renamed.attrs) && (n in legacy.attrs ==> legacy.attrs[n] == renamed.attrs[n])
    ensures QueryReal(legacy, n) == QueryReal(renamed, n)
    ensures QueryInt(legacy, n) == QueryInt(renamed, n)
    ensures Attribute(legacy, n) == Attribute(renamed, n)
  {
  }

  /** Two frame elements that differ only in how their position is spelled
      decode alike: `x`/`y` below VERSION_2_0, `cocos2d_x`/`cocos2d_y` from it on. */
  lemma DecodeLocalFramePositionGate(legacy: XmlElement, renamed: XmlElement, before: DataInfo, after: DataInfo)
    requires before.flashToolVersion < VERSION_2_0 <= after.flashToolVersion
    requires before.positionReadScale == after.positionReadScale
    requires legacy.children == renamed.children
    requires QueryReal(legacy, A_X) == QueryReal(renamed, A_COCOS2DX_X)
    requires QueryReal(legacy, A_Y) == QueryReal(renamed, A_COCOS2DX_Y)
    requires forall n :: n != A_X && n != A_Y && n != A_COCOS2DX_X && n != A_COCOS2DX_Y ==>
      (n in legacy.attrs <==> n in renamed.attrs) && (n in legacy.attrs ==> legacy.attrs[n] == renamed.attrs[n])
    ensures DecodeLocalFrame(legacy, before) == DecodeLocalFrame(renamed, after)
  {
    LocalBasePositionGate(legacy, renamed, before, after);
    SameAttribute(legacy, renamed, A_DURATION);
    SameAttribute(legacy, renamed, A_DISPLAY_INDEX);
    SameAttribute(legacy, renamed, A_BLEND_TYPE);
    SameAttribute(legacy, renamed, A_MOVEMENT);
    SameAttribute(legacy, renamed, A_EVENT);
    SameAttribute(legacy, renamed, A_SOUND);
    SameAttribute(legacy, renamed, A_SOUND_EFFECT);
    SameAttribute(legacy, renamed, A_TWEEN_EASING);
  }

  lemma LocalBasePositionGate(legacy: XmlElement, renamed: XmlElement, before: DataInfo, after: DataInfo)
    requires before.flashToolVersion < VERSION_2_0 <= after.flashToolVersion
    requires before.positionReadScale == after.positionReadScale
    requires legacy.children == renamed.children
    requires QueryReal(legacy, A_X) == QueryReal(renamed, A_COCOS2DX_X)
    requires QueryReal(legacy, A_Y) == QueryReal(renamed, A_COCOS2DX_Y)
    requires forall n :: n != A_X && n != A_Y && n != A_COCOS2DX_X && n != A_COCOS2DX_Y ==>
      (n in legacy.attrs <==> n in renamed.attrs) && (n in legacy.attrs ==> legacy.attrs[n] == renamed.attrs[n])
    ensures LocalBase(legacy, before) == LocalBase(renamed, after)
  {
    SameAttribute(legacy, renamed, A_SCALE_X);
    SameAttribute(legacy, renamed, A_SCALE_Y);
    SameAttribute(legacy, renamed, A_SKEW_X);
    SameAttribute(legacy, renamed, A_SKEW_Y);
    SameAttribute(legacy, renamed, A_Z);
    assert PositionNames(before) == (A_X, A_Y) && PositionNames(after) == (A_COCOS2DX_X, A_COCOS2DX_Y);
    assert FirstChild(legacy, A_COLOR_TRANSFORM) == FirstChild(renamed, A_COLOR_TRANSFORM);
  }

  // ----- movement bones -----

  /** The frame elements of a movement bone, in document order. */
  function FrameElements(e: XmlElement): seq<XmlElement> {
    ChildrenNamed(e.children, FRAME)
  }

  /** The parent's frame elements (parentXmlList); none without a parent. */
  function ParentFrameList(parent: Option<XmlElement>): seq<XmlElement> {
    match parent
    case None => []
    case Some(p) => FrameElements(p)
  }

  /** The duration attribute of each parent frame, as the sweep queries it. */
  function ParentDurations(frames: seq<XmlElement>): (ds: seq<Option<int>>)
    ensures |ds| == |frames|
  {
    seq(|frames|, k requires 0 <= k < |frames| => QueryInt(frames[k], A_DURATION))
  }

  /** The frame elements decoded on their own. */
  function LocalFrames(frames: seq<XmlElement>, ctx: DataInfo): (fs: seq<FrameData>)
    ensures |fs| == |frames|
  {
    seq(|frames|, k requires 0 <= k < |frames| => DecodeLocalFrame(frames[k], ctx))
  }

  /** The tick at which each frame starts: the durations before it. */
  function StartTicks(fs: seq<FrameData>): (r: seq<int>)
    ensures |r| == |fs|
  {
    seq(|fs|, k requires 0 <= k < |fs| => SumDurations(fs[..k]))
  }

  function ParentAt(parents: seq<XmlElement>, located: Option<nat>): Option<XmlElement> {
    if located.Some? && located.value < |parents| then Some(parents[located.value]) else None
  }

  /** Each frame element decoded against the parent frame the sweep located
      for its start tick. */
  function ResolvedFrames(frames: seq<XmlElement>, parents: seq<XmlElement>, ctx: DataInfo, compose: Compose): (r: seq<FrameData>)
    ensures |r| == |frames|
    ensures forall k :: 0 <= k < |r| ==> r[k].(base := LocalFrames(frames, ctx)[k].base) == LocalFrames(frames, ctx)[k]
  {
    var located := ParentFrameIndices(ParentDurations(parents), StartTicks(LocalFrames(frames, ctx)));
    seq(|frames|, k requires 0 <= k < |frames| => DecodeFrame(frames[k], ParentAt(parents, located[k]), ctx, compose))
  }

  /** What decodeMovementBone builds, stated as a value: scale and adjusted
      delay, the name, the resolved frames stamped with running-sum frame IDs
      and unwrapped with the pair rule `step`, then the end anchor at the
      total duration. The source's rule is SingleTurn. A missing name or an
      empty frame list is a null dereference in the source. */
  function MovementBone(e: XmlElement, parent: Option<XmlElement>, ctx: DataInfo, compose: Compose, step: Step): (r: Result<MovementBoneData>)
    ensures Attribute(e, A_NAME).None? ==> r == Err(MissingAttribute(BONE, A_NAME))
    ensures Attribute(e, A_NAME).Some? && FrameElements(e) == [] ==> r == Err(EmptyFrameList(Attribute(e, A_NAME).value))
    ensures r.Ok? <==> Attribute(e, A_NAME).Some? && FrameElements(e) != []
    ensures r.Ok? ==> r.value.name == Attribute(e, A_NAME).value
    ensures r.Ok? ==> r.value.scale == QueryReal(e, A_MOVEMENT_SCALE).GetOr(1.0)
    ensures r.Ok? && QueryReal(e, A_MOVEMENT_DELAY).None? ==> r.value.delay == 0.0
    ensures r.Ok? && QueryReal(e, A_MOVEMENT_DELAY).Some? ==>
      var v := QueryReal(e, A_MOVEMENT_DELAY).value;
      r.value.delay == if v > 0.0 then v - 1.0 else v
  {
    AssembleMovementBone(e, ResolvedFrames(FrameElements(e), ParentFrameList(parent), ctx, compose), step)
  }

  /** The movement bone around its resolved frames. */
  function AssembleMovementBone(e: XmlElement, resolved: seq<FrameData>, step: Step): Result<MovementBoneData> {
    var d := DefaultMovementBone();
    var scale := QueryReal(e, A_MOVEMENT_SCALE).GetOr(d.scale);
    var delay := match QueryReal(e, A_MOVEMENT_DELAY) case Some(v) => AdjustDelay(v) case None => d.delay;
    match Attribute(e, A_NAME)
    case None => Err(MissingAttribute(BONE, A_NAME))
    case Some(name) =>
      if resolved == [] then Err(EmptyFrameList(name))
      else
        var total := SumDurations(resolved);
        Ok(MovementBoneData(name, delay, scale, total, WithEndAnchor(UnwrappedWith(Stamped(resolved), step), total)))
  }

  /** One step of the sweep over the start ticks. */
  lemma SweepStep(ds: seq<Option<int>>, starts: seq<int>, k: nat, done: seq<Option<nat>>, c: Cursor)
    requires k < |starts|
    ensures Sweep(ds, starts[k..], c)
         == [Advance(ds, starts[k], c).Located()] + Sweep(ds, starts[k + 1..], Advance(ds, starts[k], c))
  {
    assert starts[k..][0] == starts[k] && starts[k..][1..] == starts[k + 1..];
  }

  /** What the frame loop keeps true after k frames. */
  ghost predicate FrameLoopInvariant(frameXmls: seq<XmlElement>, parentXmlList: seq<XmlElement>, ctx: DataInfo, compose: Compose,
                                     k: nat, done: seq<Option<nat>>, cursor: Cursor, frameList: seq<FrameData>, totalDuration: int)
  {
    var ds := ParentDurations(parentXmlList);
    var resolved := ResolvedFrames(frameXmls, parentXmlList, ctx, compose);
    && k <= |frameXmls|
    && CursorValid(ds, cursor)
    && |done| == k
    && done + Sweep(ds, StartTicks(LocalFrames(frameXmls, ctx))[k..], cursor) == ParentFrameIndices(ds, StartTicks(LocalFrames(frameXmls, ctx)))
    && totalDuration == SumDurations(resolved[..k])
    && frameList == Stamped(resolved[..k])
  }

  /** Entering the frame loop. */
  lemma FrameLoopStart(frameXmls: seq<XmlElement>, parentXmlList: seq<XmlElement>, ctx: DataInfo, compose: Compose)
    ensures FrameLoopInvariant(frameXmls, parentXmlList, ctx, compose, 0, [], StartCursor(), [], 0)
  {
    var starts := StartTicks(LocalFrames(frameXmls, ctx));
    assert starts[0..] == starts;
  }

  /** One turn of the frame loop: the cursor the sweep moves to locates frame
      k's parent frame, and frame k is stamped with the running total. */
  lemma FrameLoopStep(frameXmls: seq<XmlElement>, parentXmlList: seq<XmlElement>, ctx: DataInfo, compose: Compose,
                      k: nat, done: seq<Option<nat>>, before: Cursor, frameList: seq<FrameData>, totalDuration: int)
    requires k < |frameXmls|
    requires FrameLoopInvariant(frameXmls, parentXmlList, ctx, compose, k, done, before, frameList, totalDuration)
    ensures var ds := ParentDurations(parentXmlList);
      var cursor := Advance(ds, totalDuration, before);
      var frameData := DecodeFrame(frameXmls[k], ParentAt(parentXmlList, cursor.Located()), ctx, compose);
      FrameLoopInvariant(frameXmls, parentXmlList, ctx, compose, k + 1, done + [cursor.Located()], cursor,
                         frameList + [frameData.(frameID := totalDuration)], totalDuration + frameData.duration)
  {
    var ds := ParentDurations(parentXmlList);
    var locals := LocalFrames(frameXmls, ctx);
    var starts := StartTicks(locals);
    var located := ParentFrameIndices(ds, starts);
    var resolved := ResolvedFrames(frameXmls, parentXmlList, ctx, compose);
    SameDurationsPrefix(locals, resolved, k);
    assert starts[k] == totalDuration;
    AdvanceSpec(ds, totalDuration, before);
    var cursor := Advance(ds, totalDuration, before);
    SweepStep(ds, starts, k, done, before);
    assert located == (done + [cursor.Located()]) + Sweep(ds, starts[k + 1..], cursor);
    StampStep(resolved, k);
  }

  /** The frame loop of decodeMovementBone (XML): the parent cursor is carried
      from one frame to the next (and moved only when there is a parent), each
      frame is decoded against the parent frame it starts in, stamped with the
      running total, and its duration added to it. */
  method DecodeFrameList(frameXmls: seq<XmlElement>, parentXmlList: seq<XmlElement>, hasParent: bool, ctx: DataInfo, compose: Compose)
    returns (frameList: seq<FrameData>, totalDuration: int)
    requires !hasParent ==> parentXmlList == []
    ensures frameList == Stamped(ResolvedFrames(frameXmls, parentXmlList, ctx, compose))
    ensures totalDuration == SumDurations(ResolvedFrames(frameXmls, parentXmlList, ctx, compose))
  {
    var ds := ParentDurations(parentXmlList);
    ghost var done: seq<Option<nat>> := [];
    var cursor := StartCursor();
    frameList, totalDuration := [], 0;
    FrameLoopStart(frameXmls, parentXmlList, ctx, compose);
    var k := 0;
    while k < |frameXmls|
      invariant FrameLoopInvariant(frameXmls, parentXmlList, ctx, compose, k, done, cursor, frameList, totalDuration)
    {
      FrameLoopStep(frameXmls, parentXmlList, ctx, compose, k, done, cursor, frameList, totalDuration);
      var before := cursor;
      if hasParent {
        cursor := LocateParentFrame(ds, totalDuration, cursor);
      } else {
        assert ds == [];
      }
      assert cursor == Advance(ds, totalDuration, before);
      done := done + [cursor.Located()];
      var frameData := DecodeFrame(frameXmls[k], ParentAt(parentXmlList, cursor.Located()), ctx, compose);
      frameList := frameList + [frameData.(frameID := totalDuration)];
      totalDuration := totalDuration + frameData.duration;
      k := k + 1;
    }
    ghost var resolved := ResolvedFrames(frameXmls, parentXmlList, ctx, compose);
    assert resolved[..k] == resolved;
  }

  /** decodeMovementBone (XML): one pass over the frame elements that carries
      the parent cursor along, decodes each frame against the parent frame it
      starts in, stamps it with the running total and adds its duration; then
      the unwrap pass over the frame array and the end anchor. */
  method DecodeMovementBone(movBoneXml: XmlElement, parentXml: Option<XmlElement>, ctx: DataInfo, compose: Compose, step: Step)
    returns (r: Result<MovementBoneData>)
    ensures r == MovementBone(movBoneXml, parentXml, ctx, compose, step)
  {
    var movBoneData := DefaultMovementBone();
    movBoneData := movBoneData.(scale := QueryReal(movBoneXml, A_MOVEMENT_SCALE).GetOr(movBoneData.scale));
    var delay := QueryReal(movBoneXml, A_MOVEMENT_DELAY);
    if delay.Some? {
      movBoneData := movBoneData.(delay := AdjustDelay(delay.value));
    }

    var parentXmlList := ParentFrameList(parentXml);
    var ds := ParentDurations(parentXmlList);

    var name := Attribute(movBoneXml, A_NAME);
    if name.None? {
      return Err(MissingAttribute(BONE, A_NAME));
    }
    movBoneData := movBoneData.(name := name.value);

    ghost var resolved := ResolvedFrames(FrameElements(movBoneXml), parentXmlList, ctx, compose);
    var frameList, totalDuration := DecodeFrameList(FrameElements(movBoneXml), parentXmlList, parentXml.Some?, ctx, compose);
    movBoneData := movBoneData.(frameList := frameList, duration := totalDuration);

    var closed := UnwrapAndAnchor(movBoneData.frameList, movBoneData.duration, step);
    if closed.None? {
      return Err(EmptyFrameList(name.value));
    }
    movBoneData := movBoneData.(frameList := closed.value);
    r := Ok(movBoneData);
  }

  // ----- properties of a decoded movement bone -----

  /** The resolved frames keep the frame elements' own durations. */
  lemma ResolvedDurations(frames: seq<XmlElement>, parents: seq<XmlElement>, ctx: DataInfo, compose: Compose,
                          resolved: seq<FrameData>, locals: seq<FrameData>)
    requires resolved == ResolvedFrames(frames, parents, ctx, compose)
    requires locals == LocalFrames(frames, ctx)
    ensures |resolved| == |locals|
    ensures forall k :: 0 <= k < |locals| ==> resolved[k].duration == locals[k].duration
  {
    forall k | 0 <= k < |locals| ensures resolved[k].duration == locals[k].duration {
      assert resolved[k].(base := locals[k].base) == locals[k];
    }
  }

  /** A decoded movement bone's timeline: one key frame per frame element and
      then the end anchor; key frame k starts at the sum of the durations of
      the frames before it and keeps its own duration; the bone lasts as long
      as all its frames together. */
  lemma MovementBoneTimeline(e: XmlElement, parent: Option<XmlElement>, ctx: DataInfo, compose: Compose, step: Step,
                             locals: seq<FrameData>, b: MovementBoneData)
    requires locals == LocalFrames(FrameElements(e), ctx)
    requires MovementBone(e, parent, ctx, compose, step) == Ok(b)
    ensures |locals| > 0 && |b.frameList| == |locals| + 1
    ensures b.duration == SumDurations(locals)
    ensures forall k :: 0 <= k < |locals| ==>
      b.frameList[k].frameID == SumDurations(locals[..k]) && b.frameList[k].duration == locals[k].duration
  {
    var resolved := ResolvedFrames(FrameElements(e), ParentFrameList(parent), ctx, compose);
    ResolvedDurations(FrameElements(e), ParentFrameList(parent), ctx, compose, resolved, locals);
    AssembledFrameList(e, resolved, step, b);
    RetimedAgainst(resolved, locals, step, b.frameList);
  }

  /** A decoded movement bone closes with its end anchor: the last key frame
      moved to the bone's duration. */
  lemma MovementBoneClosed(e: XmlElement, parent: Option<XmlElement>, ctx: DataInfo, compose: Compose, step: Step, b: MovementBoneData)
    requires MovementBone(e, parent, ctx, compose, step) == Ok(b)
    ensures |b.frameList| >= 2
    ensures b.frameList[|b.frameList| - 1] == b.frameList[|b.frameList| - 2].(frameID := b.duration)
  {
    var resolved := ResolvedFrames(FrameElements(e), ParentFrameList(parent), ctx, compose);
    AssembledFrameList(e, resolved, step, b);
    AnchoredTimeline(resolved, step, b.frameList);
  }

  /** A movement bone as the source decodes it, with the written rule: the
      last key frame keeps the transform it was resolved to, and every earlier
      one keeps all of it but its skews, each moved by at most one whole turn
      towards its rewritten successor (TurnShift). */
  lemma MovementBoneAsWritten(e: XmlElement, parent: Option<XmlElement>, ctx: DataInfo, compose: Compose,
                              fs: seq<FrameData>, b: MovementBoneData)
    requires fs == ResolvedFrames(FrameElements(e), ParentFrameList(parent), ctx, compose)
    requires MovementBone(e, parent, ctx, compose, SingleTurn) == Ok(b)
    ensures ShiftedOnce(fs, b.frameList)
  {
    AssembledAsWritten(e, fs, b);
  }

  lemma AssembledAsWritten(e: XmlElement, fs: seq<FrameData>, b: MovementBoneData)
    requires AssembleMovementBone(e, fs, SingleTurn) == Ok(b)
    ensures ShiftedOnce(fs, b.frameList)
  {
    AssembledFrameList(e, fs, SingleTurn, b);
    AnchoredAsWritten(fs, b.frameList);
  }

  /** The corrected decoder, the one whose pair rule takes as many whole
      turns as a difference needs: no two neighbouring frames of a decoded
      bone, anchor included, are more than a half turn apart in either skew. */
  lemma MovementBoneCorrected(e: XmlElement, parent: Option<XmlElement>, ctx: DataInfo, compose: Compose, b: MovementBoneData)
    requires MovementBone(e, parent, ctx, compose, MultiTurn) == Ok(b)
    ensures Continuous(b.frameList)
  {
    var resolved := ResolvedFrames(FrameElements(e), ParentFrameList(parent), ctx, compose);
    AssembledFrameList(e, resolved, MultiTurn, b);
    AnchoredCorrected(resolved, b.frameList);
  }

  lemma AssembledFrameList(e: XmlElement, resolved: seq<FrameData>, step: Step, b: MovementBoneData)
    requires AssembleMovementBone(e, resolved, step) == Ok(b)
    ensures resolved != []
    ensures b.frameList == WithEndAnchor(UnwrappedWith(Stamped(resolved), step), SumDurations(resolved))
    ensures b.duration == SumDurations(resolved)
  {
  }

  /** Frame times stated against frames with the same durations. */
  lemma RetimedAgainst(resolved: seq<FrameData>, locals: seq<FrameData>, step: Step, r: seq<FrameData>)
    requires |resolved| == |locals| && resolved != []
    requires forall k :: 0 <= k < |locals| ==> resolved[k].duration == locals[k].duration
    requires r == WithEndAnchor(UnwrappedWith(Stamped(resolved), step), SumDurations(resolved))
    ensures |r| == |locals| + 1
    ensures SumDurations(resolved) == SumDurations(locals)
    ensures forall k :: 0 <= k < |locals| ==>
      r[k].frameID == SumDurations(locals[..k]) && r[k].duration == locals[k].duration
  {
    SameDurationsPrefix(locals, resolved, |locals|);
    assert locals[..|locals|] == locals && resolved[..|resolved|] == resolved;
    AnchoredTimeline(resolved, step, r);
    forall k | 0 <= k < |locals|
      ensures r[k].frameID == SumDurations(locals[..k]) && r[k].duration == locals[k].duration
    {
      SameDurationsPrefix(locals, resolved, k);
    }
  }

  /** Which parent frame each frame is resolved against: with no parent frame
      (no parent, or a parent without frames) a frame is decoded on its own;
      otherwise frame k is decoded against parent frame `located[k]`, which
      covers frame k's start tick or is the last parent frame, is the first
      such frame from the one frame k-1 got on, and never lies before it. */
  lemma ResolvedFramesParents(frames: seq<XmlElement>, parents: seq<XmlElement>, ctx: DataInfo, compose: Compose,
                              starts: seq<int>, located: seq<Option<nat>>)
    requires starts == StartTicks(LocalFrames(frames, ctx))
    requires located == ParentFrameIndices(ParentDurations(parents), starts)
    ensures parents == [] ==> ResolvedFrames(frames, parents, ctx, compose) == LocalFrames(frames, ctx)
    ensures parents != [] ==> forall k :: 0 <= k < |frames| ==>
      && located[k].Some? && located[k].value < |parents|
      && ResolvedFrames(frames, parents, ctx, compose)[k] == DecodeFrame(frames[k], Some(parents[located[k].value]), ctx, compose)
      && (located[k].value == |parents| - 1 || Covers(ParentDurations(parents), located[k].value, starts[k]))
    ensures parents != [] ==> forall k :: 0 < k < |frames| ==> located[k - 1].value <= located[k].value
    ensures parents != [] ==> forall k, q :: 0 < k < |frames| && located[k - 1].value <= q < located[k].value ==>
      !Covers(ParentDurations(parents), q, starts[k])
  {
    var ds := ParentDurations(parents);
    SweepShape(ds, starts, StartCursor());
    if parents != [] {
      SweepLocates(ds, starts, StartCursor());
    }
  }

  // ----- movements -----

  /** The first `k` bone elements all carry a name, and none of them is
      `parentName`. */
  ghost predicate NamedOtherwise(bones: seq<XmlElement>, k: nat, parentName: string) {
    forall i :: 0 <= i < k && i < |bones| ==> Attribute(bones[i], A_NAME).Some? && Attribute(bones[i], A_NAME).value != parentName
  }

  /** The parent search of decodeMovement: the first bone element of the
      movement whose name is `parentName`; none for a root bone or when no
      bone element has that name. A nameless bone element met before a match
      is a null string comparison in the source. */
  function ParentBone(bones: seq<XmlElement>, parentName: string): (r: Result<Option<XmlElement>>)
    ensures parentName == "" ==> r == Ok(None)
    ensures parentName != "" ==> r == SearchParent(bones, parentName)
  {
    if parentName == "" then Ok(None) else SearchParent(bones, parentName)
  }

  /** The walk over the bone elements: it stops at the first one whose name
      is `parentName`, gives none when it gets past the last, and fails at a
      nameless one met first. */
  function SearchParent(bones: seq<XmlElement>, parentName: string): (r: Result<Option<XmlElement>>)
    ensures r.Ok? && r.value.Some? ==>
      exists k :: 0 <= k < |bones| && bones[k] == r.value.value
        && Attribute(bones[k], A_NAME) == Some(parentName) && NamedOtherwise(bones, k, parentName)
    ensures r.Ok? && r.value.None? ==> NamedOtherwise(bones, |bones|, parentName)
    ensures r.Err? ==> r == Err(MissingAttribute(BONE, A_NAME))
    ensures r.Err? ==>
      exists k :: 0 <= k < |bones| && Attribute(bones[k], A_NAME).None? && NamedOtherwise(bones, k, parentName)
  {
    if bones == [] then Ok(None)
    else match Attribute(bones[0], A_NAME)
      case None =>
        assert NamedOtherwise(bones, 0, parentName);
        Err(MissingAttribute(BONE, A_NAME))
      case Some(n) =>
        if n == parentName then
          assert NamedOtherwise(bones, 0, parentName);
          Ok(Some(bones[0]))
        else
          var rest := SearchParent(bones[1..], parentName);
          ShiftNamedOtherwise(bones, parentName);
          rest
  }

  /** Past a first bone element named otherwise, the walk over the rest
      sees its prefixes as the whole list's prefixes one longer. */
  lemma ShiftNamedOtherwise(bones: seq<XmlElement>, parentName: string)
    requires bones != [] && Attribute(bones[0], A_NAME).Some? && Attribute(bones[0], A_NAME).value != parentName
    ensures forall k :: 0 <= k <= |bones| - 1 ==>
      (NamedOtherwise(bones[1..], k, parentName) <==> NamedOtherwise(bones, k + 1, parentName))
  {
    forall k | 0 <= k <= |bones| - 1
      ensures NamedOtherwise(bones[1..], k, parentName) <==> NamedOtherwise(bones, k + 1, parentName)
    {
      assert forall i :: 0 < i < |bones| ==> bones[i] == bones[1..][i - 1];
    }
  }

  /** The parent search as the source writes it: a loop over the bone
      elements that stops at the first name match. */
  method FindParentBone(bones: seq<XmlElement>, parentName: string) returns (r: Result<Option<XmlElement>>)
    ensures r == ParentBone(bones, parentName)
  {
    if parentName == "" {
      return Ok(None);
    }
    var k := 0;
    while k < |bones|
      invariant 0 <= k <= |bones|
      invariant SearchParent(bones[k..], parentName) == SearchParent(bones, parentName)
    {
      assert bones[k..][0] == bones[k] && bones[k..][1..] == bones[k + 1..];
      var name := Attribute(bones[k], A_NAME);
      if name.None? {
        return Err(MissingAttribute(BONE, A_NAME));
      }
      if name.value == parentName {
        return Ok(Some(bones[k]));
      }
      k := k + 1;
    }
    r := Ok(None);
  }

  /** The bone loop of decodeMovement from child `j` on, with the bone
      entries decoded so far. A bone element whose name is already in the
      movement is skipped and the walk goes on with the very next sibling,
      whatever its tag; after a decoded bone it goes on with the next bone
      element. A bone without an entry in the armature is a null dereference
      in the source. */
  function MovementBones(children: seq<XmlElement>, j: nat, acc: map<string, MovementBoneData>,
                         armature: map<string, BoneData>, ctx: DataInfo, compose: Compose, step: Step): Result<map<string, MovementBoneData>>
    decreases |children| - j
  {
    if j >= |children| then Ok(acc)
    else
      var movBoneXml := children[j];
      match Attribute(movBoneXml, A_NAME)
      case None => Err(MissingAttribute(BONE, A_NAME))
      case Some(boneName) =>
        if boneName in acc then MovementBones(children, j + 1, acc, armature, ctx, compose, step)
        else if boneName !in armature then Err(MissingBoneData(boneName))
        else
          match ParentBone(ChildrenNamed(children, BONE), armature[boneName].parentName)
          case Err(err) => Err(err)
          case Ok(parentXml) =>
            match MovementBone(movBoneXml, parentXml, ctx, compose, step)
            case Err(err) => Err(err)
            case Ok(movBoneData) =>
              MovementBones(children, NextIndexNamed(children, j + 1, BONE), acc[movBoneData.name := movBoneData], armature, ctx, compose, step)
  }

  /** What decodeMovement builds: the movement's attributes over the
      MovementData defaults, and its bones. */
  function Movement(movementXml: XmlElement, armature: map<string, BoneData>, ctx: DataInfo, compose: Compose, step: Step): (r: Result<MovementData>)
    ensures Attribute(movementXml, A_NAME).None? ==> r == Err(MissingAttribute(MOVEMENT, A_NAME))
    ensures r.Ok? ==> r.value.name == Attribute(movementXml, A_NAME).value
  {
    match Attribute(movementXml, A_NAME)
    case None => Err(MissingAttribute(MOVEMENT, A_NAME))
    case Some(name) =>
      var d := DefaultMovement();
      var children := movementXml.children;
      match MovementBones(children, NextIndexNamed(children, 0, BONE), map[], armature, ctx, compose, step)
      case Err(err) => Err(err)
      case Ok(dic) =>
        Ok(d.(name := name,
              duration := QueryInt(movementXml, A_DURATION).GetOr(d.duration),
              durationTo := QueryInt(movementXml, A_DURATION_TO).GetOr(d.durationTo),
              durationTween := QueryInt(movementXml, A_DURATION_TWEEN).GetOr(d.durationTween),
              loop := (match QueryInt(movementXml, A_LOOP) case Some(lp) => lp != 0 case None => d.loop),
              tweenEasing := TweenEasing(movementXml, d.tweenEasing),
              movBoneDataDic := dic))
  }

  /** decodeMovement (XML). */
  method DecodeMovement(movementXml: XmlElement, armature: map<string, BoneData>, ctx: DataInfo, compose: Compose, step: Step)
    returns (r: Result<MovementData>)
    ensures r == Movement(movementXml, armature, ctx, compose, step)
  {
    var movName := Attribute(movementXml, A_NAME);
    if movName.None? {
      return Err(MissingAttribute(MOVEMENT, A_NAME));
    }
    var movementData := DefaultMovement().(name := movName.value);
    movementData := movementData.(
      duration := QueryInt(movementXml, A_DURATION).GetOr(movementData.duration),
      durationTo := QueryInt(movementXml, A_DURATION_TO).GetOr(movementData.durationTo),
      durationTween := QueryInt(movementXml, A_DURATION_TWEEN).GetOr(movementData.durationTween));
    var loop := QueryInt(movementXml, A_LOOP);
    if loop.Some? {
      movementData := movementData.(loop := loop.value != 0);
    }
    movementData := movementData.(tweenEasing := TweenEasing(movementXml, movementData.tweenEasing));

    var children := movementXml.children;
    var bones := ChildrenNamed(children, BONE);
    ghost var whole := MovementBones(children, NextIndexNamed(children, 0, BONE), map[], armature, ctx, compose, step);
    ghost var header := movementData;
    var j := NextIndexNamed(children, 0, BONE);
    while j < |children|
      invariant MovementBones(children, j, movementData.movBoneDataDic, armature, ctx, compose, step) == whole
      invariant movementData == header.(movBoneDataDic := movementData.movBoneDataDic)
      decreases |children| - j
    {
      var movBoneXml := children[j];
      var boneName := Attribute(movBoneXml, A_NAME);
      if boneName.None? {
        return Err(MissingAttribute(BONE, A_NAME));
      }
      if boneName.value in movementData.movBoneDataDic {
        j := j + 1;
        continue;
      }
      if boneName.value !in armature {
        return Err(MissingBoneData(boneName.value));
      }
      var boneData := armature[boneName.value];
      var parentXml := FindParentBone(bones, boneData.parentName);
      if parentXml.Err? {
        return Err(parentXml.error);
      }
      var moveBoneData := DecodeMovementBone(movBoneXml, parentXml.value, ctx, compose, step);
      if moveBoneData.Err? {
        return Err(moveBoneData.error);
      }
      movementData := movementData.(movBoneDataDic := movementData.movBoneDataDic[moveBoneData.value.name := moveBoneData.value]);
      j := NextIndexNamed(children, j + 1, BONE);
    }
    r := Ok(movementData);
  }

  /** The duplicate skip: once a bone has an entry in the movement, later bone
      elements with the same name leave it alone, so the first one wins. */
  lemma {:induction false} MovementBonesKeep(children: seq<XmlElement>, j: nat, acc: map<string, MovementBoneData>,
                                             armature: map<string, BoneData>, ctx: DataInfo, compose: Compose, step: Step)
    requires MovementBones(children, j, acc, armature, ctx, compose, step).Ok?
    ensures forall n :: n in acc ==>
      n in MovementBones(children, j, acc, armature, ctx, compose, step).value
      && MovementBones(children, j, acc, armature, ctx, compose, step).value[n] == acc[n]
    decreases |children| - j
  {
    if j < |children| {
      var boneName := Attribute(children[j], A_NAME).value;
      if boneName in acc {
        MovementBonesKeep(children, j + 1, acc, armature, ctx, compose, step);
      } else {
        var parentXml := ParentBone(ChildrenNamed(children, BONE), armature[boneName].parentName).value;
        var movBoneData := MovementBone(children[j], parentXml, ctx, compose, step).value;
        MovementBonesKeep(children, NextIndexNamed(children, j + 1, BONE), acc[movBoneData.name := movBoneData], armature, ctx, compose, step);
      }
    }
  }

  /** Every bone entry of a movement is filed under its own name. */
  lemma {:induction false} MovementBonesNamed(children: seq<XmlElement>, j: nat, acc: map<string, MovementBoneData>,
                                              armature: map<string, BoneData>, ctx: DataInfo, compose: Compose, step: Step)
    requires MovementBones(children, j, acc, armature, ctx, compose, step).Ok?
    requires forall n :: n in acc ==> acc[n].name == n
    ensures forall n :: n in MovementBones(children, j, acc, armature, ctx, compose, step).value ==>
      MovementBones(children, j, acc, armature, ctx, compose, step).value[n].name == n
    decreases |children| - j
  {
    if j < |children| {
      var boneName := Attribute(children[j], A_NAME).value;
      if boneName in acc {
        MovementBonesNamed(children, j + 1, acc, armature, ctx, compose, step);
      } else {
        var parentXml := ParentBone(ChildrenNamed(children, BONE), armature[boneName].parentName).value;
        var movBoneData := MovementBone(children[j], parentXml, ctx, compose, step).value;
        var next := NextIndexNamed(children, j + 1, BONE);
        MovementBonesNamed(children, next, acc[movBoneData.name := movBoneData], armature, ctx, compose, step);
      }
    }
  }

  /** Every bone entry of a movement comes from a named child element of
      the movement, or was there to begin with. */
  lemma {:induction false} MovementBonesFromChildren(children: seq<XmlElement>, j: nat, acc: map<string, MovementBoneData>,
                                                     armature: map<string, BoneData>, ctx: DataInfo, compose: Compose, step: Step)
    requires MovementBones(children, j, acc, armature, ctx, compose, step).Ok?
    ensures forall n :: n in MovementBones(children, j, acc, armature, ctx, compose, step).value ==>
      n in acc || exists k :: j <= k < |children| && Attribute(children[k], A_NAME) == Some(n)
    decreases |children| - j
  {
    if j < |children| {
      var boneName := Attribute(children[j], A_NAME).value;
      if boneName in acc {
        MovementBonesFromChildren(children, j + 1, acc, armature, ctx, compose, step);
      } else {
        var parentXml := ParentBone(ChildrenNamed(children, BONE), armature[boneName].parentName).value;
        var movBoneData := MovementBone(children[j], parentXml, ctx, compose, step).value;
        var next := NextIndexNamed(children, j + 1, BONE);
        MovementBonesFromChildren(children, next, acc[movBoneData.name := movBoneData], armature, ctx, compose, step);
      }
    }
  }

  /** The converse: every named bone element from child `j` on has an entry
      in the movement under its name. */
  lemma {:induction false} MovementBonesCoverChildren(children: seq<XmlElement>, j: nat, acc: map<string, MovementBoneData>,
                                                      armature: map<string, BoneData>, ctx: DataInfo, compose: Compose, step: Step)
    requires MovementBones(children, j, acc, armature, ctx, compose, step).Ok?
    ensures forall k :: j <= k < |children| && children[k].tag == BONE && Attribute(children[k], A_NAME).Some? ==>
      Attribute(children[k], A_NAME).value in MovementBones(children, j, acc, armature, ctx, compose, step).value
    decreases |children| - j
  {
    if j < |children| {
      var whole := MovementBones(children, j, acc, armature, ctx, compose, step).value;
      var boneName := Attribute(children[j], A_NAME).value;
      if boneName in acc {
        MovementBonesKeep(children, j + 1, acc, armature, ctx, compose, step);
        MovementBonesCoverChildren(children, j + 1, acc, armature, ctx, compose, step);
      } else {
        var parentXml := ParentBone(ChildrenNamed(children, BONE), armature[boneName].parentName).value;
        var movBoneData := MovementBone(children[j], parentXml, ctx, compose, step).value;
        var next := NextIndexNamed(children, j + 1, BONE);
        var acc' := acc[movBoneData.name := movBoneData];
        MovementBonesKeep(children, next, acc', armature, ctx, compose, step);
        MovementBonesCoverChildren(children, next, acc', armature, ctx, compose, step);
        assert boneName in whole;
        forall k | j < k < next ensures children[k].tag != BONE { }
      }
    }
  }

  /** A decoded movement's bone dictionary: every named bone element has an
      entry, and every entry carries the name of some child, of any tag,
      since the child after a skipped duplicate is decoded whatever its tag;
      each entry is filed under its own name. */
  lemma MovementBoneKeys(movementXml: XmlElement, armature: map<string, BoneData>, ctx: DataInfo, compose: Compose, step: Step,
                         m: MovementData)
    requires Movement(movementXml, armature, ctx, compose, step) == Ok(m)
    ensures forall k :: (0 <= k < |movementXml.children| && movementXml.children[k].tag == BONE
                         && Attribute(movementXml.children[k], A_NAME).Some?)
                        ==> Attribute(movementXml.children[k], A_NAME).value in m.movBoneDataDic
    ensures forall n :: n in m.movBoneDataDic ==>
      && m.movBoneDataDic[n].name == n
      && exists k :: 0 <= k < |movementXml.children| && Attribute(movementXml.children[k], A_NAME) == Some(n)
  {
    var children := movementXml.children;
    var j := NextIndexNamed(children, 0, BONE);
    MovementBonesCoverChildren(children, j, map[], armature, ctx, compose, step);
    MovementBonesNamed(children, j, map[], armature, ctx, compose, step);
    MovementBonesFromChildren(children, j, map[], armature, ctx, compose, step);
  }

  // ----- textures, contours, displays -----

  /** The anchor point of a texture from its pivot in pixels: x measured from
      the left edge, y from the top edge turned into a fraction from the
      bottom. */
  function Pivot(px: real, py: real, width: real, height: real): (real, real)
    requires width != 0.0 && height != 0.0
  {
    (px / width, (height - py) / height)
  }

  /** The pivot arithmetic inverts the pixel position of an anchor point. */
  lemma PivotRoundTrip(ax: real, ay: real, width: real, height: real)
    requires width != 0.0 && height != 0.0
    ensures Pivot(ax * width, height - ay * height, width, height) == (ax, ay)
  {
    assert (ax * width) / width == ax;
    assert (height - (height - ay * height)) / height == (ay * height) / height == ay;
  }

  /** A pivot inside the texture gives an anchor point in the unit square;
      the top-left corner is (0, 1). */
  lemma PivotInUnitSquare(px: real, py: real, width: real, height: real)
    requires 0.0 < width && 0.0 < height
    requires 0.0 <= px <= width && 0.0 <= py <= height
    ensures 0.0 <= Pivot(px, py, width, height).0 <= 1.0
    ensures 0.0 <= Pivot(px, py, width, height).1 <= 1.0
    ensures Pivot(0.0, 0.0, width, height) == (0.0, 1.0)
  {
    Fraction(px, width);
    Fraction(height - py, height);
    assert (height - 0.0) / height == 1.0 && 0.0 / width == 0.0;
  }

  lemma Fraction(a: real, b: real)
    requires 0.0 < b && 0.0 <= a <= b
    ensures 0.0 <= a / b <= 1.0
  {
    assert (a / b) * b == a;
  }

  /** One contour vertex: its position with y flipped, 0 for a missing
      coordinate. */
  function Vertex(v: XmlElement): ContourVertex {
    ContourVertex(QueryReal(v, A_X).GetOr(0.0), -QueryReal(v, A_Y).GetOr(0.0))
  }

  /** What decodeContour builds: the vertices in document order. */
  function Contour(contourXml: XmlElement): (c: ContourData)
    ensures |c.vertexList| == |ChildrenNamed(contourXml.children, CONTOUR_VERTEX)|
  {
    var vs := ChildrenNamed(contourXml.children, CONTOUR_VERTEX);
    ContourData(seq(|vs|, k requires 0 <= k < |vs| => Vertex(vs[k])))
  }

  /** decodeContour (XML): a loop over the vertex elements. */
  method DecodeContour(contourXml: XmlElement) returns (contourData: ContourData)
    ensures |contourData.vertexList| == |ChildrenNamed(contourXml.children, CONTOUR_VERTEX)|
    ensures forall k :: 0 <= k < |contourData.vertexList| ==>
      contourData.vertexList[k].x == QueryReal(ChildrenNamed(contourXml.children, CONTOUR_VERTEX)[k], A_X).GetOr(0.0)
      && contourData.vertexList[k].y == -QueryReal(ChildrenNamed(contourXml.children, CONTOUR_VERTEX)[k], A_Y).GetOr(0.0)
    ensures contourData == Contour(contourXml)
  {
    var vertexXmls := ChildrenNamed(contourXml.children, CONTOUR_VERTEX);
    contourData := ContourData([]);
    var k := 0;
    while k < |vertexXmls|
      invariant 0 <= k <= |vertexXmls|
      invariant contourData.vertexList == seq(k, i requires 0 <= i < k => Vertex(vertexXmls[i]))
    {
      var vertex := ContourVertex(0.0, 0.0);
      vertex := vertex.(x := QueryReal(vertexXmls[k], A_X).GetOr(vertex.x));
      vertex := vertex.(y := QueryReal(vertexXmls[k], A_Y).GetOr(vertex.y));
      vertex := vertex.(y := -vertex.y);
      contourData := contourData.(vertexList := contourData.vertexList + [vertex]);
      k := k + 1;
    }
  }

  /** The pivot attribute names a document of this tool version uses. */
  function PivotNames(ctx: DataInfo): (string, string) {
    if ctx.flashToolVersion >= VERSION_2_0 then (A_COCOS2D_PIVOT_X, A_COCOS2D_PIVOT_Y) else (A_PIVOT_X, A_PIVOT_Y)
  }

  /** What decodeTexture builds: the name, the anchor point from the pivot
      and the size, and the contours in document order. The size itself is
      not stored. The pivot and the width are read into uninitialised floats
      and the height into one that starts at 0, so a missing pivot or width,
      or a zero width or height, leaves the anchor point undefined. */
  function Texture(textureXml: XmlElement, ctx: DataInfo): (r: Result<TextureData>)
    ensures r.Ok? ==> r.value.name == Attribute(textureXml, A_NAME).GetOr("")
    ensures r.Ok? ==> r.value.width == 0.0 && r.value.height == 0.0
    ensures r.Ok? ==> |r.value.contourDataList| == |ChildrenNamed(textureXml.children, CONTOUR)|
    ensures r.Ok? <==>
      && QueryReal(textureXml, PivotNames(ctx).0).Some? && QueryReal(textureXml, PivotNames(ctx).1).Some?
      && QueryReal(textureXml, A_WIDTH).Some? && QueryReal(textureXml, A_WIDTH).value != 0.0
      && QueryReal(textureXml, A_HEIGHT).GetOr(0.0) != 0.0
  {
    var d := DefaultTexture();
    var name := Attribute(textureXml, A_NAME).GetOr(d.name);
    var (nx, ny) := PivotNames(ctx);
    var px, py, width := QueryReal(textureXml, nx), QueryReal(textureXml, ny), QueryReal(textureXml, A_WIDTH);
    var height := QueryReal(textureXml, A_HEIGHT).GetOr(0.0);
    if px.None? || py.None? || width.None? || width.value == 0.0 || height == 0.0 then Err(UndefinedPivot(name))
    else
      var (ax, ay) := Pivot(px.value, py.value, width.value, height);
      var cs := ChildrenNamed(textureXml.children, CONTOUR);
      Ok(d.(name := name, pivotX := ax, pivotY := ay,
            contourDataList := seq(|cs|, k requires 0 <= k < |cs| => Contour(cs[k]))))
  }

  /** decodeTexture (XML): the attributes, then a loop over the contour
      elements. */
  method DecodeTexture(textureXml: XmlElement, ctx: DataInfo) returns (r: Result<TextureData>)
    ensures r == Texture(textureXml, ctx)
  {
    var textureData := DefaultTexture();
    textureData := textureData.(name := Attribute(textureXml, A_NAME).GetOr(textureData.name));
    var (nx, ny) := PivotNames(ctx);
    var px, py := QueryReal(textureXml, nx), QueryReal(textureXml, ny);
    var width := QueryReal(textureXml, A_WIDTH);
    var height := QueryReal(textureXml, A_HEIGHT).GetOr(0.0);
    if px.None? || py.None? || width.None? || width.value == 0.0 || height == 0.0 {
      return Err(UndefinedPivot(textureData.name));
    }
    var anchorPointX := px.value / width.value;
    var anchorPointY := (height - py.value) / height;
    textureData := textureData.(pivotX := anchorPointX, pivotY := anchorPointY);

    var contourXmls := ChildrenNamed(textureXml.children, CONTOUR);
    ghost var header := textureData;
    var k := 0;
    while k < |contourXmls|
      invariant 0 <= k <= |contourXmls|
      invariant textureData == header.(contourDataList := seq(k, i requires 0 <= i < k => Contour(contourXmls[i])))
    {
      var contourData := DecodeContour(contourXmls[k]);
      textureData := textureData.(contourDataList := textureData.contourDataList + [contourData]);
      k := k + 1;
    }
    r := Ok(textureData);
  }

  /** decodeBoneDisplay (XML): an armature display when `isArmature` reads as
      a non-zero integer, a sprite display otherwise; either takes the name
      attribute when there is one. */
  function BoneDisplay(displayXml: XmlElement): (r: DisplayData)
    ensures (QueryInt(displayXml, A_IS_ARMATURE).Some? && QueryInt(displayXml, A_IS_ARMATURE).value != 0)
      <==> r.ArmatureDisplay?
    ensures r.DisplayType() == CS_DISPLAY_SPRITE || r.DisplayType() == CS_DISPLAY_ARMATURE
    ensures !r.ParticleDisplay? && r.displayName == Attribute(displayXml, A_NAME).GetOr("")
    ensures r.SpriteDisplay? ==> r.skinData == DefaultBase()
  {
    var name := Attribute(displayXml, A_NAME).GetOr("");
    match QueryInt(displayXml, A_IS_ARMATURE)
    case Some(isArmature) =>
      if isArmature != 0 then ArmatureDisplay(name) else SpriteDisplay(CS_DISPLAY_SPRITE, name, DefaultBase())
    case None => SpriteDisplay(CS_DISPLAY_SPRITE, name, DefaultBase())
  }
}
