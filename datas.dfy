/** The decoded data model (armature side and animation side) with the
    default values a freshly constructed object carries, and the constants
    the decoders compare against. */
module Datas {

  // ----- constants -----

  /** M_PI, the half turn the rotation unwrap compares against. */
  const PI: real := 3.14159265358979323846

  /** CC_DEGREES_TO_RADIANS multiplies by this factor. */
  const DEG_TO_RAD: real := 0.01745329252

  /** Format versions that select decoding rules. */
  const VERSION_2_0: real := 2.0
  const VERSION_COMBINED: real := 0.3
  const VERSION_CHANGE_ROTATION_RANGE: real := 1.0
  const VERSION_COLOR_READING: real := 1.1

  /** TweenType codes used by the decoders. */
  const LINEAR: int := 0
  const SINE_EASE_IN_OUT: int := 3

  /** DisplayType codes. */
  const CS_DISPLAY_SPRITE: int := 0
  const CS_DISPLAY_ARMATURE: int := 1
  const CS_DISPLAY_PARTICLE: int := 2

  /** BLEND_NORMAL. */
  const BLEND_NORMAL: int := 0

  // ----- records -----

  /** The transform and colour fields shared by bones, frames and skins. */
  datatype BaseData = BaseData(
    x: real, y: real, zOrder: int,
    skewX: real, skewY: real, scaleX: real, scaleY: real,
    isUseColorInfo: bool, a: int, r: int, g: int, b: int)

  /** A fresh BaseData: unit scale, opaque white, everything else zero. */
  function DefaultBase(): BaseData {
    BaseData(0.0, 0.0, 0, 0.0, 0.0, 1.0, 1.0, false, 255, 255, 255, 255)
  }

  /** One key frame of a movement bone. */
  datatype FrameData = FrameData(
    base: BaseData,
    frameID: int, duration: int,
    tweenEasing: int, isTween: bool, displayIndex: int, blendType: int,
    strEvent: string, strMovement: string, strSound: string, strSoundEffect: string)
  {
    function SkewX(): real { base.skewX }
    function SkewY(): real { base.skewY }

    /** The same frame with both skews replaced. */
    function WithSkews(sx: real, sy: real): (f: FrameData)
      ensures f.SkewX() == sx && f.SkewY() == sy
      ensures f.base.(skewX := base.skewX, skewY := base.skewY) == base
      ensures f.(base := base) == this
    {
      this.(base := base.(skewX := sx, skewY := sy))
    }
  }

  /** A fresh FrameData: frame 0 lasting one tick, tweened linearly. */
  function DefaultFrame(): FrameData {
    FrameData(DefaultBase(), 0, 1, LINEAR, true, 0, BLEND_NORMAL, "", "", "", "")
  }

  /** The key-frame track of one bone within one movement. */
  datatype MovementBoneData = MovementBoneData(
    name: string, delay: real, scale: real, duration: int, frameList: seq<FrameData>)

  function DefaultMovementBone(): MovementBoneData {
    MovementBoneData("", 0.0, 1.0, 0, [])
  }

  /** One animation clip; its movement bones are stored by bone name. */
  datatype MovementData = MovementData(
    name: string, duration: int, durationTo: int, durationTween: int,
    loop: bool, scale: real, tweenEasing: int,
    movBoneDataDic: map<string, MovementBoneData>)

  function DefaultMovement(): MovementData {
    MovementData("", 0, 0, 0, true, 1.0, LINEAR, map[])
  }

  /** What an animation decode needs to know of an armature bone. */
  datatype BoneData = BoneData(name: string, parentName: string)

  /** The three display variants; a sprite keeps its own type code, which is
      not CS_DISPLAY_SPRITE only for an unknown JSON display type. */
  datatype DisplayData =
    | SpriteDisplay(displayType: int, displayName: string, skinData: BaseData)
    | ArmatureDisplay(displayName: string)
    | ParticleDisplay(plist: string)
  {
    function DisplayType(): int {
      match this
      case SpriteDisplay(t, _, _) => t
      case ArmatureDisplay(_) => CS_DISPLAY_ARMATURE
      case ParticleDisplay(_) => CS_DISPLAY_PARTICLE
    }
  }

  datatype ContourVertex = ContourVertex(x: real, y: real)

  datatype ContourData = ContourData(vertexList: seq<ContourVertex>)

  datatype TextureData = TextureData(
    name: string, width: real, height: real, pivotX: real, pivotY: real,
    contourDataList: seq<ContourData>)

  function DefaultTexture(): TextureData {
    TextureData("", 0.0, 0.0, 0.5, 0.5, [])
  }

  /** The per-document decode context (DataInfo) plus the process-wide
      position read scale. */
  datatype DataInfo = DataInfo(
    flashToolVersion: real, cocoStudioVersion: real, contentScale: real,
    positionReadScale: real, baseFilePath: string)

  /** CC_DEGREES_TO_RADIANS. */
  function DegreesToRadians(deg: real): real { deg * DEG_TO_RAD }
}
