/** The element, attribute and key names both document forms use. */
module Keys {
  // XML elements and attributes (also the JSON keys of the same meaning)
  const MOVEMENT := "mov"
  const BONE := "b"
  const DISPLAY := "d"
  const FRAME := "f"
  const CONTOUR := "con"
  const CONTOUR_VERTEX := "con_vt"
  const A_COLOR_TRANSFORM := "colorTransform"

  const A_NAME := "name"
  const A_DURATION := "dr"
  const A_DURATION_TO := "to"
  const A_DURATION_TWEEN := "drTW"
  const A_LOOP := "lp"
  const A_MOVEMENT_SCALE := "sc"
  const A_MOVEMENT_DELAY := "dl"
  const A_DISPLAY_INDEX := "dI"
  const A_SKEW_X := "kX"
  const A_SKEW_Y := "kY"
  const A_SCALE_X := "cX"
  const A_SCALE_Y := "cY"
  const A_Z := "z"
  const A_EVENT := "evt"
  const A_SOUND := "sd"
  const A_SOUND_EFFECT := "sdE"
  const A_TWEEN_EASING := "twE"
  const A_IS_ARMATURE := "isArmature"
  const A_MOVEMENT := "mov"
  const A_X := "x"
  const A_Y := "y"
  const A_COCOS2DX_X := "cocos2d_x"
  const A_COCOS2DX_Y := "cocos2d_y"
  const A_WIDTH := "width"
  const A_HEIGHT := "height"
  const A_PIVOT_X := "pX"
  const A_PIVOT_Y := "pY"
  const A_COCOS2D_PIVOT_X := "cocos2d_pX"
  const A_COCOS2D_PIVOT_Y := "cocos2d_pY"
  const A_BLEND_TYPE := "bd"
  const FL_NAN := "NaN"

  // JSON keys
  const A_FRAME_INDEX := "fi"
  const A_PLIST := "plist"
  const A_DISPLAY_TYPE := "displayType"
  const A_TWEEN_FRAME := "tweenFrame"
  const A_ALPHA := "a"
  const A_RED := "r"
  const A_GREEN := "g"
  const A_BLUE := "b"
  const FRAME_DATA := "frame_data"
  const MOVEMENT_BONE_DATA := "mov_bone_data"
  const SKIN_DATA := "skin_data"
  const CONTOUR_DATA := "contour_data"
  const VERTEX_POINT := "vertex"
  const COLOR_INFO := "color"
}
