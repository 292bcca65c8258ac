# DataReaderHelper: movement timelines and load bookkeeping

This project is a Dafny model of the core of cocostudio's `DataReaderHelper`, the cocos2d-x class that reads armature animation documents. It covers two things.

The first is the decoders for animation data, in both document forms:
- the XML form, written by the DragonBone/Flash tool;
- the JSON form, written by CocoStudio.

Each decoder turns the elements of a document into movement, movement-bone, frame, texture, contour and display records. The heart of it is the frame timeline of a movement bone:
- every key frame gets a frame ID equal to the running sum of the durations before it;
- a child frame is resolved against the parent-bone key frame it starts in, found by a forward sweep over the parent's frames;
- a backward pass unwraps the skews: each earlier frame's skew moves by at most one whole turn towards its successor when the two are more than half a turn apart;
- an end anchor, a copy of the last frame, is placed at the bone's total duration.

The second is the loader bookkeeping:
- the list of configuration files already added, with duplicate detection and removal;
- the queue of asynchronous requests and the queue of decoded results;
- the two counters the loading progress is computed from;
- the sprite sheets a drained result loads.

Modules:
- `Results`: `Option`, `Result` and the decoding errors. A decoding error stands for a null dereference in the source.
- `Documents`: an XML element as a tag, an attribute map and children; a JSON value with the typed item readers `JsonDictionary` offers.
- `Datas`: the data records and their constructor defaults, the version constants and the decoding context (`DataInfo`).
- `Keys`: the element, attribute and key names.
- `Timeline`: frame stamping, the end anchor, the rotation unwrap (the pass is in place on an `array`) and the parent-frame sweep. The unwrap takes its pair rule as a parameter: `SingleTurn` is the rule the source writes, and `MultiTurn` a corrected rule that always brings neighbouring frames within half a turn (see Findings).
- `XmlDecoder` and `JsonDecoder`: the two decoder families. The loops of the source are methods, each proved equal to a function that states the decoded value, and the lemmas are about those functions. The movement and movement-bone decoders take the unwrap's pair rule as a parameter; given `SingleTurn` they are the source's decoders, and given `MultiTurn` the corrected ones.
- `Paths`: the base file path and the extension dispatch.
- `Loader`: the `DataReaderHelper` class with its list, queues and counters. The loader thread's work is the `LoadNext` step.

## Model

| member | source | states |
|---|---|---|
| Timeline.StampedSnoc | cocos/editor-support/cocostudio/CCDataReaderHelper.cpp:878-883 | Stamping one more frame leaves the earlier frames as they were and starts the new frame at the total of the earlier durations |
| Timeline.StampedSpacing | cocos/editor-support/cocostudio/CCDataReaderHelper.cpp:878-883 | The first frame starts at 0, each frame starts exactly one duration after its predecessor, and the last frame ends at the total duration |
| Timeline.StampedNonDecreasing | cocos/editor-support/cocostudio/CCDataReaderHelper.cpp:878-883 | With no negative durations, the frame IDs never decrease along the list |
| Timeline.SameDurations | cocos/editor-support/cocostudio/CCDataReaderHelper.cpp:878-883 | Two frame lists with the same durations, one for one, have the same total and are stamped at the same ticks |
| Timeline.WithEndAnchor | cocos/editor-support/cocostudio/CCDataReaderHelper.cpp:911-915 | The anchored list is one longer, keeps every earlier frame, and its new last frame is the old last frame moved to the given tick |
| Timeline.UnwrapRotation | cocos/editor-support/cocostudio/CCDataReaderHelper.cpp:888-907 | The in-place backward pass over the frame array leaves the array equal to the backward pass over its old contents |
| Timeline.UnwrapAndAnchor | cocos/editor-support/cocostudio/CCDataReaderHelper.cpp:888-915 | With the given pair rule, a non-empty list is unwrapped and then anchored at the duration; an empty list has no last frame to copy and gives nothing |
| Timeline.UnwrappedAt | cocos/editor-support/cocostudio/CCDataReaderHelper.cpp:888-907 | The last frame is kept; every earlier frame gets both skews from the pair rule, applied against its already rewritten successor |
| Timeline.SingleTurnUnwrap | cocos/editor-support/cocostudio/CCDataReaderHelper.cpp:888-907 | As written, the last frame is untouched, non-skew fields never change, and each skew moves by -2π exactly when the difference to its successor is below -π, by +2π exactly when it is above π, else not at all |
| Timeline.SingleTurnCloses | cocos/editor-support/cocostudio/CCDataReaderHelper.cpp:893-905 | As written, a pair ends within half a turn whenever it started within three half turns |
| Timeline.SingleTurnLeavesJump | cocos/editor-support/cocostudio/CCDataReaderHelper.cpp:888-907 | As written, a steady spin whose raw skews all lie in (-π, π] keeps a jump of more than half a turn after the pass |
| Timeline.MultiTurnStep | cocos/editor-support/cocostudio/CCDataReaderHelper.cpp:893-905 | The corrected pair rule moves by whole turns in the direction of the difference, always leaves the pair within [-π, π], and moves nothing already within it |
| Timeline.MultiTurnDiffersOnlyOnJumps | cocos/editor-support/cocostudio/CCDataReaderHelper.cpp:893-905 | Wherever the corrected rule disagrees with the written one, the written one leaves a jump of more than half a turn |
| Timeline.MultiTurnListContinuous | cocos/editor-support/cocostudio/CCDataReaderHelper.cpp:888-907 | After the corrected pass, every pair of neighbouring frames is within half a turn in both skew channels |
| Timeline.MultiTurnAgrees | cocos/editor-support/cocostudio/CCDataReaderHelper.cpp:888-907 | Whenever the written pass already yields a continuous list, the corrected pass yields the same list |
| Timeline.UnwrappedKeepsTimes | cocos/editor-support/cocostudio/CCDataReaderHelper.cpp:888-907 | The pass, whatever its rule, changes no frame ID and no duration |
| Timeline.AnchoredTimeline | cocos/editor-support/cocostudio/CCDataReaderHelper.cpp:878-915 | Whatever the pair rule, a stamped, unwrapped and anchored list starts frame k where the earlier frames end, with its own duration, and ends with the last frame moved to the total |
| Timeline.AnchoredAsWritten | cocos/editor-support/cocostudio/CCDataReaderHelper.cpp:888-915 | With the written rule, the closed list keeps the last key frame's transform; every earlier key frame keeps all of its transform but its skews, and each skew moves by -2π, +2π or 0 according to its difference to the rewritten successor being below -π, above π, or neither |
| Timeline.AnchoredCorrected | cocos/editor-support/cocostudio/CCDataReaderHelper.cpp:888-915 | With the corrected rule, no two neighbouring frames of the closed list, anchor included, are more than half a turn apart in either skew |
| Timeline.AdvanceSpec | cocos/editor-support/cocostudio/CCDataReaderHelper.cpp:866-873 | The sweep only moves forward, keeps the running parent total equal to the start of the frame taken last, and stops at the first parent frame from the current one on that covers the tick, or at the end |
| Timeline.LocateParentFrame | cocos/editor-support/cocostudio/CCDataReaderHelper.cpp:866-873 | The inner loop leaves a valid cursor no earlier than the one it got and no later than the parent frame count; the frame it took last covers the child's start tick unless the frames ran out, and no frame it skipped covers it |
| Timeline.SweepShape | cocos/editor-support/cocostudio/CCDataReaderHelper.cpp:858-876 | Without parent frames no child frame gets one; with parent frames every child frame gets an existing one |
| Timeline.SweepLocates | cocos/editor-support/cocostudio/CCDataReaderHelper.cpp:858-876 | Each child frame's parent frame covers its start tick or is the last parent frame; the located indices never decrease; and no parent frame between two consecutive located ones covers the later child's start |
| XmlDecoder.TweenEasing | cocos/editor-support/cocostudio/CCDataReaderHelper.cpp:1031-1046 | "NaN" gives Linear; the tool's code 2 gives Sine_EaseInOut; any other integer code is stored as read; a missing or non-integer attribute keeps the current value; code 2 is never stored unless it was there already |
| XmlDecoder.DecodeFrame | cocos/editor-support/cocostudio/CCDataReaderHelper.cpp:920-1076 | Resolving against a parent frame changes only the transform part; without a parent frame the frame is the locally decoded one |
| XmlDecoder.DecodeLocalFrameDefaults | cocos/editor-support/cocostudio/CCDataReaderHelper.cpp:920-1046 | A frame element with no attributes or children decodes to a fresh FrameData |
| XmlDecoder.DecodeLocalFramePositionGate | cocos/editor-support/cocostudio/CCDataReaderHelper.cpp:946-971 | A frame element spelling its position x/y, read below version 2.0, decodes exactly like one spelling it cocos2d_x/cocos2d_y, read from 2.0 on |
| XmlDecoder.ResolvedFrames | cocos/editor-support/cocostudio/CCDataReaderHelper.cpp:857-885 | One resolved frame per frame element; each differs from the locally decoded frame only in its transform |
| XmlDecoder.MovementBone | cocos/editor-support/cocostudio/CCDataReaderHelper.cpp:801-918 | A bone decodes exactly when it has a name and at least one frame, and then keeps that name; a missing name or empty frame list is the matching error; the scale is the one read or 1; a delay read loses one tick when positive and is kept otherwise, and a missing delay is 0 |
| XmlDecoder.DecodeFrameList | cocos/editor-support/cocostudio/CCDataReaderHelper.cpp:857-885 | The frame loop, carrying the parent cursor from frame to frame, yields the resolved frames stamped with running sums, and their total duration |
| XmlDecoder.DecodeMovementBone | cocos/editor-support/cocostudio/CCDataReaderHelper.cpp:801-918 | With the same pair rule, the decoder's loops yield exactly the movement bone the value-level definition describes, errors included |
| XmlDecoder.ResolvedDurations | cocos/editor-support/cocostudio/CCDataReaderHelper.cpp:857-885 | Resolving against parent frames keeps every frame's own duration |
| XmlDecoder.MovementBoneTimeline | cocos/editor-support/cocostudio/CCDataReaderHelper.cpp:857-918 | A decoded bone has its frames plus one anchor; frame k's ID is the sum of the frame elements' durations before it and it keeps its own; the bone lasts the total of all of them |
| XmlDecoder.MovementBoneClosed | cocos/editor-support/cocostudio/CCDataReaderHelper.cpp:911-918 | Whatever the pair rule, a decoded bone ends with its anchor, the last key frame moved to the bone's duration |
| XmlDecoder.MovementBoneAsWritten | cocos/editor-support/cocostudio/CCDataReaderHelper.cpp:888-907 | As the source decodes a bone: the last key frame keeps the transform it was resolved to; every earlier one keeps all of it but its skews, and each skew moves by -2π, +2π or 0 according to its difference to the rewritten successor being below -π, above π, or neither |
| XmlDecoder.MovementBoneCorrected | cocos/editor-support/cocostudio/CCDataReaderHelper.cpp:888-907 | In the corrected decoder, a decoded bone's frame list, anchor included, has no two neighbouring frames more than half a turn apart in either skew |
| XmlDecoder.ResolvedFramesParents | cocos/editor-support/cocostudio/CCDataReaderHelper.cpp:836-885 | Without parent frames each frame is decoded on its own; otherwise frame k is decoded against the parent frame that covers its start or the last one, and the sweep never goes back or skips a covering frame |
| XmlDecoder.ParentBone | cocos/editor-support/cocostudio/CCDataReaderHelper.cpp:775-788 | A root bone, whose parent name is empty, has no parent; any other bone gets the result of the search over the bone elements |
| XmlDecoder.SearchParent | cocos/editor-support/cocostudio/CCDataReaderHelper.cpp:778-788 | A parent found is the first bone element of that name: every earlier one has a name, and it is another; no parent found means every bone element has a name and none is that one; an error means a nameless bone element comes before any of that name |
| XmlDecoder.FindParentBone | cocos/editor-support/cocostudio/CCDataReaderHelper.cpp:775-788 | The search loop stops at the first bone element named like the parent and agrees with the value-level search, error included |
| XmlDecoder.Movement | cocos/editor-support/cocostudio/CCDataReaderHelper.cpp:714-798 | A movement without a name is an error; a decoded movement keeps its name |
| XmlDecoder.DecodeMovement | cocos/editor-support/cocostudio/CCDataReaderHelper.cpp:714-798 | The header reads and the bone loop, with its duplicate skip, yield exactly the movement the value-level definition describes |
| XmlDecoder.MovementBonesKeep | cocos/editor-support/cocostudio/CCDataReaderHelper.cpp:758-795 | Once a bone name has an entry, later bone elements of that name leave it alone: the first one wins |
| XmlDecoder.MovementBonesNamed | cocos/editor-support/cocostudio/CCDataReaderHelper.cpp:758-795 | Every entry of the movement's bone dictionary is filed under its own bone's name |
| XmlDecoder.MovementBonesFromChildren | cocos/editor-support/cocostudio/CCDataReaderHelper.cpp:758-795 | Every entry of the bone dictionary comes from a child element of the movement carrying that name |
| XmlDecoder.MovementBonesCoverChildren | cocos/editor-support/cocostudio/CCDataReaderHelper.cpp:758-795 | Every named bone element from the walk's start on has an entry under its name |
| XmlDecoder.MovementBoneKeys | cocos/editor-support/cocostudio/CCDataReaderHelper.cpp:714-798 | Every named bone element is a key of a decoded movement's bone dictionary; every key is the name of some child, of any tag, since the child after a skipped duplicate is decoded whatever its tag; each entry is filed under its own name |
| XmlDecoder.PivotRoundTrip | cocos/editor-support/cocostudio/CCDataReaderHelper.cpp:1100-1108 | The pivot formula inverts the pixel position of an anchor point, so anchor → pixels → anchor is the identity |
| XmlDecoder.PivotInUnitSquare | cocos/editor-support/cocostudio/CCDataReaderHelper.cpp:1100-1108 | A pivot inside the texture gives an anchor point in the unit square, with the top-left corner at (0, 1) |
| XmlDecoder.Contour | cocos/editor-support/cocostudio/CCDataReaderHelper.cpp:1124-1146 | One vertex per vertex element |
| XmlDecoder.DecodeContour | cocos/editor-support/cocostudio/CCDataReaderHelper.cpp:1124-1146 | Vertex k is vertex element k with a missing coordinate read as 0 and y flipped |
| XmlDecoder.Texture | cocos/editor-support/cocostudio/CCDataReaderHelper.cpp:1078-1122 | Decoding succeeds exactly when the version's pivot attributes and the width are present and the width and height are non-zero; then the name is kept, the size is not stored, and there is one contour per contour element |
| XmlDecoder.DecodeTexture | cocos/editor-support/cocostudio/CCDataReaderHelper.cpp:1078-1122 | The attribute reads and the contour loop yield exactly the texture the value-level definition describes |
| XmlDecoder.BoneDisplay | cocos/editor-support/cocostudio/CCDataReaderHelper.cpp:646-687 | Armature display exactly when isArmature reads as a non-zero integer, otherwise a sprite with a fresh skin; never a particle; the name is the name attribute or "" |
| JsonDecoder.NodeDefaults | cocos/editor-support/cocostudio/CCDataReaderHelper.cpp:1599-1636 | An empty dictionary gives a fresh BaseData whatever the node held, except for the colour, which is left alone |
| JsonDecoder.NodeColorGate | cocos/editor-support/cocostudio/CCDataReaderHelper.cpp:1614-1634 | Below version 1.1 the colour comes from entry 0 of the array only (an object under `color`, or one further down the array, is ignored); from 1.1 on it is the other way round; a colour read takes default 255 and switches the flag on |
| JsonDecoder.NodeColorFlag | cocos/editor-support/cocostudio/CCDataReaderHelper.cpp:1599-1636 | The colour flag is on exactly when it was on already or the version's colour block exists; without a block only the transform fields change |
| JsonDecoder.FrameVersionGate | cocos/editor-support/cocostudio/CCDataReaderHelper.cpp:1533-1540 | Below VERSION_COMBINED only the duration is read (default 1) and the ID stays 0; from it on only the frame index is read (default 0) and the duration stays 1 |
| JsonDecoder.FrameDefaults | cocos/editor-support/cocostudio/CCDataReaderHelper.cpp:1516-1543 | An empty frame dictionary gives a fresh FrameData in either version |
| JsonDecoder.FrameEasingUnmapped | cocos/editor-support/cocostudio/CCDataReaderHelper.cpp:1522 | The easing stored is the item read, with Linear as the default; the tool's code 2 stays 2 |
| JsonDecoder.DecodeFrameList | cocos/editor-support/cocostudio/CCDataReaderHelper.cpp:1457-1473 | Below VERSION_COMBINED the frames are stamped with running sums and totalled; from it on they are kept as decoded and the duration stays 0 |
| JsonDecoder.DecodeMovementBone | cocos/editor-support/cocostudio/CCDataReaderHelper.cpp:1444-1514 | With the same pair rule, the read loop, the version-gated unwrap over the frame array and the anchor yield exactly the movement bone the value-level definition describes |
| JsonDecoder.MovementBoneTimeline | cocos/editor-support/cocostudio/CCDataReaderHelper.cpp:1457-1511 | Below VERSION_COMBINED, whatever the pair rule, a non-empty bone lasts the total duration, frame k starts where the earlier frames end with its own duration, and the anchor is the last frame moved to the total |
| JsonDecoder.MovementBoneAsWritten | cocos/editor-support/cocostudio/CCDataReaderHelper.cpp:1476-1498 | Below VERSION_COMBINED, as the source decodes a bone: the last key frame keeps its transform; every earlier one keeps all of it but its skews, and each skew moves by -2π, +2π or 0 according to its difference to the rewritten successor being below -π, above π, or neither |
| JsonDecoder.MovementBoneCorrected | cocos/editor-support/cocostudio/CCDataReaderHelper.cpp:1476-1498 | Below VERSION_COMBINED, in the corrected decoder, no two neighbouring frames of a bone, anchor included, are more than half a turn apart in either skew |
| JsonDecoder.MovementBoneIndexed | cocos/editor-support/cocostudio/CCDataReaderHelper.cpp:1466-1511 | From VERSION_COMBINED on the duration stays 0, no anchor is added, and each frame keeps its index and duration; from 1.0 on the frames are exactly as decoded |
| JsonDecoder.MovementBoneEmpty | cocos/editor-support/cocostudio/CCDataReaderHelper.cpp:1500-1511 | A bone without frames gets no anchor and a zero duration in either version |
| JsonDecoder.MovementBoneDelayKept | cocos/editor-support/cocostudio/CCDataReaderHelper.cpp:1446-1455 | The delay is the item read with default 0 and no tick subtracted; the name is the item read or ""; the scale keeps the constructor's 1 |
| JsonDecoder.DecodeMovement | cocos/editor-support/cocostudio/CCDataReaderHelper.cpp:1413-1442 | The header reads and the bone loop yield the header with the bones filed by name |
| JsonDecoder.ByNameKeys | cocos/editor-support/cocostudio/CCDataReaderHelper.cpp:1430-1439 | The names a movement stores are exactly the names of its bones |
| JsonDecoder.ByNameLastWins | cocos/editor-support/cocostudio/CCDataReaderHelper.cpp:1430-1439 | Each name is stored with the last bone of that name |
| JsonDecoder.ContourReversed | cocos/editor-support/cocostudio/CCDataReaderHelper.cpp:1575-1597 | One vertex per array entry, and vertex k is array entry n-1-k |
| JsonDecoder.DecodeContour | cocos/editor-support/cocostudio/CCDataReaderHelper.cpp:1575-1597 | The backward loop over the vertex array yields the contour with the vertices last first |
| JsonDecoder.TextureDefaults | cocos/editor-support/cocostudio/CCDataReaderHelper.cpp:1545-1573 | An empty texture dictionary gives pivot 0 rather than the constructor's centred pivot, and no name, size or contours |
| JsonDecoder.TextureContours | cocos/editor-support/cocostudio/CCDataReaderHelper.cpp:1545-1573 | One contour per contour entry in array order, each holding that entry's vertices last one first; the pivot is the one written |
| JsonDecoder.DecodeTexture | cocos/editor-support/cocostudio/CCDataReaderHelper.cpp:1545-1573 | The attribute reads and the contour loop yield the texture with the contours in array order |
| JsonDecoder.BoneDisplay | cocos/editor-support/cocostudio/CCDataReaderHelper.cpp:1310-1386 | The display type is the code read; particle exactly for code 2 and armature exactly for code 1; a particle's plist is resolved against the base path or is ""; a known sprite or armature keeps its name; an unknown code gives a bare sprite |
| JsonDecoder.SkinDefaults | cocos/editor-support/cocostudio/CCDataReaderHelper.cpp:1328-1343 | An empty skin entry gives a fresh skin |
| Paths.LastIndexOf | cocos/editor-support/cocostudio/CCDataReaderHelper.cpp:282 | The index found holds the character and none after it does; no index means the character does not occur |
| Paths.BasePathShape | cocos/editor-support/cocostudio/CCDataReaderHelper.cpp:281-291 | The base path is a prefix of the path that is empty or ends in '/', with no '/' after it, and is empty exactly when the path has no '/' |
| Paths.BasePathOfJoin | cocos/editor-support/cocostudio/CCDataReaderHelper.cpp:281-291 | A directory joined to a file name without '/' gives that directory back |
| Paths.Extension | cocos/editor-support/cocostudio/CCDataReaderHelper.cpp:294-296 | The extension is a suffix of the path that starts with its only '.'; there is none exactly when the path has no '.' |
| Paths.ConfigTypeOfSuffix | cocos/editor-support/cocostudio/CCDataReaderHelper.cpp:307-314 | A name ending in .xml selects the XML decoder, and one ending in .json or .ExportJson the JSON decoder, whatever comes before |
| Paths.OtherExtensionsIgnored | cocos/editor-support/cocostudio/CCDataReaderHelper.cpp:307-314 | A name whose last extension is any other selects no decoder |
| Loader.LastMatch | cocos/editor-support/cocostudio/CCDataReaderHelper.cpp:480-487 | The match found is the path and none after it is; no match means the path is not listed |
| Loader.RemoveLastSpec | cocos/editor-support/cocostudio/CCDataReaderHelper.cpp:478-493 | An absent path leaves the list alone; a present one loses exactly one occurrence, its last, with the entries before it kept in place and those after it moved up |
| Loader.AddThenRemove | cocos/editor-support/cocostudio/CCDataReaderHelper.cpp:270-277 | Adding a path that was not listed and then removing it gives the list back |
| Loader.RemoveUnlists | cocos/editor-support/cocostudio/CCDataReaderHelper.cpp:478-493 | Removing a path listed once unlists it |
| Loader.ProgressBounds | cocos/editor-support/cocostudio/CCDataReaderHelper.cpp:461 | The progress reported lies in [0, 1], is 1 exactly when nothing is in flight, and is above 0 once a request has come back |
| Loader.ProgressStep | cocos/editor-support/cocostudio/CCDataReaderHelper.cpp:457-461 | Each drained result raises the progress by exactly one share of the total |
| Loader.ProgressMonotone | cocos/editor-support/cocostudio/CCDataReaderHelper.cpp:457-461 | Fewer requests in flight never report less progress |
| Loader.DuplicateProgressBounds | cocos/editor-support/cocostudio/CCDataReaderHelper.cpp:326-336 | A repeated request reports a fraction in [0, 1], and 1 exactly when nothing is in flight |
| Loader.SpriteFiles | cocos/editor-support/cocostudio/CCDataReaderHelper.cpp:437-451 | One sprite sheet per named config file, plus the request's own pair when both its paths are given |
| Loader.DataReaderHelper.constructor | cocos/editor-support/cocostudio/CCDataReaderHelper.cpp:243-252 | A new helper has empty queues and zero counters, keeps the helper invariant, and sees the shared file list as earlier helpers left it |
| Loader.DataReaderHelper.Purge | cocos/editor-support/cocostudio/CCDataReaderHelper.cpp:236-240 | The shared file list is emptied |
| Loader.DataReaderHelper.IsListed | cocos/editor-support/cocostudio/CCDataReaderHelper.cpp:270-276 | The duplicate loop answers yes exactly when the path is already listed |
| Loader.DataReaderHelper.AddDataFromFile | cocos/editor-support/cocostudio/CCDataReaderHelper.cpp:265-315 | A listed path changes nothing and loads nothing; otherwise the path is appended once and loaded with its base path and the decoder its extension selects |
| Loader.DataReaderHelper.AddDataFromFileAsync | cocos/editor-support/cocostudio/CCDataReaderHelper.cpp:317-416 | A listed path changes no state and, for a caller with a callback, reports the progress so far; otherwise the path is listed, both counters go up by one, the request is queued and the callback is scheduled; the helper invariant is kept |
| Loader.DataReaderHelper.LoadNext | cocos/editor-support/cocostudio/CCDataReaderHelper.cpp:179-202 | The oldest request leaves the request queue and its result joins the end of the result queue; the helper invariant is kept |
| Loader.DataReaderHelper.AddDataAsyncCallBack | cocos/editor-support/cocostudio/CCDataReaderHelper.cpp:418-475 | With no result nothing changes; otherwise the oldest result is drained, its sprite sheets are loaded, the in-flight count drops by one, the new progress is reported to a caller with a callback, and the total is reset and the callback unscheduled when nothing is left; the helper invariant is kept |
| Loader.DataReaderHelper.LoadSpriteFiles | cocos/editor-support/cocostudio/CCDataReaderHelper.cpp:437-451 | The loaded sprite sheets grow by exactly the result's sprite sheets, in queue order |
| Loader.DataReaderHelper.RemoveConfigFile | cocos/editor-support/cocostudio/CCDataReaderHelper.cpp:478-493 | The loop finds the last entry equal to the path and erases it, and only it |

## Left out

- The loader thread, its mutexes, the condition variable, `need_quit` and the thread join (`loadData` and the destructor). Their effect on the queues is the sequential `LoadNext` step; the interleavings are not modelled.
- Parsing and file I/O. The tinyxml2 and `JsonDictionary` parsers are abstracted: a document is an already parsed `XmlElement` or `Dict`, and a typed item read whose value has another type yields the default. `CCFileUtils` path resolution and file reading, and the file contents a load produces, are outside the model. A loader method returns the request it would decode instead of decoding it.
- `addDataFromCache` and `addDataFromJsonCache`. The documents they walk are not modelled, so `LoadNext` takes the config file queue that decoding found as a parameter.
- `decodeArmature`, `decodeBone`, `decodeAnimation`, `getInstance`, and the release of the singleton in `purge`. The decoders take a bone dictionary in place of an armature's bone data.
- Loader.DataReaderHelper.constructor: the static `_configFileList` is a field of each helper, and the constructor takes its current contents as a parameter; the sharing of one list by all helpers is not modelled otherwise.
- The position read scale (the global `s_PositionReadScale`, with its setter and getter). It is the `positionReadScale` field of the decoding context.
- The `ArmatureDataManager` registry. Sprite sheets handed to it are recorded in `loadedSpriteFiles`; nothing else is.
- The scheduler. A boolean flag records whether the callback is scheduled.
- The target/selector callback and `retain`/`release`. A caller with a callback is a boolean, and a reported progress is a returned value.
- `TransformHelp::transformFromParent`. It is a function-valued parameter of the XML decoders, because its matrix arithmetic is not part of this model.
- IEEE single-precision floats. They are `real`, and π is the decimal constant 3.14159265358979323846 written out.
- The XML colour transform arithmetic (`2.55 *` offsets over partially uninitialised integers). The model keeps only the fact that a colour transform element switches `isUseColorInfo` on.
- Null dereferences in the XML form. These are a bone or movement with no name, a bone without bone data in the armature, an empty frame list reaching the end anchor, and a nameless bone met during the parent search. Each is a decoding error in the model.
- XmlDecoder.Vertex: the source releases each freshly created vertex before writing to it and adding it to the contour, a use after free; the model yields the well-defined vertex the code evidently intends.
- Documents.SubItems: an array entry that is not an object (a number, a string, null) is skipped, and later entries move down one place. The source's loops over `getArrayItemCount` entries (frames, movement bones, contours, vertices) dereference the null that `getSubItemFromArray` gives for such an entry; that crash is not modelled. Entry 0 read alone (the colour below version 1.1, the skin) is entry 0 only, with no colour or skin unless it is an object.
- XmlDecoder.Texture: a missing pivot or width leaves the anchor point computed from uninitialised floats, and a zero width or height gives an IEEE infinity or NaN in the source; the model gives an `UndefinedPivot` error for all of these.
- The extension of a path with no '.'. The source indexes past the string there; the model selects no decoder.
- Loader.DataReaderHelper.AddDataFromFileAsync: for an extension other than `.xml`, `.json` and `.ExportJson`, the source never sets the request's `configType`, which keeps whatever `new AsyncStruct()` gave it (the declarations of `AsyncStruct` and `ConfigType` are in CCDataReaderHelper.h, not part of this model), so the loader thread may still hand the file to a decoder; the model records no decoder (`None`) for such a request.
- The JSON particle plist path. The source resolves it against the request's base path when loading asynchronously and against the context's otherwise; the model takes both from the context's `baseFilePath`.
- CCArmatureDefine.h, CCDatas.cpp and CCTweenFunction.h are not part of this model. The constants (version thresholds 2.0, 0.3, 1.0 and 1.1; Linear 0; Sine_EaseInOut 3; display types 0, 1 and 2) and the record defaults (scale 1, colour 255, duration 1, pivot 0.5, everything else 0, false or empty) are stated in `Datas` as those files are understood to define them. So is `FrameData::copy`, understood to copy every field of the frame, which is what the end anchor of `Timeline.WithEndAnchor` rests on. So is `MovementData::addMovementBoneData`, understood to replace an entry already filed under the same name, which is what `JsonDecoder.ByNameLastWins` rests on.

## Findings

| source | as written | input that shows it | evidently intended | confidence | as-written member | corrected member |
|---|---|---|---|---|---|---|
| cocos/editor-support/cocostudio/CCDataReaderHelper.cpp:888-907 (and 1476-1498) | Each earlier frame's skew moves by at most one whole turn towards its already rewritten successor | Skews 0.7π, -0.5π, 0.3π, -0.9π, a steady spin with every raw value in (-π, π]: after the pass the first two frames are 1.2π apart | Move by as many whole turns as needed, so that every neighbouring pair ends within half a turn | not executed | Timeline.SingleTurnLeavesJump | Timeline.MultiTurnListContinuous, used by XmlDecoder.MovementBoneCorrected and JsonDecoder.MovementBoneCorrected |
