/** The timeline rules a movement bone's frame list is built by: frame IDs as
    running sums of durations, the parent-frame sweep that finds the parent
    key frame a child frame starts in, and the backward pass that unwraps
    skews, both with the pair rule the source writes (at most one turn per
    frame) and with a corrected one that keeps consecutive frames within a
    half turn. */
module Timeline {
  import opened Results
  import opened Datas

  // ===== frame IDs =====

  /** The total of the frames' durations. */
  function SumDurations(fs: seq<FrameData>): int {
    if fs == [] then 0 else SumDurations(fs[..|fs| - 1]) + fs[|fs| - 1].duration
  }

  /** Every frame moved to the tick at which the frames before it end. */
  function Stamped(fs: seq<FrameData>): (r: seq<FrameData>)
    ensures |r| == |fs|
  {
    seq(|fs|, k requires 0 <= k < |fs| => fs[k].(frameID := SumDurations(fs[..k])))
  }

  /** Stamping one more frame leaves the earlier ones alone and starts the new
      one where the earlier ones end: the step the decoders' loops take. */
  lemma StampedSnoc(fs: seq<FrameData>, f: FrameData)
    ensures Stamped(fs + [f]) == Stamped(fs) + [f.(frameID := SumDurations(fs))]
  {
    var l, r := Stamped(fs + [f]), Stamped(fs) + [f.(frameID := SumDurations(fs))];
    forall k | 0 <= k < |l| ensures l[k] == r[k] {
      if k < |fs| {
        assert (fs + [f])[..k] == fs[..k];
      } else {
        assert (fs + [f])[..k] == fs;
      }
    }
  }

  /** One step of the running sum. */
  lemma StampStep(fs: seq<FrameData>, k: nat)
    requires k < |fs|
    ensures Stamped(fs[..k + 1]) == Stamped(fs[..k]) + [fs[k].(frameID := SumDurations(fs[..k]))]
    ensures SumDurations(fs[..k + 1]) == SumDurations(fs[..k]) + fs[k].duration
  {
    assert fs[..k + 1] == fs[..k] + [fs[k]];
    StampedSnoc(fs[..k], fs[k]);
  }

  /** What a decoder's frame loop holds after k frames: the frames so far,
      stamped with running sums and totalled when `stamp` is set, as decoded
      and with a zero total otherwise. */
  ghost predicate TimedPrefix(fs: seq<FrameData>, stamp: bool, k: nat, frameList: seq<FrameData>, duration: int) {
    && k <= |fs|
    && (stamp ==> frameList == Stamped(fs[..k]) && duration == SumDurations(fs[..k]))
    && (!stamp ==> frameList == fs[..k] && duration == 0)
  }

  lemma TimedPrefixStep(fs: seq<FrameData>, stamp: bool, k: nat, frameList: seq<FrameData>, duration: int)
    requires k < |fs| && TimedPrefix(fs, stamp, k, frameList, duration)
    ensures stamp ==> TimedPrefix(fs, stamp, k + 1, frameList + [fs[k].(frameID := duration)], duration + fs[k].duration)
    ensures !stamp ==> TimedPrefix(fs, stamp, k + 1, frameList + [fs[k]], duration)
  {
    StampStep(fs, k);
  }

  lemma TimedPrefixDone(fs: seq<FrameData>, stamp: bool, frameList: seq<FrameData>, duration: int)
    requires TimedPrefix(fs, stamp, |fs|, frameList, duration)
    ensures stamp ==> frameList == Stamped(fs) && duration == SumDurations(fs)
    ensures !stamp ==> frameList == fs && duration == 0
  {
    assert fs[..|fs|] == fs;
  }

  /** Consecutive stamped frames are exactly one duration apart, and the last
      one ends at the total duration. */
  lemma {:induction false} StampedSpacing(fs: seq<FrameData>)
    ensures forall k :: 0 <= k < |fs| - 1 ==>
      Stamped(fs)[k + 1].frameID == Stamped(fs)[k].frameID + fs[k].duration
    ensures |fs| > 0 ==> Stamped(fs)[|fs| - 1].frameID + fs[|fs| - 1].duration == SumDurations(fs)
    ensures Stamped(fs) == [] || Stamped(fs)[0].frameID == 0
  {
    forall k | 0 <= k < |fs| - 1
      ensures Stamped(fs)[k + 1].frameID == Stamped(fs)[k].frameID + fs[k].duration
    {
      assert fs[..k + 1][..k] == fs[..k];
    }
    if |fs| > 0 {
      assert fs[..|fs| - 1] == fs[..|fs|][..|fs| - 1];
    }
  }

  /** With no negative duration the frame IDs never decrease. */
  lemma {:induction false} StampedNonDecreasing(fs: seq<FrameData>, j: nat, k: nat)
    requires forall m :: 0 <= m < |fs| ==> fs[m].duration >= 0
    requires j <= k < |fs|
    ensures Stamped(fs)[j].frameID <= Stamped(fs)[k].frameID
    decreases k - j
  {
    if j < k {
      StampedSpacing(fs);
      StampedNonDecreasing(fs, j, k - 1);
    }
  }

  /** Stamping changes the frame IDs only. */
  lemma StampedKeepsFields(fs: seq<FrameData>)
    ensures forall k :: 0 <= k < |fs| ==> Stamped(fs)[k].(frameID := fs[k].frameID) == fs[k]
  {
  }

  /** Frames with the same durations, one for one, have the same total and
      are stamped at the same ticks. */
  lemma {:induction false} SameDurations(a: seq<FrameData>, b: seq<FrameData>)
    requires |a| == |b|
    requires forall k :: 0 <= k < |a| ==> a[k].duration == b[k].duration
    ensures SumDurations(a) == SumDurations(b)
    ensures forall k :: 0 <= k < |a| ==> Stamped(a)[k].frameID == Stamped(b)[k].frameID
    decreases |a|
  {
    if a != [] {
      SameDurations(a[..|a| - 1], b[..|b| - 1]);
    }
    forall k | 0 <= k < |a| ensures SumDurations(a[..k]) == SumDurations(b[..k]) {
      SameDurationsPrefix(a, b, k);
    }
  }

  lemma {:induction false} SameDurationsPrefix(a: seq<FrameData>, b: seq<FrameData>, k: nat)
    requires |a| == |b| && k <= |a|
    requires forall m :: 0 <= m < |a| ==> a[m].duration == b[m].duration
    ensures SumDurations(a[..k]) == SumDurations(b[..k])
  {
    if k > 0 {
      SameDurationsPrefix(a, b, k - 1);
      assert a[..k][..k - 1] == a[..k - 1] && b[..k][..k - 1] == b[..k - 1];
    }
  }

  // ===== end anchor =====

  /** The frame list with a copy of its last frame appended, moved to tick
      `duration`. */
  function WithEndAnchor(fs: seq<FrameData>, duration: int): (r: seq<FrameData>)
    requires |fs| > 0
    ensures |r| == |fs| + 1 && r[..|fs|] == fs
    ensures r[|fs|] == fs[|fs| - 1].(frameID := duration)
  {
    fs + [fs[|fs| - 1].(frameID := duration)]
  }

  // ===== rotation unwrap =====

  /** The rule applied to one adjacent pair: the new skew of the earlier frame
      given its own skew and the (already unwrapped) skew of its successor. */
  type Step = (real, real) -> real

  /** The pair rule as the source writes it: when the difference leaves
      [-PI, PI] the earlier value moves one whole turn towards its successor. */
  function SingleTurn(prev: real, next: real): real {
    var dif := next - prev;
    if dif < -PI || dif > PI then
      (if dif < 0.0 then prev - 2.0 * PI else prev + 2.0 * PI)
    else prev
  }

  /** The fewest whole turns that bring a difference back into [-PI, PI]. */
  function Turns(dif: real): int {
    if dif > PI then -(((PI - dif) / (2.0 * PI)).Floor)
    else if dif < -PI then ((dif + PI) / (2.0 * PI)).Floor
    else 0
  }

  /** The corrected pair rule: as many whole turns as the difference needs. */
  function MultiTurn(prev: real, next: real): real {
    prev + 2.0 * PI * (Turns(next - prev) as real)
  }

  /** The backward pass over a frame list, last frame first: each earlier frame
      gets both skews from `step`, against the successor as already rewritten. */
  function UnwrappedWith(fs: seq<FrameData>, step: Step): (r: seq<FrameData>)
    ensures |r| == |fs|
  {
    if |fs| <= 1 then fs
    else
      var rest := UnwrappedWith(fs[1..], step);
      [fs[0].WithSkews(step(fs[0].SkewX(), rest[0].SkewX()), step(fs[0].SkewY(), rest[0].SkewY()))] + rest
  }

  /** The pass frame by frame: the last frame is kept, every other frame's skews
      come from `step` against its rewritten successor, nothing else changes. */
  lemma {:induction false} UnwrappedAt(fs: seq<FrameData>, step: Step, k: nat)
    requires k < |fs|
    ensures k == |fs| - 1 ==> UnwrappedWith(fs, step)[k] == fs[k]
    ensures k < |fs| - 1 ==>
      var r := UnwrappedWith(fs, step);
      r[k] == fs[k].WithSkews(step(fs[k].SkewX(), r[k + 1].SkewX()), step(fs[k].SkewY(), r[k + 1].SkewY()))
  {
    if |fs| > 1 && k > 0 {
      UnwrappedAt(fs[1..], step, k - 1);
    }
  }

  /** One step of the backward pass: the first frame of a list of two or more
      is rewritten against the already unwrapped rest. */
  lemma UnwrappedCons(s: seq<FrameData>, step: Step)
    requires |s| >= 2
    ensures var rest := UnwrappedWith(s[1..], step);
      UnwrappedWith(s, step) == [s[0].WithSkews(step(s[0].SkewX(), rest[0].SkewX()), step(s[0].SkewY(), rest[0].SkewY()))] + rest
  {
  }

  /** Rewriting the frame just before the done suffix extends the suffix. */
  lemma UnwrapOneMore(was: seq<FrameData>, cur: seq<FrameData>, step: Step, j: nat)
    requires 0 < j < |was| == |cur|
    requires cur == was[..j] + UnwrappedWith(was[j..], step)
    ensures var prev, next := cur[j - 1], cur[j];
      cur[j - 1 := prev.WithSkews(step(prev.SkewX(), next.SkewX()), step(prev.SkewY(), next.SkewY()))]
        == was[..j - 1] + UnwrappedWith(was[j - 1..], step)
  {
    var done := UnwrappedWith(was[j..], step);
    assert cur[j - 1] == was[j - 1] && cur[j] == done[0];
    assert was[j - 1..][1..] == was[j..];
    UnwrappedCons(was[j - 1..], step);
  }

  /** The in-place pass of decodeMovementBone over its frame array. */
  method UnwrapRotation(frames: array<FrameData>, step: Step)
    modifies frames
    ensures frames[..] == UnwrappedWith(old(frames[..]), step)
  {
    ghost var was := frames[..];
    var j := frames.Length - 1;
    while j >= 0
      invariant -1 <= j < frames.Length
      invariant j >= 0 ==> frames[..] == was[..j] + UnwrappedWith(was[j..], step)
      invariant j < 0 ==> frames[..] == UnwrappedWith(was, step)
    {
      if j > 0 {
        UnwrapOneMore(was, frames[..], step, j);
        var next, prev := frames[j], frames[j - 1];
        frames[j - 1] := prev.WithSkews(step(prev.SkewX(), next.SkewX()), step(prev.SkewY(), next.SkewY()));
      } else {
        assert was[..j] == [] && was[j..] == was;
      }
      j := j - 1;
    }
  }

  /** A movement bone's frame list put through the in-place pass with the
      pair rule `step`. */
  method UnwrapFrameList(frameList: seq<FrameData>, step: Step) returns (r: seq<FrameData>)
    ensures r == UnwrappedWith(frameList, step)
  {
    var frames := new FrameData[|frameList|](i requires 0 <= i < |frameList| => frameList[i]);
    assert frames[..] == frameList;
    UnwrapRotation(frames, step);
    r := frames[..];
  }

  /** The close of the XML decodeMovementBone: the in-place pass, then the end
      anchor, a copy of the last frame placed at the bone's total duration. An
      empty list has no last frame to copy. */
  method UnwrapAndAnchor(frameList: seq<FrameData>, duration: int, step: Step) returns (r: Option<seq<FrameData>>)
    ensures frameList == [] ==> r.None?
    ensures frameList != [] ==> r == Some(WithEndAnchor(UnwrappedWith(frameList, step), duration))
  {
    var unwrapped := UnwrapFrameList(frameList, step);
    if |unwrapped| == 0 {
      return None;
    }
    var frameData := unwrapped[|unwrapped| - 1].(frameID := duration);
    r := Some(unwrapped + [frameData]);
  }

  // ----- the rule as written -----

  /** As written: the last frame is untouched; every other frame keeps its
      non-skew fields, and each skew moves by 0, -2*PI or +2*PI: by -2*PI
      exactly when the difference to its successor is below -PI, by +2*PI
      exactly when it is above PI. */
  lemma SingleTurnUnwrap(fs: seq<FrameData>, k: nat)
    requires k < |fs|
    ensures var r := UnwrappedWith(fs, SingleTurn);
      && |r| == |fs|
      && r[k].(base := fs[k].base) == fs[k]
      && r[k].base.(skewX := fs[k].SkewX(), skewY := fs[k].SkewY()) == fs[k].base
      && (k == |fs| - 1 ==> r[k] == fs[k])
      && (k < |fs| - 1 ==>
           var dx, dy := r[k + 1].SkewX() - fs[k].SkewX(), r[k + 1].SkewY() - fs[k].SkewY();
           && r[k].SkewX() - fs[k].SkewX() == (if dx < -PI then -2.0 * PI else if dx > PI then 2.0 * PI else 0.0)
           && r[k].SkewY() - fs[k].SkewY() == (if dy < -PI then -2.0 * PI else if dy > PI then 2.0 * PI else 0.0))
  {
    UnwrappedAt(fs, SingleTurn, k);
  }

  /** As written, a pair ends up within a half turn when the earlier frame was
      at most three half turns from its rewritten successor. */
  lemma SingleTurnCloses(prev: real, next: real)
    requires -3.0 * PI <= next - prev <= 3.0 * PI
    ensures -PI <= next - SingleTurn(prev, next) <= PI
  {
  }

  /** A steady spin of 0.8*PI per frame, every raw value in (-PI, PI]. */
  function SpinExample(): seq<FrameData> {
    [DefaultFrame().WithSkews(0.7 * PI, 0.0), DefaultFrame().WithSkews(-0.5 * PI, 0.0),
     DefaultFrame().WithSkews(0.3 * PI, 0.0), DefaultFrame().WithSkews(-0.9 * PI, 0.0)]
  }

  /** As written, the pass can leave a jump of more than a half turn: on
      SpinExample the first two frames end 1.2*PI apart. */
  lemma SingleTurnLeavesJump()
    ensures var r := UnwrappedWith(SpinExample(), SingleTurn);
      |r| == 4 && r[1].SkewX() - r[0].SkewX() < -PI
  {
    var fs := SpinExample();
    var r3 := UnwrappedWith(fs[3..], SingleTurn);
    assert r3 == fs[3..];
    var r2 := UnwrappedWith(fs[2..], SingleTurn);
    assert fs[2..][1..] == fs[3..];
    assert r2[0].SkewX() == -1.7 * PI;
    var r1 := UnwrappedWith(fs[1..], SingleTurn);
    assert fs[1..][1..] == fs[2..];
    assert r1[0].SkewX() == -2.5 * PI;
    var r := UnwrappedWith(fs, SingleTurn);
    assert fs[1..] == fs[1..];
    assert r[1] == r1[0];
    assert r[0].SkewX() == -1.3 * PI;
  }

  // ----- the corrected rule -----

  /** The corrected rule moves by whole turns, in the direction of the
      difference, leaves a pair within [-PI, PI], and moves nothing already
      within. */
  lemma MultiTurnStep(prev: real, next: real)
    ensures var dif, t := next - prev, Turns(next - prev);
      && MultiTurn(prev, next) == prev + 2.0 * PI * (t as real)
      && -PI <= next - MultiTurn(prev, next) <= PI
      && (dif > PI ==> t >= 1)
      && (dif < -PI ==> t <= -1)
      && (-PI <= dif <= PI ==> t == 0)
  {
    var dif := next - prev;
    if dif > PI {
      var q := (PI - dif) / (2.0 * PI);
      assert q.Floor as real <= q < q.Floor as real + 1.0;
    } else if dif < -PI {
      var q := (dif + PI) / (2.0 * PI);
      assert q.Floor as real <= q < q.Floor as real + 1.0;
    }
  }

  /** Where the corrected rule disagrees with the written one, the written
      one leaves the pair more than a half turn apart. */
  lemma MultiTurnDiffersOnlyOnJumps(prev: real, next: real)
    ensures MultiTurn(prev, next) != SingleTurn(prev, next) ==>
      next - SingleTurn(prev, next) < -PI || next - SingleTurn(prev, next) > PI
  {
    MultiTurnStep(prev, next);
  }

  /** Frames k and k + 1 are within a half turn of each other in both skews. */
  ghost predicate CloseAt(fs: seq<FrameData>, k: nat)
    requires k + 1 < |fs|
  {
    -PI <= fs[k + 1].SkewX() - fs[k].SkewX() <= PI && -PI <= fs[k + 1].SkewY() - fs[k].SkewY() <= PI
  }

  /** Every neighbouring pair within a half turn, in both channels. */
  ghost predicate Continuous(fs: seq<FrameData>) {
    forall k: nat :: k + 1 < |fs| ==> CloseAt(fs, k)
  }

  /** After the corrected pass every pair of neighbouring frames is within a
      half turn in both channels. */
  lemma MultiTurnContinuous(fs: seq<FrameData>, k: nat)
    requires k + 1 < |fs|
    ensures CloseAt(UnwrappedWith(fs, MultiTurn), k)
  {
    var r := UnwrappedWith(fs, MultiTurn);
    UnwrappedAt(fs, MultiTurn, k);
    MultiTurnStep(fs[k].SkewX(), r[k + 1].SkewX());
    MultiTurnStep(fs[k].SkewY(), r[k + 1].SkewY());
  }

  /** The whole-turn pass leaves the whole list continuous. */
  lemma MultiTurnListContinuous(fs: seq<FrameData>)
    ensures Continuous(UnwrappedWith(fs, MultiTurn))
  {
    forall k: nat | k + 1 < |fs| ensures CloseAt(UnwrappedWith(fs, MultiTurn), k) {
      MultiTurnContinuous(fs, k);
    }
  }

  /** The pass, whatever its rule, moves no frame in time. */
  lemma UnwrappedKeepsTimes(fs: seq<FrameData>, step: Step)
    ensures forall k :: 0 <= k < |fs| ==>
      UnwrappedWith(fs, step)[k].frameID == fs[k].frameID && UnwrappedWith(fs, step)[k].duration == fs[k].duration
  {
    forall k | 0 <= k < |fs|
      ensures UnwrappedWith(fs, step)[k].frameID == fs[k].frameID && UnwrappedWith(fs, step)[k].duration == fs[k].duration
    {
      UnwrappedAt(fs, step, k);
    }
  }

  /** The frame list a decoder closes a bone with, whatever the pair rule:
      frame k starts where the frames before it end and keeps its duration,
      and the anchor is the last key frame moved to the total duration. */
  lemma AnchoredTimeline(fs: seq<FrameData>, step: Step, r: seq<FrameData>)
    requires fs != []
    requires r == WithEndAnchor(UnwrappedWith(Stamped(fs), step), SumDurations(fs))
    ensures |r| == |fs| + 1
    ensures forall k :: 0 <= k < |fs| ==> r[k].frameID == SumDurations(fs[..k]) && r[k].duration == fs[k].duration
    ensures r[|fs|] == r[|fs| - 1].(frameID := SumDurations(fs))
  {
    AnchoredTimes(fs, step, r);
  }

  lemma AnchoredTimes(fs: seq<FrameData>, step: Step, r: seq<FrameData>)
    requires fs != []
    requires r == WithEndAnchor(UnwrappedWith(Stamped(fs), step), SumDurations(fs))
    ensures forall k :: 0 <= k < |fs| ==> r[k].frameID == SumDurations(fs[..k]) && r[k].duration == fs[k].duration
  {
    var u := UnwrappedWith(Stamped(fs), step);
    forall k | 0 <= k < |fs| ensures r[k].frameID == SumDurations(fs[..k]) && r[k].duration == fs[k].duration {
      UnwrappedAt(Stamped(fs), step, k);
      assert r[k] == u[k];
    }
  }

  /** The shift the written rule gives a skew whose rewritten successor lies
      `dif` away. */
  function TurnShift(dif: real): real {
    if dif < -PI then -2.0 * PI else if dif > PI then 2.0 * PI else 0.0
  }

  /** The written rule moves the earlier value by the written shift. */
  lemma SingleTurnShift(prev: real, next: real)
    ensures SingleTurn(prev, next) - prev == TurnShift(next - prev)
  {
  }

  /** `r` is `fs` closed under the written rule: one entry longer, the last
      key frame with its transform kept, and every earlier key frame with all
      of its transform but its skews kept and each skew moved by TurnShift of
      its difference to the rewritten successor. */
  ghost predicate ShiftedOnce(fs: seq<FrameData>, r: seq<FrameData>) {
    && |fs| > 0 && |r| == |fs| + 1
    && r[|fs| - 1].base == fs[|fs| - 1].base
    && forall k :: 0 <= k < |fs| - 1 ==>
      && r[k].base.(skewX := fs[k].SkewX(), skewY := fs[k].SkewY()) == fs[k].base
      && r[k].SkewX() - fs[k].SkewX() == TurnShift(r[k + 1].SkewX() - fs[k].SkewX())
      && r[k].SkewY() - fs[k].SkewY() == TurnShift(r[k + 1].SkewY() - fs[k].SkewY())
  }

  /** The list the source closes a bone with, under the written rule: the
      last key frame keeps its transform, and every earlier key frame keeps
      all of it but its skews, each moved by the written shift against the
      rewritten successor. */
  lemma AnchoredAsWritten(fs: seq<FrameData>, r: seq<FrameData>)
    requires fs != []
    requires r == WithEndAnchor(UnwrappedWith(Stamped(fs), SingleTurn), SumDurations(fs))
    ensures ShiftedOnce(fs, r)
  {
    PrefixAsWritten(fs, r);
  }

  /** The same for any list that begins with the unwrapped frames and has
      one more entry. */
  lemma PrefixAsWritten(fs: seq<FrameData>, r: seq<FrameData>)
    requires fs != []
    requires |r| == |fs| + 1 && r[..|fs|] == UnwrappedWith(Stamped(fs), SingleTurn)
    ensures r[|fs| - 1].base == fs[|fs| - 1].base
    ensures forall k :: 0 <= k < |fs| - 1 ==>
      && r[k].base.(skewX := fs[k].SkewX(), skewY := fs[k].SkewY()) == fs[k].base
      && r[k].SkewX() - fs[k].SkewX() == TurnShift(r[k + 1].SkewX() - fs[k].SkewX())
      && r[k].SkewY() - fs[k].SkewY() == TurnShift(r[k + 1].SkewY() - fs[k].SkewY())
  {
    AsWrittenLast(fs, r);
    forall k | 0 <= k < |fs| - 1
      ensures r[k].base.(skewX := fs[k].SkewX(), skewY := fs[k].SkewY()) == fs[k].base
      ensures r[k].SkewX() - fs[k].SkewX() == TurnShift(r[k + 1].SkewX() - fs[k].SkewX())
      ensures r[k].SkewY() - fs[k].SkewY() == TurnShift(r[k + 1].SkewY() - fs[k].SkewY())
    {
      UnwrappedAsWrittenAt(fs, k);
      ShiftsCarry(fs, UnwrappedWith(Stamped(fs), SingleTurn), r, k);
    }
  }

  lemma UnwrappedAsWrittenAt(fs: seq<FrameData>, k: nat)
    requires k + 1 < |fs|
    ensures var u := UnwrappedWith(Stamped(fs), SingleTurn);
      && u[k].base.(skewX := fs[k].SkewX(), skewY := fs[k].SkewY()) == fs[k].base
      && u[k].SkewX() - fs[k].SkewX() == TurnShift(u[k + 1].SkewX() - fs[k].SkewX())
      && u[k].SkewY() - fs[k].SkewY() == TurnShift(u[k + 1].SkewY() - fs[k].SkewY())
  {
    var u := UnwrappedWith(Stamped(fs), SingleTurn);
    StampedStepAt(fs, SingleTurn, k);
    SingleTurnShift(fs[k].SkewX(), u[k + 1].SkewX());
    SingleTurnShift(fs[k].SkewY(), u[k + 1].SkewY());
  }

  /** The written shifts at frame k carry over to a list that extends `u`. */
  lemma ShiftsCarry(fs: seq<FrameData>, u: seq<FrameData>, r: seq<FrameData>, k: nat)
    requires k + 1 < |u| < |r| && k < |fs| && r[..|u|] == u
    requires u[k].base.(skewX := fs[k].SkewX(), skewY := fs[k].SkewY()) == fs[k].base
    requires u[k].SkewX() - fs[k].SkewX() == TurnShift(u[k + 1].SkewX() - fs[k].SkewX())
    requires u[k].SkewY() - fs[k].SkewY() == TurnShift(u[k + 1].SkewY() - fs[k].SkewY())
    ensures r[k].base.(skewX := fs[k].SkewX(), skewY := fs[k].SkewY()) == fs[k].base
    ensures r[k].SkewX() - fs[k].SkewX() == TurnShift(r[k + 1].SkewX() - fs[k].SkewX())
    ensures r[k].SkewY() - fs[k].SkewY() == TurnShift(r[k + 1].SkewY() - fs[k].SkewY())
  {
    assert r[k] == r[..|u|][k];
    assert r[k + 1] == r[..|u|][k + 1];
  }

  lemma AsWrittenLast(fs: seq<FrameData>, r: seq<FrameData>)
    requires fs != []
    requires |r| == |fs| + 1 && r[..|fs|] == UnwrappedWith(Stamped(fs), SingleTurn)
    ensures r[|fs| - 1].base == fs[|fs| - 1].base
  {
    var st := Stamped(fs);
    UnwrappedAt(st, SingleTurn, |fs| - 1);
    assert r[|fs| - 1] == r[..|fs|][|fs| - 1];
  }

  /** Key frame k of the unwrapped stamped list, k not the last: its
      transform with both skews from `step` against its rewritten successor. */
  lemma StampedStepAt(fs: seq<FrameData>, step: Step, k: nat)
    requires k + 1 < |fs|
    ensures var u := UnwrappedWith(Stamped(fs), step);
      u[k].base == fs[k].base.(skewX := step(fs[k].SkewX(), u[k + 1].SkewX()), skewY := step(fs[k].SkewY(), u[k + 1].SkewY()))
  {
    StampedBaseAt(fs, k);
    UnwrappedStepAt(Stamped(fs), step, k);
  }

  lemma StampedBaseAt(fs: seq<FrameData>, k: nat)
    requires k < |fs|
    ensures Stamped(fs)[k].base == fs[k].base
  {
  }

  lemma UnwrappedStepAt(s: seq<FrameData>, step: Step, k: nat)
    requires k + 1 < |s|
    ensures var u := UnwrappedWith(s, step);
      u[k].base == s[k].base.(skewX := step(s[k].SkewX(), u[k + 1].SkewX()), skewY := step(s[k].SkewY(), u[k + 1].SkewY()))
  {
    UnwrappedAt(s, step, k);
  }

  /** The list the corrected decoder closes a bone with is continuous,
      anchor included. */
  lemma AnchoredCorrected(fs: seq<FrameData>, r: seq<FrameData>)
    requires fs != []
    requires r == WithEndAnchor(UnwrappedWith(Stamped(fs), MultiTurn), SumDurations(fs))
    ensures Continuous(r)
  {
    MultiTurnListContinuous(Stamped(fs));
    AnchoredContinuous(UnwrappedWith(Stamped(fs), MultiTurn), r, SumDurations(fs));
  }

  lemma AnchoredContinuous(u: seq<FrameData>, r: seq<FrameData>, duration: int)
    requires u != [] && Continuous(u)
    requires r == WithEndAnchor(u, duration)
    ensures Continuous(r)
  {
    forall k: nat | k + 1 < |r| ensures CloseAt(r, k) {
      if k + 1 < |u| {
        assert CloseAt(u, k);
        assert r[k] == u[k] && r[k + 1] == u[k + 1];
      } else {
        assert r[k + 1].base == r[k].base;
      }
    }
  }

  /** Whenever the written pass already produces a continuous list, the
      corrected pass produces the same list. */
  lemma {:induction false} MultiTurnAgrees(fs: seq<FrameData>)
    requires Continuous(UnwrappedWith(fs, SingleTurn))
    ensures UnwrappedWith(fs, MultiTurn) == UnwrappedWith(fs, SingleTurn)
  {
    if |fs| > 1 {
      var s := UnwrappedWith(fs, SingleTurn);
      var rest := UnwrappedWith(fs[1..], SingleTurn);
      assert s[1..] == rest;
      assert Continuous(rest) by {
        forall k: nat | k + 1 < |rest| ensures CloseAt(rest, k) {
          assert CloseAt(s, k + 1);
          assert rest[k] == s[k + 1] && rest[k + 1] == s[k + 2];
        }
      }
      MultiTurnAgrees(fs[1..]);
      assert CloseAt(s, 0);
      MultiTurnDiffersOnlyOnJumps(fs[0].SkewX(), rest[0].SkewX());
      MultiTurnDiffersOnlyOnJumps(fs[0].SkewY(), rest[0].SkewY());
    }
  }

  // ===== parent-frame sweep =====

  /** The duration the sweep holds for parent frame q. A parent frame without
      a duration attribute leaves currentDuration as it was (0 before any). */
  function HeldDuration(ds: seq<Option<int>>, q: nat): int
    requires q < |ds|
  {
    match ds[q]
    case Some(d) => d
    case None => if q == 0 then 0 else HeldDuration(ds, q - 1)
  }

  /** The tick at which parent frame q starts: the held durations before it. */
  function FrameStart(ds: seq<Option<int>>, q: nat): int
    requires q <= |ds|
  {
    if q == 0 then 0 else FrameStart(ds, q - 1) + HeldDuration(ds, q - 1)
  }

  /** Parent frame q is active at tick t. */
  predicate Covers(ds: seq<Option<int>>, q: nat, t: int)
    requires q < |ds|
  {
    FrameStart(ds, q) <= t < FrameStart(ds, q) + HeldDuration(ds, q)
  }

  /** The sweep's state: the cursor i, parentTotalDuration, currentDuration,
      and whether a parent frame has been taken yet (parentFrameXML set). */
  datatype Cursor = Cursor(i: nat, parentTotalDuration: int, currentDuration: int, hasFrame: bool) {
    /** The parent frame handed to decodeFrame: the one taken last. */
    function Located(): Option<nat> {
      if hasFrame && i > 0 then Some(i - 1) else None
    }
    /** The first parent frame the next search may stop at. */
    function First(): nat {
      if i == 0 then 0 else i - 1
    }
  }

  function StartCursor(): Cursor { Cursor(0, 0, 0, false) }

  /** What the sweep keeps true between steps: a frame has been taken exactly
      when the cursor has moved, and the running total is the start of the
      frame taken last, currentDuration its held duration. */
  predicate CursorValid(ds: seq<Option<int>>, c: Cursor) {
    && c.i <= |ds|
    && (c.hasFrame <==> c.i > 0)
    && (if c.i == 0 then c.parentTotalDuration == 0 && c.currentDuration == 0
        else c.parentTotalDuration == FrameStart(ds, c.i - 1) && c.currentDuration == HeldDuration(ds, c.i - 1))
  }

  /** The loop condition of the sweep. */
  predicate KeepLooking(ds: seq<Option<int>>, t: int, c: Cursor) {
    c.i < |ds| && (!c.hasFrame || t < c.parentTotalDuration || t >= c.parentTotalDuration + c.currentDuration)
  }

  /** One turn of the sweep: take parent frame i. */
  function Take(ds: seq<Option<int>>, c: Cursor): Cursor
    requires c.i < |ds|
  {
    Cursor(c.i + 1, c.parentTotalDuration + c.currentDuration, ds[c.i].GetOr(c.currentDuration), true)
  }

  /** The sweep for a child frame starting at tick t. */
  function Advance(ds: seq<Option<int>>, t: int, c: Cursor): Cursor
    decreases |ds| - c.i
  {
    if KeepLooking(ds, t, c) then Advance(ds, t, Take(ds, c)) else c
  }

  lemma TakeValid(ds: seq<Option<int>>, c: Cursor)
    requires CursorValid(ds, c) && c.i < |ds|
    ensures CursorValid(ds, Take(ds, c))
  {
  }

  /** The sweep stops at the first parent frame, from the current one on, that
      covers t, or runs off the end; the cursor only moves forward. */
  lemma {:induction false} AdvanceSpec(ds: seq<Option<int>>, t: int, c: Cursor)
    requires CursorValid(ds, c)
    ensures var r := Advance(ds, t, c);
      && CursorValid(ds, r)
      && c.i <= r.i <= |ds|
      && (ds != [] ==> r.hasFrame)
      && (r.i == |ds| || (0 < r.i && Covers(ds, r.i - 1, t)))
      && (forall q :: c.First() <= q < r.i - 1 ==> !Covers(ds, q, t))
    decreases |ds| - c.i
  {
    if KeepLooking(ds, t, c) {
      TakeValid(ds, c);
      AdvanceSpec(ds, t, Take(ds, c));
    }
  }

  /** The inner loop of the XML decodeMovementBone: advance the parent cursor
      until the parent frame taken last covers the child's start tick
      `totalDuration`, or the parent frames run out. */
  method LocateParentFrame(ds: seq<Option<int>>, totalDuration: int, c: Cursor) returns (r: Cursor)
    requires CursorValid(ds, c)
    ensures r == Advance(ds, totalDuration, c)
    ensures CursorValid(ds, r)
    ensures c.i <= r.i <= |ds|
    ensures r.i == |ds| || (0 < r.i && Covers(ds, r.i - 1, totalDuration))
    ensures forall q :: c.First() <= q < r.i - 1 ==> !Covers(ds, q, totalDuration)
  {
    var i, parentTotalDuration, currentDuration, hasFrame := c.i, c.parentTotalDuration, c.currentDuration, c.hasFrame;
    while i < |ds| && (!hasFrame || totalDuration < parentTotalDuration || totalDuration >= parentTotalDuration + currentDuration)
      invariant CursorValid(ds, Cursor(i, parentTotalDuration, currentDuration, hasFrame))
      invariant Advance(ds, totalDuration, Cursor(i, parentTotalDuration, currentDuration, hasFrame)) == Advance(ds, totalDuration, c)
      decreases |ds| - i
    {
      hasFrame := true;
      parentTotalDuration := parentTotalDuration + currentDuration;
      match ds[i] {
        case Some(d) => currentDuration := d;
        case None =>
      }
      i := i + 1;
    }
    r := Cursor(i, parentTotalDuration, currentDuration, hasFrame);
    AdvanceSpec(ds, totalDuration, c);
  }

  /** The parent frame located for each child frame, the cursor carried from
      one child frame to the next. */
  function Sweep(ds: seq<Option<int>>, starts: seq<int>, c: Cursor): (r: seq<Option<nat>>)
    ensures |r| == |starts|
    decreases |starts|
  {
    if starts == [] then []
    else
      var c' := Advance(ds, starts[0], c);
      [c'.Located()] + Sweep(ds, starts[1..], c')
  }

  /** The sweep over a whole frame list, from the initial cursor. */
  function ParentFrameIndices(ds: seq<Option<int>>, starts: seq<int>): (r: seq<Option<nat>>)
    ensures |r| == |starts|
  {
    Sweep(ds, starts, StartCursor())
  }

  /** Without parent frames no child frame gets one; with them, every child
      frame gets one. */
  lemma {:induction false} SweepShape(ds: seq<Option<int>>, starts: seq<int>, c: Cursor)
    requires CursorValid(ds, c)
    ensures ds == [] ==> forall k :: 0 <= k < |starts| ==> Sweep(ds, starts, c)[k].None?
    ensures ds != [] ==> forall k :: 0 <= k < |starts| ==> Sweep(ds, starts, c)[k].Some? && Sweep(ds, starts, c)[k].value < |ds|
    decreases |starts|
  {
    if starts != [] {
      var c' := Advance(ds, starts[0], c);
      AdvanceSpec(ds, starts[0], c);
      SweepShape(ds, starts[1..], c');
      var p, tail := Sweep(ds, starts, c), Sweep(ds, starts[1..], c');
      assert p[0] == c'.Located();
      assert forall k :: 0 < k < |p| ==> p[k] == tail[k - 1];
    }
  }

  /** Each child frame gets the first parent frame, from the one the previous
      child frame got on, that covers its start tick, or the last parent frame
      when none does; so the located indices never decrease. */
  lemma SweepLocates(ds: seq<Option<int>>, starts: seq<int>, c: Cursor)
    requires CursorValid(ds, c) && ds != []
    ensures var p := Sweep(ds, starts, c);
      && (forall k :: 0 <= k < |p| ==> p[k].Some? && c.First() <= p[k].value < |ds|)
      && (forall k :: 0 <= k < |p| ==> p[k].value == |ds| - 1 || Covers(ds, p[k].value, starts[k]))
      && (forall k :: 0 < k < |p| ==> p[k - 1].value <= p[k].value)
      && (|p| > 0 ==> forall q :: c.First() <= q < p[0].value ==> !Covers(ds, q, starts[0]))
      && (forall k, q :: 0 < k < |p| && p[k - 1].value <= q < p[k].value ==> !Covers(ds, q, starts[k]))
  {
    SweepCovers(ds, starts, c);
    SweepOrdered(ds, starts, c);
  }

  /** Every located index lies from the cursor's frame on, and covers the
      start tick unless it is the last parent frame. */
  lemma {:induction false} SweepCovers(ds: seq<Option<int>>, starts: seq<int>, c: Cursor)
    requires CursorValid(ds, c) && ds != []
    ensures var p := Sweep(ds, starts, c);
      && (forall k :: 0 <= k < |p| ==> p[k].Some? && c.First() <= p[k].value < |ds|)
      && (forall k :: 0 <= k < |p| ==> p[k].value == |ds| - 1 || Covers(ds, p[k].value, starts[k]))
    decreases |starts|
  {
    if starts != [] {
      var c' := Advance(ds, starts[0], c);
      AdvanceSpec(ds, starts[0], c);
      SweepCovers(ds, starts[1..], c');
      var p, tail := Sweep(ds, starts, c), Sweep(ds, starts[1..], c');
      assert p[0] == Some(c'.i - 1) && c'.First() == c'.i - 1;
      assert forall k :: 0 < k < |p| ==> p[k] == tail[k - 1] && starts[k] == starts[1..][k - 1];
    }
  }

  /** The located indices never decrease, and none skips a parent frame
      that covers the start tick. */
  lemma {:induction false} SweepOrdered(ds: seq<Option<int>>, starts: seq<int>, c: Cursor)
    requires CursorValid(ds, c) && ds != []
    ensures var p := Sweep(ds, starts, c);
      && (forall k :: 0 <= k < |p| ==> p[k].Some? && p[k].value < |ds|)
      && (forall k :: 0 < k < |p| ==> p[k - 1].value <= p[k].value)
      && (|p| > 0 ==> forall q :: c.First() <= q < p[0].value ==> !Covers(ds, q, starts[0]))
      && (forall k, q :: 0 < k < |p| && p[k - 1].value <= q < p[k].value ==> !Covers(ds, q, starts[k]))
    decreases |starts|
  {
    SweepShape(ds, starts, c);
    if starts != [] {
      var c' := Advance(ds, starts[0], c);
      AdvanceSpec(ds, starts[0], c);
      SweepOrdered(ds, starts[1..], c');
      SweepCovers(ds, starts[1..], c');
      var p, tail := Sweep(ds, starts, c), Sweep(ds, starts[1..], c');
      assert p[0] == Some(c'.i - 1) && c'.First() == c'.i - 1;
      assert forall k :: 0 < k < |p| ==> p[k] == tail[k - 1] && starts[k] == starts[1..][k - 1];
    }
  }
}
