/**
  Walking: a sequence of animation frames applied one after the other,
  and how many of them it takes to reach a target.
 */
module Walking {
  import opened Wrappers
  import opened Geometry
  import opened Registry
  import opened Planner
  import opened Navigation

  /** Every frame input of `fs` fits the state it is applied to. */
  predicate WalkFits(s: State, fs: seq<FrameInput>)
    requires Indices(s)
    decreases |fs|
  {
    |fs| == 0 || (FrameFits(s, fs[0]) && WalkFits(Tick(s, fs[0]), fs[1..]))
  }

  /** The state after the frames `fs`. */
  function Walk(s: State, fs: seq<FrameInput>): (r: State)
    requires Indices(s) && WalkFits(s, fs)
    ensures Indices(r)
    ensures Inv(s) ==> Inv(r)
    decreases |fs|
  {
    if |fs| == 0 then s else Walk(Tick(s, fs[0]), fs[1..])
  }

  /** Splitting a walk after `k` frames: the rest starts where the first `k` end. */
  lemma {:induction false} WalkSplit(s: State, fs: seq<FrameInput>, k: nat)
    requires Indices(s) && WalkFits(s, fs) && k <= |fs|
    ensures WalkFits(s, fs[..k])
    ensures WalkFits(Walk(s, fs[..k]), fs[k..])
    ensures Walk(s, fs) == Walk(Walk(s, fs[..k]), fs[k..])
    decreases k
  {
    if k == 0 {
      assert fs[..0] == [] && fs[0..] == fs;
    } else {
      WalkSplit(Tick(s, fs[0]), fs[1..], k - 1);
      assert fs[..k][1..] == fs[1..][..k - 1];
      assert fs[1..][k - 1..] == fs[k..];
    }
  }

  /**
    A walking frame shortens the remaining distance by exactly one step:
    the next frame's reported distance is `PlayerSpeed` less.
   */
  lemma StepShortens(s: State, f: FrameInput, g: FrameInput)
    requires Indices(s) && s.target.Some? && FrameFits(s, f) && f.dist > PlayerSpeed
    requires FrameFits(Tick(s, f), g)
    ensures g.dist == f.dist - PlayerSpeed
  {
    LengthUnique(Sub(s.target.value, Tick(s, f).pos), f.dist - PlayerSpeed, g.dist);
  }

  /**
    Frames before the arrival keep the target: while `k` steps are less
    than the first reported distance, the first `k` frames each take one
    step and change nothing but the position, heading and pose, and frame
    `k` reports a distance `k` steps shorter than frame 0.
   */
  lemma {:induction false} ApproachKeepsTarget(s: State, fs: seq<FrameInput>, k: nat)
    requires Indices(s) && s.target.Some? && WalkFits(s, fs) && k < |fs|
    requires k as real * PlayerSpeed < fs[0].dist
    ensures WalkFits(s, fs[..k])
    ensures var r := Walk(s, fs[..k]);
            && r == s.(pos := r.pos, facing := r.facing, joints := r.joints)
            && fs[k].dist == fs[0].dist - k as real * PlayerSpeed
    decreases k
  {
    if k == 0 {
      assert fs[..0] == [];
    } else {
      var n := Tick(s, fs[0]);
      assert fs[1..][0] == fs[1];
      StepShortens(s, fs[0], fs[1]);
      ApproachKeepsTarget(n, fs[1..], k - 1);
      assert fs[..k][1..] == fs[1..][..k - 1];
    }
  }

  /**
    What arriving at `goal` from `s` leaves in `r`: the next waypoint
    becomes the target; or, with the queue empty, the target is cleared,
    the message check runs at the target, and a pending screen change is
    committed, placing the player at the entry edge of the new screen.
   */
  predicate ArrivedAt(s: State, goal: Vec3, r: State) {
    && (s.path != [] ==>
          && r.pos == goal && r.target == Some(s.path[0]) && r.path == s.path[1..]
          && r.screen == s.screen && r.pendingScreen == s.pendingScreen)
    && (s.path == [] ==>
          && r.target == None
          && r.showItemMessage == (s.showItemMessage || NearItem(goal, s.scene.item)))
    && (s.path == [] && s.pendingScreen.None? ==> r.pos == goal && r.screen == s.screen)
    && (s.path == [] && s.pendingScreen.Some? ==>
          && r.screen == s.pendingScreen.value && r.pos == EntryPosition(s.pendingSide)
          && r.pendingScreen == None)
  }

  /** The frame that finds the target within one step completes the arrival. */
  lemma LastFrame(s: State, f: FrameInput, goal: Vec3)
    requires Indices(s) && s.target == Some(goal)
    requires FrameFits(s, f) && f.dist <= PlayerSpeed
    ensures ArrivedAt(s, goal, Tick(s, f))
  {
  }

  /** The frame count: the last frame of `Ceil(d / PlayerSpeed)` is the first within a step. */
  lemma LastFrameWithin(d: real, k: int)
    requires 0.0 < d && k == Ceil(d / PlayerSpeed) - 1
    ensures 0 <= k && k as real * PlayerSpeed < d
    ensures d - k as real * PlayerSpeed <= PlayerSpeed
  {
  }

  /**
    A target `d` away is reached on frame `Ceil(d / PlayerSpeed)` exactly:
    the frames before it walk (`ApproachKeepsTarget`), and it is the one
    that finds the target within a step.
   */
  lemma {:induction false} ArrivalWithinCeil(s: State, fs: seq<FrameInput>, goal: Vec3, d: real)
    requires Indices(s) && s.target == Some(goal)
    requires 0.0 < d && IsLength(Sub(goal, s.pos), d)
    requires |fs| == Ceil(d / PlayerSpeed) && WalkFits(s, fs)
    ensures ArrivedAt(s, goal, Walk(s, fs))
  {
    var k := |fs| - 1;
    LastFrameWithin(d, k);
    LengthUnique(Sub(goal, s.pos), d, fs[0].dist);
    ApproachKeepsTarget(s, fs, k);
    WalkSplit(s, fs, k);
    var p := Walk(s, fs[..k]);
    assert fs[k..] == [fs[k]];
    assert Walk(p, [fs[k]]) == Tick(p, fs[k]);
    LastFrame(p, fs[k], goal);
  }

  /** Clicking the hotspot at the start heads for (4, 0, 0) with screen 1 entered from the left pending. */
  lemma StartClick(pick: Pick, probe: Probe)
    requires pick.hitsHotspot
    ensures var s1 := Click(Init(), pick, probe);
            && s1.target == Some(Vec3(4.0, 0.0, 0.0)) && s1.path == []
            && s1.pos == Origin
            && s1.pendingScreen == Some(1) && s1.pendingSide == Some(Left)
  {
  }

  /** The hotspot base of screen 0 is 4 from the origin. */
  lemma FourUnitsAway(p: Vec3)
    requires p == Origin
    ensures IsLength(Sub(Vec3(4.0, 0.0, 0.0), p), 4.0)
  {
    assert IsLength(Vec3(4.0, 0.0, 0.0), 4.0);
    SubOrigin(Vec3(4.0, 0.0, 0.0));
  }

  /** Entering from the left places the player at x = -3.5. */
  lemma LeftEntry()
    ensures EntryPosition(Some(Left)) == Vec3(-3.5, 0.0, 0.0)
  {
  }

  /** Four units take 58 frames of 0.07. */
  lemma FiftyEightFrames()
    ensures Ceil(4.0 / PlayerSpeed) == 58
  {
  }

  /**
    From the start, a click on the hotspot of screen 0 (at x = 4) and 58
    frames, Ceil(4 / 0.07), take the player to screen 1, entering at the
    left edge.
   */
  lemma {:induction false} HotspotTripFromStart(pick: Pick, probe: Probe, fs: seq<FrameInput>)
    requires pick.hitsHotspot
    requires |fs| == 58 && WalkFits(Click(Init(), pick, probe), fs)
    ensures var r := Walk(Click(Init(), pick, probe), fs);
            && r.screen == 1 && r.pos == Vec3(-3.5, 0.0, 0.0)
            && r.target == None && r.pendingScreen == None
  {
    StartClick(pick, probe);
    TripToScreenOne(Click(Init(), pick, probe), fs);
  }

  /** The walk of `HotspotTripFromStart`, from the state the click leaves. */
  lemma {:induction false} TripToScreenOne(s1: State, fs: seq<FrameInput>)
    requires Indices(s1) && s1.target == Some(Vec3(4.0, 0.0, 0.0)) && s1.path == [] && s1.pos == Origin
    requires s1.pendingScreen == Some(1) && s1.pendingSide == Some(Left)
    requires |fs| == 58 && WalkFits(s1, fs)
    ensures var r := Walk(s1, fs);
            && r.screen == 1 && r.pos == Vec3(-3.5, 0.0, 0.0)
            && r.target == None && r.pendingScreen == None
  {
    LeftEntry();
    FourUnitsAway(s1.pos);
    FiftyEightFrames();
    ArrivalWithinCeil(s1, fs, Vec3(4.0, 0.0, 0.0), 4.0);
  }

  /**
    Clicking open ground after the hotspot does not cancel the screen
    change the hotspot click set up: arriving at the ground point still
    takes the player through the hotspot's link.
   */
  lemma {:induction false} RedirectedWalkStillLeaves(s: State, hot: Pick, probe1: Probe, ground: Vec3, probe2: Probe,
                                  fs: seq<FrameInput>)
    requires Inv(s) && hot.hitsHotspot
    requires ProbeFits(Click(s, hot, probe1), Pick(false, false, Some(ground)), probe2)
    requires !PathIntersectsBox(probe2.boxHit, probe2.segLen) && probe2.segLen > 0.0
    requires |fs| == Ceil(probe2.segLen / PlayerSpeed)
    requires WalkFits(Click(Click(s, hot, probe1), Pick(false, false, Some(ground)), probe2), fs)
    ensures var r := Walk(Click(Click(s, hot, probe1), Pick(false, false, Some(ground)), probe2), fs);
            && r.screen == Screens()[s.screen].hotspotTargetScreen
            && r.pos == EntryPosition(Some(EntrySide(s.screen)))
  {
    var s2 := Click(Click(s, hot, probe1), Pick(false, false, Some(ground)), probe2);
    var goal := GroundGoal(ground);
    assert s2.target == Some(goal) && s2.path == [];
    ArrivalWithinCeil(s2, fs, goal, probe2.segLen);
  }
}
