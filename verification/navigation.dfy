/**
  The navigation state machine: what a click does, what one animation
  frame does, and what happens on arrival.  The program keeps this state
  in module-level variables; here it is one immutable record, and every
  handler is a function from the old record to the new one.
 */
module Navigation {
  import opened Wrappers
  import opened Geometry
  import opened Registry
  import opened Planner
  import opened Animation

  /** Distance covered by one animation frame. */
  const PlayerSpeed: real := 0.07
  /** Arriving closer than this to the item (in the ground plane) shows its message. */
  const MessageRadius: real := 0.45

  datatype Overlay = Overlay(visible: bool, text: string)

  datatype State = State(
    screen: int,                  // currentScreen
    scene: Scene,                 // the entities the last activation built
    pendingScreen: Option<int>,   // pendingScreenChange
    pendingSide: Option<Side>,    // pendingEntrySide
    pos: Vec3,                    // player.position
    facing: real,                 // player.rotation.y
    joints: Joints,               // rotation.x of the four limbs
    target: Option<Vec3>,         // playerTarget
    path: seq<Vec3>,              // playerPath, the waypoints after the target
    showItemMessage: bool,        // re-trigger suppression flag
    overlay: Overlay)

  /** The indices the handlers look up in the screen table are in range. */
  predicate Indices(s: State) {
    && ValidScreen(s.screen)
    && (s.pendingScreen.Some? ==> ValidScreen(s.pendingScreen.value))
  }

  /** The player, its target and every queued waypoint are on the ground. */
  predicate OnGround(s: State) {
    && s.pos.y == 0.0
    && (s.target.Some? ==> s.target.value.y == 0.0)
    && (forall i | 0 <= i < |s.path| :: s.path[i].y == 0.0)
  }

  /** What holds in every reachable state. */
  predicate Inv(s: State) {
    && Indices(s)
    && s.scene == BuildScene(s.screen)
    && (s.pendingScreen.Some? <==> s.pendingSide.Some?)
    && OnGround(s)
    && |s.path| <= 1
    && (s.target.None? ==> s.path == [])
  }

  /**
    Makes `idx` the current screen and builds its content: a fresh figure
    (facing 0, limbs at rest) at the entry edge given by `side`, or at the
    centre when there is none, with no movement target.
   */
  function Activate(s: State, idx: int, side: Option<Side>): (r: State)
    requires ValidScreen(idx)
    ensures r.screen == idx && r.scene == BuildScene(idx)
    ensures r.target == None
    ensures side == Some(Left) ==> r.pos == Vec3(-3.5, 0.0, 0.0)
    ensures side == Some(Right) ==> r.pos == Vec3(3.5, 0.0, 0.0)
    ensures side == None ==> r.pos == Origin
    ensures r.facing == 0.0 && r.joints == Neutral
    ensures r.path == s.path
    ensures r.pendingScreen == s.pendingScreen && r.pendingSide == s.pendingSide
    ensures r.showItemMessage == s.showItemMessage && r.overlay == s.overlay
  {
    s.(screen := idx, scene := BuildScene(idx), pos := EntryPosition(side),
       facing := 0.0, joints := Neutral, target := None)
  }

  /** The state after loading: screen 0 activated with no entry side. */
  function Init(): (s: State)
    ensures Inv(s)
    ensures s.screen == 0 && s.pos == Origin
    ensures s.target == None && s.path == []
    ensures s.pendingScreen == None && s.pendingSide == None
    ensures !s.showItemMessage && !s.overlay.visible
  {
    var blank := State(0, BuildScene(0), None, None, Origin, 0.0, Neutral, None, [], false, Overlay(false, ""));
    Activate(blank, 0, None)
  }

  // ---------------------------------------------------------------- clicks

  /**
    What the ray through the pointer hits: the hotspot, the item, and the
    point where it meets the ground, if any.
   */
  datatype Pick = Pick(hitsHotspot: bool, hitsItem: bool, ground: Option<Vec3>)

  /**
    What the geometry library reports about the straight walk from the
    player to the clicked ground point: the distance at which the ray meets
    the item's box (if it does), the walk's length, and the length of the
    raw perpendicular used for the detour.
   */
  datatype Probe = Probe(boxHit: Option<real>, segLen: real, perpLen: real)

  /** The clicked ground point at ground height. */
  function GroundGoal(p: Vec3): Vec3 {
    WithY(p, 0.0)
  }

  predicate ProbeFits(s: State, pick: Pick, probe: Probe) {
    !pick.hitsHotspot && !pick.hitsItem && pick.ground.Some? ==>
      DetourFits(s.pos, GroundGoal(pick.ground.value), probe.segLen, probe.perpLen)
  }

  function HotspotBase(s: State): Vec3 {
    WithY(s.scene.hotspot, 0.0)
  }

  function ItemBase(s: State): Vec3 {
    WithY(s.scene.item, 0.0)
  }

  /**
    A click.  The hotspot is tested first, then the item, then the ground;
    the first hit decides.  A click only sets the target and the queue
    (and, for the hotspot, the pending screen change); it never moves the
    player.
   */
  function Click(s: State, pick: Pick, probe: Probe): (r: State)
    requires ValidScreen(s.screen) && ProbeFits(s, pick, probe)
    ensures r.pos == s.pos && r.facing == s.facing && r.joints == s.joints
    ensures r.screen == s.screen && r.scene == s.scene
    ensures r.showItemMessage == s.showItemMessage && r.overlay == s.overlay
    ensures pick.hitsHotspot ==>
      && r.target == Some(HotspotBase(s)) && r.path == []
      && r.pendingScreen == Some(Screens()[s.screen].hotspotTargetScreen)
      && r.pendingSide == Some(EntrySide(s.screen))
    ensures !pick.hitsHotspot ==> r.pendingScreen == s.pendingScreen && r.pendingSide == s.pendingSide
    ensures !pick.hitsHotspot && pick.hitsItem ==> r.target == Some(ItemBase(s)) && r.path == []
    ensures !pick.hitsHotspot && !pick.hitsItem && pick.ground.Some? ==>
      var goal := GroundGoal(pick.ground.value);
      if PathIntersectsBox(probe.boxHit, probe.segLen) then
        && r.target == Some(GetDetourPoint(s.pos, goal, s.scene.item, ItemSize, probe.segLen, probe.perpLen))
        && r.path == [goal]
      else
        r.target == Some(goal) && r.path == []
    ensures !pick.hitsHotspot && !pick.hitsItem && pick.ground.None? ==> r == s
    ensures Inv(s) ==> Inv(r)
  {
    if pick.hitsHotspot then
      s.(target := Some(HotspotBase(s)), path := [],
         pendingScreen := Some(Screens()[s.screen].hotspotTargetScreen),
         pendingSide := Some(EntrySide(s.screen)))
    else if pick.hitsItem then
      s.(target := Some(ItemBase(s)), path := [])
    else if pick.ground.Some? then
      var goal := GroundGoal(pick.ground.value);
      if PathIntersectsBox(probe.boxHit, probe.segLen) then
        var detour := GetDetourPoint(s.pos, goal, s.scene.item, ItemSize, probe.segLen, probe.perpLen);
        s.(target := Some(WithY(detour, 0.0)), path := [goal])
      else
        s.(target := Some(goal), path := [])
    else
      s
  }

  // --------------------------------------------------------------- arrival

  /** Within the message radius of the item, measured in the ground plane. */
  predicate NearItem(p: Vec3, item: Vec3) {
    FlatDistSq(p, item) < MessageRadius * MessageRadius
  }

  /**
    `NearItem` is the program's test `flatDist < 0.45` on the square root
    `flatDist` of the squared ground distance.
   */
  lemma NearItemMatchesDistance(p: Vec3, item: Vec3, flatDist: real)
    requires 0.0 <= flatDist && flatDist * flatDist == FlatDistSq(p, item)
    ensures NearItem(p, item) <==> flatDist < MessageRadius
  {
    SquareLess(flatDist, MessageRadius);
  }

  /**
    Final arrival, with the queue empty: first the message check, then the
    pending screen change, then the target is cleared.  The message is
    shown only near the item and only while not suppressed, and it is the
    message of the screen being left.
   */
  function Arrive(s: State): (r: State)
    requires Indices(s)
    ensures r.target == None && r.path == s.path
    ensures r.showItemMessage == (s.showItemMessage || NearItem(s.pos, s.scene.item))
    ensures NearItem(s.pos, s.scene.item) && !s.showItemMessage ==>
      r.overlay == Overlay(true, Screens()[s.screen].itemMessage)
    ensures !(NearItem(s.pos, s.scene.item) && !s.showItemMessage) ==> r.overlay == s.overlay
    ensures s.pendingScreen.Some? ==>
      && r.screen == s.pendingScreen.value && r.scene == BuildScene(r.screen)
      && r.pos == EntryPosition(s.pendingSide)
      && r.pendingScreen == None && r.pendingSide == None
      && r.facing == 0.0 && r.joints == Neutral
    ensures s.pendingScreen.None? ==>
      && r.screen == s.screen && r.scene == s.scene && r.pos == s.pos
      && r.pendingScreen == None && r.pendingSide == s.pendingSide
      && r.facing == s.facing && r.joints == s.joints
  {
    var shown := NearItem(s.pos, s.scene.item) && !s.showItemMessage;
    var s1 := if shown then s.(showItemMessage := true, overlay := Overlay(true, Screens()[s.screen].itemMessage)) else s;
    var s2 := if s1.pendingScreen.Some? then
                Activate(s1, s1.pendingScreen.value, s1.pendingSide).(pendingScreen := None, pendingSide := None)
              else s1;
    s2.(target := None)
  }

  // ---------------------------------------------------------------- frames

  /**
    What one frame receives from the runtime: the player's distance to the
    target, the heading `atan2` gives for the step, and the sine sample of
    the walk cycle.
   */
  datatype FrameInput = FrameInput(dist: real, heading: real, wave: real)

  predicate FrameFits(s: State, f: FrameInput) {
    s.target.Some? ==> IsLength(Sub(s.target.value, s.pos), f.dist)
  }

  /** One step of `PlayerSpeed` towards `goal`, which is `dist` away. */
  function MoveToward(pos: Vec3, goal: Vec3, dist: real): (p: Vec3)
    requires IsLength(Sub(goal, pos), dist) && dist > PlayerSpeed
    ensures IsLength(Sub(goal, p), dist - PlayerSpeed)
    ensures IsLength(Sub(p, pos), PlayerSpeed)
    ensures pos.y == goal.y ==> p.y == pos.y
  {
    StepAlong(pos, goal, dist, PlayerSpeed);
    Add(pos, Scale(Normalize(Sub(goal, pos), dist), PlayerSpeed))
  }

  /**
    One animation frame.  With a target farther than one step, the player
    walks one step towards it; otherwise it is placed exactly on the
    target, which is replaced by the next queued waypoint or, with the
    queue empty, cleared after the arrival effects.  The limbs swing only
    on walking frames.
   */
  function Tick(s: State, f: FrameInput): (r: State)
    requires Indices(s) && FrameFits(s, f)
    ensures s.target.None? ==> r == s.(joints := Neutral)
    ensures s.target.Some? && f.dist > PlayerSpeed ==>
      && r == s.(pos := r.pos, facing := f.heading, joints := WalkPose(true, f.wave))
      && IsLength(Sub(s.target.value, r.pos), f.dist - PlayerSpeed)
      && IsLength(Sub(r.pos, s.pos), PlayerSpeed)
    ensures s.target.Some? && f.dist <= PlayerSpeed && s.path != [] ==>
      r == s.(pos := s.target.value, target := Some(s.path[0]), path := s.path[1..], joints := Neutral)
    ensures s.target.Some? && f.dist <= PlayerSpeed && s.path == [] ==>
      r == Arrive(s.(pos := s.target.value)).(joints := Neutral)
    ensures Indices(r)
    ensures Inv(s) ==> Inv(r)
  {
    match s.target
    case None => s.(joints := WalkPose(false, f.wave))
    case Some(goal) =>
      if f.dist > PlayerSpeed then
        s.(pos := MoveToward(s.pos, goal, f.dist), facing := f.heading, joints := WalkPose(true, f.wave))
      else
        var at := s.(pos := goal);
        var next := if |s.path| > 0 then at.(target := Some(s.path[0]), path := s.path[1..]) else Arrive(at);
        next.(joints := WalkPose(false, f.wave))
  }
}
