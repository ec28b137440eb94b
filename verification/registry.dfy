/**
  The static table of screens, the entry-side rule, and the content that
  activating a screen builds from its table entry.
 */
module Registry {
  import opened Wrappers
  import opened Geometry

  /** The edge of a screen at which the player appears. */
  datatype Side = Left | Right

  datatype Screen = Screen(
    groundColor: int,
    cameraPosition: Vec3,
    cameraLookAt: Vec3,
    hotspotPosition: Vec3,
    hotspotTargetScreen: int,
    itemPosition: Vec3,
    itemMessage: string)

  /** Top of the stick figure's head. */
  const PlayerHeight: real := 0.62
  const CameraHeight: real := PlayerHeight * 3.0

  /** Number of screens in the table. */
  const ScreenCount: int := 3

  /** The three screens; each hotspot links to a screen of the same table. */
  function Screens(): (screens: seq<Screen>)
    ensures |screens| == ScreenCount
    ensures forall i | 0 <= i < |screens| :: 0 <= screens[i].hotspotTargetScreen < |screens|
  {
    [ Screen(0x4444aa, Vec3(-4.0, CameraHeight, 4.0), Vec3(0.0, 0.25, 0.0),
             Vec3(4.0, 0.1, 0.0), 1, Vec3(-2.0, 0.5, 2.0),
             "You found a mysterious blue artifact!"),
      Screen(0x44aa44, Vec3(0.0, CameraHeight, -4.0), Vec3(0.0, 0.25, 0.0),
             Vec3(-4.0, 0.1, 0.0), 2, Vec3(2.0, 0.5, -2.0),
             "This green relic hums with energy."),
      Screen(0xaa4444, Vec3(4.0, CameraHeight, -4.0), Vec3(0.0, 0.25, 0.0),
             Vec3(0.0, 0.1, 4.0), 0, Vec3(0.0, 0.5, -2.0),
             "A red cube. It feels important.") ]
  }

  predicate ValidScreen(i: int) {
    0 <= i < ScreenCount
  }

  /**
    The side at which the player enters the next screen when leaving
    `fromScreen` through its hotspot: a hotspot to the right (x > 0) is a
    right exit and leads to a left entry; any other hotspot leads to a
    right entry.
   */
  function EntrySide(fromScreen: int): (side: Side)
    requires ValidScreen(fromScreen)
    ensures side == Left <==> Screens()[fromScreen].hotspotPosition.x > 0.0
  {
    if Screens()[fromScreen].hotspotPosition.x > 0.0 then Left else Right
  }

  /** Where the player is placed when a screen is activated from `side`. */
  function EntryPosition(side: Option<Side>): (p: Vec3)
    ensures p.y == 0.0 && p.z == 0.0
  {
    match side
    case Some(Left) => Vec3(-3.5, 0.0, 0.0)
    case Some(Right) => Vec3(3.5, 0.0, 0.0)
    case None => Origin
  }

  /** Screen 0 is left through the right, screens 1 and 2 are not. */
  lemma EntrySideTable()
    ensures EntrySide(0) == Left
    ensures EntrySide(1) == Right
    ensures EntrySide(2) == Right
  {
  }

  /**
    The player enters the linked screen on the edge opposite to the exit:
    a hotspot right of centre puts them at the left edge, one left of
    centre at the right edge, and one on the centre line (x = 0) also at
    the right edge.
   */
  lemma EntersOppositeExit(fromScreen: int)
    requires ValidScreen(fromScreen)
    ensures var x := Screens()[fromScreen].hotspotPosition.x;
            var p := EntryPosition(Some(EntrySide(fromScreen)));
            (x > 0.0 ==> p.x < 0.0) && (x <= 0.0 ==> p.x > 0.0)
  {
  }

  /** Following the hotspots leads 0 -> 1 -> 2 -> 0, so every screen is reachable. */
  lemma LinksFormCycle()
    ensures forall i | ValidScreen(i) ::
      Screens()[Screens()[Screens()[i].hotspotTargetScreen].hotspotTargetScreen].hotspotTargetScreen == i
    ensures forall i | ValidScreen(i) :: Screens()[i].hotspotTargetScreen != i
  {
  }

  /** The procedural ground pattern chosen for a screen index. */
  datatype GroundTexture = Checkerboard | Stripes | Dots

  /** Height of the hotspot sphere's centre: its radius. */
  const HotspotRadius: real := 0.3
  /** Height of the item cube's centre: half its edge. */
  const ItemHalfHeight: real := 0.3
  /** Edge length of the item cube, so also the width of its bounding box. */
  const ItemSize: real := 0.6

  /** The screen-local entities that activation builds. */
  datatype Scene = Scene(
    texture: GroundTexture,
    hotspot: Vec3,
    item: Vec3,
    cameraPosition: Vec3,
    cameraLookAt: Vec3)

  function GroundTextureFor(screenIdx: int): GroundTexture {
    if screenIdx == 0 then Checkerboard
    else if screenIdx == 1 then Stripes
    else Dots
  }

  /**
    The hotspot sphere and item cube stand on the ground at their table x
    and z, their centres lifted by the sphere's radius and half the cube's
    edge; the camera takes the table's pose.
   */
  function BuildScene(screenIdx: int): (scene: Scene)
    requires ValidScreen(screenIdx)
    ensures var cfg := Screens()[screenIdx];
            && WithY(scene.hotspot, 0.0) == WithY(cfg.hotspotPosition, 0.0) && scene.hotspot.y == HotspotRadius
            && WithY(scene.item, 0.0) == WithY(cfg.itemPosition, 0.0) && scene.item.y == ItemHalfHeight
            && scene.cameraPosition == cfg.cameraPosition && scene.cameraLookAt == cfg.cameraLookAt
  {
    var cfg := Screens()[screenIdx];
    Scene(GroundTextureFor(screenIdx),
          WithY(cfg.hotspotPosition, HotspotRadius),
          WithY(cfg.itemPosition, ItemHalfHeight),
          cfg.cameraPosition,
          cfg.cameraLookAt)
  }

  /** Each screen gets its own ground pattern. */
  lemma GroundTexturesDistinct(i: int, j: int)
    requires ValidScreen(i) && ValidScreen(j) && i != j
    ensures BuildScene(i).texture != BuildScene(j).texture
  {
  }
}
