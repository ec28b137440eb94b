/**
  A session is a sequence of events: clicks, animation frames, and the two
  timers the program schedules when it shows the item message.  The timers
  are events like any other, so their firing order is the caller's.
 */
module Session {
  import opened Wrappers
  import opened Geometry
  import opened Registry
  import opened Planner
  import opened Navigation

  datatype Event =
    | Clicked(pick: Pick, probe: Probe)
    | Frame(input: FrameInput)
    | OverlayTimeout   // the timer that hides the overlay again
    | RearmTimeout     // the timer that clears the suppression flag

  predicate Fits(s: State, e: Event) {
    match e
    case Clicked(pick, probe) => ProbeFits(s, pick, probe)
    case Frame(f) => FrameFits(s, f)
    case _ => true
  }

  /**
    One event.  Every event keeps the state invariant; only the re-arm
    timer clears the suppression flag, and the flag is raised only by a
    frame that shows the message of the current screen.
   */
  function Step(s: State, e: Event): (r: State)
    requires Inv(s) && Fits(s, e)
    ensures Inv(r)
    ensures !e.RearmTimeout? && s.showItemMessage ==> r.showItemMessage
    ensures !s.showItemMessage && r.showItemMessage ==>
      e.Frame? && r.overlay == Overlay(true, Screens()[s.screen].itemMessage)
    ensures e.OverlayTimeout? ==> r == s.(overlay := s.overlay.(visible := false))
    ensures e.RearmTimeout? ==> r == s.(showItemMessage := false)
  {
    match e
    case Clicked(pick, probe) => Click(s, pick, probe)
    case Frame(f) => Tick(s, f)
    case OverlayTimeout => s.(overlay := s.overlay.(visible := false))
    case RearmTimeout => s.(showItemMessage := false)
  }

  /** Every event of `evs` fits the state it is applied to. */
  predicate RunFits(s: State, evs: seq<Event>)
    requires Inv(s)
    decreases |evs|
  {
    |evs| == 0 || (Fits(s, evs[0]) && RunFits(Step(s, evs[0]), evs[1..]))
  }

  /** The state after the events `evs`, one after the other. */
  function Run(s: State, evs: seq<Event>): (r: State)
    requires Inv(s) && RunFits(s, evs)
    ensures Inv(r)
    decreases |evs|
  {
    if |evs| == 0 then s else Run(Step(s, evs[0]), evs[1..])
  }

  /** How many times the item message is shown during `evs`. */
  function MessagesShown(s: State, evs: seq<Event>): nat
    requires Inv(s) && RunFits(s, evs)
    decreases |evs|
  {
    if |evs| == 0 then 0
    else
      var n := Step(s, evs[0]);
      (if !s.showItemMessage && n.showItemMessage then 1 else 0) + MessagesShown(n, evs[1..])
  }

  /**
    Until the re-arm timer fires, the message is shown at most once, and
    not at all while it is suppressed, however often the player arrives
    near the item.
   */
  lemma {:induction false} OneMessagePerWindow(s: State, evs: seq<Event>)
    requires Inv(s) && RunFits(s, evs)
    requires forall i | 0 <= i < |evs| :: !evs[i].RearmTimeout?
    ensures MessagesShown(s, evs) <= (if s.showItemMessage then 0 else 1)
    ensures s.showItemMessage ==> Run(s, evs).showItemMessage
    decreases |evs|
  {
    if |evs| > 0 {
      var n := Step(s, evs[0]);
      assert forall i | 0 <= i < |evs[1..]| :: !evs[1..][i].RearmTimeout? by {
        forall i | 0 <= i < |evs[1..]| ensures !evs[1..][i].RearmTimeout? {
          assert evs[1..][i] == evs[i + 1];
        }
      }
      assert !evs[0].RearmTimeout?;
      OneMessagePerWindow(n, evs[1..]);
    }
  }
}
