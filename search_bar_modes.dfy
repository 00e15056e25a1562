/**
 * The search bar's mode state machine as values: the `hidden` flags of the
 * cancel and search buttons together with the frame of the tag strip, the
 * transitions the control's methods perform on them, and the frames the
 * control gives its two buttons. The class in SearchBarControl is specified
 * by these functions.
 */
module SearchBarModes {
  import opened Optional
  import opened Geometry

  /** The `hidden` flags of the cancel and the search button. */
  datatype Buttons = Buttons(cancelHidden: bool, searchHidden: bool)

  /** What the mode transitions change: both flags and the tag strip's frame. */
  datatype ModeState = ModeState(buttons: Buttons, strip: Rect)

  /** The events that drive the mode transitions. */
  datatype Event =
    | ShowActive(cancelWidth: real, searchWidth: real)  // showActiveSearchState, with the buttons' current widths
    | Close                                             // closeActiveSearchState
    | CancelTap                                         // cancelTapped
    | SearchTap                                         // searchTapped

  /** Gap the facade leaves to the right of the strip in its given frame. */
  const FrameWidthTrim := 20.0

  /** Gap the facade leaves below the strip in its given frame. */
  const FrameHeightTrim := 15.0

  /** `buttonPadding`: room added around the search button's title. */
  const ButtonPadding := 14.0

  /** `showingButtons`: both buttons are visible. */
  predicate Showing(b: Buttons)
    ensures Showing(b) ==> Agree(b)
    ensures Showing(b) <==> !b.cancelHidden && !b.searchHidden
  {
    !b.cancelHidden && !b.searchHidden
  }

  /** The two buttons are shown or hidden together. */
  predicate Agree(b: Buttons) {
    b.cancelHidden == b.searchHidden
  }

  /** `toggleButtons`: flip both flags. */
  function Toggled(b: Buttons): (r: Buttons)
    ensures Agree(r) <==> Agree(b)
    ensures Showing(r) <==> b.cancelHidden && b.searchHidden
    ensures r.cancelHidden != b.cancelHidden && r.searchHidden != b.searchHidden
  {
    Buttons(!b.cancelHidden, !b.searchHidden)
  }

  /** Toggling twice gives back the original flags. */
  lemma ToggleInvolution(b: Buttons)
    ensures Toggled(Toggled(b)) == b
  {
  }

  /** The strip moved right past the cancel button and narrowed by both buttons. */
  function Narrowed(strip: Rect, cancelWidth: real, searchWidth: real): Rect {
    Rect(strip.MinX() + cancelWidth, strip.MinY(), strip.Width() - cancelWidth - searchWidth, strip.Height())
  }

  /**
   * `showActiveSearchState`: unless both buttons already show, narrow the strip
   * by the buttons' widths and toggle the buttons.
   */
  function Shown(c: ModeState, cancelWidth: real, searchWidth: real): (r: ModeState)
    ensures Showing(c.buttons) ==> r == c
    ensures Agree(r.buttons) <==> Agree(c.buttons)
    ensures Agree(c.buttons) ==> Showing(r.buttons)
    ensures !Showing(c.buttons) && c.strip.width >= 0.0 && c.strip.height >= 0.0 ==>
      && r.strip.x == c.strip.x + cancelWidth
      && r.strip.width == c.strip.width - (cancelWidth + searchWidth)
      && r.strip.y == c.strip.y && r.strip.height == c.strip.height
  {
    if Showing(c.buttons) then c
    else ModeState(Toggled(c.buttons), Narrowed(c.strip, cancelWidth, searchWidth))
  }

  /** `closeActiveSearchState`: hide both buttons and give the strip the whole of `bounds`. */
  function Closed(c: ModeState, bounds: Rect): (r: ModeState)
    ensures !Showing(r.buttons) && Agree(r.buttons)
    ensures r.strip == bounds
  {
    ModeState(Buttons(true, true), bounds)
  }

  /** `cancelTapped`: hide the tapped cancel button, then close the active state. */
  function CancelTapped(c: ModeState, bounds: Rect): (r: ModeState)
    ensures r == Closed(c, bounds)
  {
    Closed(c.(buttons := c.buttons.(cancelHidden := true)), bounds)
  }

  /** One transition. */
  function Step(c: ModeState, bounds: Rect, e: Event): ModeState {
    match e
    case ShowActive(cw, sw) => Shown(c, cw, sw)
    case Close => Closed(c, bounds)
    case CancelTap => CancelTapped(c, bounds)
    case SearchTap => c
  }

  /** A sequence of transitions, oldest first. */
  function Run(c: ModeState, bounds: Rect, es: seq<Event>): ModeState
    decreases |es|
  {
    if es == [] then c else Run(Step(c, bounds, es[0]), bounds, es[1..])
  }

  /** The strip a facade built from `frame` lays out in: its own bounds. */
  function ControlBounds(frame: Rect): (b: Rect)
    ensures b.x == 0.0 && b.y == 0.0
    ensures b.width == frame.width - FrameWidthTrim && b.height == frame.height - FrameHeightTrim
  {
    Rect(0.0, 0.0, frame.width - FrameWidthTrim, frame.height - FrameHeightTrim)
  }

  /** The state right after `init(frame:)`: buttons created visible, then toggled once. */
  function Initial(frame: Rect): (c: ModeState)
    ensures c.buttons.cancelHidden && c.buttons.searchHidden && !Showing(c.buttons)
    ensures c.strip == ControlBounds(frame)
  {
    ModeState(Toggled(Buttons(false, false)), ControlBounds(frame))
  }

  /**
   * The mode invariant: the buttons show or hide together, and while they are
   * hidden the strip fills the control's bounds.
   */
  predicate Coherent(c: ModeState, bounds: Rect) {
    Agree(c.buttons) && (c.buttons.cancelHidden ==> c.strip == bounds)
  }

  lemma InitialIsCoherent(frame: Rect)
    ensures Coherent(Initial(frame), ControlBounds(frame))
  {
  }

  /** Every transition keeps the mode invariant. */
  lemma StepKeepsCoherent(c: ModeState, bounds: Rect, e: Event)
    requires Coherent(c, bounds)
    ensures Coherent(Step(c, bounds, e), bounds)
  {
  }

  /** Any sequence of transitions keeps the mode invariant. */
  lemma {:induction false} RunKeepsCoherent(c: ModeState, bounds: Rect, es: seq<Event>)
    requires Coherent(c, bounds)
    ensures Coherent(Run(c, bounds, es), bounds)
    ensures Agree(Run(c, bounds, es).buttons)
    decreases |es|
  {
    if es != [] {
      StepKeepsCoherent(c, bounds, es[0]);
      RunKeepsCoherent(Step(c, bounds, es[0]), bounds, es[1..]);
    }
  }

  /** `n` copies of one event. */
  function Repeat(e: Event, n: nat): (es: seq<Event>)
    ensures |es| == n
    ensures forall i :: 0 <= i < n ==> es[i] == e
  {
    if n == 0 then [] else [e] + Repeat(e, n - 1)
  }

  /** However often the active state is requested, the strip narrows once. */
  lemma {:induction false} RepeatedShowNarrowsOnce(c: ModeState, bounds: Rect, cancelWidth: real, searchWidth: real, n: nat)
    requires Agree(c.buttons)
    requires n >= 1
    ensures Run(c, bounds, Repeat(ShowActive(cancelWidth, searchWidth), n)) == Shown(c, cancelWidth, searchWidth)
    decreases n
  {
    var e := ShowActive(cancelWidth, searchWidth);
    var s := Shown(c, cancelWidth, searchWidth);
    assert Repeat(e, n)[1..] == Repeat(e, n - 1);
    if n > 1 {
      RepeatedShowNarrowsOnce(s, bounds, cancelWidth, searchWidth, n - 1);
      assert Shown(s, cancelWidth, searchWidth) == s;
    }
  }

  /** From the collapsed state, showing and then closing gives back the state exactly. */
  lemma ShowThenCloseRestores(c: ModeState, bounds: Rect, cancelWidth: real, searchWidth: real)
    requires Coherent(c, bounds) && c.buttons.cancelHidden
    ensures Run(c, bounds, [ShowActive(cancelWidth, searchWidth), Close]) == c
    ensures Run(c, bounds, [ShowActive(cancelWidth, searchWidth), CancelTap]) == c
  {
    var shown := Shown(c, cancelWidth, searchWidth);
    assert [ShowActive(cancelWidth, searchWidth), Close][1..] == [Close];
    assert [ShowActive(cancelWidth, searchWidth), CancelTap][1..] == [CancelTap];
    assert Run(shown, bounds, [Close]) == Closed(shown, bounds);
    assert Run(shown, bounds, [CancelTap]) == CancelTapped(shown, bounds);
  }

  /** Closing and cancelling are idempotent, and a search tap changes nothing. */
  lemma CloseIdempotent(c: ModeState, bounds: Rect)
    ensures Run(c, bounds, [Close, Close]) == Run(c, bounds, [Close])
    ensures Run(c, bounds, [CancelTap, CancelTap]) == Run(c, bounds, [CancelTap])
    ensures Run(c, bounds, [SearchTap]) == c
  {
  }

  /**
   * The cancel button's frame after `configureCancelButton`: as wide as its
   * image if it has one, otherwise as its measured title, starting 5 points
   * left of the control and as tall as the strip.
   */
  function CancelButtonFrame(imageWidth: Option<Length>, titleWidth: Length, stripHeight: real): (r: Rect)
    ensures r.x == -5.0 && r.y == 0.0 && r.height == stripHeight
    ensures r.width >= 0.0
    ensures r.width == (if imageWidth.Some? then imageWidth.value else titleWidth)
  {
    var width := match imageWidth
      case Some(w) => w
      case None => titleWidth;
    Rect(-5.0, 0.0, width, stripHeight)
  }

  /**
   * The search button's frame after `configureSearchButton`: its measured title
   * plus padding, placed so that it ends 5 points past the control's right edge.
   */
  function SearchButtonFrame(bounds: Rect, titleWidth: Length, stripHeight: real): (r: Rect)
    ensures r.width == titleWidth + 14.0
    ensures r.MaxX() == bounds.MaxX() + 5.0
    ensures r.y == 0.0 && r.height == stripHeight
  {
    var width := titleWidth + ButtonPadding;
    Rect(bounds.MaxX() - width + 5.0, 0.0, width, stripHeight)
  }
}
