/**
 * The control facade (`SearchBarWithTags`, and its Swift 3 twin `SearchBar`):
 * a cancel button, the tag strip and a search button. Its methods flip the
 * buttons' `hidden` flags and reassign the strip's frame; those that do are
 * specified by the matching transition of SearchBarModes, the others by their
 * effect on the list controller or on the delegate request count.
 */
module SearchBarControl {
  import opened Optional
  import opened Geometry
  import opened SearchBarModes
  import opened SearchBarCollection

  class SearchBarWithTags {
    /** `searchBar`: the list controller whose frame is the tag strip. */
    const list: SearchBarCollectionView
    /** The control's own bounds, fixed at construction. */
    const bounds: Rect
    var cancelHidden: bool
    var searchHidden: bool
    var cancelFrame: Rect
    var searchFrame: Rect
    /** How many times `delegate?.search?()` has been evaluated, whether or not a delegate answered. */
    var searchesRequested: nat

    /** The mode-relevant part of the control. */
    function State(): ModeState
      reads this, list
    {
      ModeState(Buttons(cancelHidden, searchHidden), list.frame)
    }

    /** The control's invariant: the mode is coherent and the list is in step with its view. */
    ghost predicate Valid()
      reads this, list
    {
      Coherent(State(), bounds) && list.InSync()
    }

    /** `showingButtons`. */
    function ShowingButtons(): (r: bool)
      reads this
      ensures r <==> !cancelHidden && !searchHidden
      ensures r ==> cancelHidden == searchHidden
    {
      Showing(Buttons(cancelHidden, searchHidden))
    }

    /** `options` get: the list controller's tags. */
    function Options(): (o: seq<string>)
      reads this, list
      ensures o == list.options
    {
      list.options
    }

    /**
     * `init(frame:)`: the control is trimmed by 20 x 15 points, the strip fills
     * its bounds, and the buttons, created visible and with zero frames, are
     * toggled once, so they start hidden.
     */
    constructor (frame: Rect)
      ensures bounds == ControlBounds(frame)
      ensures State() == Initial(frame)
      ensures cancelHidden && searchHidden && !ShowingButtons()
      ensures cancelFrame == Zero && searchFrame == Zero
      ensures fresh(list) && Options() == [] && list.cachedTitle == None
      ensures list.updates == [] && list.sent == []
      ensures searchesRequested == 0
      ensures Valid()
    {
      bounds := ControlBounds(frame);
      list := new SearchBarCollectionView(ControlBounds(frame));
      cancelHidden, searchHidden := false, false;
      cancelFrame, searchFrame := Zero, Zero;
      searchesRequested := 0;
      new;
      ToggleButtons();
    }

    /** `toggleButtons`: flip both `hidden` flags. */
    method ToggleButtons()
      modifies this`cancelHidden, this`searchHidden
      ensures Buttons(cancelHidden, searchHidden) == Toggled(old(Buttons(cancelHidden, searchHidden)))
    {
      cancelHidden := !cancelHidden;
      searchHidden := !searchHidden;
    }

    /** `showActiveSearchState`: narrow the strip by the buttons' current widths and show them, once. */
    method ShowActiveSearchState()
      requires Valid()
      modifies this`cancelHidden, this`searchHidden, list`frame
      ensures Valid()
      ensures State() == Shown(old(State()), cancelFrame.width, searchFrame.width)
      ensures ShowingButtons()
      ensures old(ShowingButtons()) ==> State() == old(State())
    {
      if !ShowingButtons() {
        list.frame := Narrowed(list.frame, cancelFrame.width, searchFrame.width);
        ToggleButtons();
      }
    }

    /** `closeActiveSearchState`: hide both buttons and give the strip the control's bounds. */
    method CloseActiveSearchState()
      modifies this`cancelHidden, this`searchHidden, list`frame
      ensures Coherent(State(), bounds)
      ensures old(list.InSync()) ==> Valid()
      ensures State() == Closed(old(State()), bounds)
      ensures cancelHidden && searchHidden && list.frame == bounds
    {
      cancelHidden := true;
      searchHidden := true;
      list.frame := bounds;
    }

    /** `cancelTapped`: the tapped cancel button hides itself, then the active state closes. */
    method CancelTapped()
      requires Valid()
      modifies this`cancelHidden, this`searchHidden, list`frame
      ensures Valid()
      ensures State() == SearchBarModes.CancelTapped(old(State()), bounds)
      ensures cancelHidden && searchHidden && list.frame == bounds
    {
      cancelHidden := true;
      CloseActiveSearchState();
    }

    /** `searchTapped`: only requests `delegate?.search?()`; no flag or frame changes. */
    method SearchTapped()
      modifies this`searchesRequested
      ensures searchesRequested == old(searchesRequested) + 1
    {
      searchesRequested := searchesRequested + 1;
    }

    /**
     * `layoutSubviews`: `configureCancelButton` then `configureSearchButton`.
     * `cancelImageWidth` is the width of the cancel image when one is set,
     * `cancelTitleWidth` and `searchTitleWidth` the measured widths of the titles.
     */
    method LayoutSubviews(cancelImageWidth: Option<Length>, cancelTitleWidth: Length, searchTitleWidth: Length)
      modifies this`cancelFrame, this`searchFrame
      ensures cancelFrame == CancelButtonFrame(cancelImageWidth, cancelTitleWidth, list.frame.height)
      ensures searchFrame == SearchButtonFrame(bounds, searchTitleWidth, list.frame.height)
    {
      cancelFrame := CancelButtonFrame(cancelImageWidth, cancelTitleWidth, list.frame.height);
      searchFrame := SearchButtonFrame(bounds, searchTitleWidth, list.frame.height);
    }

    /** `options` set: replace the list's tags (and reload it, see ReplaceOptions). */
    method SetOptions(newOptions: seq<string>)
      requires Valid()
      modifies list`options, list`updates
      ensures Valid()
      ensures Options() == newOptions
    {
      list.ReplaceOptions(newOptions);
    }

    /** `addSearchBarOption`: append one tag through the list controller. */
    method AddSearchBarOption(option: string)
      requires Valid()
      modifies list`options, list`updates
      ensures Valid()
      ensures Options() == old(Options()) + [option]
      ensures list.updates == old(list.updates) + [InsertItem(IndexPath(0, |old(Options())|))]
    {
      list.AddOption(option);
    }
  }

  /**
   * In the active state the text field, which spans the strip, is as wide as
   * the control less both buttons.
   */
  lemma ActiveFieldWidth(bounds: Rect, measure: string -> Length, options: seq<string>,
                         cancelWidth: real, searchWidth: real)
    requires bounds.width >= 0.0 && bounds.height >= 0.0
    requires cancelWidth + searchWidth <= bounds.width
    ensures var c := Shown(ModeState(Buttons(true, true), bounds), cancelWidth, searchWidth);
            ItemSize(options, BoundsOf(c.strip), measure, IndexPath(1, 0)).width == bounds.width - cancelWidth - searchWidth
  {
  }
}
