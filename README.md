# SearchBarWithTags in Dafny

A model of the core of SearchBarWithTags, an iOS search control. The control
has three parts side by side: a cancel button, a horizontally scrolling strip,
and a search button. The strip holds one removable chip per tag, followed by a
single free-text field. The model covers:

- **Chip width** (`ButtonOptionCell`): a chip is its measured title plus 29
  points of fixed chrome.
- **The list controller** (`SearchBarCollection`). The collection view has two
  sections: the tags in order, then exactly one text field. Its layout rules
  (item counts, insets, item sizes, what each cell shows) are pure functions of
  the tags, the cached text and the view's bounds. They are tied to a
  flattened left-to-right `Strip` of cells. The controller itself is the class
  `SearchBarCollectionView`. Its methods append a tag, remove a tapped tag,
  and write the cached field text. They also record, oldest first, the view
  updates they ask of the collection view (`updates`) and the calls they make
  on their delegate (`sent`).
- **The mode state machine** (`SearchBarModes`). It is stated on values: the
  two buttons' `hidden` flags and the strip's frame. It covers the four
  transitions (show the active state, close it, cancel tap, search tap), runs
  of any number of them, the mode invariant, and the frames of the two buttons.
- **The control facade** (`SearchBarControl.SearchBarWithTags`): a class whose
  fields are the two flags, the two button frames and the list controller. The
  strip is the list controller's `frame`. The methods that change the flags or
  the strip (toggle, show, close, cancel) and the button layout are specified
  by the matching functions of `SearchBarModes`. The tag methods are specified
  by their effect on the list controller, and `SearchTapped` by the delegate
  request it makes.

`SearchBarWithTags/SearchBar.swift` is the Swift 3 port of
`SearchBarWithTags/SearchBarWithTags.swift`, line for line: it spells `hidden`
as `isHidden` and uses newer UIKit names. One model serves both. The rows for
the value-level state machine (`SearchBarModes`) cite `SearchBar.swift`, and
the rows for the class cite `SearchBarWithTags.swift`, at the same line
numbers.

Modelling choices:

- `CGFloat` is `real`. `Geometry.Rect` keeps a rectangle's raw origin and
  size. It also gives the standardized accessors (`MinX`, `MaxX`, `MinY`,
  `Width`, `Height`) that `showActiveSearchState` and the layout code read.
- Text and image measurement (`NSAttributedString.size()`, `image.size.width`)
  are parameters of type `Length`, a real that is never negative. `ItemSize`
  takes the measurement as a function `measure: string -> Length`.
- UIKit animations are synchronous steps. A `performBatchUpdates` completion
  closure runs right after its batch. The collection view's item bookkeeping
  is the `updates` log: `ShownCount` replays the log to give the number of tag
  items the view believes it holds. `InSync()` says that this number equals
  the number of tags. UIKit needs this to hold after every batch update and
  raises an exception when it does not.
- Delegate calls are events appended to a log (`sent` on the list
  controller). On the facade they are a counter, `searchesRequested`, of
  `delegate?.search?()` requests, because that is the only delegate call the
  modelled facade methods make. Whether a delegate is set and implements the
  method is not modelled (see Left out).

Observations about the code that the model follows:

- `searchTapped` only notifies the delegate
  (`SearchBarWithTags/SearchBarWithTags.swift:170-172`). No state exists in
  which only the cancel button shows.
- The `options` setter assigns the array and reloads nothing
  (`SearchBarWithTags/SearchBarWithTags.swift:54-56`). See Findings.
- Chips are measured on the tag as it is
  (`SearchBarWithTags/SearchBarCollectionView.swift:72-77`).
- The comment in `cellWidth` lists 7, 3, 15 and 5 points, which sum to 30. The
  code adds 7 + 7 + 10 + 5 = 29
  (`SearchBarWithTags/ButtonOptionCollectionViewCell.swift:24-25`). The model
  uses 29.

## Model

| member | source | states |
|---|---|---|
| `ButtonOptionCell.CellWidth` | SearchBarWithTags/ButtonOptionCollectionViewCell.swift:23-26 | A chip is exactly 29 points wider than its title, so it is always wider than the title and at least 29 points wide for any real title |
| `ButtonOptionCell.CellWidthMonotone` | SearchBarWithTags/ButtonOptionCollectionViewCell.swift:23-26 | Chip widths keep the differences between title widths, and a wider title gives a wider chip (both directions) |
| `SearchBarCollection.SectionsHoldTagsAndOneField` | SearchBarWithTags/SearchBarCollectionView.swift:51-57 | Section 0 has one item per tag and section 1 has exactly one item, at index 0 |
| `SearchBarCollection.ItemCount` | SearchBarWithTags/SearchBarCollectionView.swift:55-57 | Section 0 has one item per tag; every other section has exactly one item, the text field |
| `SearchBarCollection.CellAt` | SearchBarWithTags/SearchBarCollectionView.swift:82-106 | The cell is the text field exactly in section 1, and it shows the cached text. Otherwise it is a chip titled with the tag at that item |
| `SearchBarCollection.SectionInset` | SearchBarWithTags/SearchBarCollectionView.swift:59-65 | Top, bottom and right insets are always zero. The left inset is 0 or 5, and it is non-zero exactly when the section is 0 and there are tags |
| `SearchBarCollection.ItemSize` | SearchBarWithTags/SearchBarCollectionView.swift:67-80 | Every item is 5 points shorter than the view. The text field is as wide as the view. A chip is its measured title plus 29 points, so at least 29 points |
| `SearchBarCollection.StripAddressing` | SearchBarWithTags/SearchBarCollectionView.swift:82-106 | The flattened strip has one cell per item of the two sections. Every index path names the cell at its flat position: a chip with its tag, or the field with the cached text. The field is always last |
| `SearchBarCollection.AddedChipPrecedesField` | SearchBarWithTags/SearchBarCollectionView.swift:128-132 | After appending a tag, the strip is the old chips, the new chip, then the text field |
| `SearchBarCollection.RemovedChip` | SearchBarWithTags/SearchBarCollectionView.swift:108-113 | Removing tag i removes exactly chip i from the strip, and the other chips keep their order |
| `SearchBarCollection.RemoveAt` | SearchBarWithTags/SearchBarCollectionView.swift:110-111 | `removeAtIndex(i)` drops one element. Elements before i keep their index, later ones move down by one, and the multiset loses exactly the element at i |
| `SearchBarCollection.AssignWithoutReloadDesyncs` | SearchBarWithTags/SearchBarWithTags.swift:54-56 | Assigning two tags over one without a reload leaves the view counting one tag. After the next `addOption` the view counts exactly 2 items while there are 3 tags |
| `SearchBarCollection.AssignThenAddScenario` | SearchBarWithTags/SearchBarWithTags.swift:54-56 | Through the controller's methods: add "a", assign ["x","y"] without a reload, add "z". The controller then holds 3 tags while the view counts 2, so it is out of step |
| `SearchBarCollection.SearchBarCollectionView.constructor` | SearchBarWithTags/SearchBarCollectionView.swift:11-19 | A new controller has no tags, no cached text, no updates and no delegate calls, and is in step with its view |
| `SearchBarCollection.SearchBarCollectionView.AssignOptions` | SearchBarWithTags/SearchBarWithTags.swift:54-56 | The setter as written: the tags become the new array and no reload is logged. A view that was in step stays in step only if the tag count did not change |
| `SearchBarCollection.SearchBarCollectionView.ReplaceOptions` | SearchBarWithTags/SearchBarWithTags.swift:54-56 | The corrected setter: the tags become the new array, one reload is logged, and the view is in step afterwards from any prior state |
| `SearchBarCollection.SearchBarCollectionView.AddOption` | SearchBarWithTags/SearchBarCollectionView.swift:128-132 | The tags become the old tags plus the new one. Exactly one insertion is logged, in section 0 at the old tag count. A view in step stays in step |
| `SearchBarCollection.SearchBarCollectionView.DidSelectItem` | SearchBarWithTags/SearchBarCollectionView.swift:108-121 | Tapping chip i removes exactly tag i. The delete of that item and then the reload of visible items are logged, and the delegate is told the removed tag. Tapping the field changes nothing. A view in step stays in step |
| `SearchBarCollection.SearchBarCollectionView.SetTitle` | SearchBarWithTags/SearchBarCollectionView.swift:123-126 | The cached text becomes the given value, absent included, and the text field shows it. The tags are untouched. One full reload is logged, so the view is in step afterwards |
| `SearchBarCollection.SearchBarCollectionView.TextFieldDidChange` | SearchBarWithTags/SearchBarCollectionView.swift:134-137 | The cached text becomes the field's text, and the field shows it. Exactly one change notification carrying that text is sent to the delegate |
| `SearchBarModes.Showing` | SearchBarWithTags/SearchBar.swift:12-14 | `showingButtons` holds iff neither button is hidden, and then the two flags agree |
| `SearchBarModes.Toggled` | SearchBarWithTags/SearchBar.swift:111-114 | Both flags flip. The flags agree afterwards iff they agreed before, and both buttons show afterwards iff both were hidden before |
| `SearchBarModes.ToggleInvolution` | SearchBarWithTags/SearchBar.swift:111-114 | Toggling twice gives back the original flags |
| `SearchBarModes.Shown` | SearchBarWithTags/SearchBar.swift:89-101 | With both buttons showing, nothing changes. Otherwise, with agreeing flags, both buttons end up showing. For a strip of non-negative size, x moves right by the cancel width, the width shrinks by both widths, and y and height stay the same |
| `SearchBarModes.Closed` | SearchBarWithTags/SearchBar.swift:103-109 | Both buttons are hidden and the strip's frame is the control's bounds, whatever the prior state |
| `SearchBarModes.CancelTapped` | SearchBarWithTags/SearchBar.swift:164-168 | A cancel tap ends in the same state as closing the active state |
| `SearchBarModes.ControlBounds` | SearchBarWithTags/SearchBar.swift:59-66 | The control's bounds sit at the origin and are the given frame less 20 points of width and 15 of height |
| `SearchBarModes.Initial` | SearchBarWithTags/SearchBar.swift:59-78 | After construction both buttons are hidden, so `showingButtons` is false, and the strip fills the control's bounds |
| `SearchBarModes.InitialIsCoherent` | SearchBarWithTags/SearchBar.swift:59-78 | The state after construction satisfies the mode invariant |
| `SearchBarModes.StepKeepsCoherent` | SearchBarWithTags/SearchBar.swift:89-114 | Show, close, cancel and search each keep the mode invariant: the flags agree, and a hidden pair means the strip fills the bounds |
| `SearchBarModes.RunKeepsCoherent` | SearchBarWithTags/SearchBar.swift:89-114 | Any sequence of transitions from a coherent state keeps the invariant. In particular `cancelButton.hidden == searchButton.hidden` always holds |
| `SearchBarModes.RepeatedShowNarrowsOnce` | SearchBarWithTags/SearchBar.swift:89-101 | Requesting the active state n >= 1 times in a row has the effect of requesting it once, so the strip shrinks only once |
| `SearchBarModes.ShowThenCloseRestores` | SearchBarWithTags/SearchBar.swift:89-109 | From the collapsed state, showing and then closing (or cancelling) gives back exactly the original flags and frame |
| `SearchBarModes.CloseIdempotent` | SearchBarWithTags/SearchBar.swift:103-109 | Closing twice is closing once, and likewise for cancel. A search tap leaves flags and frame as they were |
| `SearchBarModes.CancelButtonFrame` | SearchBarWithTags/SearchBar.swift:130-143 | The cancel button starts 5 points left of the control and is as tall as the strip. It is as wide as its image when one is set, otherwise as its measured title, and never negative |
| `SearchBarModes.SearchButtonFrame` | SearchBarWithTags/SearchBar.swift:145-162 | The search button is its measured title plus 14 points wide and as tall as the strip. Its right edge lies 5 points beyond the control's right edge |
| `SearchBarControl.SearchBarWithTags.ShowingButtons` | SearchBarWithTags/SearchBarWithTags.swift:12-14 | `showingButtons` holds iff neither the cancel nor the search button is hidden, and then the flags agree |
| `SearchBarControl.SearchBarWithTags.Options` | SearchBarWithTags/SearchBarWithTags.swift:51-53 | The `options` getter returns the list controller's tag array unchanged |
| `SearchBarControl.SearchBarWithTags.constructor` | SearchBarWithTags/SearchBarWithTags.swift:59-78 | Bounds are the frame less 20 x 15. The strip fills them, both buttons are hidden, both button frames are zero, there are no tags and no text, and the control is valid |
| `SearchBarControl.SearchBarWithTags.ToggleButtons` | SearchBarWithTags/SearchBarWithTags.swift:111-114 | The flag pair becomes its toggle and nothing else changes |
| `SearchBarControl.SearchBarWithTags.ShowActiveSearchState` | SearchBarWithTags/SearchBarWithTags.swift:89-101 | The new state is `Shown` of the old one with the buttons' current frame widths. Both buttons show afterwards. If they already showed, nothing changed. Validity is kept |
| `SearchBarControl.SearchBarWithTags.CloseActiveSearchState` | SearchBarWithTags/SearchBarWithTags.swift:103-109 | From any state: both buttons are hidden, the strip's frame is the bounds, and the mode invariant holds afterwards |
| `SearchBarControl.SearchBarWithTags.CancelTapped` | SearchBarWithTags/SearchBarWithTags.swift:164-168 | Both buttons are hidden and the strip's frame is the bounds. Validity is kept |
| `SearchBarControl.SearchBarWithTags.SearchTapped` | SearchBarWithTags/SearchBarWithTags.swift:170-172 | One `delegate?.search?()` request is made. Nothing else changes: no flag, frame or tag |
| `SearchBarControl.SearchBarWithTags.LayoutSubviews` | SearchBarWithTags/SearchBarWithTags.swift:80-83 | Both button frames are recomputed, from the measured widths and the strip's height |
| `SearchBarControl.SearchBarWithTags.SetOptions` | SearchBarWithTags/SearchBarWithTags.swift:50-57 | After setting the tags, reading them gives back exactly the value set. Validity is kept, using the corrected setter |
| `SearchBarControl.SearchBarWithTags.AddSearchBarOption` | SearchBarWithTags/SearchBarWithTags.swift:174-176 | Exactly one tag is appended, with one insertion at the old tag count. Validity is kept |
| `SearchBarControl.ActiveFieldWidth` | SearchBarWithTags/SearchBarCollectionView.swift:67-70 | In the active state, the text field is as wide as the control less both buttons |

## Left out

- UIKit rendering and configuration: colours, fonts, corner radii, nib and
  image loading, `addTarget` wiring and attribute dictionaries. They are
  framework calls with no behaviour to state.
- Text and image measurement: these are inputs to the model, not computed.
- `endEditing(true)` in `cancelTapped`: it only resigns the keyboard.
- `textFieldDidBeginEditing` / `textFieldDidEndEditing`, and the facade's
  `searchFieldChanged` / `searchFieldFinished`: they only forward to a
  delegate.
- `searchFieldActive` and `tagRemovedTapped`: declared in the delegate
  protocol, but the facade implements neither. Nothing connects
  `showActiveSearchState` to a focus event, so the model treats it as a
  method anyone may call.
- `searchBarText` / `fetchSearchText()`: `fetchSearchText` is called at
  `SearchBarWithTags/SearchBarWithTags.swift:47` but is not defined in
  `SearchBarWithTags/SearchBarCollectionView.swift`, so it is not part of this
  model.
- `SearchBarControl.SearchBarWithTags.SearchTapped`: it counts the
  `delegate?.search?()` request. Whether `delegate` is set (it is nil by
  default) and implements the optional `search` is not modelled, so the count
  is of requests made, not of calls that reach a delegate.
- `init(coder:)`, which always fails, and the unused `currentOptions` delegate
  method.
- Animation timing: insert, delete and resize animations, and their
  completion callbacks, are modelled as immediate steps. Overlapping
  animations are not modelled.
- `SearchBarWithTags/SearchBarTextFieldCell.swift`: view setup only.
- `SearchBarControl.SearchBarWithTags.SetOptions`: it uses the corrected
  setter (assign, then reload) rather than the plain assignment the code
  performs. The code's behaviour is modelled by
  `SearchBarCollectionView.AssignOptions` (see Findings).
- `SearchBarModes.Shown`: its frame arithmetic is stated for a strip of
  non-negative size. For a negative size, the standardized accessors the
  code reads define the result, and the contract does not spell it out.

## Findings

| source | as written | input that shows it | evidently intended | confidence | as-written member | corrected member |
|---|---|---|---|---|---|---|
| SearchBarWithTags/SearchBarWithTags.swift:54-56 | The `options` setter assigns the list controller's array but never calls `reloadData()`, so the collection view keeps its old item count | One tag `["a"]` shown; set `options = ["x","y"]`; then `addSearchBarOption("z")`. The view expects 1 + 1 = 2 items in section 0, but the data source reports 3 | Keep the view's count in step, as every other mutator does: `addOption` inserts (SearchBarCollectionView.swift:131), selection deletes (:113) and `setTitle` reloads (:125). Only the setter does none of these; assign, then reload | medium; not executed | `SearchBarCollection.SearchBarCollectionView.AssignOptions`, `SearchBarCollection.AssignWithoutReloadDesyncs`, `SearchBarCollection.AssignThenAddScenario` | `SearchBarCollection.SearchBarCollectionView.ReplaceOptions` |
