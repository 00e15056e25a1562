/**
 * The list controller behind the search bar: a collection view with two
 * sections. Section 0 holds one chip per tag, in order; section 1 always holds
 * exactly one item, the free-text field. The layout rules are pure functions of
 * the tags and the view's bounds; the controller itself is a class whose
 * methods change the tags, the cached field text and the collection view.
 */
module SearchBarCollection {
  import opened Optional
  import opened Geometry
  import opened ButtonOptionCell

  /** An `NSIndexPath` into the collection view. */
  datatype IndexPath = IndexPath(section: int, item: int)

  /** What a cell of the collection view shows. */
  datatype Cell = TagCell(title: string) | TextFieldCell(text: Option<string>)

  /** A change the controller asks the collection view to make, in the order asked. */
  datatype ViewUpdate =
    | InsertItem(at: IndexPath)   // insertItemsAtIndexPaths([at])
    | DeleteItem(at: IndexPath)   // deleteItemsAtIndexPaths([at])
    | ReloadData(count: nat)      // reloadData(): the view re-reads section 0, which then has `count` items
    | ReloadVisible               // reloadItemsAtIndexPaths(indexPathsForVisibleItems())

  /** A call the controller makes on its `searchDelegate`. */
  datatype ListEvent =
    | TagRemoved(title: string)            // tagRemovedTapped(text)
    | FieldChanged(text: Option<string>)   // searchFieldChanged(textField)

  /** `numberOfSectionsInCollectionView`. */
  const SectionCount := 2

  /** Left inset of the tag section when it has tags. */
  const TagSectionLeftInset := 5.0

  /** Vertical room left between an item and the view's bounds. */
  const ItemVerticalInset := 5.0

  /** `numberOfItemsInSection`: the tags in section 0, the text field anywhere else. */
  function ItemCount(options: seq<string>, section: int): (n: nat)
    ensures section == 0 ==> n == |options|
    ensures section != 0 ==> n == 1
  {
    if section == 0 then |options| else 1
  }

  /** The index paths the collection view can ask about. */
  predicate IsIndexPath(options: seq<string>, p: IndexPath) {
    0 <= p.section < SectionCount && 0 <= p.item < ItemCount(options, p.section)
  }

  /** The two sections hold the tags and exactly one text field. */
  lemma SectionsHoldTagsAndOneField(options: seq<string>)
    ensures ItemCount(options, 0) == |options|
    ensures ItemCount(options, 1) == 1
    ensures forall p :: IsIndexPath(options, p) && p.section == 1 ==> p.item == 0
  {
  }

  /** `insetForSectionAtIndex`: a 5-point left inset for the tag section only when it has tags. */
  function SectionInset(options: seq<string>, section: int): (r: EdgeInsets)
    ensures r.top == 0.0 && r.bottom == 0.0 && r.right == 0.0
    ensures r.left == 0.0 || r.left == TagSectionLeftInset
    ensures r.left != 0.0 <==> section == 0 && |options| > 0
  {
    if section == 0 && |options| > 0 then EdgeInsets(0.0, TagSectionLeftInset, 0.0, 0.0)
    else NoInsets
  }

  /**
   * `sizeForItemAtIndexPath` for a view whose bounds are `bounds`; `measure`
   * gives the rendered width of a title in the tag font.
   */
  function ItemSize(options: seq<string>, bounds: Rect, measure: string -> Length, p: IndexPath): (r: Size)
    requires IsIndexPath(options, p)
    ensures r.height == bounds.Height() - ItemVerticalInset
    ensures p.section == 1 ==> r.width == bounds.Width()
    ensures p.section == 0 ==> r.width - measure(options[p.item]) == 29.0 && r.width >= 29.0
  {
    if p.section == 1 then Size(bounds.Width(), bounds.Height() - ItemVerticalInset)
    else Size(CellWidth(measure(options[p.item])), bounds.Height() - ItemVerticalInset)
  }

  /** `cellForItemAtIndexPath`: a chip titled with its tag, or the field showing the cached text. */
  function CellAt(options: seq<string>, cachedTitle: Option<string>, p: IndexPath): (c: Cell)
    requires IsIndexPath(options, p)
    ensures c.TextFieldCell? <==> p.section == 1
    ensures c.TextFieldCell? ==> c.text == cachedTitle
    ensures c.TagCell? ==> c.title == options[p.item]
  {
    if p.section == 1 then TextFieldCell(cachedTitle) else TagCell(options[p.item])
  }

  /** The chips of section 0, in display order. */
  function TagCells(options: seq<string>): seq<Cell> {
    if options == [] then [] else [TagCell(options[0])] + TagCells(options[1..])
  }

  /** The whole strip flattened left to right: every chip, then the text field. */
  function Strip(options: seq<string>, cachedTitle: Option<string>): seq<Cell> {
    TagCells(options) + [TextFieldCell(cachedTitle)]
  }

  /** Position in the flattened strip of a section/item index path. */
  function FlatIndex(options: seq<string>, p: IndexPath): int {
    if p.section == 0 then p.item else |options| + p.item
  }

  lemma {:induction false} TagCellsAt(options: seq<string>, i: int)
    requires 0 <= i < |options|
    ensures |TagCells(options)| == |options|
    ensures TagCells(options)[i] == TagCell(options[i])
  {
    if i > 0 {
      TagCellsAt(options[1..], i - 1);
    } else if |options| > 1 {
      TagCellsAt(options[1..], 0);
    }
  }

  lemma {:induction false} TagCellsLength(options: seq<string>)
    ensures |TagCells(options)| == |options|
  {
    if options != [] {
      TagCellsLength(options[1..]);
    }
  }

  /**
   * The section/item addressing and the flattened strip agree: every index path
   * names the cell at its flat position, and the text field is always last.
   */
  lemma StripAddressing(options: seq<string>, cachedTitle: Option<string>)
    ensures |Strip(options, cachedTitle)| == ItemCount(options, 0) + ItemCount(options, 1)
    ensures Strip(options, cachedTitle)[|options|] == TextFieldCell(cachedTitle)
    ensures forall p :: IsIndexPath(options, p) ==>
      Strip(options, cachedTitle)[FlatIndex(options, p)] == CellAt(options, cachedTitle, p)
  {
    TagCellsLength(options);
    forall p | IsIndexPath(options, p)
      ensures Strip(options, cachedTitle)[FlatIndex(options, p)] == CellAt(options, cachedTitle, p)
    {
      if p.section == 0 {
        TagCellsAt(options, p.item);
      }
    }
  }

  /** Appending a tag adds one chip right before the text field and leaves every other cell in place. */
  lemma {:induction false} TagCellsAppend(options: seq<string>, option: string)
    ensures TagCells(options + [option]) == TagCells(options) + [TagCell(option)]
  {
    if options == [] {
      assert options + [option] == [option];
    } else {
      assert (options + [option])[1..] == options[1..] + [option];
      TagCellsAppend(options[1..], option);
    }
  }

  /** `options.removeAtIndex(i)`: the sequence without its element at `i`. */
  function RemoveAt<T>(s: seq<T>, i: int): (r: seq<T>)
    requires 0 <= i < |s|
    ensures |r| == |s| - 1
    ensures forall k :: 0 <= k < i ==> r[k] == s[k]
    ensures forall k :: i <= k < |r| ==> r[k] == s[k + 1]
    ensures multiset(r) + multiset{s[i]} == multiset(s)
  {
    assert s == s[..i] + [s[i]] + s[i + 1..];
    s[..i] + s[i + 1..]
  }

  /** After `addOption` the strip shows the old chips, the new chip, then the text field. */
  lemma AddedChipPrecedesField(options: seq<string>, option: string, cachedTitle: Option<string>)
    ensures Strip(options + [option], cachedTitle) == TagCells(options) + [TagCell(option), TextFieldCell(cachedTitle)]
  {
    TagCellsAppend(options, option);
  }

  /** Removing a tag removes exactly its chip from the strip; the other chips keep their order. */
  lemma RemovedChip(options: seq<string>, i: int)
    requires 0 <= i < |options|
    ensures |TagCells(options)| == |options|
    ensures TagCells(RemoveAt(options, i)) == RemoveAt(TagCells(options), i)
  {
    var r := RemoveAt(options, i);
    TagCellsLength(options);
    TagCellsLength(r);
    forall k | 0 <= k < |r|
      ensures TagCells(r)[k] == RemoveAt(TagCells(options), i)[k]
    {
      TagCellsAt(r, k);
      if k < i {
        TagCellsAt(options, k);
      } else {
        TagCellsAt(options, k + 1);
      }
    }
  }

  /** The number of tag items the collection view holds after applying `u` to `shown`. */
  function AfterUpdate(shown: int, u: ViewUpdate): int {
    match u
    case InsertItem(p) => if p.section == 0 then shown + 1 else shown
    case DeleteItem(p) => if p.section == 0 then shown - 1 else shown
    case ReloadData(n) => n
    case ReloadVisible => shown
  }

  /** Replays a log of view updates, oldest first, from `shown` tag items. */
  function ShownFrom(shown: int, us: seq<ViewUpdate>): int
    decreases |us|
  {
    if us == [] then shown else ShownFrom(AfterUpdate(shown, us[0]), us[1..])
  }

  /** The number of tag items the collection view believes it holds after the log `us`. */
  function ShownCount(us: seq<ViewUpdate>): int {
    ShownFrom(0, us)
  }

  /** Replaying one more update is applying it to the replay so far. */
  lemma {:induction false} ShownFromAppend(shown: int, us: seq<ViewUpdate>, u: ViewUpdate)
    ensures ShownFrom(shown, us + [u]) == AfterUpdate(ShownFrom(shown, us), u)
    decreases |us|
  {
    if us == [] {
      assert us + [u] == [u];
    } else {
      assert (us + [u])[1..] == us[1..] + [u];
      ShownFromAppend(AfterUpdate(shown, us[0]), us[1..], u);
    }
  }

  /**
   * Assigning a new tag array without a reload, as the `options` setter does,
   * leaves the collection view out of step with it: here it holds one tag, is
   * given two, and the following `addOption` asks it to insert a third item
   * while it counts only two.
   */
  lemma AssignWithoutReloadDesyncs()
    ensures var before := ["a"];
            var replaced := ["x", "y"];
            var us := [InsertItem(IndexPath(0, 0))];
            var afterAdd := us + [InsertItem(IndexPath(0, |replaced|))];
            && ShownCount(us) == |before|
            && ShownCount(us) != |replaced|
            && ShownCount(afterAdd) == 2
            && ShownCount(afterAdd) != |replaced + ["z"]|
  {
    var us := [InsertItem(IndexPath(0, 0))];
    ShownFromAppend(0, us, InsertItem(IndexPath(0, 2)));
  }

  /**
   * The controller (`SearchBarCollectionView`). `frame` is the collection view's
   * frame, which the facade reassigns; `updates` and `sent` record, oldest
   * first, what it asked of the collection view and of its delegate.
   */
  class SearchBarCollectionView {
    var options: seq<string>
    var cachedTitle: Option<string>
    var frame: Rect
    var updates: seq<ViewUpdate>
    var sent: seq<ListEvent>

    /** The collection view's item count for section 0 matches the tag array. */
    ghost predicate InSync()
      reads this
    {
      ShownCount(updates) == |options|
    }

    constructor (frame: Rect)
      ensures this.frame == frame
      ensures options == [] && cachedTitle == None
      ensures updates == [] && sent == []
      ensures InSync()
    {
      this.frame := frame;
      options := [];
      cachedTitle := None;
      updates := [];
      sent := [];
    }

    /** `options = newValue` as the facade's setter does it: the array is replaced and nothing is reloaded. */
    method AssignOptions(newOptions: seq<string>)
      modifies this`options
      ensures options == newOptions
      ensures old(InSync()) ==> (InSync() <==> |newOptions| == |old(options)|)
    {
      options := newOptions;
    }

    /** Replacing the tag array followed by `reloadData()`: the view re-reads both sections. */
    method ReplaceOptions(newOptions: seq<string>)
      modifies this`options, this`updates
      ensures options == newOptions
      ensures updates == old(updates) + [ReloadData(|newOptions|)]
      ensures InSync()
    {
      options := newOptions;
      updates := updates + [ReloadData(|newOptions|)];
      ShownFromAppend(0, old(updates), ReloadData(|newOptions|));
    }

    /** `addOption`: append the tag and insert exactly one item, at its index, in section 0. */
    method AddOption(option: string)
      modifies this`options, this`updates
      ensures options == old(options) + [option]
      ensures updates == old(updates) + [InsertItem(IndexPath(0, |old(options)|))]
      ensures old(InSync()) ==> InSync()
    {
      options := options + [option];
      var p := IndexPath(0, |options| - 1);
      updates := updates + [InsertItem(p)];
      ShownFromAppend(0, old(updates), InsertItem(p));
    }

    /**
     * `didSelectItemAtIndexPath`: tapping a chip removes its tag and deletes
     * its item; when the deletion settles the delegate is told which tag went
     * and the visible items are reloaded. Tapping the text field does nothing.
     */
    method DidSelectItem(p: IndexPath)
      requires IsIndexPath(options, p)
      modifies this`options, this`updates, this`sent
      ensures p.section == 0 ==>
        && options == RemoveAt(old(options), p.item)
        && updates == old(updates) + [DeleteItem(p), ReloadVisible]
        && sent == old(sent) + [TagRemoved(old(options)[p.item])]
      ensures p.section != 0 ==>
        options == old(options) && updates == old(updates) && sent == old(sent)
      ensures old(InSync()) ==> InSync()
    {
      if p.section == 0 {
        var removed := options[p.item];
        options := RemoveAt(options, p.item);
        updates := updates + [DeleteItem(p)];
        ShownFromAppend(0, old(updates), DeleteItem(p));
        sent := sent + [TagRemoved(removed)];
        ShownFromAppend(0, old(updates) + [DeleteItem(p)], ReloadVisible);
        updates := updates + [ReloadVisible];
      }
    }

    /** `setTitle`: cache the field's text and reload, which brings the view back in step. */
    method SetTitle(title: Option<string>)
      modifies this`cachedTitle, this`updates
      ensures cachedTitle == title
      ensures updates == old(updates) + [ReloadData(|options|)]
      ensures InSync()
      ensures CellAt(options, cachedTitle, IndexPath(1, 0)) == TextFieldCell(title)
    {
      cachedTitle := title;
      updates := updates + [ReloadData(|options|)];
      ShownFromAppend(0, old(updates), ReloadData(|options|));
    }

    /** `textFieldDidChange`: cache the field's text, then tell the delegate. */
    method TextFieldDidChange(text: Option<string>)
      modifies this`cachedTitle, this`sent
      ensures cachedTitle == text
      ensures sent == old(sent) + [FieldChanged(text)]
      ensures CellAt(options, cachedTitle, IndexPath(1, 0)) == TextFieldCell(text)
    {
      cachedTitle := text;
      sent := sent + [FieldChanged(text)];
    }
  }

  /**
   * The same scenario through the controller's own methods: one tag is added,
   * two are assigned over it, and a third is added; the view then counts two
   * tag items while the controller holds three tags.
   */
  method AssignThenAddScenario() returns (l: SearchBarCollectionView)
    ensures l.options == ["x", "y", "z"]
    ensures ShownCount(l.updates) == 2
    ensures !l.InSync()
  {
    l := new SearchBarCollectionView(Rect(0.0, 0.0, 100.0, 30.0));
    l.AddOption("a");
    assert l.InSync();
    l.AssignOptions(["x", "y"]);
    assert !l.InSync();
    l.AddOption("z");
    ShownFromAppend(0, l.updates[..1], l.updates[1]);
    assert l.updates[..1] + [l.updates[1]] == l.updates;
    ShownFromAppend(0, [], l.updates[0]);
  }
}
